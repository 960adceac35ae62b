/**
 What the database is sent for a query that passed: validator, rewrite and driver
 composed.
 */
module TenantBinding {
  import opened Wrappers
  import opened SqlPlaceholders
  import PlaceholderForms
  import opened QueryExecution
  import V = SqlValidator
  import PythonText

  const TENANT := "tenant_id"

  /** The executor binds this one name; `value` is the tenant rendered as SQL text. */
  function TenantOnly(value: string): Binding {
    name => if name == TENANT then Some(value) else None
  }

  /** What the statement becomes for this value. */
  function Sent(sql: string, value: string): Expansion {
    Expand(Pyformat(sql), TenantOnly(value))
  }

  lemma DoubledNothing(rest: string)
    ensures DoublePercents("") + rest == rest
  {
  }

  lemma DoubledStep(s: string, rest: string)
    requires s != ""
    ensures DoublePercents(s) + rest == (if s[0] == '%' then "%%" else [s[0]]) + (DoublePercents(s[1..]) + rest)
  {
  }

  lemma {:induction false} DoubledComesBack(s: string, rest: string, env: Binding)
    requires Expand(rest, env).Text?
    ensures Expand(DoublePercents(s) + rest, env) == Text(s + Expand(rest, env).text)
    decreases |s|
  {
    hide Expand, DoublePercents;
    if s == "" {
      DoubledNothing(rest);
      assert s + Expand(rest, env).text == Expand(rest, env).text;
    } else {
      DoubledComesBack(s[1..], rest, env);
      ExpandChar(s[0], DoublePercents(s[1..]) + rest, env);
      DoubledStep(s, rest);
      assert [s[0]] + (s[1..] + Expand(rest, env).text) == s + Expand(rest, env).text;
    }
  }

  /** A filter in the open is filled with the tenant, and nothing else changes. */
  lemma FilterIsFilled(a: string, b: string, value: string)
    requires PlaceholderForms.Quoteless(a) && PlaceholderForms.Quoteless(b) && ':' !in a && ':' !in b
    requires b == "" || !PlaceholderForms.NameChar(b[0])
    ensures Sent(a + (":tenant_id" + b), value) == Text(a + (value + b))
  {
    var env := TenantOnly(value);
    var rest := "%(" + "tenant_id" + ")s" + DoublePercents(b);
    TenantIsName();
    assert ":" + "tenant_id" == ":tenant_id" && env("tenant_id") == Some(value);
    hide *;
    PlaceholderForms.OnlyPercentsDouble(a);
    PlaceholderForms.OnlyPercentsDouble(b);
    NoColonAtEnd(a);
    PlaceholderForms.PlaceholderIsRewritten(a, "tenant_id", b);
    DoubledAlone(b, env);
    ParameterFilled(DoublePercents(b), env, value, b);
    DoubledComesBack(a, rest, env);
    SentIs(a + (":tenant_id" + b), value);
  }

  lemma TenantIsName()
    ensures PlaceholderForms.IsName("tenant_id") && forall k :: 0 <= k < |"tenant_id"| ==> IsNameChar("tenant_id"[k])
  {
  }

  lemma NoColonAtEnd(a: string)
    requires ':' !in a
    ensures !PlaceholderForms.EndsInColon(a)
  {
  }

  lemma SentIs(sql: string, value: string)
    ensures Sent(sql, value) == Expand(Pyformat(sql), TenantOnly(value))
  {
  }

  lemma DoubledAlone(b: string, env: Binding)
    ensures Expand(DoublePercents(b), env) == Text(b)
  {
    DoubledComesBack(b, "", env);
    assert DoublePercents(b) + "" == DoublePercents(b) && b + "" == b;
  }

  lemma ParameterFilled(rest: string, env: Binding, value: string, b: string)
    requires Expand(rest, env) == Text(b) && env("tenant_id") == Some(value)
    ensures Expand("%(" + "tenant_id" + ")s" + rest, env) == Text(value + b)
  {
    TenantIsName();
    hide Expand, IsNameChar;
    ExpandParameter("tenant_id", rest, env);
  }

  /* ---------- when the statement depends on the tenant ---------- */

  /** The name of the placeholder at `i`. */
  function NameAt(s: string, i: nat): string
    requires i < |s|
  {
    s[i + 1..i + 1 + NameRun(s[i + 1..])]
  }

  /** Every placeholder from `i` on is `:tenant_id`. */
  predicate OnlyTenantFrom(s: string, quoted: nat -> bool, i: nat) {
    forall k :: i <= k < |s| && PlaceholderAt(s, quoted, k) ==> NameAt(s, k) == TENANT
  }

  predicate HoldsPlaceholderFrom(s: string, quoted: nat -> bool, i: nat) {
    exists k :: i <= k < |s| && PlaceholderAt(s, quoted, k)
  }

  predicate OnlyTenant(sql: string) { OnlyTenantFrom(sql, QuotedIn(sql), 0) }

  predicate HoldsPlaceholder(sql: string) { HoldsPlaceholderFrom(sql, QuotedIn(sql), 0) }

  /** A name holds no colon. */
  lemma NoneInsideName(s: string, quoted: nat -> bool, i: nat, k: nat)
    requires i < |s| && i < k < i + 1 + NameRun(s[i + 1..])
    ensures !PlaceholderAt(s, quoted, k)
  {
    assert s[k] == s[i + 1..][k - i - 1];
    assert IsNameChar(s[k]);
  }

  lemma NamesHoldNoPlaceholder(s: string, quoted: nat -> bool, i: nat)
    requires i < |s| && PlaceholderAt(s, quoted, i)
    ensures var next := i + 1 + NameRun(s[i + 1..]);
            && next <= |s|
            && (OnlyTenantFrom(s, quoted, i) <==> NameAt(s, i) == TENANT && OnlyTenantFrom(s, quoted, next))
            && HoldsPlaceholderFrom(s, quoted, i)
  {
    var next := i + 1 + NameRun(s[i + 1..]);
    hide PlaceholderAt, NameRun, NameAt;
    forall k | i < k < next ensures !PlaceholderAt(s, quoted, k) {
      NoneInsideName(s, quoted, i, k);
    }
  }

  lemma StepHoldsSame(s: string, quoted: nat -> bool, i: nat)
    requires i < |s| && !PlaceholderAt(s, quoted, i)
    ensures OnlyTenantFrom(s, quoted, i) <==> OnlyTenantFrom(s, quoted, i + 1)
    ensures HoldsPlaceholderFrom(s, quoted, i) <==> HoldsPlaceholderFrom(s, quoted, i + 1)
  {
    hide PlaceholderAt, NameAt;
  }

  /** Two expansions that are both text or both the same failure, and differ when told to. */
  predicate Told(a: Expansion, b: Expansion, v: string, w: string, text: bool, apart: bool) {
    && (a.Text? <==> text) && (b.Text? <==> text)
    && (a != b <==> text && apart)
    && (text ==> (|v| >= |w| ==> |a.text| >= |b.text|) && (|w| >= |v| ==> |b.text| >= |a.text|))
  }

  lemma ToldAfterName(a: Expansion, b: Expansion, v: string, w: string, name: string, text: bool, apart: bool)
    requires Told(a, b, v, w, text, apart) && v != w
    ensures Told(Bind(TenantOnly(v), name, a), Bind(TenantOnly(w), name, b), v, w, name == TENANT && text, true)
  {
    if name == TENANT && text {
      if |v| == |w| {
        assert (v + a.text)[..|v|] == v && (w + b.text)[..|w|] == w;
      }
    }
  }

  lemma ToldAfterChar(a: Expansion, b: Expansion, v: string, w: string, c: char, text: bool, apart: bool)
    requires Told(a, b, v, w, text, apart)
    ensures Told(Prepend([c], a), Prepend([c], b), v, w, text, apart)
  {
    if text {
      assert ([c] + a.text)[1..] == a.text && ([c] + b.text)[1..] == b.text;
    }
  }

  lemma ReplacedName(s: string, quoted: nat -> bool, i: nat, env: Binding)
    requires i < |s| && PlaceholderAt(s, quoted, i)
    ensures ReplaceFrom(s, quoted, i, env) ==
            Bind(env, NameAt(s, i), ReplaceFrom(s, quoted, i + 1 + NameRun(s[i + 1..]), env))
  {
    hide NameRun;
  }

  lemma ReplacedChar(s: string, quoted: nat -> bool, i: nat, env: Binding)
    requires i < |s| && !PlaceholderAt(s, quoted, i)
    ensures ReplaceFrom(s, quoted, i, env) == Prepend([s[i]], ReplaceFrom(s, quoted, i + 1, env))
  {
  }

  lemma NothingTold(s: string, quoted: nat -> bool, v: string, w: string)
    ensures Told(ReplaceFrom(s, quoted, |s|, TenantOnly(v)), ReplaceFrom(s, quoted, |s|, TenantOnly(w)), v, w,
                 OnlyTenantFrom(s, quoted, |s|), HoldsPlaceholderFrom(s, quoted, |s|))
  {
  }

  lemma {:induction false} ReplaceTellsApart(s: string, quoted: nat -> bool, i: nat, v: string, w: string)
    requires i <= |s| && v != w
    ensures Told(ReplaceFrom(s, quoted, i, TenantOnly(v)), ReplaceFrom(s, quoted, i, TenantOnly(w)), v, w,
                 OnlyTenantFrom(s, quoted, i), HoldsPlaceholderFrom(s, quoted, i))
    decreases |s| - i
  {
    hide *;
    var a, b := TenantOnly(v), TenantOnly(w);
    if i == |s| {
      NothingTold(s, quoted, v, w);
    } else if PlaceholderAt(s, quoted, i) {
      NamesHoldNoPlaceholder(s, quoted, i);
      var next := i + 1 + NameRun(s[i + 1..]);
      ReplaceTellsApart(s, quoted, next, v, w);
      ReplacedName(s, quoted, i, a);
      ReplacedName(s, quoted, i, b);
      ToldAfterName(ReplaceFrom(s, quoted, next, a), ReplaceFrom(s, quoted, next, b), v, w, NameAt(s, i),
                    OnlyTenantFrom(s, quoted, next), HoldsPlaceholderFrom(s, quoted, next));
    } else {
      StepHoldsSame(s, quoted, i);
      ReplaceTellsApart(s, quoted, i + 1, v, w);
      ReplacedChar(s, quoted, i, a);
      ReplacedChar(s, quoted, i, b);
      ToldAfterChar(ReplaceFrom(s, quoted, i + 1, a), ReplaceFrom(s, quoted, i + 1, b), v, w, s[i],
                    OnlyTenantFrom(s, quoted, i + 1), HoldsPlaceholderFrom(s, quoted, i + 1));
    }
  }

  /** For every text: the driver has a statement to send exactly when every placeholder
      outside the literals is `:tenant_id`, and two tenants never have the same statement
      exactly when there is such a placeholder too. */
  lemma TenantIsBoundExactlyWhen(sql: string, v: string, w: string)
    requires v != w
    ensures Sent(sql, v).Text? <==> OnlyTenant(sql)
    ensures Sent(sql, v) != Sent(sql, w) <==> OnlyTenant(sql) && HoldsPlaceholder(sql)
  {
    PyformatMeansReplacement(sql, TenantOnly(v));
    PyformatMeansReplacement(sql, TenantOnly(w));
    ReplaceTellsApart(sql, QuotedIn(sql), 0, v, w);
    hide ReplaceFrom, Expand, Pyformat, OnlyTenantFrom, HoldsPlaceholderFrom, TenantOnly;
  }

  /* ---------- a filter in the open is a placeholder ---------- */

  /** A bound name that may be `tenant_id`, with something other than a colon before it. */
  predicate BoundAt(s: string, k: nat) {
    1 <= k && k + 1 < |s| && (s[k] == ':' || s[k] == '$') && s[k - 1] != ':' && PythonText.Lower(s[k + 1]) == 't'
  }

  lemma {:induction false} SpacesThenBound(p: V.Pattern, afterWord: bool, s: string) returns (k: nat)
    requires |p| >= 3 && p[..2] == [V.Spaces, V.ColonOrDollar] && p[2] == V.Lit('t') && V.MatchesAt(p, afterWord, s)
    ensures k + 1 < |s| && (s[k] == ':' || s[k] == '$') && PythonText.Lower(s[k + 1]) == 't'
    ensures forall j :: 0 <= j < k ==> PythonText.IsSpace(s[j])
    decreases |s|
  {
    assert p[1..][0] == p[1] && p[1..][1..][0] == p[2];
    if V.MatchesAt(p[1..], afterWord, s) {
      assert V.MatchesAt(p[1..][1..], false, s[1..]);
      k := 0;
    } else {
      k := SpacesThenBound(p, false, s[1..]);
      k := k + 1;
    }
  }

  lemma {:induction false} EqualsThenBound(p: V.Pattern, afterWord: bool, s: string) returns (k: nat)
    requires |p| >= 5 && p[..4] == [V.Spaces, V.Lit('='), V.Spaces, V.ColonOrDollar] && p[4] == V.Lit('t')
    requires V.MatchesAt(p, afterWord, s)
    ensures BoundAt(s, k)
    decreases |s|
  {
    var q, bound := p[1..], p[2..];
    assert q[1..] == bound && bound[..2] == p[2..4] && bound[2] == p[4] && q[0] == p[1] && p[0] == V.Spaces;
    if V.MatchesAt(q, afterWord, s) {
      k := SpacesThenBound(bound, false, s[1..]);
      assert k > 0 ==> PythonText.IsSpace(s[1..][k - 1]);
      k := k + 1;
    } else {
      k := EqualsThenBound(p, false, s[1..]);
      k := k + 1;
    }
  }

  /** What follows a literal piece of a pattern matches behind it. */
  lemma {:induction false} AfterLiteral(w: string, p: V.Pattern, afterWord: bool, s: string) returns (word: bool)
    requires V.MatchesAt(V.Literal(w) + p, afterWord, s)
    ensures |w| <= |s| && V.MatchesAt(p, word, s[|w|..])
    decreases |w|
  {
    if w == "" {
      assert V.Literal(w) + p == p && s[0..] == s;
      word := afterWord;
    } else {
      assert (V.Literal(w) + p)[1..] == V.Literal(w[1..]) + p;
      word := AfterLiteral(w[1..], p, PythonText.IsWord(s[0]), s[1..]);
      assert s[1..][|w| - 1..] == s[|w|..];
    }
  }

  lemma FilterShape() returns (p: V.Pattern)
    ensures V.TENANT_FILTER == V.Literal("tenant_id") + p && |"tenant_id"| == 9
    ensures |p| >= 5 && p[..4] == [V.Spaces, V.Lit('='), V.Spaces, V.ColonOrDollar] && p[4] == V.Lit('t')
  {
    var name := V.Literal("tenant_id");
    assert |"tenant_id"| == 9 && name[0] == V.Lit('t');
    p := [V.Spaces] + ([V.Lit('=')] + ([V.Spaces] + ([V.ColonOrDollar] + name)));
    hide V.Literal;
    assert p[..4] == [V.Spaces, V.Lit('='), V.Spaces, V.ColonOrDollar] && p[4] == name[0];
  }

  lemma FilterHere(afterWord: bool, s: string) returns (k: nat)
    requires V.MatchesAt(V.TENANT_FILTER, afterWord, s)
    ensures BoundAt(s, k)
  {
    hide V.MatchesAt, V.Literal, V.TENANT_FILTER, PythonText.Lower;
    var p := FilterShape();
    var word := AfterLiteral("tenant_id", p, afterWord, s);
    k := EqualsThenBound(p, word, s[9..]);
    k := k + 9;
  }

  lemma {:induction false} FilterIsBoundSomewhere(afterWord: bool, s: string) returns (k: nat)
    requires V.Search(V.TENANT_FILTER, afterWord, s)
    ensures BoundAt(s, k)
    decreases |s|
  {
    hide V.MatchesAt;
    if V.MatchesAt(V.TENANT_FILTER, afterWord, s) {
      k := FilterHere(afterWord, s);
    } else {
      k := FilterIsBoundSomewhere(PythonText.IsWord(s[0]), s[1..]);
      k := k + 1;
    }
  }

  lemma {:induction false} NoQuoteNoLiteral(s: string, from: nat)
    requires from <= |s| && forall k :: from <= k < |s| ==> s[k] != '\''
    ensures NextLiteral(s, from) == None
    decreases |s| - from
  {
    if from < |s| {
      NoQuoteNoLiteral(s, from + 1);
    }
  }

  lemma PassingIsFiltered(sql: string)
    ensures V.ReportOf(sql).CanExecute() ==> V.Found(V.TENANT_FILTER, sql)
  {
    hide V.Errors, V.Warnings, V.Sanitize, V.Found, V.MatchesAt, V.Literal;
  }

  lemma ColonIsPlaceholder(s: string, k: nat)
    requires BoundAt(s, k) && '\'' !in s && '$' !in s
    ensures HoldsPlaceholder(s)
  {
    NoQuoteNoLiteral(s, 0);
    assert PlaceholderAt(s, QuotedIn(s), k);
  }

  /** The executed text of a passing query without quotes and dollar signs names the tenant:
      if the driver can send it at all, no two tenants have the same statement. */
  lemma PassingTextBindsTheTenant(raw: string, v: string, w: string)
    requires v != w
    ensures var text := V.ReportOf(raw).sanitizedSql;
            V.ReportOf(raw).CanExecute() && '\'' !in text && '$' !in text ==>
              HoldsPlaceholder(text) && (Sent(text, v).Text? <==> Sent(text, v) != Sent(text, w))
  {
    hide V.ReportOf, V.Search, V.MatchesAt, V.Literal, Sent, OnlyTenant, HoldsPlaceholder, BoundAt;
    var text := V.ReportOf(raw).sanitizedSql;
    if V.ReportOf(raw).CanExecute() && '\'' !in text && '$' !in text {
      V.ExecutedTextPasses(raw);
      PassingIsFiltered(text);
      var k := FilterIsBoundSomewhere(false, text);
      ColonIsPlaceholder(text, k);
      TenantIsBoundExactlyWhen(text, v, w);
    }
  }

  /* ---------- a filter inside a literal is not ---------- */

  lemma {:induction false} LiteralCloses(s: string, j: nat, fallback: Option<nat>)
    requires j < |s| && s[|s| - 1] == '\'' && forall k :: j <= k < |s| - 1 ==> s[k] != '\''
    requires fallback.Some? ==> fallback.value <= |s|
    ensures BodyEnd(s, j, fallback) == Some(|s|)
    decreases |s| - j
  {
    if j < |s| - 1 {
      LiteralCloses(s, j + 1, fallback);
    }
  }

  lemma {:induction false} LiteralOpens(s: string, from: nat, i: nat)
    requires from <= i < |s| && LiteralEnd(s, i).Some? && forall k :: from <= k < i ==> s[k] != '\''
    ensures NextLiteral(s, from) == Some((i, LiteralEnd(s, i).value))
    decreases i - from
  {
    if from < i {
      LiteralOpens(s, from + 1, i);
    }
  }

  /** A text that ends in its only literal, with no colon before it, has no placeholder. */
  lemma LiteralHoldsNoPlaceholder(a: string, body: string)
    requires '\'' !in a && '\'' !in body && ':' !in a
    ensures !HoldsPlaceholder(a + "'" + body + "'") && OnlyTenant(a + "'" + body + "'")
  {
    var s := a + "'" + body + "'";
    assert forall k :: 0 <= k < |a| ==> s[k] == a[k];
    assert forall k :: |a| < k < |s| - 1 ==> s[k] == body[k - |a| - 1];
    LiteralCloses(s, |a| + 1, None);
    LiteralOpens(s, 0, |a|);
    assert forall k :: |a| <= k < |s| ==> QuotedFrom(s, 0, k);
  }

  lemma {:induction false} NothingToReplace(s: string, quoted: nat -> bool, i: nat, env: Binding)
    requires i <= |s| && !HoldsPlaceholderFrom(s, quoted, i)
    ensures ReplaceFrom(s, quoted, i, env) == Text(s[i..])
    decreases |s| - i
  {
    if i < |s| {
      NothingToReplace(s, quoted, i + 1, env);
      assert s[i..] == [s[i]] + s[i + 1..];
    }
  }

  lemma UnboundIsSentAsItIs(sql: string, value: string)
    requires !HoldsPlaceholder(sql)
    ensures Sent(sql, value) == Text(sql)
  {
    PyformatMeansReplacement(sql, TenantOnly(value));
    NothingToReplace(sql, QuotedIn(sql), 0, TenantOnly(value));
    assert sql[0..] == sql;
  }

  /** The database behind `PostgreSQLExecutor`, with the tenant rendered as SQL text. */
  function PostgresDriver(database: string -> DriverOutcome, render: string -> string): Driver {
    (sql: string, tenant: string) =>
      match Sent(sql, render(tenant))
      case Text(statement) => database(statement)
      case MissingParameter(name) => DriverError(name)
      case MalformedDirective => DriverError("")
  }

  const QUOTED_QUERY := "SELECT 'tenant_id=:tenant_id'"

  lemma QuotedHasNoSuchPair(i: nat)
    requires i + 1 < |QUOTED_QUERY|
    ensures !V.AbsentPair(PythonText.Lower(QUOTED_QUERY[i]), PythonText.Lower(QUOTED_QUERY[i + 1]))
    ensures QUOTED_QUERY[i] != ';'
  {
  }

  lemma QuotedQueryPasses()
    ensures V.ReportOf(QUOTED_QUERY).CanExecute()
  {
    assert QUOTED_QUERY == V.Filtered("SELECT '", "'") && !PythonText.IsWord('\'') && |"SELECT '"| == 8;
    assert "SELECT " <= "SELECT '" && "SELECT '"[7] == '\'';
    assert |QUOTED_QUERY| == 29 && QUOTED_QUERY[28] == '\'';
    hide *;
    forall i | 0 <= i < |QUOTED_QUERY| - 1
      ensures !V.AbsentPair(PythonText.Lower(QUOTED_QUERY[i]), PythonText.Lower(QUOTED_QUERY[i + 1]))
      ensures QUOTED_QUERY[i] != ';'
    {
      QuotedHasNoSuchPair(i);
    }
    V.PairFreeIntro(QUOTED_QUERY);
    V.PairFreeQueryPasses("SELECT '", "'");
  }

  lemma QuotedSpaces(i: nat)
    requires i < |QUOTED_QUERY|
    ensures PythonText.IsSpace(QUOTED_QUERY[i]) <==> i == 6
    ensures QUOTED_QUERY[i] != ';'
  {
  }

  lemma QuotedQueryIsTidy()
    ensures V.Sanitize(QUOTED_QUERY) == QUOTED_QUERY
  {
    assert |QUOTED_QUERY| == 29 && QUOTED_QUERY[6] == ' ';
    hide *;
    forall i | 0 <= i < |QUOTED_QUERY|
      ensures (PythonText.IsSpace(QUOTED_QUERY[i]) <==> i == 6) && QUOTED_QUERY[i] != ';'
    {
      QuotedSpaces(i);
    }
    TidyIntro(QUOTED_QUERY);
  }

  lemma TidyIntro(s: string)
    requires |s| > 7 && s[6] == ' ' && ';' !in s
    requires forall i :: 0 <= i < |s| ==> (PythonText.IsSpace(s[i]) <==> i == 6)
    ensures V.Sanitize(s) == s
  {
    V.TidyStays(s);
  }

  lemma QuotedQueryHoldsNoPlaceholder()
    ensures !HoldsPlaceholder(QUOTED_QUERY)
  {
    var a, body := "SELECT ", "tenant_id=:tenant_id";
    assert QUOTED_QUERY == a + "'" + body + "'";
    hide HoldsPlaceholder, OnlyTenant;
    LiteralHoldsNoPlaceholder(a, body);
  }

  lemma PassingIsSanitized(sql: string)
    ensures V.ReportOf(sql).CanExecute() ==> V.ReportOf(sql).sanitizedSql == V.Sanitize(sql)
  {
    hide V.Errors, V.Warnings, V.Sanitize, V.Found, V.MatchesAt, V.Literal;
  }

  /** The filter may stand inside a literal. Then the query passes and is executed as it is,
      for every tenant the same. */
  lemma PassingTextCanIgnoreTheTenant(database: string -> DriverOutcome, render: string -> string, tenant: string)
    ensures var report := V.ReportOf(QUOTED_QUERY);
            && report.CanExecute() && report.sanitizedSql == QUOTED_QUERY
            && PostgresDriver(database, render)(QUOTED_QUERY, tenant) == database(QUOTED_QUERY)
  {
    QuotedQueryPasses();
    PassingIsSanitized(QUOTED_QUERY);
    QuotedQueryIsTidy();
    QuotedQueryHoldsNoPlaceholder();
    hide V.ReportOf, V.Sanitize, Sent, HoldsPlaceholder;
    UnboundIsSentAsItIs(QUOTED_QUERY, render(tenant));
  }
}
