/**
 `to_pyformat` (src/infrastructure/erp/query_executor.py) and what a driver with the
 pyformat paramstyle of PEP 249 makes of its result.
 */
module SqlPlaceholders {
  import opened PythonText
  import opened Wrappers

  /* ---------- character classes of the two regular expressions ---------- */

  // Both expressions name only ASCII characters, so the model is exact for every string.

  predicate IsNameStart(c: char) {
    'a' <= c <= 'z' || 'A' <= c <= 'Z' || c == '_'
  }

  predicate IsNameChar(c: char) {
    IsNameStart(c) || '0' <= c <= '9'
  }

  /* ---------- quoted literals: '(?:[^']|'')*' with backtracking ---------- */

  /** Runs the literal's body from `j`. A lone quote closes the literal. When the
      text ends first, the regular expression backs up to the last doubled quote
      and closes there; `fallback` is that position, if one was passed. */
  function BodyEnd(s: string, j: nat, fallback: Option<nat>): (end: Option<nat>)
    requires j <= |s|
    requires fallback.Some? ==> fallback.value <= |s|
    ensures end.Some? ==> end.value <= |s| && (end == fallback || j < end.value)
    decreases |s| - j
  {
    if j == |s| then fallback
    else if s[j] != '\'' then BodyEnd(s, j + 1, fallback)
    else if j + 1 < |s| && s[j + 1] == '\'' then BodyEnd(s, j + 2, Some(j + 1))
    else Some(j + 1)
  }

  /** Where the literal that opens at `i` ends (exclusive), if one matches there. */
  function LiteralEnd(s: string, i: nat): (end: Option<nat>)
    requires i < |s|
    ensures end.Some? ==> i + 1 < end.value <= |s|
  {
    if s[i] == '\'' then BodyEnd(s, i + 1, None) else None
  }

  /** The first match at or after `from`, as `finditer` reports it. */
  function NextLiteral(s: string, from: nat): (m: Option<(nat, nat)>)
    requires from <= |s|
    ensures m.Some? ==> from <= m.value.0 < |s| && m.value.0 + 1 < m.value.1 <= |s|
    ensures m.Some? ==> LiteralEnd(s, m.value.0) == Some(m.value.1)
    decreases |s| - from
  {
    if from == |s| then None
    else
      var e := LiteralEnd(s, from);
      if e.Some? then Some((from, e.value)) else NextLiteral(s, from + 1)
  }

  /* ---------- a declarative account of the literals ---------- */

  /** A literal body: every quote in it is doubled. */
  predicate IsBody(b: string) {
    b == "" ||
    (b[0] != '\'' && IsBody(b[1..])) ||
    (|b| >= 2 && b[0] == '\'' && b[1] == '\'' && IsBody(b[2..]))
  }

  /** The whole text `t` matches the literal's regular expression. */
  predicate IsLiteral(t: string) {
    |t| >= 2 && t[0] == '\'' && t[|t| - 1] == '\'' && IsBody(t[1..|t| - 1])
  }

  lemma BodyStep(s: string, i: nat, j: nat)
    requires i < j < |s| && s[j] != '\'' && IsBody(s[i + 1..j])
    ensures IsBody(s[i + 1..j + 1])
  {
    BodySnoc(s[i + 1..j], s[j]);
    assert s[i + 1..j] + [s[j]] == s[i + 1..j + 1];
  }

  lemma BodyStepDoubled(s: string, i: nat, j: nat)
    requires i < j && j + 1 < |s| && s[j] == '\'' && s[j + 1] == '\'' && IsBody(s[i + 1..j])
    ensures IsBody(s[i + 1..j + 2]) && !IsLiteral(s[i..j + 2])
  {
    BodyAppend(s[i + 1..j], "''");
    BodyThenQuote(s[i + 1..j]);
    hide IsBody;
    assert s[i + 1..j] + "''" == s[i + 1..j + 2];
    SliceOfSlice(s, i, j + 2, 1, j + 1 - i);
    assert s[i + 1..j + 1] == s[i + 1..j] + "'";
  }

  lemma LiteralStopsAtLoneQuote(s: string, i: nat, j: nat, e: nat)
    requires i < j && j + 1 < e <= |s| && s[j] == '\'' && s[j + 1] != '\'' && IsBody(s[i + 1..j])
    ensures !IsLiteral(s[i..e])
  {
    if e == j + 2 {
      assert s[i..e][|s[i..e]| - 1] == s[j + 1];
    } else if IsLiteral(s[i..e]) {
      SliceOfSlice(s, i, e, 1, e - i - 1);
      assert s[i + 1..e - 1] == s[i + 1..j] + s[j..e - 1];
      BodySplit(s[i + 1..j], s[j..e - 1]);
    }
  }

  /** A closing quote found from a body position closes a literal. */
  lemma {:induction false} BodyEndCloses(s: string, i: nat, j: nat, fallback: Option<nat>)
    requires i < j <= |s| && s[i] == '\'' && IsBody(s[i + 1..j])
    requires fallback.Some? ==> i + 1 < fallback.value <= j && IsLiteral(s[i..fallback.value])
    ensures var end := BodyEnd(s, j, fallback);
            end.Some? ==> i + 1 < end.value <= |s| && IsLiteral(s[i..end.value])
    decreases |s| - j
  {
    hide IsBody, IsLiteral;
    if j == |s| {
    } else if s[j] != '\'' {
      BodyStep(s, i, j);
      BodyEndCloses(s, i, j + 1, fallback);
    } else {
      LiteralAt(s, i, j);
      if j + 1 < |s| && s[j + 1] == '\'' {
        BodyStepDoubled(s, i, j);
        BodyEndCloses(s, i, j + 2, Some(j + 1));
      }
    }
  }

  /** No literal that opens at `i` reaches further than the scan does. */
  lemma {:induction false} BodyEndIsLongest(s: string, i: nat, j: nat, fallback: Option<nat>, e: nat)
    requires i < j <= |s| && s[i] == '\'' && IsBody(s[i + 1..j])
    requires fallback.Some? ==> fallback.value <= j
    requires i + 1 < e <= |s| && IsLiteral(s[i..e])
    requires e <= j ==> fallback.Some? && e <= fallback.value
    ensures var end := BodyEnd(s, j, fallback); end.Some? && e <= end.value
    decreases |s| - j
  {
    if j == |s| {
    } else if s[j] != '\'' {
      BodyStep(s, i, j);
      assert s[i..e][|s[i..e]| - 1] == s[e - 1];
      BodyEndIsLongest(s, i, j + 1, fallback, e);
    } else if j + 1 < |s| && s[j + 1] == '\'' {
      BodyStepDoubled(s, i, j);
      BodyEndIsLongest(s, i, j + 2, Some(j + 1), e);
    } else if e > j + 1 {
      LiteralStopsAtLoneQuote(s, i, j, e);
    }
  }

  lemma SliceOfSlice(s: string, i: nat, j: nat, a: nat, b: nat)
    requires a <= b <= j - i && i <= j <= |s|
    ensures s[i..j][a..b] == s[i + a..i + b]
  {
    var l, r := s[i..j][a..b], s[i + a..i + b];
    assert forall k :: 0 <= k < |l| ==> l[k] == r[k];
  }

  lemma LiteralAt(s: string, i: nat, j: nat)
    requires i < j < |s| && s[i] == '\'' && s[j] == '\'' && IsBody(s[i + 1..j])
    ensures IsLiteral(s[i..j + 1])
  {
    SliceOfSlice(s, i, j + 1, 1, j - i);
  }

  lemma {:induction false} BodyAppend(a: string, b: string)
    requires IsBody(a) && IsBody(b)
    ensures IsBody(a + b)
    decreases |a|
  {
    if a == "" {
      assert a + b == b;
    } else {
      assert (a + b)[1..] == a[1..] + b;
      if a[0] != '\'' {
        BodyAppend(a[1..], b);
      } else {
        assert (a + b)[2..] == a[2..] + b;
        BodyAppend(a[2..], b);
      }
    }
  }

  lemma BodySnoc(a: string, c: char)
    requires IsBody(a) && c != '\''
    ensures IsBody(a + [c])
  {
    assert [c][1..] == "";
    BodyAppend(a, [c]);
  }

  lemma {:induction false} BodyThenQuote(a: string)
    requires IsBody(a)
    ensures !IsBody(a + "'")
    decreases |a|
  {
    var t := a + "'";
    if a == "" {
      assert t == "'";
    } else {
      assert t[1..] == a[1..] + "'";
      if a[0] != '\'' {
        BodyThenQuote(a[1..]);
      } else {
        assert t[2..] == a[2..] + "'";
        BodyThenQuote(a[2..]);
      }
    }
  }

  lemma {:induction false} BodySplit(a: string, b: string)
    requires IsBody(a) && IsBody(a + b)
    ensures IsBody(b)
    decreases |a|
  {
    if a == "" {
      assert a + b == b;
    } else {
      assert (a + b)[1..] == a[1..] + b;
      if a[0] != '\'' {
        BodySplit(a[1..], b);
      } else {
        assert (a + b)[2..] == a[2..] + b;
        BodySplit(a[2..], b);
      }
    }
  }

  /** The backtracking scan finds a literal exactly when the declarative reading
      does, and takes the longest one. */
  lemma LiteralEndIsLongest(s: string, i: nat)
    requires i < |s|
    ensures LiteralEnd(s, i).Some? <==> exists e: nat :: i < e <= |s| && IsLiteral(s[i..e])
    ensures LiteralEnd(s, i).Some? ==>
              && IsLiteral(s[i..LiteralEnd(s, i).value])
              && forall e: nat :: i < e <= |s| && IsLiteral(s[i..e]) ==> e <= LiteralEnd(s, i).value
  {
    if s[i] == '\'' {
      assert s[i + 1..i + 1] == "";
      BodyEndCloses(s, i, i + 1, None);
      forall e: nat | i < e <= |s| && IsLiteral(s[i..e])
        ensures LiteralEnd(s, i).Some? && e <= LiteralEnd(s, i).value
      {
        BodyEndIsLongest(s, i, i + 1, None, e);
      }
    } else {
      forall e: nat | i < e <= |s| ensures !IsLiteral(s[i..e]) {
        assert s[i..e][0] == s[i];
      }
    }
  }

  /** Position `i` lies inside one of the literals found scanning from `from`. */
  predicate QuotedFrom(s: string, from: nat, i: nat)
    requires from <= |s|
    decreases |s| - from
  {
    var m := NextLiteral(s, from);
    m.Some? && m.value.0 <= i && (i < m.value.1 || QuotedFrom(s, m.value.1, i))
  }

  /** Which positions of `sql` lie inside a literal. */
  function QuotedIn(sql: string): nat -> bool {
    (i: nat) => QuotedFrom(sql, 0, i)
  }

  /* ---------- the rewrite ---------- */

  /** `str.replace("%", "%%")` */
  function DoublePercents(s: string): string {
    if s == "" then ""
    else (if s[0] == '%' then "%%" else [s[0]]) + DoublePercents(s[1..])
  }

  /** Length of the longest run of name characters at the front. */
  function NameRun(s: string): (n: nat)
    ensures n <= |s|
    ensures forall k :: 0 <= k < n ==> IsNameChar(s[k])
    ensures n < |s| ==> !IsNameChar(s[n])
  {
    if s == "" || !IsNameChar(s[0]) then 0 else 1 + NameRun(s[1..])
  }

  /** A match of `(?<!:):([a-zA-Z_][a-zA-Z0-9_]*)` at the front, given whether the
      character before is a colon. */
  predicate NameHere(afterColon: bool, s: string) {
    !afterColon && |s| >= 2 && s[0] == ':' && IsNameStart(s[1])
  }

  /** `_NAMED_PARAM_RE.sub(r"%(\1)s", s)` */
  function SubstituteNames(afterColon: bool, s: string): string
    decreases |s|
  {
    if s == "" then ""
    else if NameHere(afterColon, s) then
      var n := NameRun(s[1..]);
      "%(" + s[1..1 + n] + ")s" + SubstituteNames(false, s[1 + n..])
    else [s[0]] + SubstituteNames(s[0] == ':', s[1..])
  }

  /** What is written for the code between two literals. */
  function RewriteCode(s: string): string {
    SubstituteNames(false, DoublePercents(s))
  }

  function RewriteFrom(s: string, last: nat): string
    requires last <= |s|
    decreases |s| - last
  {
    var m := NextLiteral(s, last);
    if m.None? then RewriteCode(s[last..])
    else
      RewriteCode(s[last..m.value.0]) + DoublePercents(s[m.value.0..m.value.1]) +
      RewriteFrom(s, m.value.1)
  }

  function Pyformat(sql: string): string {
    RewriteFrom(sql, 0)
  }

  lemma RewriteFromUnfold(s: string, last: nat)
    requires last <= |s| && NextLiteral(s, last).Some?
    ensures var (start, end) := NextLiteral(s, last).value;
            RewriteFrom(s, last) ==
            RewriteCode(s[last..start]) + (DoublePercents(s[start..end]) + RewriteFrom(s, end))
  {
  }

  /** The loop of `to_pyformat`: one pass over the literals, collecting pieces. */
  method ToPyformat(sql: string) returns (text: string)
    ensures text == Pyformat(sql)
  {
    hide DoublePercents, RewriteCode, NextLiteral;
    var out: seq<string> := [];
    var last := 0;
    var match_ := NextLiteral(sql, 0);
    while match_.Some?
      invariant 0 <= last <= |sql|
      invariant match_ == NextLiteral(sql, last)
      invariant Concat(out) + RewriteFrom(sql, last) == Pyformat(sql)
      decreases |sql| - last
    {
      var (start, end) := match_.value;
      RewriteFromUnfold(sql, last);
      ConcatSnoc(out, RewriteCode(sql[last..start]));
      out := out + [RewriteCode(sql[last..start])];
      ConcatSnoc(out, DoublePercents(sql[start..end]));
      out := out + [DoublePercents(sql[start..end])];
      last := end;
      match_ := NextLiteral(sql, last);
    }
    ConcatSnoc(out, RewriteCode(sql[last..]));
    out := out + [RewriteCode(sql[last..])];
    text := Concat(out);
  }

  /* ---------- what the driver does with it ---------- */

  datatype Expansion = Text(text: string) | MissingParameter(name: string) | MalformedDirective

  /** The values a caller binds, already rendered as SQL text. */
  type Binding = string -> Option<string>

  function Prepend(s: string, e: Expansion): Expansion {
    match e
    case Text(t) => Text(s + t)
    case _ => e
  }

  /** Writes the value of `name`, or stops at the first unbound name. */
  function Bind(env: Binding, name: string, rest: Expansion): Expansion {
    match env(name)
    case Some(v) => Prepend(v, rest)
    case None => MissingParameter(name)
  }

  function CloseParen(s: string): (n: Option<nat>)
    ensures n.Some? ==> n.value < |s| && s[n.value] == ')'
    ensures n.Some? ==> forall k :: 0 <= k < n.value ==> s[k] != ')'
  {
    if s == "" then None
    else if s[0] == ')' then Some(0)
    else
      var n := CloseParen(s[1..]);
      if n.Some? then Some(n.value + 1) else None
  }

  /** pyformat expansion: `%%` is a percent sign, `%(name)s` is a parameter, and
      any other use of `%` is malformed. */
  function Expand(t: string, env: Binding): Expansion
    decreases |t|
  {
    if t == "" then Text("")
    else if t[0] != '%' then Prepend([t[0]], Expand(t[1..], env))
    else if |t| == 1 then MalformedDirective
    else if t[1] == '%' then Prepend("%", Expand(t[2..], env))
    else if t[1] != '(' then MalformedDirective
    else
      var n := CloseParen(t[2..]);
      if n.None? || 3 + n.value >= |t| || t[3 + n.value] != 's' then MalformedDirective
      else Bind(env, t[2..2 + n.value], Expand(t[4 + n.value..], env))
  }

  /* ---------- the reference: replace the placeholders in place ---------- */

  /** Position `i` starts a placeholder: a colon outside the literals, not after
      another colon, followed by a name. */
  predicate PlaceholderAt(s: string, quoted: nat -> bool, i: nat) {
    && i + 1 < |s| && s[i] == ':' && IsNameStart(s[i + 1])
    && (i == 0 || s[i - 1] != ':')
    && !quoted(i)
  }

  function ReplaceFrom(s: string, quoted: nat -> bool, i: nat, env: Binding): Expansion
    requires i <= |s|
    decreases |s| - i
  {
    if i == |s| then Text("")
    else if PlaceholderAt(s, quoted, i) then
      var n := NameRun(s[i + 1..]);
      Bind(env, s[i + 1..i + 1 + n], ReplaceFrom(s, quoted, i + 1 + n, env))
    else Prepend([s[i]], ReplaceFrom(s, quoted, i + 1, env))
  }

  function ReplacePlaceholders(sql: string, env: Binding): Expansion {
    ReplaceFrom(sql, QuotedIn(sql), 0, env)
  }

  /* ---------- proofs ---------- */

  /** The two passes over a code segment, fused into one. */
  function FusedCode(afterColon: bool, s: string): string
    decreases |s|
  {
    if s == "" then ""
    else if NameHere(afterColon, s) then
      var n := NameRun(s[1..]);
      "%(" + s[1..1 + n] + ")s" + FusedCode(false, s[1 + n..])
    else (if s[0] == '%' then "%%" else [s[0]]) + FusedCode(s[0] == ':', s[1..])
  }

  lemma {:induction false} DoublePercentsSkipsNames(s: string)
    ensures var n := NameRun(s); var d := DoublePercents(s);
            && NameRun(d) == n && d[..n] == s[..n] && d[n..] == DoublePercents(s[n..])
  {
    if s == "" {
    } else if !IsNameChar(s[0]) {
      assert DoublePercents(s)[0] == s[0];
    } else {
      DoublePercentsSkipsNames(s[1..]);
      NameRunCons(s[0], s[1..]);
      NameRunCons(s[0], DoublePercents(s[1..]));
      assert s == [s[0]] + s[1..];
      assert DoublePercents(s) == [s[0]] + DoublePercents(s[1..]);
      hide *;
      SplitsCons(s[0], s[1..], NameRun(s[1..]));
      SplitsCons(s[0], DoublePercents(s[1..]), NameRun(s[1..]));
    }
  }

  lemma SplitsCons(c: char, s: string, n: nat)
    requires n <= |s|
    ensures ([c] + s)[..1 + n] == [c] + s[..n] && ([c] + s)[1 + n..] == s[n..]
  {
  }

  lemma NameRunCons(c: char, s: string)
    requires IsNameChar(c)
    ensures NameRun([c] + s) == 1 + NameRun(s)
  {
    assert ([c] + s)[1..] == s;
  }

  lemma NameHereUnderDoubling(afterColon: bool, s: string)
    requires s != ""
    ensures NameHere(afterColon, DoublePercents(s)) <==> NameHere(afterColon, s)
  {
  }

  lemma DoublePercentsAtName(s: string)
    requires NameHere(false, s)
    ensures var n := NameRun(s[1..]); var d := DoublePercents(s);
            && d[1..] == DoublePercents(s[1..]) && NameRun(d[1..]) == n
            && d[1..1 + n] == s[1..1 + n] && d[1 + n..] == DoublePercents(s[1 + n..])
  {
    var d := DoublePercents(s);
    assert d[1..] == DoublePercents(s[1..]);
    DoublePercentsSkipsNames(s[1..]);
    var n := NameRun(s[1..]);
    assert d[1..1 + n] == d[1..][..n] && s[1..1 + n] == s[1..][..n];
    assert d[1 + n..] == d[1..][n..] && s[1 + n..] == s[1..][n..];
  }

  lemma FuseName(afterColon: bool, s: string)
    requires s != "" && NameHere(afterColon, s)
    requires var tail := s[1 + NameRun(s[1..])..];
             SubstituteNames(false, DoublePercents(tail)) == FusedCode(false, tail)
    ensures SubstituteNames(afterColon, DoublePercents(s)) == FusedCode(afterColon, s)
  {
    hide NameRun, DoublePercents;
    NameHereUnderDoubling(afterColon, s);
    DoublePercentsAtName(s);
  }

  lemma FuseChar(afterColon: bool, s: string)
    requires s != "" && !NameHere(afterColon, s)
    requires SubstituteNames(s[0] == ':', DoublePercents(s[1..])) == FusedCode(s[0] == ':', s[1..])
    ensures SubstituteNames(afterColon, DoublePercents(s)) == FusedCode(afterColon, s)
  {
  }

  lemma {:induction false} FuseCode(afterColon: bool, s: string)
    ensures SubstituteNames(afterColon, DoublePercents(s)) == FusedCode(afterColon, s)
    decreases |s|
  {
    if s != "" {
      hide *;
      if NameHere(afterColon, s) {
        FuseCode(false, s[1 + NameRun(s[1..])..]);
        FuseName(afterColon, s);
      } else {
        FuseCode(s[0] == ':', s[1..]);
        FuseChar(afterColon, s);
      }
    }
  }

  lemma {:induction false} CloseParenAfterName(name: string, rest: string)
    requires forall k :: 0 <= k < |name| ==> IsNameChar(name[k])
    ensures CloseParen(name + ")" + rest) == Some(|name|)
  {
    var t := name + ")" + rest;
    if name != "" {
      CloseParenAfterName(name[1..], rest);
      assert t[1..] == name[1..] + ")" + rest;
    }
  }

  lemma ExpandParameter(name: string, rest: string, env: Binding)
    requires forall k :: 0 <= k < |name| ==> IsNameChar(name[k])
    ensures Expand("%(" + name + ")s" + rest, env) == Bind(env, name, Expand(rest, env))
  {
    var t := "%(" + name + ")s" + rest;
    CloseParenAfterName(name, "s" + rest);
    assert t[2..] == name + ")" + ("s" + rest);
    assert t[2..2 + |name|] == name;
    assert t[4 + |name|..] == rest;
  }

  lemma ExpandChar(c: char, rest: string, env: Binding)
    ensures Expand((if c == '%' then "%%" else [c]) + rest, env) == Prepend([c], Expand(rest, env))
  {
  }

  lemma FusedStep(afterColon: bool, code: string, rest: string, env: Binding)
    requires code != "" && !NameHere(afterColon, code)
    ensures Expand(FusedCode(afterColon, code) + rest, env) ==
            Prepend([code[0]], Expand(FusedCode(code[0] == ':', code[1..]) + rest, env))
  {
    var tail := FusedCode(code[0] == ':', code[1..]);
    var head := if code[0] == '%' then "%%" else [code[0]];
    assert FusedCode(afterColon, code) == head + tail;
    hide *;
    ExpandChar(code[0], tail + rest, env);
    assert head + tail + rest == head + (tail + rest);
  }

  lemma FusedName(afterColon: bool, code: string, rest: string, env: Binding)
    requires NameHere(afterColon, code)
    ensures var n := NameRun(code[1..]);
            Expand(FusedCode(afterColon, code) + rest, env) ==
            Bind(env, code[1..1 + n], Expand(FusedCode(false, code[1 + n..]) + rest, env))
  {
    var n := NameRun(code[1..]);
    var tail := FusedCode(false, code[1 + n..]);
    ExpandParameter(code[1..1 + n], tail + rest, env);
    assert FusedCode(afterColon, code) + rest == "%(" + code[1..1 + n] + ")s" + (tail + rest);
  }

  predicate AfterColon(s: string, i: nat)
    requires i <= |s|
  {
    i > 0 && s[i - 1] == ':'
  }

  lemma PlaceholderIsName(s: string, quoted: nat -> bool, i: nat, end: nat)
    requires i < end <= |s| && !quoted(i)
    requires end < |s| ==> s[end] == '\''
    ensures PlaceholderAt(s, quoted, i) <==> NameHere(AfterColon(s, i), s[i..end])
  {
  }

  lemma NameRunInside(s: string, i: nat, end: nat)
    requires i < end <= |s| && NameHere(AfterColon(s, i), s[i..end])
    requires end < |s| ==> s[end] == '\''
    ensures s[i..end][1..] == s[i + 1..end]
    ensures var n := NameRun(s[i + 1..]);
            && n == NameRun(s[i + 1..end]) && 1 <= n && i + 1 + n <= end && !AfterColon(s, i + 1 + n)
            && s[i..end][1..1 + n] == s[i + 1..i + 1 + n] && s[i..end][1 + n..] == s[i + 1 + n..end]
  {
    NameRunWithin(s, i + 1, end);
    var code := s[i + 1..end];
    assert IsNameStart(code[0]);
    var n := NameRun(code);
    assert IsNameChar(code[n - 1]);
    SliceOfSlice(s, i, end, 1, 1 + n);
    SliceOfSlice(s, i, end, 1 + n, end - i);
  }

  lemma FusedNameAt(s: string, quoted: nat -> bool, i: nat, end: nat, rest: string, env: Binding)
    requires i < end <= |s| && !quoted(i) && PlaceholderAt(s, quoted, i)
    requires end < |s| ==> s[end] == '\''
    ensures var next := i + 1 + NameRun(s[i + 1..]);
            && i < next <= end && !AfterColon(s, next)
            && Expand(FusedCode(AfterColon(s, i), s[i..end]) + rest, env) ==
               Bind(env, s[i + 1..next], Expand(FusedCode(false, s[next..end]) + rest, env))
  {
    PlaceholderIsName(s, quoted, i, end);
    NameRunInside(s, i, end);
    FusedName(AfterColon(s, i), s[i..end], rest, env);
  }

  lemma FusedStepAt(s: string, quoted: nat -> bool, i: nat, end: nat, rest: string, env: Binding)
    requires i < end <= |s| && !quoted(i) && !PlaceholderAt(s, quoted, i)
    requires end < |s| ==> s[end] == '\''
    requires Expand(FusedCode(AfterColon(s, i + 1), s[i + 1..end]) + rest, env) == ReplaceFrom(s, quoted, i + 1, env)
    ensures Expand(FusedCode(AfterColon(s, i), s[i..end]) + rest, env) == ReplaceFrom(s, quoted, i, env)
  {
    PlaceholderIsName(s, quoted, i, end);
    FusedStep(AfterColon(s, i), s[i..end], rest, env);
    assert s[i..end][1..] == s[i + 1..end];
  }

  /** Expanding the rewrite of a code segment replaces its placeholders in place. */
  lemma {:induction false} ExpandCode(s: string, quoted: nat -> bool, i: nat, end: nat, rest: string, env: Binding)
    requires i <= end <= |s|
    requires forall k :: i <= k < end ==> !quoted(k)
    requires end < |s| ==> s[end] == '\''
    requires Expand(rest, env) == ReplaceFrom(s, quoted, end, env)
    ensures Expand(FusedCode(AfterColon(s, i), s[i..end]) + rest, env) == ReplaceFrom(s, quoted, i, env)
    decreases end - i
  {
    hide Expand, NameRun;
    if i == end {
      assert FusedCode(AfterColon(s, i), s[i..end]) + rest == rest;
    } else if PlaceholderAt(s, quoted, i) {
      FusedNameAt(s, quoted, i, end, rest, env);
      ExpandCode(s, quoted, i + 1 + NameRun(s[i + 1..]), end, rest, env);
    } else {
      ExpandCode(s, quoted, i + 1, end, rest, env);
      FusedStepAt(s, quoted, i, end, rest, env);
    }
  }

  /** A name never runs into a literal. */
  lemma {:induction false} NameRunWithin(s: string, i: nat, end: nat)
    requires i <= end <= |s|
    requires end < |s| ==> s[end] == '\''
    ensures NameRun(s[i..end]) == NameRun(s[i..])
    decreases end - i
  {
    if i < end {
      assert s[i..end][1..] == s[i + 1..end];
      assert s[i..][1..] == s[i + 1..];
      NameRunWithin(s, i + 1, end);
    }
  }

  /** Expanding an escaped literal gives the literal back. */
  lemma {:induction false} ExpandLiteral(s: string, quoted: nat -> bool, i: nat, end: nat, rest: string, env: Binding)
    requires i <= end <= |s|
    requires forall k :: i <= k < end ==> quoted(k)
    requires Expand(rest, env) == ReplaceFrom(s, quoted, end, env)
    ensures Expand(DoublePercents(s[i..end]) + rest, env) == ReplaceFrom(s, quoted, i, env)
    decreases end - i
  {
    var lit := s[i..end];
    if i == end {
      assert DoublePercents(lit) + rest == rest;
    } else {
      assert lit[1..] == s[i + 1..end];
      ExpandLiteral(s, quoted, i + 1, end, rest, env);
      var tail := DoublePercents(lit[1..]) + rest;
      assert DoublePercents(lit) + rest == (if lit[0] == '%' then "%%" else [lit[0]]) + tail;
      ExpandChar(lit[0], tail, env);
    }
  }

  /** Code up to a literal, the literal, and whatever follows. */
  lemma ExpandCodeThenLiteral(s: string, quoted: nat -> bool, last: nat, start: nat, end: nat, rest: string,
                              env: Binding)
    requires last <= start < end <= |s| && !AfterColon(s, last) && s[start] == '\''
    requires forall k :: last <= k < start ==> !quoted(k)
    requires forall k :: start <= k < end ==> quoted(k)
    requires Expand(rest, env) == ReplaceFrom(s, quoted, end, env)
    ensures Expand(RewriteCode(s[last..start]) + (DoublePercents(s[start..end]) + rest), env) ==
            ReplaceFrom(s, quoted, last, env)
  {
    ExpandLiteral(s, quoted, start, end, rest, env);
    FuseCode(false, s[last..start]);
    ExpandCode(s, quoted, last, start, DoublePercents(s[start..end]) + rest, env);
  }

  lemma ExpandLastCode(s: string, quoted: nat -> bool, last: nat, env: Binding)
    requires last <= |s| && !AfterColon(s, last)
    requires forall k :: last <= k < |s| ==> !quoted(k)
    ensures Expand(RewriteCode(s[last..]), env) == ReplaceFrom(s, quoted, last, env)
  {
    FuseCode(false, s[last..]);
    ExpandCode(s, quoted, last, |s|, "", env);
    assert s[last..|s|] == s[last..];
    assert RewriteCode(s[last..]) + "" == RewriteCode(s[last..]);
  }

  lemma LiteralEndsInQuote(s: string, start: nat)
    requires start < |s| && LiteralEnd(s, start).Some?
    ensures s[start] == '\'' && s[LiteralEnd(s, start).value - 1] == '\''
  {
    LiteralEndIsLongest(s, start);
    var lit := s[start..LiteralEnd(s, start).value];
    assert lit[|lit| - 1] == s[LiteralEnd(s, start).value - 1];
  }

  lemma {:induction false} ExpandFrom(s: string, quoted: nat -> bool, last: nat, env: Binding)
    requires last <= |s| && !AfterColon(s, last)
    requires forall k: nat :: last <= k ==> quoted(k) == QuotedFrom(s, last, k)
    ensures Expand(RewriteFrom(s, last), env) == ReplaceFrom(s, quoted, last, env)
    decreases |s| - last
  {
    if NextLiteral(s, last).None? {
      ExpandLastCode(s, quoted, last, env);
    } else {
      var (start, end) := NextLiteral(s, last).value;
      LiteralEndsInQuote(s, start);
      assert forall k :: last <= k < start ==> !quoted(k);
      assert forall k :: start <= k < end ==> quoted(k);
      ExpandFrom(s, quoted, end, env);
      ExpandCodeThenLiteral(s, quoted, last, start, end, RewriteFrom(s, end), env);
      RewriteFromUnfold(s, last);
    }
  }

  /** For every SQL text and every binding, the driver's expansion of the rewrite
      is exactly the replacement of each placeholder in the original text. */
  lemma PyformatMeansReplacement(sql: string, env: Binding)
    ensures Expand(Pyformat(sql), env) == ReplacePlaceholders(sql, env)
  {
    ExpandFrom(sql, QuotedIn(sql), 0, env);
  }

  lemma {:induction false} ReplaceNeverMalformed(s: string, quoted: nat -> bool, i: nat, env: Binding)
    requires i <= |s|
    ensures !ReplaceFrom(s, quoted, i, env).MalformedDirective?
    decreases |s| - i
  {
    if i == |s| {
    } else if PlaceholderAt(s, quoted, i) {
      ReplaceNeverMalformed(s, quoted, i + 1 + NameRun(s[i + 1..]), env);
    } else {
      ReplaceNeverMalformed(s, quoted, i + 1, env);
    }
  }

  /** The driver never meets a malformed directive: the only failure is a name the
      caller did not bind. */
  lemma PyformatNeverMalformed(sql: string, env: Binding)
    ensures !Expand(Pyformat(sql), env).MalformedDirective?
    ensures (forall name :: env(name).Some?) ==> Expand(Pyformat(sql), env).Text?
  {
    PyformatMeansReplacement(sql, env);
    ReplaceNeverMalformed(sql, QuotedIn(sql), 0, env);
    if forall name :: env(name).Some? {
      ReplaceBound(sql, QuotedIn(sql), 0, env);
    }
  }

  lemma {:induction false} ReplaceBound(s: string, quoted: nat -> bool, i: nat, env: Binding)
    requires i <= |s|
    requires forall name :: env(name).Some?
    ensures ReplaceFrom(s, quoted, i, env).Text?
    decreases |s| - i
  {
    if i == |s| {
    } else if PlaceholderAt(s, quoted, i) {
      ReplaceBound(s, quoted, i + 1 + NameRun(s[i + 1..]), env);
    } else {
      ReplaceBound(s, quoted, i + 1, env);
    }
  }

  /** Binds every name to its own placeholder. */
  function SelfBinding(): Binding {
    name => Some(":" + name)
  }

  lemma {:induction false} ReplaceWithSelf(s: string, quoted: nat -> bool, i: nat)
    requires i <= |s|
    ensures ReplaceFrom(s, quoted, i, SelfBinding()) == Text(s[i..])
    decreases |s| - i
  {
    hide *;
    if i == |s| {
      NothingLeftToReplace(s, quoted);
    } else if PlaceholderAt(s, quoted, i) {
      var next := i + 1 + NameRun(s[i + 1..]);
      ReplaceWithSelf(s, quoted, next);
      ReplaceName(s, quoted, i);
    } else {
      ReplaceWithSelf(s, quoted, i + 1);
      ReplaceChar(s, quoted, i);
    }
  }

  lemma NothingLeftToReplace(s: string, quoted: nat -> bool)
    ensures ReplaceFrom(s, quoted, |s|, SelfBinding()) == Text(s[|s|..])
  {
  }

  lemma ReplaceChar(s: string, quoted: nat -> bool, i: nat)
    requires i < |s| && !PlaceholderAt(s, quoted, i)
    requires ReplaceFrom(s, quoted, i + 1, SelfBinding()) == Text(s[i + 1..])
    ensures ReplaceFrom(s, quoted, i, SelfBinding()) == Text(s[i..])
  {
    assert s[i..] == [s[i]] + s[i + 1..];
  }

  lemma NameThenRest(s: string, i: nat, next: nat)
    requires i < next <= |s| && s[i] == ':'
    ensures s[i..] == ":" + s[i + 1..next] + s[next..]
  {
  }

  lemma ReplaceName(s: string, quoted: nat -> bool, i: nat)
    requires i < |s| && PlaceholderAt(s, quoted, i)
    requires var next := i + 1 + NameRun(s[i + 1..]);
             ReplaceFrom(s, quoted, next, SelfBinding()) == Text(s[next..])
    ensures ReplaceFrom(s, quoted, i, SelfBinding()) == Text(s[i..])
  {
    hide NameRun;
    NameThenRest(s, i, i + 1 + NameRun(s[i + 1..]));
  }

  /** `to_pyformat` loses nothing: binding each name to its own placeholder gives
      the original text back, so two texts with the same rewrite are equal. */
  lemma PyformatHasLeftInverse(sql: string, other: string)
    ensures Expand(Pyformat(sql), SelfBinding()) == Text(sql)
    ensures Pyformat(sql) == Pyformat(other) ==> sql == other
  {
    PyformatMeansReplacement(sql, SelfBinding());
    ReplaceWithSelf(sql, QuotedIn(sql), 0);
    PyformatMeansReplacement(other, SelfBinding());
    ReplaceWithSelf(other, QuotedIn(other), 0);
  }
}
