/**
 The rules of `QueryValidator` written out by position and character, apart from the
 matcher and its tables: exactly which texts are refused, and why.
 */
module SqlRules {
  import opened PythonText
  import opened SqlValidator

  /* ---------- characters ---------- */

  predicate WordChar(c: char) {
    'a' <= c <= 'z' || 'A' <= c <= 'Z' || '0' <= c <= '9' || c == '_'
  }

  predicate White(c: char) {
    c == ' ' || c == '\t' || c == '\n' || c == '\r' || c as int == 11 || c as int == 12 || 28 <= c as int <= 31
  }

  /** The same character, or the same ASCII letter in the other case. */
  predicate SameLetter(c: char, d: char) {
    c == d || ('A' <= c <= 'Z' && d as int == c as int + 32) || ('A' <= d <= 'Z' && c as int == d as int + 32)
  }

  lemma Characters(c: char, d: char)
    ensures IsWord(c) <==> WordChar(c)
    ensures IsSpace(c) <==> White(c)
    ensures Lower(c) == Lower(d) <==> SameLetter(c, d)
  {
  }

  predicate WordBefore(s: string, i: nat) { 0 < i <= |s| && WordChar(s[i - 1]) }

  predicate WordAt(s: string, i: nat) { i < |s| && WordChar(s[i]) }

  /** Only white space from `i` up to `j`. */
  predicate Blank(s: string, i: nat, j: nat) { i <= j <= |s| && forall k :: i <= k < j ==> White(s[k]) }

  predicate Words(s: string, i: nat, j: nat) { i <= j <= |s| && forall k :: i <= k < j ==> WordChar(s[k]) }

  predicate NoQuotes(s: string, i: nat, j: nat) { i <= j <= |s| && forall k :: i <= k < j ==> s[k] != '\'' }

  /* ---------- what a pattern means ---------- */

  /** The pattern is spelled out in `s` from position `i` on. */
  predicate Spelled(p: Pattern, s: string, i: nat)
    decreases |p|
  {
    i <= |s| &&
    (p == [] ||
     match p[0]
     case Lit(c) => i < |s| && SameLetter(s[i], c) && Spelled(p[1..], s, i + 1)
     case Boundary => WordBefore(s, i) != WordAt(s, i) && Spelled(p[1..], s, i)
     case Spaces => exists j :: i <= j <= |s| && Blank(s, i, j) && Spelled(p[1..], s, j)
     case SomeSpaces => exists j :: i < j <= |s| && Blank(s, i, j) && Spelled(p[1..], s, j)
     case Word => WordAt(s, i) && Spelled(p[1..], s, i + 1)
     case SomeWord => exists j :: i < j <= |s| && Words(s, i, j) && Spelled(p[1..], s, j)
     case ColonOrDollar => i < |s| && (s[i] == ':' || s[i] == '$') && Spelled(p[1..], s, i + 1)
     case NotQuotes => exists j :: i <= j <= |s| && NoQuotes(s, i, j) && Spelled(p[1..], s, j))
  }

  predicate OccursFrom(p: Pattern, s: string, i: nat) { exists j :: i <= j <= |s| && Spelled(p, s, j) }

  predicate Occurs(p: Pattern, s: string) { OccursFrom(p, s, 0) }

  /** A repeated item takes nothing, or one character and then goes on. */
  lemma RepeatStep(p: Pattern, s: string, i: nat)
    requires i <= |s| && p != []
    ensures p[0].Spaces? ==>
              (Spelled(p, s, i) <==> Spelled(p[1..], s, i) || (i < |s| && White(s[i]) && Spelled(p, s, i + 1)))
    ensures p[0].NotQuotes? ==>
              (Spelled(p, s, i) <==> Spelled(p[1..], s, i) || (i < |s| && s[i] != '\'' && Spelled(p, s, i + 1)))
    ensures p[0].SomeSpaces? ==>
              (Spelled(p, s, i) <==>
               i < |s| && White(s[i]) && (Spelled(p[1..], s, i + 1) || Spelled(p, s, i + 1)))
    ensures p[0].SomeWord? ==>
              (Spelled(p, s, i) <==>
               i < |s| && WordChar(s[i]) && (Spelled(p[1..], s, i + 1) || Spelled(p, s, i + 1)))
  {
  }

  lemma OneStep(p: Pattern, s: string, i: nat)
    requires i < |s| && p != []
    ensures s[i..][0] == s[i] && s[i..][1..] == s[i + 1..] && WordBefore(s, i + 1) == IsWord(s[i])
    ensures IsSpace(s[i]) == White(s[i]) && (White(s[i]) ==> !IsWord(s[i]))
    ensures p[0].Lit? ==> (Lower(s[i]) == Lower(p[0].c) <==> SameLetter(s[i], p[0].c))
  {
    Characters(s[i], if p[0].Lit? then p[0].c else ' ');
  }

  /** The matcher finds a match at a position exactly when the pattern is spelled there. */
  lemma {:induction false} MatchIsSpelling(p: Pattern, s: string, i: nat)
    requires i <= |s|
    ensures MatchesAt(p, WordBefore(s, i), s[i..]) <==> Spelled(p, s, i)
    decreases |s| - i, |p|
  {
    if p != [] {
      if i < |s| {
        MatchIsSpelling(p[1..], s, i + 1);
        MatchIsSpelling(p, s, i + 1);
      }
      MatchIsSpelling(p[1..], s, i);
      hide *;
      MatchStep(p, s, i);
    }
  }

  lemma MatchStep(p: Pattern, s: string, i: nat)
    requires i <= |s| && p != []
    requires MatchesAt(p[1..], WordBefore(s, i), s[i..]) <==> Spelled(p[1..], s, i)
    requires i < |s| ==> (MatchesAt(p[1..], WordBefore(s, i + 1), s[i + 1..]) <==> Spelled(p[1..], s, i + 1))
    requires i < |s| ==> (MatchesAt(p, WordBefore(s, i + 1), s[i + 1..]) <==> Spelled(p, s, i + 1))
    ensures MatchesAt(p, WordBefore(s, i), s[i..]) <==> Spelled(p, s, i)
  {
    RepeatStep(p, s, i);
    if i < |s| {
      OneStep(p, s, i);
      Characters(s[i], ' ');
    }
    hide White, WordChar, SameLetter, IsSpace, IsWord, Lower, Blank, Words, NoQuotes;
    match p[0]
    case Lit(c) =>
    case Boundary =>
    case Spaces =>
    case SomeSpaces =>
    case Word =>
    case SomeWord =>
    case ColonOrDollar =>
    case NotQuotes =>
  }

  lemma {:induction false} SearchIsOccurrence(p: Pattern, s: string, i: nat)
    requires i <= |s|
    ensures Search(p, WordBefore(s, i), s[i..]) <==> OccursFrom(p, s, i)
    decreases |s| - i
  {
    hide MatchesAt, Spelled;
    MatchIsSpelling(p, s, i);
    if i < |s| {
      SearchIsOccurrence(p, s, i + 1);
      Characters(s[i], ' ');
      assert s[i..][0] == s[i] && s[i..][1..] == s[i + 1..];
      assert WordBefore(s, i + 1) == IsWord(s[i]);
    }
  }

  /** A search finds exactly the patterns that occur. */
  lemma FoundIsOccurrence(p: Pattern, s: string)
    ensures Found(p, s) <==> Occurs(p, s)
  {
    assert s[0..] == s && !WordBefore(s, 0);
    SearchIsOccurrence(p, s, 0);
  }

  /* ---------- words ---------- */

  /** `w` stands in `s` at `i`, in any case. */
  predicate SpelledAt(s: string, w: string, i: nat) {
    i + |w| <= |s| && forall k :: 0 <= k < |w| ==> SameLetter(s[i + k], w[k])
  }

  lemma {:induction false} LiteralThen(w: string, p: Pattern, s: string, i: nat)
    ensures Spelled(Literal(w) + p, s, i) <==> SpelledAt(s, w, i) && Spelled(p, s, i + |w|)
    decreases |w|
  {
    hide SameLetter;
    if w == "" {
      assert Literal(w) + p == p;
      SpelledFits(p, s, i);
    } else {
      assert (Literal(w) + p)[1..] == Literal(w[1..]) + p;
      LiteralThen(w[1..], p, s, i + 1);
      SpelledAtCons(s, w, i);
    }
  }

  lemma SpelledFits(p: Pattern, s: string, i: nat)
    ensures Spelled(p, s, i) ==> i <= |s|
  {
  }

  lemma SpelledAtCons(s: string, w: string, i: nat)
    requires w != ""
    ensures SpelledAt(s, w, i) <==> i < |s| && SameLetter(s[i], w[0]) && SpelledAt(s, w[1..], i + 1)
  {
    hide SameLetter;
    var v := w[1..];
    if SpelledAt(s, v, i + 1) && i < |s| && SameLetter(s[i], w[0]) {
      forall k | 0 <= k < |w| ensures SameLetter(s[i + k], w[k]) {
        if k > 0 {
          assert SameLetter(s[i + 1 + (k - 1)], v[k - 1]);
        }
      }
    }
    if SpelledAt(s, w, i) {
      forall k | 0 <= k < |v| ensures SameLetter(s[i + 1 + k], v[k]) {
        assert SameLetter(s[i + (k + 1)], w[k + 1]);
      }
    }
  }

  lemma LiteralAlone(w: string, s: string, i: nat)
    ensures Spelled(Literal(w), s, i) <==> SpelledAt(s, w, i)
  {
    assert Literal(w) + [] == Literal(w);
    LiteralThen(w, [], s, i);
  }

  /** `w` stands at `i` as a word of its own. */
  predicate WholeWordAt(s: string, w: string, i: nat) {
    SpelledAt(s, w, i) && !WordBefore(s, i) && !WordAt(s, i + |w|)
  }

  predicate HasWord(s: string, w: string) { exists i :: 0 <= i <= |s| && WholeWordAt(s, w, i) }

  predicate Has(s: string, w: string) { exists i :: 0 <= i <= |s| && SpelledAt(s, w, i) }

  predicate AllWord(w: string) { w != "" && forall k :: 0 <= k < |w| ==> WordChar(w[k]) }

  lemma WordEnds(s: string, w: string, i: nat)
    requires AllWord(w) && SpelledAt(s, w, i)
    ensures WordAt(s, i) && WordBefore(s, i + |w|)
  {
    assert SameLetter(s[i + 0], w[0]) && SameLetter(s[i + (|w| - 1)], w[|w| - 1]);
  }

  lemma KeywordThen(w: string, s: string, i: nat)
    requires AllWord(w)
    ensures Spelled(Keyword(w), s, i) <==> WholeWordAt(s, w, i)
  {
    var p := Literal(w) + [Boundary];
    assert Keyword(w) == [Boundary] + p && Keyword(w)[1..] == p;
    LiteralThen(w, [Boundary], s, i);
    assert [Boundary][1..] == [];
    if SpelledAt(s, w, i) {
      WordEnds(s, w, i);
    }
    hide SpelledAt, WordBefore, WordAt, Literal;
  }

  /** A forbidden word is found exactly when it stands somewhere as a word. */
  lemma KeywordIsWord(w: string, s: string)
    requires AllWord(w)
    ensures Found(Keyword(w), s) <==> HasWord(s, w)
  {
    FoundIsOccurrence(Keyword(w), s);
    hide Found, Keyword, WholeWordAt, Spelled;
    forall i: nat ensures Spelled(Keyword(w), s, i) <==> WholeWordAt(s, w, i) {
      KeywordThen(w, s, i);
    }
  }

  /* ---------- the injection shapes ---------- */

  /** A semicolon, white space, and a letter, digit or underscore. */
  predicate StackedAt(s: string, i: nat) {
    i < |s| && s[i] == ';' && exists j :: i < j <= |s| && Blank(s, i + 1, j) && WordAt(s, j)
  }

  /** `xp_` at the start of a word that goes on. */
  predicate ExtendedAt(s: string, i: nat) {
    SpelledAt(s, "xp_", i) && !WordBefore(s, i) && WordAt(s, i + 3)
  }

  /** The name, white space, and an opening parenthesis. */
  predicate CalledAt(s: string, w: string, i: nat) {
    SpelledAt(s, w, i) && exists j :: i + |w| <= j < |s| && Blank(s, i + |w|, j) && s[j] == '('
  }

  predicate OutfileAt(s: string, i: nat) {
    SpelledAt(s, "INTO", i) && exists j :: i + 4 < j <= |s| && Blank(s, i + 4, j) && SpelledAt(s, "OUTFILE", j)
  }

  predicate HasStacked(s: string) { exists i :: 0 <= i <= |s| && StackedAt(s, i) }

  predicate HasExtended(s: string) { exists i :: 0 <= i <= |s| && ExtendedAt(s, i) }

  predicate HasOutfile(s: string) { exists i :: 0 <= i <= |s| && OutfileAt(s, i) }

  predicate Calls(s: string, w: string) { exists i :: 0 <= i <= |s| && CalledAt(s, w, i) }

  lemma StackedThen(s: string, i: nat)
    ensures Spelled([Lit(';'), Spaces, Word], s, i) <==> StackedAt(s, i)
  {
    var p: Pattern := [Lit(';'), Spaces, Word];
    assert p[1..] == [Spaces, Word] && p[1..][1..] == [Word] && p[1..][1..][1..] == [];
    assert i < |s| ==> (SameLetter(s[i], ';') <==> s[i] == ';');
    hide SameLetter, Blank;
    assert forall j: nat :: Spelled([Word], s, j) <==> WordAt(s, j);
    assert i < |s| ==> (Spelled([Spaces, Word], s, i + 1) <==>
                        exists j :: i + 1 <= j <= |s| && Blank(s, i + 1, j) && Spelled([Word], s, j));
  }

  lemma ExtendedThen(s: string, i: nat)
    ensures Spelled([Boundary] + Literal("xp_") + [SomeWord], s, i) <==> ExtendedAt(s, i)
  {
    var rest: Pattern := Literal("xp_") + [SomeWord];
    var p := [Boundary] + Literal("xp_") + [SomeWord];
    assert p[1..] == rest && |"xp_"| == 3 && AllWord("xp_");
    LiteralThen("xp_", [SomeWord], s, i);
    assert [SomeWord][1..] == [];
    if SpelledAt(s, "xp_", i) {
      WordEnds(s, "xp_", i);
    }
    WordGoesOn(s, i + 3);
    hide SpelledAt, WordBefore, WordAt, Literal, Words;
  }

  lemma WordGoesOn(s: string, i: nat)
    ensures Spelled([SomeWord], s, i) <==> WordAt(s, i)
  {
    assert [SomeWord][1..] == [];
    if WordAt(s, i) {
      assert Words(s, i, i + 1);
      assert Spelled([], s, i + 1);
    }
  }

  lemma CallThen(w: string, s: string, i: nat)
    ensures Spelled(Call(w), s, i) <==> CalledAt(s, w, i)
  {
    var rest: Pattern := [Spaces, Lit('(')];
    LiteralThen(w, rest, s, i);
    ParenthesisThen(s, i + |w|);
    hide SpelledAt, Literal, Blank;
  }

  lemma ParenthesisThen(s: string, i: nat)
    ensures Spelled([Spaces, Lit('(')], s, i) <==> exists j :: i <= j < |s| && Blank(s, i, j) && s[j] == '('
  {
    var p: Pattern := [Spaces, Lit('(')];
    assert p[1..] == [Lit('(')] && p[1..][1..] == [];
    assert forall j: nat :: Spelled([Lit('(')], s, j) <==> j < |s| && s[j] == '(' by {
      assert forall c: char :: SameLetter(c, '(') <==> c == '(';
    }
    hide SameLetter, Blank;
  }

  lemma CallIsFound(w: string, s: string)
    ensures Found(Call(w), s) <==> Calls(s, w)
  {
    FoundIsOccurrence(Call(w), s);
    hide Found, Call, CalledAt, Spelled;
    forall i: nat ensures Spelled(Call(w), s, i) <==> CalledAt(s, w, i) {
      CallThen(w, s, i);
    }
  }

  lemma TwoWordsThen(w: string, v: string, s: string, i: nat)
    ensures Spelled(Literal(w) + ([SomeSpaces] + Literal(v)), s, i) <==>
            SpelledAt(s, w, i) && exists j :: i + |w| < j <= |s| && Blank(s, i + |w|, j) && SpelledAt(s, v, j)
  {
    var rest: Pattern := [SomeSpaces] + Literal(v);
    assert rest[1..] == Literal(v);
    LiteralThen(w, rest, s, i);
    hide Literal, SpelledAt, Blank;
    forall j: nat ensures Spelled(Literal(v), s, j) <==> SpelledAt(s, v, j) {
      LiteralAlone(v, s, j);
    }
    assert i + |w| <= |s| ==> (Spelled(rest, s, i + |w|) <==>
        exists j :: i + |w| < j <= |s| && Blank(s, i + |w|, j) && Spelled(Literal(v), s, j));
  }

  lemma OutfileThen(s: string, i: nat)
    ensures Spelled(Literal("INTO") + ([SomeSpaces] + Literal("OUTFILE")), s, i) <==> OutfileAt(s, i)
  {
    assert |"INTO"| == 4;
    hide Literal, SpelledAt, Blank, Spelled;
    TwoWordsThen("INTO", "OUTFILE", s, i);
  }

  lemma LiteralIsFound(w: string, s: string)
    ensures Found(Literal(w), s) <==> Has(s, w)
  {
    FoundIsOccurrence(Literal(w), s);
    hide Found, Literal, SpelledAt, Spelled;
    forall i: nat ensures Spelled(Literal(w), s, i) <==> SpelledAt(s, w, i) {
      LiteralAlone(w, s, i);
    }
  }

  /* ---------- the rules as a whole ---------- */

  /** Begins with `SELECT` as a word, after white space. */
  predicate StartsWithSelect(s: string) {
    exists i :: 0 <= i <= |s| && Blank(s, 0, i) && SpelledAt(s, "SELECT", i) && !WordAt(s, i + 6)
  }

  /** A colon or dollar sign and `w`. */
  predicate BoundAt(s: string, w: string, k: nat) {
    k < |s| && (s[k] == ':' || s[k] == '$') && SpelledAt(s, w, k + 1)
  }

  /** An equals sign, white space, and then that. */
  predicate EqualsAt(s: string, w: string, j: nat) {
    j < |s| && s[j] == '=' && exists k :: j < k <= |s| && Blank(s, j + 1, k) && BoundAt(s, w, k)
  }

  /** `tenant_id`, an equals sign, and `tenant_id` behind a colon or dollar sign, with white
      space at either side of the equals sign only. */
  predicate FilterAt(s: string, i: nat) {
    SpelledAt(s, "tenant_id", i) && exists j :: i + 9 <= j <= |s| && Blank(s, i + 9, j) && EqualsAt(s, "tenant_id", j)
  }

  predicate HasFilter(s: string) { exists i :: 0 <= i <= |s| && FilterAt(s, i) }

  /** `tenant_id`, an equals sign, and anything in single quotes. */
  predicate HardcodedAt(s: string, i: nat) {
    && SpelledAt(s, "tenant_id", i)
    && exists j :: i + 9 <= j <= |s| && Blank(s, i + 9, j) && QuotedValueAt(s, j)
  }

  predicate QuotedValueAt(s: string, j: nat) {
    j < |s| && s[j] == '=' && exists k :: j < k <= |s| && Blank(s, j + 1, k) && QuotedAt(s, k)
  }

  predicate QuotedAt(s: string, k: nat) {
    k < |s| && s[k] == '\'' && exists l :: k < l < |s| && NoQuotes(s, k + 1, l) && s[l] == '\''
  }

  predicate HasHardcodedTenant(s: string) { exists i :: 0 <= i <= |s| && HardcodedAt(s, i) }

  /** The words that are refused. */
  function RefusedWord(n: nat): string {
    match n
    case 0 => "INSERT"
    case 1 => "UPDATE"
    case 2 => "DELETE"
    case 3 => "DROP"
    case 4 => "TRUNCATE"
    case 5 => "ALTER"
    case 6 => "CREATE"
    case 7 => "REPLACE"
    case 8 => "MERGE"
    case 9 => "EXEC"
    case 10 => "EXECUTE"
    case 11 => "CALL"
    case 12 => "GRANT"
    case _ => "REVOKE"
  }

  /** The shapes that are refused. */
  predicate RefusedShape(n: nat, s: string) {
    match n
    case 0 => HasStacked(s)
    case 1 => Has(s, "--")
    case 2 => Has(s, "/*")
    case 3 => HasWord(s, "UNION")
    case 4 => HasExtended(s)
    case 5 => Calls(s, "SLEEP")
    case 6 => Calls(s, "BENCHMARK")
    case 7 => Calls(s, "LOAD_FILE")
    case 8 => HasOutfile(s)
    case 9 => Has(s, "INFORMATION_SCHEMA")
    case 10 => Calls(s, "PG_SLEEP")
    case _ => Calls(s, "PG_READ_FILE")
  }

  lemma {:induction false} ForbiddenAre(words: seq<string>, sql: string)
    ensures forall e :: e in ForbiddenErrors(words, sql) <==>
              && e.ForbiddenKeyword?
              && exists i :: 0 <= i < |words| && words[i] == e.keyword && Found(Keyword(words[i]), sql)
  {
    hide Found, Keyword;
    if words != [] {
      ForbiddenAre(words[..|words| - 1], sql);
    }
  }

  lemma {:induction false} InjectionsAre(patterns: seq<Pattern>, sql: string)
    ensures forall e :: e in InjectionErrors(patterns, sql) <==>
              e.InjectionPattern? && e.index < |patterns| && Found(patterns[e.index], sql)
  {
    hide Found;
    if patterns != [] {
      InjectionsAre(patterns[..|patterns| - 1], sql);
    }
  }

  lemma SelectIsStart(s: string)
    ensures MatchesAt(SELECT_START, false, s) <==> StartsWithSelect(s)
  {
    var rest: Pattern := Literal("SELECT") + [Boundary];
    assert SELECT_START == [Spaces] + rest && SELECT_START[1..] == rest && |"SELECT"| == 6 && AllWord("SELECT");
    assert s[0..] == s && !WordBefore(s, 0) && [Boundary][1..] == [];
    MatchIsSpelling(SELECT_START, s, 0);
    forall i: nat ensures Spelled(rest, s, i) <==> SpelledAt(s, "SELECT", i) && !WordAt(s, i + 6) {
      LiteralThen("SELECT", [Boundary], s, i);
      if SpelledAt(s, "SELECT", i) {
        WordEnds(s, "SELECT", i);
      }
    }
    hide Literal, SpelledAt, WordAt, Blank, MatchesAt;
    assert Spelled(SELECT_START, s, 0) <==> exists j :: 0 <= j <= |s| && Blank(s, 0, j) && Spelled(rest, s, j);
  }

  lemma BoundThen(w: string, s: string, k: nat)
    ensures Spelled([ColonOrDollar] + Literal(w), s, k) <==>
            k < |s| && (s[k] == ':' || s[k] == '$') && SpelledAt(s, w, k + 1)
  {
    var p := [ColonOrDollar] + Literal(w);
    assert p[1..] == Literal(w);
    LiteralAlone(w, s, k + 1);
    hide Literal, SpelledAt;
  }

  lemma EqualsThen(w: string, s: string, j: nat)
    ensures Spelled([Lit('=')] + ([Spaces] + ([ColonOrDollar] + Literal(w))), s, j) <==> EqualsAt(s, w, j)
  {
    var bound := [ColonOrDollar] + Literal(w);
    var p := [Lit('=')] + ([Spaces] + bound);
    assert p[1..] == [Spaces] + bound && ([Spaces] + bound)[1..] == bound;
    assert j < |s| ==> (SameLetter(s[j], '=') <==> s[j] == '=');
    hide SameLetter, Literal, SpelledAt, Blank;
    forall k: nat ensures Spelled(bound, s, k) <==> BoundAt(s, w, k) {
      BoundThen(w, s, k);
    }
    hide BoundAt;
    assert j < |s| ==> (Spelled([Spaces] + bound, s, j + 1) <==>
                        exists k :: j + 1 <= k <= |s| && Blank(s, j + 1, k) && Spelled(bound, s, k));
  }

  /** `w`, then white space and the equals sign. */
  lemma NameThen(w: string, s: string, i: nat)
    ensures Spelled(Literal(w) + ([Spaces] + ([Lit('=')] + ([Spaces] + ([ColonOrDollar] + Literal(w))))), s, i) <==>
            SpelledAt(s, w, i) && exists j :: i + |w| <= j <= |s| && Blank(s, i + |w|, j) && EqualsAt(s, w, j)
  {
    var rest := [Lit('=')] + ([Spaces] + ([ColonOrDollar] + Literal(w)));
    var p := [Spaces] + rest;
    assert p[1..] == rest;
    LiteralThen(w, p, s, i);
    hide Literal, SpelledAt, Blank, EqualsAt;
    forall j: nat ensures Spelled(rest, s, j) <==> EqualsAt(s, w, j) {
      EqualsThen(w, s, j);
    }
    assert i + |w| <= |s| ==> (Spelled(p, s, i + |w|) <==>
                               exists j :: i + |w| <= j <= |s| && Blank(s, i + |w|, j) && Spelled(rest, s, j));
  }

  lemma FilterThen(s: string, i: nat)
    ensures Spelled(TENANT_FILTER, s, i) <==> FilterAt(s, i)
  {
    assert |"tenant_id"| == 9;
    hide Spelled, Literal, SpelledAt, Blank;
    NameThen("tenant_id", s, i);
  }

  lemma FilterIsFound(s: string)
    ensures Found(TENANT_FILTER, s) <==> HasFilter(s)
  {
    FoundIsOccurrence(TENANT_FILTER, s);
    hide Found, TENANT_FILTER, FilterAt, Spelled;
    forall i: nat ensures Spelled(TENANT_FILTER, s, i) <==> FilterAt(s, i) {
      FilterThen(s, i);
    }
  }

  lemma QuoteThen(s: string, k: nat)
    ensures Spelled([Lit('\''), NotQuotes, Lit('\'')], s, k) <==> QuotedAt(s, k)
  {
    var p: Pattern := [Lit('\''), NotQuotes, Lit('\'')];
    assert p[1..] == [NotQuotes, Lit('\'')] && p[1..][1..] == [Lit('\'')] && p[1..][1..][1..] == [];
    assert forall c: char :: SameLetter(c, '\'') <==> c == '\'';
    hide SameLetter, NoQuotes;
    assert forall l: nat :: Spelled([Lit('\'')], s, l) <==> l < |s| && s[l] == '\'';
    assert k < |s| ==> (Spelled([NotQuotes, Lit('\'')], s, k + 1) <==>
                        exists l :: k + 1 <= l <= |s| && NoQuotes(s, k + 1, l) && Spelled([Lit('\'')], s, l));
  }

  lemma QuotedValueThen(s: string, j: nat)
    ensures Spelled([Lit('='), Spaces, Lit('\''), NotQuotes, Lit('\'')], s, j) <==> QuotedValueAt(s, j)
  {
    var quoted: Pattern := [Lit('\''), NotQuotes, Lit('\'')];
    var p: Pattern := [Lit('='), Spaces, Lit('\''), NotQuotes, Lit('\'')];
    assert p[1..] == [Spaces] + quoted && ([Spaces] + quoted)[1..] == quoted;
    assert j < |s| ==> (SameLetter(s[j], '=') <==> s[j] == '=');
    hide SameLetter, Blank, QuotedAt;
    forall k: nat ensures Spelled(quoted, s, k) <==> QuotedAt(s, k) {
      QuoteThen(s, k);
    }
    assert j < |s| ==> (Spelled([Spaces] + quoted, s, j + 1) <==>
                        exists k :: j + 1 <= k <= |s| && Blank(s, j + 1, k) && Spelled(quoted, s, k));
  }

  lemma HardcodedThen(w: string, s: string, i: nat)
    ensures Spelled(Literal(w) + [Spaces, Lit('='), Spaces, Lit('\''), NotQuotes, Lit('\'')], s, i) <==>
            SpelledAt(s, w, i) && exists j :: i + |w| <= j <= |s| && Blank(s, i + |w|, j) && QuotedValueAt(s, j)
  {
    var rest: Pattern := [Lit('='), Spaces, Lit('\''), NotQuotes, Lit('\'')];
    var p: Pattern := [Spaces, Lit('='), Spaces, Lit('\''), NotQuotes, Lit('\'')];
    assert p[1..] == rest;
    LiteralThen(w, p, s, i);
    hide Literal, SpelledAt, Blank, QuotedValueAt;
    forall j: nat ensures Spelled(rest, s, j) <==> QuotedValueAt(s, j) {
      QuotedValueThen(s, j);
    }
    assert i + |w| <= |s| ==> (Spelled(p, s, i + |w|) <==>
                               exists j :: i + |w| <= j <= |s| && Blank(s, i + |w|, j) && Spelled(rest, s, j));
  }

  lemma HardcodedIsFound(s: string)
    ensures Found(LITERAL_TENANT, s) <==> HasHardcodedTenant(s)
  {
    assert |"tenant_id"| == 9;
    FoundIsOccurrence(LITERAL_TENANT, s);
    hide Found, SpelledAt, Blank, QuotedValueAt, Spelled, Literal;
    forall i: nat ensures Spelled(LITERAL_TENANT, s, i) <==> HardcodedAt(s, i) {
      HardcodedThen("tenant_id", s, i);
    }
  }

  lemma RefusedWordsAre(n: nat)
    requires n < 14
    ensures FORBIDDEN_STATEMENTS[n] == RefusedWord(n) && AllWord(RefusedWord(n))
  {
  }

  lemma StackedIsFound(s: string)
    ensures Found([Lit(';'), Spaces, Word], s) <==> HasStacked(s)
  {
    var p := [Lit(';'), Spaces, Word];
    FoundIsOccurrence(p, s);
    hide Found, Spelled, StackedAt;
    forall i: nat ensures Spelled(p, s, i) <==> StackedAt(s, i) {
      StackedThen(s, i);
    }
  }

  lemma ExtendedIsFound(s: string)
    ensures Found([Boundary] + Literal("xp_") + [SomeWord], s) <==> HasExtended(s)
  {
    var p := [Boundary] + Literal("xp_") + [SomeWord];
    FoundIsOccurrence(p, s);
    hide Found, Spelled, ExtendedAt;
    forall i: nat ensures Spelled(p, s, i) <==> ExtendedAt(s, i) {
      ExtendedThen(s, i);
    }
  }

  lemma OutfileIsFound(s: string)
    ensures Found(Literal("INTO") + ([SomeSpaces] + Literal("OUTFILE")), s) <==> HasOutfile(s)
  {
    var p := Literal("INTO") + ([SomeSpaces] + Literal("OUTFILE"));
    FoundIsOccurrence(p, s);
    hide Found, Spelled, OutfileAt;
    forall i: nat ensures Spelled(p, s, i) <==> OutfileAt(s, i) {
      OutfileThen(s, i);
    }
  }

  lemma UnionIsFound(s: string)
    ensures Found(Keyword("UNION"), s) <==> HasWord(s, "UNION")
  {
    assert AllWord("UNION");
    hide Found, Keyword, HasWord;
    KeywordIsWord("UNION", s);
  }

  lemma EarlyInjectionIsShape(n: nat, s: string)
    requires n < 5
    ensures Found(INJECTION_PATTERNS[n], s) <==> RefusedShape(n, s)
  {
    hide Found, Literal, Call, Keyword, Has, HasWord, Calls, HasStacked, HasExtended, HasOutfile, AllWord;
    if n == 0 {
      StackedIsFound(s);
    } else if n == 1 {
      LiteralIsFound("--", s);
    } else if n == 2 {
      LiteralIsFound("/*", s);
    } else if n == 3 {
      UnionIsFound(s);
    } else {
      ExtendedIsFound(s);
    }
  }

  lemma LateInjectionIsShape(n: nat, s: string)
    requires 5 <= n < 12
    ensures Found(INJECTION_PATTERNS[n], s) <==> RefusedShape(n, s)
  {
    hide Found, Literal, Call, Keyword, Has, HasWord, Calls, HasStacked, HasExtended, HasOutfile, AllWord;
    if n == 5 {
      CallIsFound("SLEEP", s);
    } else if n == 6 {
      CallIsFound("BENCHMARK", s);
    } else if n == 7 {
      CallIsFound("LOAD_FILE", s);
    } else if n == 8 {
      OutfileIsFound(s);
    } else if n == 9 {
      LiteralIsFound("INFORMATION_SCHEMA", s);
    } else if n == 10 {
      CallIsFound("PG_SLEEP", s);
    } else {
      CallIsFound("PG_READ_FILE", s);
    }
  }

  lemma InjectionIsShape(n: nat, s: string)
    requires n < 12
    ensures Found(INJECTION_PATTERNS[n], s) <==> RefusedShape(n, s)
  {
    hide Found, RefusedShape;
    if n < 5 {
      EarlyInjectionIsShape(n, s);
    } else {
      LateInjectionIsShape(n, s);
    }
  }

  /** When each error is reported. */
  predicate Deserved(s: string, e: Error) {
    match e
    case OnlySelect => !StartsWithSelect(s)
    case ForbiddenKeyword(w) => exists n :: 0 <= n < 14 && RefusedWord(n) == w && HasWord(s, w)
    case InjectionPattern(n) => n < 12 && RefusedShape(n, s)
    case HardcodedTenant => !HasFilter(s) && HasHardcodedTenant(s)
    case MissingTenantFilter => !HasFilter(s) && !HasHardcodedTenant(s)
  }

  lemma ForbiddenExactly(s: string, e: Error)
    ensures e in ForbiddenErrors(FORBIDDEN_STATEMENTS, s) <==> e.ForbiddenKeyword? && Deserved(s, e)
  {
    var words := FORBIDDEN_STATEMENTS;
    assert |words| == 14;
    ForbiddenAre(words, s);
    hide Found, Keyword, ForbiddenErrors, HasWord, RefusedWord;
    forall n | 0 <= n < 14
      ensures words[n] == RefusedWord(n) && (Found(Keyword(words[n]), s) <==> HasWord(s, RefusedWord(n)))
    {
      RefusedWordsAre(n);
      KeywordIsWord(words[n], s);
    }
  }

  lemma DeservedInjection(s: string, e: Error)
    requires e.InjectionPattern?
    ensures Deserved(s, e) <==> e.index < 12 && RefusedShape(e.index, s)
  {
    hide RefusedShape;
  }

  lemma InjectionsExactly(s: string, e: Error)
    ensures e in InjectionErrors(INJECTION_PATTERNS, s) <==> e.InjectionPattern? && Deserved(s, e)
  {
    assert |INJECTION_PATTERNS| == 12;
    hide *;
    InjectionsAre(INJECTION_PATTERNS, s);
    if e.InjectionPattern? {
      DeservedInjection(s, e);
      if e.index < 12 {
        InjectionIsShape(e.index, s);
      }
    }
  }

  /** Each error is reported exactly when the text deserves it. */
  lemma ErrorsExactly(s: string, e: Error)
    ensures e in Errors(s) <==> Deserved(s, e)
  {
    ForbiddenExactly(s, e);
    InjectionsExactly(s, e);
    SelectIsStart(s);
    FilterIsFound(s);
    HardcodedIsFound(s);
    hide Found, MatchesAt, ForbiddenErrors, InjectionErrors, HasWord, RefusedShape, RefusedWord, StartsWithSelect;
    hide HasFilter, HasHardcodedTenant, Literal;
  }

  /** The texts that can be executed: a `SELECT` with the bound tenant filter, without any of
      the refused words and shapes. */
  lemma CanExecuteExactlyWhen(s: string)
    ensures ReportOf(s).CanExecute() <==>
            && StartsWithSelect(s) && HasFilter(s)
            && (forall n :: 0 <= n < 14 ==> !HasWord(s, RefusedWord(n)))
            && (forall n :: 0 <= n < 12 ==> !RefusedShape(n, s))
    ensures ReportOf(s).hasTenantFilter <==> HasFilter(s)
    ensures ReportOf(s).isSelectOnly <==> StartsWithSelect(s)
  {
    hide Errors, Warnings, Sanitize, Found, MatchesAt, Literal, StartsWithSelect, HasFilter, HasWord, RefusedShape;
    hide RefusedWord, HasHardcodedTenant;
    SelectIsStart(s);
    FilterIsFound(s);
    forall e ensures e in Errors(s) <==> Deserved(s, e) {
      ErrorsExactly(s, e);
    }
    NoErrorsExactly(s);
  }

  lemma NoErrorsExactly(s: string)
    requires forall e :: e in Errors(s) <==> Deserved(s, e)
    ensures Errors(s) == [] <==>
            && StartsWithSelect(s) && HasFilter(s)
            && (forall n :: 0 <= n < 14 ==> !HasWord(s, RefusedWord(n)))
            && (forall n :: 0 <= n < 12 ==> !RefusedShape(n, s))
  {
    hide Errors, StartsWithSelect, HasFilter, HasWord, RefusedShape, RefusedWord, HasHardcodedTenant;
    if Errors(s) == [] {
      assert !Deserved(s, OnlySelect) && !Deserved(s, HardcodedTenant) && !Deserved(s, MissingTenantFilter);
      forall n | 0 <= n < 14 ensures !HasWord(s, RefusedWord(n)) {
        assert !Deserved(s, ForbiddenKeyword(RefusedWord(n)));
      }
      forall n | 0 <= n < 12 ensures !RefusedShape(n, s) {
        assert !Deserved(s, InjectionPattern(n));
      }
    } else {
      assert Errors(s)[0] in Errors(s);
    }
  }

  /** `t` stands in `s` from position `k` on. */
  predicate Embedded(t: string, s: string, k: nat) {
    k + |t| <= |s| && forall i :: 0 <= i < |t| ==> s[k + i] == t[i]
  }

  lemma BlankIn(t: string, s: string, k: nat, i: nat, j: nat)
    requires Embedded(t, s, k) && Blank(t, i, j)
    ensures Blank(s, k + i, k + j)
  {
    forall l | k + i <= l < k + j ensures White(s[l]) {
      assert s[k + (l - k)] == t[l - k];
    }
  }

  lemma SpelledIn(t: string, s: string, k: nat, w: string, i: nat)
    requires Embedded(t, s, k) && SpelledAt(t, w, i)
    ensures SpelledAt(s, w, k + i)
  {
    forall l | 0 <= l < |w| ensures SameLetter(s[k + i + l], w[l]) {
      assert s[k + (i + l)] == t[i + l];
    }
  }

  lemma CallIn(t: string, s: string, k: nat, w: string)
    requires Embedded(t, s, k) && Calls(t, w)
    ensures Calls(s, w)
  {
    var i :| 0 <= i <= |t| && CalledAt(t, w, i);
    var j :| i + |w| <= j < |t| && Blank(t, i + |w|, j) && t[j] == '(';
    hide Blank, SpelledAt;
    SpelledIn(t, s, k, w, i);
    BlankIn(t, s, k, i + |w|, j);
    assert s[k + j] == '(';
    assert CalledAt(s, w, k + i);
  }

  lemma StackedIn(t: string, s: string, k: nat)
    requires Embedded(t, s, k) && HasStacked(t)
    ensures HasStacked(s)
  {
    var i :| 0 <= i <= |t| && StackedAt(t, i);
    var j :| i < j <= |t| && Blank(t, i + 1, j) && WordAt(t, j);
    hide Blank;
    BlankIn(t, s, k, i + 1, j);
    assert s[k + i] == ';' && s[k + j] == t[j];
    assert Blank(s, k + i + 1, k + j) && WordAt(s, k + j);
    assert StackedAt(s, k + i);
  }

  lemma OutfileIn(t: string, s: string, k: nat)
    requires Embedded(t, s, k) && HasOutfile(t)
    ensures HasOutfile(s)
  {
    var i :| 0 <= i <= |t| && OutfileAt(t, i);
    var j :| i + 4 < j <= |t| && Blank(t, i + 4, j) && SpelledAt(t, "OUTFILE", j);
    hide Blank, SpelledAt;
    SpelledIn(t, s, k, "INTO", i);
    BlankIn(t, s, k, i + 4, j);
    SpelledIn(t, s, k, "OUTFILE", j);
    assert OutfileAt(s, k + i);
  }

  lemma TextIn(t: string, s: string, k: nat, w: string)
    requires Embedded(t, s, k) && Has(t, w)
    ensures Has(s, w)
  {
    var i :| 0 <= i <= |t| && SpelledAt(t, w, i);
    hide SpelledAt;
    SpelledIn(t, s, k, w, i);
    assert k + i <= |s|;
  }

  lemma WordIn(t: string, s: string, k: nat, w: string)
    requires Embedded(t, s, k) && HasWord(t, w) && !WordBefore(s, k) && !WordAt(s, k + |t|)
    ensures HasWord(s, w)
  {
    var i :| 0 <= i <= |t| && WholeWordAt(t, w, i);
    SpelledIn(t, s, k, w, i);
    assert i > 0 ==> s[k + (i - 1)] == t[i - 1];
    assert i + |w| < |t| ==> s[k + (i + |w|)] == t[i + |w|];
    hide SpelledAt;
    assert WholeWordAt(s, w, k + i);
  }

  lemma ExtendedIn(t: string, s: string, k: nat)
    requires Embedded(t, s, k) && HasExtended(t) && !WordBefore(s, k)
    ensures HasExtended(s)
  {
    var i :| 0 <= i <= |t| && ExtendedAt(t, i);
    SpelledIn(t, s, k, "xp_", i);
    assert i > 0 ==> s[k + (i - 1)] == t[i - 1];
    assert s[k + (i + 3)] == t[i + 3];
    hide SpelledAt;
    assert ExtendedAt(s, k + i);
  }

  lemma ShapeIn(t: string, s: string, k: nat, n: nat)
    requires n < 12 && RefusedShape(n, t) && Embedded(t, s, k)
    requires n == 3 || n == 4 ==> !WordBefore(s, k) && !WordAt(s, k + |t|)
    ensures RefusedShape(n, s)
  {
    hide Embedded, Calls, Has, HasWord, HasExtended, HasStacked, HasOutfile, WordBefore, WordAt;
    match n
    case 0 => StackedIn(t, s, k);
    case 1 => TextIn(t, s, k, "--");
    case 2 => TextIn(t, s, k, "/*");
    case 3 => WordIn(t, s, k, "UNION");
    case 4 => ExtendedIn(t, s, k);
    case 5 => CallIn(t, s, k, "SLEEP");
    case 6 => CallIn(t, s, k, "BENCHMARK");
    case 7 => CallIn(t, s, k, "LOAD_FILE");
    case 8 => OutfileIn(t, s, k);
    case 9 => TextIn(t, s, k, "INFORMATION_SCHEMA");
    case 10 => CallIn(t, s, k, "PG_SLEEP");
    case _ => CallIn(t, s, k, "PG_READ_FILE");
  }

  lemma StandsBetween(a: string, t: string, b: string)
    ensures Embedded(t, a + t + b, |a|)
    ensures (a == "" || !WordChar(a[|a| - 1])) && (b == "" || !WordChar(b[0])) ==>
              !WordBefore(a + t + b, |a|) && !WordAt(a + t + b, |a| + |t|)
  {
  }

  lemma IsTheWord(w: string, n: nat)
    requires n < 14 && |w| == |RefusedWord(n)| && forall k :: 0 <= k < |w| ==> SameLetter(w[k], RefusedWord(n)[k])
    ensures HasWord(w, RefusedWord(n))
  {
    assert WholeWordAt(w, RefusedWord(n), 0);
  }

  /** In particular a refused word, in any case, between two characters that end words. */
  lemma WordIsRefused(a: string, w: string, b: string, n: nat)
    requires n < 14 && |w| == |RefusedWord(n)| && forall k :: 0 <= k < |w| ==> SameLetter(w[k], RefusedWord(n)[k])
    requires (a == "" || !WordChar(a[|a| - 1])) && (b == "" || !WordChar(b[0]))
    ensures !ReportOf(a + w + b).CanExecute()
  {
    hide *;
    IsTheWord(w, n);
    StandsBetween(a, w, b);
    WordIn(w, a + w + b, |a|, RefusedWord(n));
    CanExecuteExactlyWhen(a + w + b);
  }

  /** And each refused shape, wherever it stands; `UNION` and `xp_` only between characters
      that end words. */
  lemma ShapeIsRefused(a: string, t: string, b: string, n: nat)
    requires n < 12 && RefusedShape(n, t)
    requires n == 3 || n == 4 ==> (a == "" || !WordChar(a[|a| - 1])) && (b == "" || !WordChar(b[0]))
    ensures !ReportOf(a + t + b).CanExecute()
  {
    hide *;
    StandsBetween(a, t, b);
    ShapeIn(t, a + t + b, |a|, n);
    CanExecuteExactlyWhen(a + t + b);
  }

  /** The place of a refused word in the list. */
  function NumberOf(w: string): nat {
    if w == "INSERT" then 0 else if w == "UPDATE" then 1 else if w == "DELETE" then 2 else if w == "DROP" then 3
    else if w == "TRUNCATE" then 4 else if w == "ALTER" then 5 else if w == "CREATE" then 6
    else if w == "REPLACE" then 7 else if w == "MERGE" then 8 else if w == "EXEC" then 9
    else if w == "EXECUTE" then 10 else if w == "CALL" then 11 else if w == "GRANT" then 12 else 13
  }

  function Rank(e: Error): nat {
    match e
    case OnlySelect => 0
    case ForbiddenKeyword(w) => 1 + NumberOf(w)
    case InjectionPattern(n) => 15 + n
    case HardcodedTenant => 27
    case MissingTenantFilter => 27
  }

  predicate InOrder(es: seq<Error>, low: nat, high: nat) {
    && (forall i, j :: 0 <= i < j < |es| ==> Rank(es[i]) < Rank(es[j]))
    && (forall i :: 0 <= i < |es| ==> low <= Rank(es[i]) < high)
  }

  lemma InOrderAppend(a: seq<Error>, b: seq<Error>, low: nat, mid: nat, high: nat)
    requires InOrder(a, low, mid) && InOrder(b, mid, high) && low <= mid <= high
    ensures InOrder(a + b, low, high)
  {
    hide Rank;
  }

  lemma {:induction false} ForbiddenInOrder(words: seq<string>, s: string)
    requires forall i :: 0 <= i < |words| ==> NumberOf(words[i]) == i
    ensures InOrder(ForbiddenErrors(words, s), 1, 1 + |words|)
  {
    hide Found, Keyword, NumberOf;
    if words != [] {
      ForbiddenInOrder(words[..|words| - 1], s);
    }
  }

  lemma {:induction false} InjectionsInOrder(patterns: seq<Pattern>, s: string)
    ensures InOrder(InjectionErrors(patterns, s), 15, 15 + |patterns|)
  {
    hide Found, NumberOf;
    if patterns != [] {
      InjectionsInOrder(patterns[..|patterns| - 1], s);
    }
  }

  lemma WordsAreNumbered(n: nat)
    requires n < 14
    ensures NumberOf(FORBIDDEN_STATEMENTS[n]) == n
  {
  }

  lemma OneInOrder(e: Error)
    ensures InOrder([e], Rank(e), Rank(e) + 1) && InOrder([], Rank(e), Rank(e) + 1)
  {
    hide Rank;
  }

  lemma OneTenantError(s: string)
    ensures TenantErrors(s) == [] || TenantErrors(s) == [HardcodedTenant] || TenantErrors(s) == [MissingTenantFilter]
  {
    hide Found;
  }

  lemma EndRanks()
    ensures Rank(OnlySelect) == 0 && Rank(HardcodedTenant) == 27 && Rank(MissingTenantFilter) == 27
  {
  }

  lemma ErrorParts(s: string)
    ensures Errors(s) ==
            (if MatchesAt(SELECT_START, false, s) then [] else [OnlySelect])
              + ForbiddenErrors(FORBIDDEN_STATEMENTS, s) + InjectionErrors(INJECTION_PATTERNS, s) + TenantErrors(s)
    ensures |FORBIDDEN_STATEMENTS| == 14 && |INJECTION_PATTERNS| == 12
  {
  }

  /** The errors are listed as the rules come, each once. */
  lemma ErrorsInOrder(s: string)
    ensures InOrder(Errors(s), 0, 28)
  {
    hide *;
    var start := if MatchesAt(SELECT_START, false, s) then [] else [OnlySelect];
    var words, shapes, tenant :=
      ForbiddenErrors(FORBIDDEN_STATEMENTS, s), InjectionErrors(INJECTION_PATTERNS, s), TenantErrors(s);
    ErrorParts(s);
    EndRanks();
    OneInOrder(OnlySelect);
    OneTenantError(s);
    OneInOrder(HardcodedTenant);
    OneInOrder(MissingTenantFilter);
    forall n | 0 <= n < 14 ensures NumberOf(FORBIDDEN_STATEMENTS[n]) == n {
      WordsAreNumbered(n);
    }
    ForbiddenInOrder(FORBIDDEN_STATEMENTS, s);
    InjectionsInOrder(INJECTION_PATTERNS, s);
    InOrderAppend(start, words, 0, 1, 15);
    InOrderAppend(start + words, shapes, 0, 15, 27);
    InOrderAppend(start + words + shapes, tenant, 0, 27, 28);
  }

  /* ---------- the warnings ---------- */

  /** `SELECT`, white space and a star. */
  predicate SelectAllAt(s: string, i: nat) {
    SpelledAt(s, "SELECT", i) && exists j :: i + 6 < j < |s| && Blank(s, i + 6, j) && s[j] == '*'
  }

  predicate HasSelectAll(s: string) { exists i :: 0 <= i <= |s| && SelectAllAt(s, i) }

  /** `COUNT`, at the start of a word, white space and an opening parenthesis. */
  predicate HasCount(s: string) { exists i :: 0 <= i <= |s| && CalledAt(s, "COUNT", i) && !WordBefore(s, i) }

  lemma StarThen(w: string, s: string, i: nat)
    ensures Spelled(Literal(w) + [SomeSpaces, Lit('*')], s, i) <==>
            SpelledAt(s, w, i) && exists j :: i + |w| < j < |s| && Blank(s, i + |w|, j) && s[j] == '*'
  {
    var rest: Pattern := [SomeSpaces, Lit('*')];
    LiteralThen(w, rest, s, i);
    assert rest[1..] == [Lit('*')] && rest[1..][1..] == [];
    assert forall c: char :: SameLetter(c, '*') <==> c == '*';
    hide SameLetter, Literal, SpelledAt, Blank;
    assert forall j: nat :: Spelled([Lit('*')], s, j) <==> j < |s| && s[j] == '*';
    assert i + |w| <= |s| ==> (Spelled(rest, s, i + |w|) <==>
        exists j :: i + |w| < j <= |s| && Blank(s, i + |w|, j) && Spelled([Lit('*')], s, j));
  }

  lemma SelectAllIsFound(s: string)
    ensures Found(SELECT_ALL, s) <==> HasSelectAll(s)
  {
    assert |"SELECT"| == 6;
    FoundIsOccurrence(SELECT_ALL, s);
    hide Found, SpelledAt, Blank, Spelled, Literal;
    forall i: nat ensures Spelled(SELECT_ALL, s, i) <==> SelectAllAt(s, i) {
      StarThen("SELECT", s, i);
    }
  }

  lemma BoundedCallThen(w: string, s: string, i: nat)
    requires AllWord(w)
    ensures Spelled([Boundary] + Call(w), s, i) <==> CalledAt(s, w, i) && !WordBefore(s, i)
  {
    assert ([Boundary] + Call(w))[1..] == Call(w);
    CallThen(w, s, i);
    if SpelledAt(s, w, i) {
      WordEnds(s, w, i);
    }
    hide SpelledAt, Call, WordBefore, WordAt, Blank;
  }

  lemma CountIsFound(s: string)
    ensures Found(COUNT_CALL, s) <==> HasCount(s)
  {
    assert AllWord("COUNT");
    FoundIsOccurrence(COUNT_CALL, s);
    hide Found, CalledAt, WordBefore, Spelled, Call, AllWord;
    forall i: nat ensures Spelled(COUNT_CALL, s, i) <==> CalledAt(s, "COUNT", i) && !WordBefore(s, i) {
      BoundedCallThen("COUNT", s, i);
    }
  }

  lemma WarningParts(s: string)
    ensures WildcardWithJoin in Warnings(s) <==> Found(SELECT_ALL, s) && Found(Keyword("JOIN"), s)
    ensures NoLimit in Warnings(s) <==> !Found(Keyword("LIMIT"), s) && !Found(COUNT_CALL, s)
  {
    hide Found, Keyword, Literal, Call;
  }

  lemma JoinAndLimitAreWords()
    ensures AllWord("JOIN") && AllWord("LIMIT")
  {
  }

  /** When each warning is given. */
  lemma WarningsExactly(s: string)
    ensures WildcardWithJoin in Warnings(s) <==> HasSelectAll(s) && HasWord(s, "JOIN")
    ensures NoLimit in Warnings(s) <==> !HasWord(s, "LIMIT") && !HasCount(s)
  {
    hide *;
    WarningParts(s);
    JoinAndLimitAreWords();
    SelectAllIsFound(s);
    CountIsFound(s);
    KeywordIsWord("JOIN", s);
    KeywordIsWord("LIMIT", s);
  }
}
