/**
 `QueryValidator` (src/infrastructure/erp/query_validator.py): the rules are regular
 expressions over the raw text, and what is executed is the sanitized text. The rules
 are modelled by a small matcher over ASCII text, and sanitizing is shown to be invisible
 to it: the text that is executed passes exactly when the raw text does.
 */
module SqlValidator {
  import opened PythonText

  /* ---------- patterns ---------- */

  /** The pieces that the rules are made of; letters match in either case. */
  datatype Item =
    | Lit(c: char)        // one character
    | Boundary            // \b
    | Spaces              // \s*
    | SomeSpaces          // \s+
    | Word                // \w
    | SomeWord            // \w+
    | ColonOrDollar       // [:$]
    | NotQuotes           // [^']*

  type Pattern = seq<Item>

  /** Whether the pattern matches at the start of `s`, when the character before `s` is a
      word character or not. */
  predicate MatchesAt(p: Pattern, afterWord: bool, s: string)
    decreases |s|, |p|
  {
    if p == [] then true
    else
      match p[0]
      case Lit(c) => s != "" && Lower(s[0]) == Lower(c) && MatchesAt(p[1..], IsWord(s[0]), s[1..])
      case Boundary => afterWord != (s != "" && IsWord(s[0])) && MatchesAt(p[1..], afterWord, s)
      case Spaces => MatchesAt(p[1..], afterWord, s) || (s != "" && IsSpace(s[0]) && MatchesAt(p, false, s[1..]))
      case SomeSpaces => s != "" && IsSpace(s[0]) && (MatchesAt(p[1..], false, s[1..]) || MatchesAt(p, false, s[1..]))
      case Word => s != "" && IsWord(s[0]) && MatchesAt(p[1..], true, s[1..])
      case SomeWord => s != "" && IsWord(s[0]) && (MatchesAt(p[1..], true, s[1..]) || MatchesAt(p, true, s[1..]))
      case ColonOrDollar => s != "" && (s[0] == ':' || s[0] == '$') && MatchesAt(p[1..], false, s[1..])
      case NotQuotes =>
        MatchesAt(p[1..], afterWord, s) || (s != "" && s[0] != '\'' && MatchesAt(p, IsWord(s[0]), s[1..]))
  }

  /** `re.search`. */
  predicate Search(p: Pattern, afterWord: bool, s: string)
    decreases |s|
  {
    MatchesAt(p, afterWord, s) || (s != "" && Search(p, IsWord(s[0]), s[1..]))
  }

  predicate Found(p: Pattern, sql: string) { Search(p, false, sql) }

  /* ---------- sanitizing ---------- */

  function SkipSemicolons(s: string): string {
    if s != "" && s[0] == ';' then SkipSemicolons(s[1..]) else s
  }

  /** `re.sub(r";+\s*$", "", s)`: from the first run of semicolons with only white space
      behind it. */
  function DropSemicolons(s: string): string {
    if s == "" then ""
    else if s[0] == ';' && SkipSpaces(SkipSemicolons(s)) == "" then ""
    else [s[0]] + DropSemicolons(s[1..])
  }

  /** `re.sub(r"\s+", " ", s)`. */
  function Collapse(s: string): string
    decreases |s|
  {
    if s == "" then ""
    else if IsSpace(s[0]) then
      SkipIsShorter(s);
      " " + Collapse(SkipSpaces(s))
    else [s[0]] + Collapse(s[1..])
  }

  function Sanitize(sql: string): string {
    Collapse(DropSemicolons(Strip(sql)))
  }

  /* ---------- patterns that sanitizing cannot disturb ---------- */

  /** Consumes a character that sanitizing keeps. */
  predicate IsSolid(i: Item) {
    match i
    case Lit(c) => !IsSpace(c) && c != ';'
    case Word => true
    case SomeWord => true
    case ColonOrDollar => true
    case _ => false
  }

  predicate HasSolid(p: Pattern) {
    p != [] && (IsSolid(p[0]) || HasSolid(p[1..]))
  }

  /** Cannot match at white space. */
  predicate NoSpaceFirst(p: Pattern) {
    p != [] && match p[0]
               case Lit(c) => !IsSpace(c)
               case Boundary => NoSpaceFirst(p[1..])
               case _ => IsSolid(p[0])
  }

  /** Whatever may consume white space or semicolons is followed by something solid, and
      what may consume several spaces does not border on more of them. */
  predicate Regular(p: Pattern) {
    p == [] ||
    (Regular(p[1..]) && match p[0]
                        case Lit(c) => !IsSpace(c) && (c == ';' ==> HasSolid(p[1..]))
                        case Spaces => NoSpaceFirst(p[1..]) && HasSolid(p[1..])
                        case SomeSpaces => NoSpaceFirst(p[1..]) && HasSolid(p[1..])
                        case NotQuotes => NoSpaceFirst(p[1..]) && HasSolid(p[1..])
                        case _ => true)
  }

  /* ---------- white space or semicolons at the end ---------- */

  predicate IsTail(t: string) {
    forall i :: 0 <= i < |t| ==> IsSpace(t[i]) || t[i] == ';'
  }

  lemma {:induction false} NothingSolidInTail(p: Pattern, afterWord: bool, t: string)
    requires IsTail(t) && HasSolid(p)
    ensures !MatchesAt(p, afterWord, t)
    decreases |t|, |p|
  {
    if HasSolid(p[1..]) {
      NothingSolidInTail(p[1..], afterWord, t);
    }
    if t != "" {
      assert IsTail(t[1..]);
      NothingSolidInTail(p, false, t[1..]);
      if HasSolid(p[1..]) {
        NothingSolidInTail(p[1..], false, t[1..]);
      }
    }
  }

  lemma {:induction false} TailAlone(p: Pattern, afterWord: bool, t: string)
    requires IsTail(t) && Regular(p)
    ensures MatchesAt(p, afterWord, t) == MatchesAt(p, afterWord, "")
    decreases |p|
  {
    if HasSolid(p) {
      NothingSolidInTail(p, afterWord, t);
      NothingSolidInTail(p, afterWord, "");
    } else if p != [] {
      TailAlone(p[1..], afterWord, t);
    }
  }

  lemma {:induction false} TailIgnoredAt(p: Pattern, afterWord: bool, s: string, t: string)
    requires IsTail(t) && Regular(p)
    ensures MatchesAt(p, afterWord, s + t) == MatchesAt(p, afterWord, s)
    decreases |s|, |p|
  {
    if s == "" {
      assert s + t == t;
      TailAlone(p, afterWord, t);
    } else if p != [] {
      TailIgnoredAt(p[1..], afterWord, s, t);
      assert (s + t)[1..] == s[1..] + t;
      TailIgnoredAt(p[1..], IsWord(s[0]), s[1..], t);
      TailIgnoredAt(p, IsWord(s[0]), s[1..], t);
    }
  }

  lemma {:induction false} NotFoundInTail(p: Pattern, afterWord: bool, t: string)
    requires IsTail(t) && HasSolid(p)
    ensures !Search(p, afterWord, t)
    decreases |t|
  {
    NothingSolidInTail(p, afterWord, t);
    if t != "" {
      assert IsTail(t[1..]);
      NotFoundInTail(p, false, t[1..]);
    }
  }

  lemma {:induction false} TailIgnored(p: Pattern, afterWord: bool, s: string, t: string)
    requires IsTail(t) && Regular(p) && HasSolid(p)
    ensures Search(p, afterWord, s + t) == Search(p, afterWord, s)
    decreases |s|
  {
    TailIgnoredAt(p, afterWord, s, t);
    if s == "" {
      assert s + t == t;
      NotFoundInTail(p, afterWord, t);
      NotFoundInTail(p, afterWord, s);
    } else {
      assert (s + t)[1..] == s[1..] + t;
      TailIgnored(p, IsWord(s[0]), s[1..], t);
    }
  }

  /* ---------- runs of white space ---------- */

  lemma {:induction false} NoMatchAtSpace(p: Pattern, afterWord: bool, s: string)
    requires NoSpaceFirst(p) && s != "" && IsSpace(s[0])
    ensures !MatchesAt(p, afterWord, s)
    decreases |p|
  {
    if p[0].Boundary? {
      NoMatchAtSpace(p[1..], afterWord, s);
    }
  }

  /** At white space, an item that may consume it consumes the whole run. */
  lemma {:induction false} RunIsConsumed(p: Pattern, afterWord: bool, s: string)
    requires p != [] && (p[0].Spaces? || p[0].NotQuotes?) && NoSpaceFirst(p[1..])
    requires s != "" && IsSpace(s[0])
    ensures MatchesAt(p, afterWord, s) == MatchesAt(p, false, SkipSpaces(s))
    decreases |s|
  {
    NoMatchAtSpace(p[1..], afterWord, s);
    if s[1..] != "" && IsSpace(s[1]) {
      RunIsConsumed(p, false, s[1..]);
    }
  }

  lemma {:induction false} RunIsConsumedByPlus(p: Pattern, afterWord: bool, s: string)
    requires p != [] && p[0].SomeSpaces? && NoSpaceFirst(p[1..]) && s != "" && IsSpace(s[0])
    ensures MatchesAt(p, afterWord, s) == MatchesAt(p[1..], false, SkipSpaces(s))
    decreases |s|
  {
    if s[1..] != "" && IsSpace(s[1]) {
      NoMatchAtSpace(p[1..], false, s[1..]);
      RunIsConsumedByPlus(p, false, s[1..]);
    } else {
      assert SkipSpaces(s) == s[1..];
    }
  }

  lemma CollapseStart(s: string)
    ensures (s == "") == (Collapse(s) == "")
    ensures s != "" ==> Collapse(s)[0] == if IsSpace(s[0]) then ' ' else s[0]
  {
  }

  lemma {:induction false} CollapseAt(p: Pattern, afterWord: bool, s: string)
    requires Regular(p)
    ensures MatchesAt(p, afterWord, s) == MatchesAt(p, afterWord, Collapse(s))
    decreases |s|, |p|
  {
    CollapseStart(s);
    if p != [] && s != "" {
      CollapseAt(p[1..], afterWord, s);
      if IsSpace(s[0]) {
        SkipIsShorter(s);
        var rest := SkipSpaces(s);
        var short := Collapse(rest);
        CollapseStart(rest);
        CollapseAt(p[1..], false, rest);
        CollapseAt(p, false, rest);
        CollapseAtSpace(p, afterWord, s);
      } else {
        assert Collapse(s)[1..] == Collapse(s[1..]);
        CollapseAt(p[1..], IsWord(s[0]), s[1..]);
        CollapseAt(p, IsWord(s[0]), s[1..]);
      }
    }
  }

  lemma CollapseAtSpace(p: Pattern, afterWord: bool, s: string)
    requires Regular(p) && p != [] && s != "" && IsSpace(s[0])
    requires MatchesAt(p[1..], afterWord, s) == MatchesAt(p[1..], afterWord, Collapse(s))
    requires MatchesAt(p[1..], false, SkipSpaces(s)) == MatchesAt(p[1..], false, Collapse(SkipSpaces(s)))
    requires MatchesAt(p, false, SkipSpaces(s)) == MatchesAt(p, false, Collapse(SkipSpaces(s)))
    ensures MatchesAt(p, afterWord, s) == MatchesAt(p, afterWord, Collapse(s))
  {
    var rest := SkipSpaces(s);
    var t := Collapse(s);
    SkipIsShorter(s);
    CollapseStart(s);
    CollapseStart(rest);
    assert t[1..] == Collapse(rest);
    assert SkipSpaces(t) == Collapse(rest);
    match p[0]
    case Spaces =>
      RunIsConsumed(p, afterWord, s);
      RunIsConsumed(p, afterWord, t);
    case NotQuotes =>
      RunIsConsumed(p, afterWord, s);
      RunIsConsumed(p, afterWord, t);
    case SomeSpaces =>
      RunIsConsumedByPlus(p, afterWord, s);
      RunIsConsumedByPlus(p, afterWord, t);
    case Boundary =>
    case _ =>
  }

  lemma {:induction false} SearchSkipsSpaces(p: Pattern, afterWord: bool, s: string)
    requires NoSpaceFirst(p) && s != "" && IsSpace(s[0])
    ensures Search(p, afterWord, s) == Search(p, false, SkipSpaces(s))
    decreases |s|
  {
    NoMatchAtSpace(p, afterWord, s);
    if s[1..] != "" && IsSpace(s[1]) {
      SearchSkipsSpaces(p, false, s[1..]);
    } else {
      assert SkipSpaces(s) == s[1..];
    }
  }

  lemma {:induction false} CollapseIgnored(p: Pattern, afterWord: bool, s: string)
    requires Regular(p) && NoSpaceFirst(p)
    ensures Search(p, afterWord, s) == Search(p, afterWord, Collapse(s))
    decreases |s|
  {
    CollapseStart(s);
    if s != "" {
      if IsSpace(s[0]) {
        SkipIsShorter(s);
        var rest := SkipSpaces(s);
        CollapseStart(rest);
        CollapseIgnored(p, false, rest);
        SearchSkipsSpaces(p, afterWord, s);
        assert Collapse(s)[1..] == Collapse(rest);
        SearchSkipsSpaces(p, afterWord, Collapse(s));
        assert SkipSpaces(Collapse(s)) == Collapse(rest);
      } else {
        CollapseAt(p, afterWord, s);
        assert Collapse(s)[1..] == Collapse(s[1..]);
        CollapseIgnored(p, IsWord(s[0]), s[1..]);
      }
    }
  }

  /* ---------- what sanitizing removes ---------- */

  predicate AllSemicolons(s: string) { forall i :: 0 <= i < |s| ==> s[i] == ';' }

  lemma {:induction false} SkipSemicolonsSplits(s: string) returns (run: string)
    ensures s == run + SkipSemicolons(s) && AllSemicolons(run)
    ensures s != "" && s[0] == ';' ==> run != ""
  {
    if s != "" && s[0] == ';' {
      var rest := SkipSemicolonsSplits(s[1..]);
      run := [s[0]] + rest;
    } else {
      run := "";
    }
  }

  /** What `;+\s*$` removes is a run of semicolons and then white space, at the end. */
  lemma {:induction false} DropSemicolonsSplits(s: string) returns (semis: string, spaces: string)
    ensures s == DropSemicolons(s) + semis + spaces
    ensures AllSemicolons(semis) && AllSpaces(spaces)
    decreases |s|
  {
    hide SkipSpaces, SkipSemicolons, AllSpaces, AllSemicolons;
    if s == "" {
      semis, spaces := "", "";
      NoneOf();
    } else if s[0] == ';' && SkipSpaces(SkipSemicolons(s)) == "" {
      semis := SkipSemicolonsSplits(s);
      spaces := SkipSpacesSplits(SkipSemicolons(s));
    } else {
      semis, spaces := DropSemicolonsSplits(s[1..]);
      assert s == [s[0]] + s[1..];
    }
  }

  lemma NoneOf()
    ensures AllSemicolons("") && AllSpaces("")
  {
  }

  /** There is no white space to remove behind the semicolons of a stripped text. */
  lemma NoSpacesAtEnd(s: string, kept: string, spaces: string)
    requires s == kept + spaces && AllSpaces(spaces) && (s == "" || !IsSpace(s[|s| - 1]))
    ensures spaces == ""
  {
  }

  /** The text that is kept before collapsing. */
  function Core(sql: string): string { DropSemicolons(Strip(sql)) }

  /** The source is white space, then the core, then semicolons and white space. */
  lemma CoreSplits(sql: string) returns (tail: string)
    ensures SkipSpaces(sql) == Core(sql) + tail && IsTail(tail)
  {
    var body := Strip(sql);
    var end := TrimEndIsPrefix(SkipSpaces(sql));
    var semis, spaces := DropSemicolonsSplits(body);
    tail := semis + spaces + end;
  }

  /** Searching the sanitized text finds what searching the source finds. */
  lemma SanitizeKeepsSearch(p: Pattern, sql: string)
    requires Regular(p) && NoSpaceFirst(p) && HasSolid(p)
    ensures Found(p, Sanitize(sql)) == Found(p, sql)
  {
    if sql != "" && IsSpace(sql[0]) {
      SearchSkipsSpaces(p, false, sql);
    }
    var tail := CoreSplits(sql);
    TailIgnored(p, false, Core(sql), tail);
    CollapseIgnored(p, false, Core(sql));
  }

  /** The same for a pattern that may skip white space at the start of the text. */
  lemma SanitizeKeepsStart(p: Pattern, sql: string)
    requires Regular(p) && p != [] && p[0].Spaces?
    ensures MatchesAt(p, false, Sanitize(sql)) == MatchesAt(p, false, sql)
  {
    if sql != "" && IsSpace(sql[0]) {
      RunIsConsumed(p, false, sql);
    }
    var tail := CoreSplits(sql);
    TailIgnoredAt(p, false, Core(sql), tail);
    CollapseAt(p, false, Core(sql));
  }

  /* ---------- what sanitizing keeps ---------- */

  lemma {:induction false} NonSpacesOfSemicolons(s: string)
    requires forall i :: 0 <= i < |s| ==> s[i] == ';'
    ensures NonSpaces(s) == s
  {
    if s != "" {
      NonSpacesOfSemicolons(s[1..]);
    }
  }

  lemma {:induction false} NonSpacesCollapse(s: string)
    ensures NonSpaces(Collapse(s)) == NonSpaces(s)
    decreases |s|
  {
    if s != "" {
      if IsSpace(s[0]) {
        SkipIsShorter(s);
        assert Collapse(s)[1..] == Collapse(SkipSpaces(s));
        NonSpacesCollapse(SkipSpaces(s));
        NonSpacesSkip(s);
      } else {
        assert Collapse(s)[1..] == Collapse(s[1..]);
        NonSpacesCollapse(s[1..]);
      }
    }
  }

  /** Sanitizing removes no character but white space and the semicolons at the end. */
  lemma SanitizeKeepsText(sql: string) returns (semicolons: string)
    ensures NonSpaces(sql) == NonSpaces(Sanitize(sql)) + semicolons
    ensures forall i :: 0 <= i < |semicolons| ==> semicolons[i] == ';'
    ensures semicolons == "" <==> Strip(sql) == "" || Strip(sql)[|Strip(sql)| - 1] != ';'
  {
    var body := Strip(sql);
    NonSpacesStrip(sql);
    var end := TrimEndIsPrefix(SkipSpaces(sql));
    var semis, spaces := DropSemicolonsSplits(body);
    NoSpacesAtEnd(body, Core(sql) + semis, spaces);
    semicolons := semis;
    assert body == Core(sql) + semicolons;
    NonSpacesAppend(Core(sql), semicolons);
    NonSpacesOfSemicolons(semicolons);
    NonSpacesCollapse(Core(sql));
    if body != "" && body[|body| - 1] == ';' {
      LastSemicolonGoes(body);
    }
  }

  lemma {:induction false} LastSemicolonGoes(s: string)
    requires s != "" && s[|s| - 1] == ';'
    ensures |DropSemicolons(s)| < |s|
  {
    if |s| == 1 {
      assert SkipSemicolons(s) == SkipSemicolons(s[1..]) == "";
    } else {
      LastSemicolonGoes(s[1..]);
    }
  }

  /* ---------- sanitizing twice ---------- */

  /** Single blanks only, none at the start. */
  predicate IsCollapsed(s: string) {
    forall i :: 0 <= i < |s| && IsSpace(s[i]) ==> s[i] == ' ' && (i + 1 < |s| ==> !IsSpace(s[i + 1]))
  }

  lemma {:induction false} CollapseIsCollapsed(s: string)
    ensures IsCollapsed(Collapse(s))
    decreases |s|
  {
    if s != "" {
      if IsSpace(s[0]) {
        SkipIsShorter(s);
        var rest := Collapse(SkipSpaces(s));
        CollapseIsCollapsed(SkipSpaces(s));
        CollapseStart(SkipSpaces(s));
        hide Collapse, SkipSpaces;
        assert forall i :: 1 <= i < |" " + rest| ==> (" " + rest)[i] == rest[i - 1];
      } else {
        CollapseIsCollapsed(s[1..]);
        var rest := Collapse(s[1..]);
        assert forall i :: 1 <= i < |[s[0]] + rest| ==> ([s[0]] + rest)[i] == rest[i - 1];
      }
    }
  }

  lemma {:induction false} CollapsedStays(s: string)
    requires IsCollapsed(s)
    ensures Collapse(s) == s
    decreases |s|
  {
    if s != "" {
      assert forall i :: 1 <= i < |s| ==> s[i] == s[1..][i - 1];
      assert IsCollapsed(s[1..]);
      CollapsedStays(s[1..]);
      if IsSpace(s[0]) {
        assert SkipSpaces(s) == s[1..];
      }
    }
  }

  predicate EndsInSpace(s: string) { s != "" && IsSpace(s[|s| - 1]) }

  lemma {:induction false} CollapseEnd(s: string)
    requires s != ""
    ensures Collapse(s) != ""
    ensures Collapse(s)[|Collapse(s)| - 1] == if IsSpace(s[|s| - 1]) then ' ' else s[|s| - 1]
    decreases |s|
  {
    if IsSpace(s[0]) {
      SkipIsShorter(s);
      var run := SkipSpacesSplits(s);
      if SkipSpaces(s) != "" {
        CollapseEnd(SkipSpaces(s));
      } else {
        assert s == run;
      }
    } else if s[1..] != "" {
      CollapseEnd(s[1..]);
    }
  }

  lemma {:induction false} SkipSemicolonsOf(s: string)
    requires s != "" && s[0] == ';'
    ensures SkipSemicolons(s) == SkipSemicolons(s[1..])
  {
  }

  lemma {:induction false} CoreEnd(s: string)
    ensures DropSemicolons(s) == "" || DropSemicolons(s)[|DropSemicolons(s)| - 1] != ';'
  {
    if s != "" {
      CoreEnd(s[1..]);
      if s[0] == ';' {
        SkipSemicolonsOf(s);
      }
    }
  }

  lemma {:induction false} NothingToDrop(s: string)
    requires s == "" || (s[|s| - 1] != ';' && !IsSpace(s[|s| - 1]))
    ensures DropSemicolons(s) == s
  {
    if s != "" {
      NothingToDrop(s[1..]);
      if s[0] == ';' && SkipSpaces(SkipSemicolons(s)) == "" {
        MatchedEnd(s);
      }
    }
  }

  lemma MatchedEnd(s: string)
    requires s != "" && s[0] == ';' && SkipSpaces(SkipSemicolons(s)) == ""
    ensures s[|s| - 1] == ';' || IsSpace(s[|s| - 1])
  {
    var a := SkipSemicolonsSplits(s);
    var b := SkipSpacesSplits(SkipSemicolons(s));
    assert s == a + b;
    assert s[|s| - 1] == if b != "" then b[|b| - 1] else a[|a| - 1];
  }

  lemma {:induction false} CollapseIsShorter(s: string)
    ensures |Collapse(s)| <= |s|
    decreases |s|
  {
    if s != "" {
      if IsSpace(s[0]) {
        SkipIsShorter(s);
        CollapseIsShorter(SkipSpaces(s));
      } else {
        CollapseIsShorter(s[1..]);
      }
    }
  }

  lemma SanitizeIsShorter(s: string)
    ensures |Sanitize(s)| <= |s|
    ensures EndsInSpace(s) ==> |Sanitize(s)| < |s|
  {
    SkipIsShorter(s);
    CollapseIsShorter(Core(s));
    var end := TrimEndIsPrefix(SkipSpaces(s));
    var semis, spaces := DropSemicolonsSplits(Strip(s));
  }

  lemma CoreStart(sql: string)
    ensures Core(sql) != "" ==> !IsSpace(Core(sql)[0])
  {
    SkipIsShorter(sql);
    var tail := CoreSplits(sql);
  }

  /** Sanitizing again changes nothing exactly when no white space stands before the
      semicolons at the end. */
  lemma SanitizeTwice(sql: string)
    ensures Sanitize(Sanitize(sql)) == Sanitize(sql) <==> !EndsInSpace(Core(sql))
  {
    var once := Sanitize(sql);
    if Core(sql) != "" {
      CollapseEnd(Core(sql));
      CollapseStart(Core(sql));
      CoreStart(sql);
      CoreEnd(Strip(sql));
      if EndsInSpace(Core(sql)) {
        SanitizeIsShorter(once);
      } else {
        assert SkipSpaces(once) == once && TrimEnd(once) == once;
        NothingToDrop(once);
        CollapseIsCollapsed(Core(sql));
        CollapsedStays(once);
      }
    }
  }

  lemma {:induction false} NoSemicolonStays(s: string)
    requires ';' !in s
    ensures DropSemicolons(s) == s
  {
    if s != "" {
      NoSemicolonStays(s[1..]);
    }
  }

  lemma TidyStays(s: string)
    requires s != "" && !IsSpace(s[0]) && !IsSpace(s[|s| - 1]) && IsCollapsed(s) && ';' !in s
    ensures Sanitize(s) == s
  {
    NoSemicolonStays(s);
    CollapsedStays(s);
  }

  lemma {:induction false} OnlySemicolonsDrop(s: string)
    requires AllSemicolons(s)
    ensures SkipSemicolons(s) == "" && DropSemicolons(s) == ""
  {
    if s != "" {
      OnlySemicolonsDrop(s[1..]);
    }
  }

  lemma {:induction false} TrailingSemicolonsDrop(a: string, semis: string)
    requires ';' !in a && AllSemicolons(semis)
    ensures DropSemicolons(a + semis) == a
    decreases |a|
  {
    if a == "" {
      assert a + semis == semis;
      OnlySemicolonsDrop(semis);
    } else {
      assert (a + semis)[1..] == a[1..] + semis;
      TrailingSemicolonsDrop(a[1..], semis);
    }
  }

  /** Text without white space at its ends and without semicolons comes out of white space
      and trailing semicolons as it was, with its own runs of white space collapsed. */
  lemma SanitizeUnwraps(front: string, a: string, semis: string, back: string)
    requires AllSpaces(front) && AllSpaces(back) && AllSemicolons(semis) && ';' !in a
    requires a != "" && !IsSpace(a[0]) && !IsSpace(a[|a| - 1])
    ensures Sanitize(front + (a + semis + back)) == Collapse(a)
  {
    var core := a + semis;
    assert core[0] == a[0] && core[|core| - 1] == if semis == "" then a[|a| - 1] else semis[|semis| - 1];
    StripIs(front, core, back);
    TrailingSemicolonsDrop(a, semis);
  }

  /** A run of white space becomes one space. */
  lemma {:induction false} CollapseIsOneSpace(a: string, run: string, b: string)
    requires AllSpaces(run) && run != "" && (a == "" || !IsSpace(a[|a| - 1])) && (b == "" || !IsSpace(b[0]))
    ensures Collapse(a + (run + b)) == Collapse(a) + (" " + Collapse(b))
    decreases |a|
  {
    var s := a + (run + b);
    if a == "" {
      assert s == run + b;
      SkipsSpaces(run, b);
    } else if IsSpace(a[0]) {
      var rest := SkipSpaces(a);
      SkipIsShorter(a);
      SkipKeepsEnd(a, run + b);
      CollapseIsOneSpace(rest, run, b);
    } else {
      assert s[1..] == a[1..] + (run + b);
      CollapseIsOneSpace(a[1..], run, b);
    }
  }

  lemma {:induction false} SkipKeepsEnd(a: string, b: string)
    requires a != "" && !IsSpace(a[|a| - 1])
    ensures SkipSpaces(a + b) == SkipSpaces(a) + b
    ensures SkipSpaces(a) != "" && SkipSpaces(a)[|SkipSpaces(a)| - 1] == a[|a| - 1]
    decreases |a|
  {
    if IsSpace(a[0]) {
      assert (a + b)[1..] == a[1..] + b;
      SkipKeepsEnd(a[1..], b);
    }
  }

  /** An input on which it does change. */
  lemma SanitizeTwiceCanDiffer()
    ensures Sanitize(Sanitize("1 ;")) != Sanitize("1 ;")
  {
  }

  /* ---------- the rules ---------- */

  function Literal(s: string): (p: Pattern)
    ensures |p| == |s| && forall i :: 0 <= i < |s| ==> p[i] == Lit(s[i])
  {
    if s == "" then [] else [Lit(s[0])] + Literal(s[1..])
  }

  function Keyword(s: string): Pattern { [Boundary] + Literal(s) + [Boundary] }

  const FORBIDDEN_STATEMENTS: seq<string> :=
    ["INSERT", "UPDATE", "DELETE", "DROP", "TRUNCATE", "ALTER", "CREATE", "REPLACE", "MERGE", "EXEC",
     "EXECUTE", "CALL", "GRANT", "REVOKE"]

  const INJECTION_PATTERNS: seq<Pattern> :=
    [[Lit(';'), Spaces, Word],
     Literal("--"),
     Literal("/*"),
     Keyword("UNION"),
     [Boundary] + Literal("xp_") + [SomeWord],
     Call("SLEEP"),
     Call("BENCHMARK"),
     Call("LOAD_FILE"),
     Literal("INTO") + ([SomeSpaces] + Literal("OUTFILE")),
     Literal("INFORMATION_SCHEMA"),
     Call("PG_SLEEP"),
     Call("PG_READ_FILE")]

  function Call(s: string): Pattern { Literal(s) + [Spaces, Lit('(')] }

  const TENANT_FILTER: Pattern :=
    Literal("tenant_id") + ([Spaces] + ([Lit('=')] + ([Spaces] + ([ColonOrDollar] + Literal("tenant_id")))))

  const LITERAL_TENANT: Pattern :=
    Literal("tenant_id") + [Spaces, Lit('='), Spaces, Lit('\''), NotQuotes, Lit('\'')]

  const SELECT_START: Pattern := [Spaces] + (Literal("SELECT") + [Boundary])
  const SELECT_ALL: Pattern := Literal("SELECT") + [SomeSpaces, Lit('*')]
  const COUNT_CALL: Pattern := [Boundary] + Call("COUNT")

  predicate Plain(s: string) { s != "" && forall i :: 0 <= i < |s| ==> !IsSpace(s[i]) && s[i] != ';' }

  /** Text in front of a regular pattern keeps it regular. */
  lemma {:induction false} PlainPrefix(s: string, p: Pattern)
    requires Plain(s) && Regular(p)
    ensures Regular(Literal(s) + p) && NoSpaceFirst(Literal(s) + p) && HasSolid(Literal(s) + p)
    decreases |s|
  {
    if |s| == 1 {
      assert Literal(s) + p == [Lit(s[0])] + p;
      assert ([Lit(s[0])] + p)[1..] == p;
    } else {
      PlainPrefix(s[1..], p);
      assert Literal(s) == [Lit(s[0])] + Literal(s[1..]);
      assert (Literal(s) + p)[1..] == Literal(s[1..]) + p;
    }
  }

  predicate Steady(p: Pattern) { Regular(p) && NoSpaceFirst(p) && HasSolid(p) }

  lemma BoundaryFirst(p: Pattern)
    requires Steady(p)
    ensures Steady([Boundary] + p)
  {
    assert ([Boundary] + p)[1..] == p;
  }

  lemma KeywordIsSteady(s: string)
    requires Plain(s)
    ensures Steady(Keyword(s))
  {
    assert [Boundary][1..] == [];
    PlainPrefix(s, [Boundary]);
    BoundaryFirst(Literal(s) + [Boundary]);
    assert Keyword(s) == [Boundary] + (Literal(s) + [Boundary]);
  }

  lemma CallIsSteady(s: string)
    requires Plain(s)
    ensures Steady(Call(s))
  {
    var p: Pattern := [Spaces, Lit('(')];
    assert p[1..] == [Lit('(')] && p[1..][1..] == [];
    PlainPrefix(s, p);
  }

  lemma LiteralIsSteady(s: string)
    requires Plain(s)
    ensures Steady(Literal(s))
  {
  }

  lemma InjectionsAreSteady(i: nat)
    requires i < 12
    ensures Steady(INJECTION_PATTERNS[i])
  {
    hide Literal, Steady;
    if i == 0 {
      StackedIsSteady();
    } else if i == 1 {
      LiteralIsSteady("--");
    } else if i == 2 {
      LiteralIsSteady("/*");
    } else if i == 3 {
      KeywordIsSteady("UNION");
    } else if i == 4 {
      ExtendedIsSteady();
    } else if i == 5 {
      CallIsSteady("SLEEP");
    } else if i == 6 {
      CallIsSteady("BENCHMARK");
    } else if i == 7 {
      CallIsSteady("LOAD_FILE");
    } else if i == 8 {
      OutfileIsSteady();
    } else if i == 9 {
      LiteralIsSteady("INFORMATION_SCHEMA");
    } else if i == 10 {
      CallIsSteady("PG_SLEEP");
    } else {
      CallIsSteady("PG_READ_FILE");
    }
  }

  lemma StackedIsSteady()
    ensures Steady([Lit(';'), Spaces, Word])
  {
  }

  lemma ExtendedIsSteady()
    ensures Steady([Boundary] + Literal("xp_") + [SomeWord])
  {
    assert [SomeWord][1..] == [];
    PlainPrefix("xp_", [SomeWord]);
    BoundaryFirst(Literal("xp_") + [SomeWord]);
    assert [Boundary] + Literal("xp_") + [SomeWord] == [Boundary] + (Literal("xp_") + [SomeWord]);
  }

  lemma OutfileIsSteady()
    ensures Steady(Literal("INTO") + ([SomeSpaces] + Literal("OUTFILE")))
  {
    LiteralIsSteady("OUTFILE");
    var p := [SomeSpaces] + Literal("OUTFILE");
    assert p[1..] == Literal("OUTFILE");
    PlainPrefix("INTO", p);
  }

  lemma SpacesFirst(p: Pattern)
    requires Steady(p)
    ensures Regular([Spaces] + p)
  {
    assert ([Spaces] + p)[1..] == p;
  }

  lemma EqualsFirst(p: Pattern)
    requires Regular(p)
    ensures Steady([Lit('=')] + p)
  {
    assert ([Lit('=')] + p)[1..] == p;
  }

  lemma ColonFirst(p: Pattern)
    requires Regular(p)
    ensures Steady([ColonOrDollar] + p)
  {
    assert ([ColonOrDollar] + p)[1..] == p;
  }

  lemma FilterIsSteady()
    ensures Steady(TENANT_FILTER)
  {
    LiteralIsSteady("tenant_id");
    ColonFirst(Literal("tenant_id"));
    hide *;
    var filter := [ColonOrDollar] + Literal("tenant_id");
    SpacesFirst(filter);
    EqualsFirst([Spaces] + filter);
    SpacesFirst([Lit('=')] + ([Spaces] + filter));
    TenantIdFirst([Spaces] + ([Lit('=')] + ([Spaces] + filter)));
  }

  lemma TenantIdFirst(p: Pattern)
    requires Regular(p)
    ensures Steady(Literal("tenant_id") + p)
  {
    PlainPrefix("tenant_id", p);
  }

  lemma LiteralTenantIsSteady()
    ensures Steady(LITERAL_TENANT)
  {
    var p: Pattern := [Spaces, Lit('='), Spaces, Lit('\''), NotQuotes, Lit('\'')];
    assert p[1..] == [Lit('='), Spaces, Lit('\''), NotQuotes, Lit('\'')];
    assert p[1..][1..] == [Spaces, Lit('\''), NotQuotes, Lit('\'')];
    assert p[1..][1..][1..] == [Lit('\''), NotQuotes, Lit('\'')];
    assert p[1..][1..][1..][1..] == [NotQuotes, Lit('\'')];
    assert p[1..][1..][1..][1..][1..] == [Lit('\'')];
    assert p[1..][1..][1..][1..][1..][1..] == [];
    PlainPrefix("tenant_id", p);
  }

  lemma SelectAllIsSteady()
    ensures Steady(SELECT_ALL)
  {
    var p: Pattern := [SomeSpaces, Lit('*')];
    assert p[1..] == [Lit('*')] && p[1..][1..] == [];
    PlainPrefix("SELECT", p);
  }

  lemma SelectStartIsRegular()
    ensures Regular(SELECT_START)
  {
    assert [Boundary][1..] == [];
    PlainPrefix("SELECT", [Boundary]);
    assert SELECT_START[1..] == Literal("SELECT") + [Boundary];
  }

  lemma ForbiddenArePlain(i: nat)
    requires i < 14
    ensures Plain(FORBIDDEN_STATEMENTS[i])
  {
  }

  /* ---------- validating ---------- */

  datatype Error =
    | OnlySelect
    | ForbiddenKeyword(keyword: string)
    | InjectionPattern(index: nat)
    | HardcodedTenant
    | MissingTenantFilter

  datatype Warning = WildcardWithJoin | NoLimit

  datatype Report = Report(
    rawSql: string, isValid: bool, hasTenantFilter: bool, isSelectOnly: bool, sanitizedSql: string,
    errors: seq<Error>, warnings: seq<Warning>)
  {
    /** `can_execute`. */
    predicate CanExecute() { isValid && hasTenantFilter }
  }

  /** The error of each forbidden word found, in the order of the list. */
  function ForbiddenErrors(words: seq<string>, sql: string): seq<Error> {
    if words == [] then []
    else
      var before := ForbiddenErrors(words[..|words| - 1], sql);
      if Found(Keyword(words[|words| - 1]), sql) then before + [ForbiddenKeyword(words[|words| - 1])] else before
  }

  function InjectionErrors(patterns: seq<Pattern>, sql: string): seq<Error> {
    if patterns == [] then []
    else
      var before := InjectionErrors(patterns[..|patterns| - 1], sql);
      if Found(patterns[|patterns| - 1], sql) then before + [InjectionPattern(|patterns| - 1)] else before
  }

  function TenantErrors(sql: string): seq<Error> {
    if Found(TENANT_FILTER, sql) then []
    else if Found(LITERAL_TENANT, sql) then [HardcodedTenant]
    else [MissingTenantFilter]
  }

  function Errors(sql: string): seq<Error> {
    (if MatchesAt(SELECT_START, false, sql) then [] else [OnlySelect])
      + ForbiddenErrors(FORBIDDEN_STATEMENTS, sql) + InjectionErrors(INJECTION_PATTERNS, sql) + TenantErrors(sql)
  }

  function Warnings(sql: string): seq<Warning> {
    (if Found(SELECT_ALL, sql) && Found(Keyword("JOIN"), sql) then [WildcardWithJoin] else [])
      + (if !Found(Keyword("LIMIT"), sql) && !Found(COUNT_CALL, sql) then [NoLimit] else [])
  }

  function ReportOf(sql: string): Report {
    Report(sql, Errors(sql) == [], Found(TENANT_FILTER, sql), MatchesAt(SELECT_START, false, sql),
           if Errors(sql) == [] then Sanitize(sql) else sql, Errors(sql), Warnings(sql))
  }

  /** The loops of `validate` over its two tables. */
  method FindForbidden(words: seq<string>, sql: string) returns (errors: seq<Error>)
    ensures errors == ForbiddenErrors(words, sql)
  {
    errors := [];
    for i := 0 to |words|
      invariant errors == ForbiddenErrors(words[..i], sql)
    {
      assert words[..i + 1][..i] == words[..i];
      if Found(Keyword(words[i]), sql) {
        errors := errors + [ForbiddenKeyword(words[i])];
      }
    }
    assert words[..|words|] == words;
  }

  method FindInjections(patterns: seq<Pattern>, sql: string) returns (errors: seq<Error>)
    ensures errors == InjectionErrors(patterns, sql)
  {
    errors := [];
    for i := 0 to |patterns|
      invariant errors == InjectionErrors(patterns[..i], sql)
    {
      assert patterns[..i + 1][..i] == patterns[..i];
      if Found(patterns[i], sql) {
        errors := errors + [InjectionPattern(i)];
      }
    }
    assert patterns[..|patterns|] == patterns;
  }

  method Validate(rawSql: string) returns (report: Report)
    ensures report == ReportOf(rawSql)
  {
    hide MatchesAt, Found, Keyword, Literal, Call, Sanitize, ForbiddenErrors, InjectionErrors;
    var errors: seq<Error>, warnings: seq<Warning> := [], [];
    var isSelect := MatchesAt(SELECT_START, false, rawSql);
    if !isSelect {
      errors := errors + [OnlySelect];
    }
    var forbidden := FindForbidden(FORBIDDEN_STATEMENTS, rawSql);
    errors := errors + forbidden;
    var injections := FindInjections(INJECTION_PATTERNS, rawSql);
    errors := errors + injections;
    var hasTenant := Found(TENANT_FILTER, rawSql);
    if !hasTenant {
      if Found(LITERAL_TENANT, rawSql) {
        errors := errors + [HardcodedTenant];
      } else {
        errors := errors + [MissingTenantFilter];
      }
    }
    if Found(SELECT_ALL, rawSql) && Found(Keyword("JOIN"), rawSql) {
      warnings := warnings + [WildcardWithJoin];
    }
    if !Found(Keyword("LIMIT"), rawSql) && !Found(COUNT_CALL, rawSql) {
      warnings := warnings + [NoLimit];
    }
    var isValid := |errors| == 0;
    var sanitized := if isValid then Sanitize(rawSql) else rawSql;
    report := Report(rawSql, isValid, hasTenant, isSelect, sanitized, errors, warnings);
  }

  /* ---------- the report holds for the text that is executed ---------- */

  lemma SteadyKeeps(p: Pattern, sql: string)
    requires Steady(p)
    ensures Found(p, Sanitize(sql)) == Found(p, sql)
  {
    SanitizeKeepsSearch(p, sql);
  }

  lemma {:induction false} ForbiddenKept(words: seq<string>, sql: string)
    requires forall i :: 0 <= i < |words| ==> Plain(words[i])
    ensures ForbiddenErrors(words, Sanitize(sql)) == ForbiddenErrors(words, sql)
  {
    hide Found, Sanitize, Steady, Keyword, Plain;
    if words != [] {
      var last := words[|words| - 1];
      ForbiddenKept(words[..|words| - 1], sql);
      KeywordIsSteady(last);
      SteadyKeeps(Keyword(last), sql);
    }
  }

  lemma {:induction false} InjectionsKept(patterns: seq<Pattern>, sql: string)
    requires forall i :: 0 <= i < |patterns| ==> Steady(patterns[i])
    ensures InjectionErrors(patterns, Sanitize(sql)) == InjectionErrors(patterns, sql)
  {
    hide Found, Sanitize, Steady;
    if patterns != [] {
      InjectionsKept(patterns[..|patterns| - 1], sql);
      SteadyKeeps(patterns[|patterns| - 1], sql);
    }
  }

  lemma TablesKept(sql: string)
    ensures ForbiddenErrors(FORBIDDEN_STATEMENTS, Sanitize(sql)) == ForbiddenErrors(FORBIDDEN_STATEMENTS, sql)
    ensures InjectionErrors(INJECTION_PATTERNS, Sanitize(sql)) == InjectionErrors(INJECTION_PATTERNS, sql)
  {
    var words, patterns := FORBIDDEN_STATEMENTS, INJECTION_PATTERNS;
    assert |words| == 14 && |patterns| == 12;
    hide *;
    forall i | 0 <= i < |words| ensures Plain(words[i]) {
      ForbiddenArePlain(i);
    }
    forall i | 0 <= i < |patterns| ensures Steady(patterns[i]) {
      InjectionsAreSteady(i);
    }
    ForbiddenKept(words, sql);
    InjectionsKept(patterns, sql);
  }

  lemma StartKept(sql: string)
    ensures MatchesAt(SELECT_START, false, Sanitize(sql)) == MatchesAt(SELECT_START, false, sql)
  {
    SelectStartIsRegular();
    hide Regular, MatchesAt, Literal, Sanitize;
    SanitizeKeepsStart(SELECT_START, sql);
  }

  lemma TenantRulesKept(sql: string)
    ensures Found(TENANT_FILTER, Sanitize(sql)) == Found(TENANT_FILTER, sql)
    ensures TenantErrors(Sanitize(sql)) == TenantErrors(sql)
  {
    hide Found, Sanitize, Steady, Literal;
    FilterIsSteady();
    LiteralTenantIsSteady();
    SteadyKeeps(TENANT_FILTER, sql);
    SteadyKeeps(LITERAL_TENANT, sql);
  }

  lemma WarningsKept(sql: string)
    ensures Warnings(Sanitize(sql)) == Warnings(sql)
  {
    hide Found, Sanitize, Steady, Literal, Call, Keyword;
    SelectAllIsSteady();
    KeywordIsSteady("JOIN");
    KeywordIsSteady("LIMIT");
    CallIsSteady("COUNT");
    BoundaryFirst(Call("COUNT"));
    SteadyKeeps(SELECT_ALL, sql);
    SteadyKeeps(Keyword("JOIN"), sql);
    SteadyKeeps(Keyword("LIMIT"), sql);
    SteadyKeeps(COUNT_CALL, sql);
  }

  /** Every rule judges the sanitized text as it judged the raw text. */
  lemma SanitizeKeepsReport(sql: string)
    ensures Errors(Sanitize(sql)) == Errors(sql)
    ensures Warnings(Sanitize(sql)) == Warnings(sql)
    ensures Found(TENANT_FILTER, Sanitize(sql)) == Found(TENANT_FILTER, sql)
  {
    StartKept(sql);
    TablesKept(sql);
    TenantRulesKept(sql);
    WarningsKept(sql);
    hide Found, Sanitize, Literal, Call, Keyword, ForbiddenErrors, InjectionErrors, TenantErrors, Warnings, MatchesAt;
  }

  /** The text a report carries for execution passes exactly when the report does, with the
      same warnings. */
  lemma ExecutedTextPasses(raw: string)
    ensures ReportOf(ReportOf(raw).sanitizedSql).CanExecute() <==> ReportOf(raw).CanExecute()
    ensures ReportOf(ReportOf(raw).sanitizedSql).warnings == ReportOf(raw).warnings
  {
    hide Errors, Warnings, Sanitize, Found, MatchesAt;
    SanitizeKeepsReport(raw);
  }

  /* ---------- a query that passes ---------- */

  /** After an optional boundary the pattern begins with these two characters. */
  predicate BeginsWith(p: Pattern, c: char, d: char) {
    if p != [] && p[0].Boundary? then |p| >= 3 && BeginsWith(p[1..], c, d)
    else |p| >= 2 && p[0].Lit? && p[1].Lit? && Lower(p[0].c) == c && Lower(p[1].c) == d
  }

  predicate HasPair(s: string, i: nat, c: char, d: char)
    requires i + 1 < |s|
  {
    Lower(s[i]) == c && Lower(s[i + 1]) == d
  }

  lemma {:induction false} PairNeededAt(p: Pattern, c: char, d: char, afterWord: bool, s: string)
    requires BeginsWith(p, c, d) && MatchesAt(p, afterWord, s)
    ensures |s| >= 2 && HasPair(s, 0, c, d)
    decreases |p|
  {
    if p[0].Boundary? {
      PairNeededAt(p[1..], c, d, afterWord, s);
    } else {
      assert p[1..][0] == p[1];
    }
  }

  lemma {:induction false} PairNeeded(p: Pattern, c: char, d: char, afterWord: bool, s: string)
    requires BeginsWith(p, c, d) && forall i :: 0 <= i < |s| - 1 ==> !HasPair(s, i, c, d)
    ensures !Search(p, afterWord, s)
    decreases |s|
  {
    hide MatchesAt, BeginsWith;
    if MatchesAt(p, afterWord, s) {
      PairNeededAt(p, c, d, afterWord, s);
    }
    if s != "" {
      forall i | 0 <= i < |s[1..]| - 1 ensures !HasPair(s[1..], i, c, d) {
        assert !HasPair(s, i + 1, c, d);
      }
      PairNeeded(p, c, d, IsWord(s[0]), s[1..]);
    }
  }

  lemma {:induction false} CharNeeded(p: Pattern, c: char, afterWord: bool, s: string)
    requires p != [] && p[0] == Lit(c) && forall i :: 0 <= i < |s| ==> Lower(s[i]) != Lower(c)
    ensures !Search(p, afterWord, s)
    decreases |s|
  {
    if s != "" {
      CharNeeded(p, c, IsWord(s[0]), s[1..]);
    }
  }

  lemma {:induction false} LiteralMatches(w: string, p: Pattern, afterWord: bool, rest: string)
    requires w != ""
    ensures MatchesAt(Literal(w) + p, afterWord, w + rest) == MatchesAt(p, IsWord(w[|w| - 1]), rest)
    decreases |w|
  {
    assert (w + rest)[1..] == w[1..] + rest && (Literal(w) + p)[1..] == Literal(w[1..]) + p;
    if |w| > 1 {
      LiteralMatches(w[1..], p, IsWord(w[0]), rest);
    } else {
      assert Literal(w[1..]) + p == p && w[1..] + rest == rest;
    }
  }

  lemma {:induction false} FoundLater(p: Pattern, afterWord: bool, a: string, b: string)
    requires a != "" && MatchesAt(p, IsWord(a[|a| - 1]), b)
    ensures Search(p, afterWord, a + b)
    decreases |a|
  {
    hide MatchesAt;
    assert (a + b)[1..] == a[1..] + b;
    if |a| > 1 {
      FoundLater(p, IsWord(a[0]), a[1..], b);
    } else {
      assert a[1..] + b == b;
    }
  }

  /** Each forbidden word and each injection pattern but the first begins with one of
      these pairs. */
  predicate AbsentPair(c: char, d: char) {
    || (d == 'n' && (c == 'i' || c == 'u')) || (d == 'p' && (c == 'u' || c == 'x'))
    || (d == 'e' && (c == 'd' || c == 'r' || c == 'm' || c == 'b')) || (d == 'a' && c == 'c')
    || (d == 'r' && (c == 'd' || c == 't' || c == 'c' || c == 'g')) || (d == 'l' && (c == 'a' || c == 's'))
    || (d == 'x' && c == 'e') || (d == 'o' && c == 'l') || (d == 'g' && c == 'p') || (d == '-' && c == '-')
    || (d == '*' && c == '/')
  }

  predicate PairFree(s: string) {
    forall i :: 0 <= i < |s| - 1 ==> !AbsentPair(Lower(s[i]), Lower(s[i + 1]))
  }

  lemma PairNotFound(p: Pattern, c: char, d: char, s: string)
    requires BeginsWith(p, c, d) && AbsentPair(c, d) && PairFree(s)
    ensures !Found(p, s)
  {
    PairNeeded(p, c, d, false, s);
  }

  lemma KeywordNotFound(w: string, s: string)
    requires |w| >= 2 && AbsentPair(Lower(w[0]), Lower(w[1])) && PairFree(s)
    ensures !Found(Keyword(w), s)
  {
    var p := Keyword(w);
    assert p[1..] == Literal(w) + [Boundary];
    PairNotFound(p, Lower(w[0]), Lower(w[1]), s);
  }

  lemma LiteralNotFound(w: string, p: Pattern, s: string)
    requires |w| >= 2 && AbsentPair(Lower(w[0]), Lower(w[1])) && PairFree(s)
    ensures !Found(Literal(w) + p, s) && (p == [] ==> !Found(Literal(w), s))
  {
    PairNotFound(Literal(w) + p, Lower(w[0]), Lower(w[1]), s);
    assert p == [] ==> Literal(w) + p == Literal(w);
  }

  lemma ExtendedCallNotFound(s: string)
    requires PairFree(s)
    ensures !Found([Boundary] + Literal("xp_") + [SomeWord], s)
  {
    var p := [Boundary] + Literal("xp_") + [SomeWord];
    assert p[1..] == Literal("xp_") + [SomeWord];
    PairNotFound(p, 'x', 'p', s);
  }

  lemma SemicolonNotFound(s: string)
    requires ';' !in s
    ensures !Found([Lit(';'), Spaces, Word], s)
  {
    CharNeeded([Lit(';'), Spaces, Word], ';', false, s);
  }

  lemma {:induction false} NothingForbidden(words: seq<string>, sql: string)
    requires forall i :: 0 <= i < |words| ==> !Found(Keyword(words[i]), sql)
    ensures ForbiddenErrors(words, sql) == []
  {
    hide Found, Keyword;
    if words != [] {
      NothingForbidden(words[..|words| - 1], sql);
    }
  }

  lemma {:induction false} NothingInjected(patterns: seq<Pattern>, sql: string)
    requires forall i :: 0 <= i < |patterns| ==> !Found(patterns[i], sql)
    ensures InjectionErrors(patterns, sql) == []
  {
    hide Found;
    if patterns != [] {
      NothingInjected(patterns[..|patterns| - 1], sql);
    }
  }

  lemma ForbiddenNotFound(i: nat, s: string)
    requires i < 14 && PairFree(s)
    ensures !Found(Keyword(FORBIDDEN_STATEMENTS[i]), s)
  {
    var w := FORBIDDEN_STATEMENTS[i];
    assert |w| >= 2 && AbsentPair(Lower(w[0]), Lower(w[1]));
    hide *;
    KeywordNotFound(w, s);
  }

  lemma InjectionNotFound(i: nat, s: string)
    requires i < 12 && PairFree(s) && ';' !in s
    ensures !Found(INJECTION_PATTERNS[i], s)
  {
    hide Found, Literal, AbsentPair;
    if i == 0 {
      SemicolonNotFound(s);
    } else if i == 1 {
      LiteralNotFound("--", [], s);
    } else if i == 2 {
      LiteralNotFound("/*", [], s);
    } else if i == 3 {
      KeywordNotFound("UNION", s);
    } else if i == 4 {
      ExtendedCallNotFound(s);
    } else if i == 5 {
      LiteralNotFound("SLEEP", [Spaces, Lit('(')], s);
    } else if i == 6 {
      LiteralNotFound("BENCHMARK", [Spaces, Lit('(')], s);
    } else if i == 7 {
      LiteralNotFound("LOAD_FILE", [Spaces, Lit('(')], s);
    } else if i == 8 {
      LiteralNotFound("INTO", [SomeSpaces] + Literal("OUTFILE"), s);
    } else if i == 9 {
      LiteralNotFound("INFORMATION_SCHEMA", [], s);
    } else if i == 10 {
      LiteralNotFound("PG_SLEEP", [Spaces, Lit('(')], s);
    } else {
      LiteralNotFound("PG_READ_FILE", [Spaces, Lit('(')], s);
    }
  }

  lemma PassesWithoutErrors(sql: string)
    ensures && MatchesAt(SELECT_START, false, sql) && Found(TENANT_FILTER, sql)
            && ForbiddenErrors(FORBIDDEN_STATEMENTS, sql) == [] && InjectionErrors(INJECTION_PATTERNS, sql) == []
            ==> ReportOf(sql).CanExecute()
  {
    hide MatchesAt, Found, ForbiddenErrors, InjectionErrors, Sanitize, Literal, Call, Keyword;
  }

  lemma WordMatchesBeforeBoundary(w: string, rest: string)
    requires w != "" && IsWord(w[|w| - 1]) && (rest == "" || !IsWord(rest[0]))
    ensures MatchesAt(Literal(w) + [Boundary], false, w + rest)
  {
    LiteralMatches(w, [Boundary], false, rest);
    assert [Boundary][1..] == [];
  }

  lemma StartsWithSelect(rest: string)
    ensures MatchesAt(SELECT_START, false, "SELECT " + rest)
  {
    var sql := "SELECT " + rest;
    assert IsWord("SELECT"[5]) && !IsWord(" "[0]) && sql == "SELECT" + sql[6..] && sql[6] == ' ';
    hide MatchesAt, Literal;
    WordMatchesBeforeBoundary("SELECT", sql[6..]);
    SpacesMatchNothing(Literal("SELECT") + [Boundary], false, sql);
  }

  lemma SpacesMatchNothing(p: Pattern, afterWord: bool, s: string)
    requires MatchesAt(p, afterWord, s)
    ensures MatchesAt([Spaces] + p, afterWord, s)
  {
    assert ([Spaces] + p)[1..] == p;
  }

  lemma EqualsMatches(p: Pattern, afterWord: bool, s: string)
    requires MatchesAt(p, false, s)
    ensures MatchesAt([Lit('=')] + p, afterWord, "=" + s)
  {
    assert ([Lit('=')] + p)[1..] == p && ("=" + s)[1..] == s;
  }

  lemma ColonMatches(p: Pattern, afterWord: bool, s: string)
    requires MatchesAt(p, false, s)
    ensures MatchesAt([ColonOrDollar] + p, afterWord, ":" + s)
  {
    assert ([ColonOrDollar] + p)[1..] == p && (":" + s)[1..] == s;
  }

  lemma WordMatchesAtFront(w: string, rest: string)
    requires w != ""
    ensures MatchesAt(Literal(w), false, w + rest)
  {
    LiteralMatches(w, [], false, rest);
    assert Literal(w) + [] == Literal(w);
  }

  /** The filter, bound, between `a` and `b`. */
  function Filtered(a: string, b: string): string {
    a + ("tenant_id" + ("=" + (":" + ("tenant_id" + b))))
  }

  lemma FilterIsFound(a: string, b: string)
    requires a != "" && !IsWord(a[|a| - 1])
    ensures Found(TENANT_FILTER, Filtered(a, b))
  {
    assert |"tenant_id"| == 9 && IsWord("tenant_id"[8]);
    hide MatchesAt, Search, Literal, IsWord;
    var name, bound := "tenant_id", [ColonOrDollar] + Literal("tenant_id");
    WordMatchesAtFront(name, b);
    ColonMatches(Literal(name), false, name + b);
    SpacesMatchNothing(bound, false, ":" + (name + b));
    EqualsMatches([Spaces] + bound, true, ":" + (name + b));
    SpacesMatchNothing([Lit('=')] + ([Spaces] + bound), true, "=" + (":" + (name + b)));
    LiteralMatches(name, [Spaces] + ([Lit('=')] + ([Spaces] + bound)), false, "=" + (":" + (name + b)));
    FoundLater(TENANT_FILTER, false, a, name + ("=" + (":" + (name + b))));
  }

  lemma PairFreePasses(sql: string)
    requires MatchesAt(SELECT_START, false, sql) && Found(TENANT_FILTER, sql) && PairFree(sql) && ';' !in sql
    ensures ReportOf(sql).CanExecute()
  {
    var words, patterns := FORBIDDEN_STATEMENTS, INJECTION_PATTERNS;
    assert |words| == 14 && |patterns| == 12;
    hide *;
    forall i | 0 <= i < |words| ensures !Found(Keyword(words[i]), sql) {
      ForbiddenNotFound(i, sql);
    }
    forall i | 0 <= i < |patterns| ensures !Found(patterns[i], sql) {
      InjectionNotFound(i, sql);
    }
    NothingForbidden(words, sql);
    NothingInjected(patterns, sql);
    PassesWithoutErrors(sql);
  }

  lemma SplitFront(s: string, n: nat, rest: string)
    requires n <= |s|
    ensures s + rest == s[..n] + (s[n..] + rest)
  {
  }

  /** A query that selects, is filtered and holds none of the pairs and no semicolon
      passes. */
  lemma PairFreeQueryPasses(a: string, b: string)
    requires "SELECT " <= a && !IsWord(a[|a| - 1])
    requires PairFree(Filtered(a, b)) && ';' !in Filtered(a, b)
    ensures ReportOf(Filtered(a, b)).CanExecute()
  {
    hide *;
    FilterIsFound(a, b);
    FilteredBegins(a, b);
    PairFreePasses(Filtered(a, b));
  }

  lemma FilteredBegins(a: string, b: string)
    requires "SELECT " <= a
    ensures MatchesAt(SELECT_START, false, Filtered(a, b))
  {
    var rest := "tenant_id" + ("=" + (":" + ("tenant_id" + b)));
    assert |"SELECT "| == 7 && a[..7] == "SELECT " && Filtered(a, b) == a + rest;
    hide *;
    SplitFront(a, 7, rest);
    StartsWithSelect(a[7..] + rest);
  }

  const QUERY := "SELECT tenant_id=:tenant_id"

  lemma QueryHasNoSuchPair(i: nat)
    requires i + 1 < |QUERY|
    ensures !AbsentPair(Lower(QUERY[i]), Lower(QUERY[i + 1])) && QUERY[i] != ';'
  {
  }

  /** So results about passing queries are about something. */
  lemma AQueryPasses()
    ensures ReportOf(QUERY).CanExecute()
  {
    assert QUERY == Filtered("SELECT ", "") && !IsWord("SELECT "[6]);
    hide *;
    forall i | 0 <= i < |QUERY| - 1
      ensures !AbsentPair(Lower(QUERY[i]), Lower(QUERY[i + 1])) && QUERY[i] != ';'
    {
      QueryHasNoSuchPair(i);
    }
    assert QUERY[|QUERY| - 1] != ';' by {
      QueryEndsInName();
    }
    PairFreeIntro(QUERY);
    PairFreeQueryPasses("SELECT ", "");
  }

  lemma QueryEndsInName()
    ensures |QUERY| == 27 && QUERY[26] == 'd'
  {
  }

  lemma PairFreeIntro(s: string)
    requires forall i :: 0 <= i < |s| - 1 ==> !AbsentPair(Lower(s[i]), Lower(s[i + 1]))
    ensures PairFree(s)
  {
  }
}
