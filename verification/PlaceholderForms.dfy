/**
 The rewrite of `to_pyformat` written out, piece by piece: names, casts, percent signs and
 quoted literals in any surroundings.
 */
module PlaceholderForms {
  import opened PythonText
  import opened Wrappers
  import opened SqlPlaceholders

  /** Letters, digits and underscores. */
  predicate NameChar(c: char) {
    'a' <= c <= 'z' || 'A' <= c <= 'Z' || '0' <= c <= '9' || c == '_'
  }

  /** A name: it begins with a letter or an underscore. */
  predicate IsName(name: string) {
    && name != "" && ('a' <= name[0] <= 'z' || 'A' <= name[0] <= 'Z' || name[0] == '_')
    && forall i :: 0 <= i < |name| ==> NameChar(name[i])
  }

  /** Whatever starts `b` belongs to no name or colon that ends `a`. */
  predicate Apart(a: string, b: string) {
    a == "" || b == "" || (a[|a| - 1] != ':' && !(NameChar(a[|a| - 1]) && NameChar(b[0])))
  }

  predicate EndsInColon(a: string) { a != "" && a[|a| - 1] == ':' }

  predicate Quoteless(s: string) { forall i :: 0 <= i < |s| ==> s[i] != '\'' }

  /* ---------- one code segment ---------- */

  lemma {:induction false} NameRunSplits(a: string, b: string)
    requires Apart(a, b)
    ensures NameRun(a + b) == if a == "" then NameRun(b) else NameRun(a)
    decreases |a|
  {
    if a == "" {
      assert a + b == b;
    } else if IsNameChar(a[0]) {
      assert (a + b)[1..] == a[1..] + b;
      if a[1..] != "" {
        NameRunSplits(a[1..], b);
      } else {
        assert a[1..] + b == b;
      }
    }
  }

  lemma CodeStep(afterColon: bool, s: string)
    requires s != "" && !NameHere(afterColon, s)
    ensures FusedCode(afterColon, s) == (if s[0] == '%' then "%%" else [s[0]]) + FusedCode(s[0] == ':', s[1..])
  {
  }

  function Directive(name: string): string { "%(" + name + ")s" }

  lemma CodeName(afterColon: bool, s: string)
    requires NameHere(afterColon, s)
    ensures var n := NameRun(s[1..]);
            FusedCode(afterColon, s) == Directive(s[1..1 + n]) + FusedCode(false, s[1 + n..])
  {
  }

  lemma SameNameHere(afterColon: bool, a: string, b: string)
    requires a != "" && Apart(a, b)
    ensures NameHere(afterColon, a + b) <==> NameHere(afterColon, a)
  {
  }

  lemma TailApart(a: string, b: string, n: nat)
    requires Apart(a, b) && n <= |a|
    ensures Apart(a[n..], b) && (a[n..] == "" && b != "" && n > 0 ==> a[n - 1] != ':')
  {
  }

  lemma NameInFront(afterColon: bool, a: string, b: string)
    requires Apart(a, b) && NameHere(afterColon, a)
    ensures var s, n := a + b, NameRun(a[1..]);
            && NameHere(afterColon, s) && NameRun(s[1..]) == n
            && s[1..1 + n] == a[1..1 + n] && s[1 + n..] == a[1 + n..] + b
  {
    var s := a + b;
    TailApart(a, b, 1);
    SameNameHere(afterColon, a, b);
    assert s[1..] == a[1..] + b && a[1..] != "";
    hide *;
    NameRunSplits(a[1..], b);
    InFront(a, b, NameRun(a[1..]));
  }

  lemma InFront(a: string, b: string, n: nat)
    requires 1 + n <= |a|
    ensures (a + b)[1..1 + n] == a[1..1 + n] && (a + b)[1 + n..] == a[1 + n..] + b
  {
  }

  lemma SplitAtName(afterColon: bool, a: string, b: string)
    requires Apart(a, b) && NameHere(afterColon, a)
    requires var rest := a[1 + NameRun(a[1..])..];
             FusedCode(false, rest + b) == FusedCode(false, rest) + FusedCode(false, b)
    ensures FusedCode(afterColon, a + b) == FusedCode(afterColon, a) + FusedCode(false, b)
  {
    assert |a| >= 2;
    hide *;
    NameInFront(afterColon, a, b);
    CodeName(afterColon, a);
    CodeName(afterColon, a + b);
    var n := NameRun(a[1..]);
    Reassociate(Directive(a[1..1 + n]), FusedCode(false, a[1 + n..]), FusedCode(false, b));
  }

  lemma SplitAtChar(afterColon: bool, a: string, b: string)
    requires Apart(a, b) && a != "" && !NameHere(afterColon, a)
    requires FusedCode(a[0] == ':', a[1..] + b) == FusedCode(a[0] == ':', a[1..]) + FusedCode(false, b)
    ensures FusedCode(afterColon, a + b) == FusedCode(afterColon, a) + FusedCode(false, b)
  {
    hide FusedCode, NameHere;
    assert (a + b)[0] == a[0] && (a + b)[1..] == a[1..] + b;
    SameNameHere(afterColon, a, b);
    CodeStep(afterColon, a);
    CodeStep(afterColon, a + b);
  }

  lemma {:induction false} CodeSplits(afterColon: bool, a: string, b: string)
    requires Apart(a, b) && (a == "" ==> !afterColon || b == "")
    ensures FusedCode(afterColon, a + b) == FusedCode(afterColon, a) + FusedCode(false, b)
    decreases |a|
  {
    if a == "" {
      assert a + b == b;
    } else {
      hide *;
      if NameHere(afterColon, a) {
        var n := 1 + NameRun(a[1..]);
        TailApart(a, b, n);
        CodeSplits(false, a[n..], b);
        SplitAtName(afterColon, a, b);
      } else {
        TailApart(a, b, 1);
        CodeSplits(a[0] == ':', a[1..], b);
        SplitAtChar(afterColon, a, b);
      }
    }
  }

  /* ---------- texts without quotes in front ---------- */

  lemma {:induction false} BodyEndLater(a: string, s: string, j: nat, fallback: Option<nat>)
    requires j <= |s| && (fallback.Some? ==> fallback.value <= |s|)
    ensures BodyEnd(a + s, |a| + j, if fallback.Some? then Some(|a| + fallback.value) else None) ==
            if BodyEnd(s, j, fallback).Some? then Some(|a| + BodyEnd(s, j, fallback).value) else None
    decreases |s| - j
  {
    var t := a + s;
    if j < |s| {
      assert t[|a| + j] == s[j] && (j + 1 < |s| ==> t[|a| + j + 1] == s[j + 1]);
      if s[j] != '\'' {
        BodyEndLater(a, s, j + 1, fallback);
      } else if j + 1 < |s| && s[j + 1] == '\'' {
        BodyEndLater(a, s, j + 2, Some(j + 1));
      }
    }
  }

  /** A literal behind `a` is found where it is found without `a`. */
  lemma {:induction false} NextLiteralLater(a: string, s: string, from: nat)
    requires from <= |s|
    ensures NextLiteral(a + s, |a| + from) ==
            match NextLiteral(s, from)
            case Some((start, end)) => Some((|a| + start, |a| + end))
            case None => None
    decreases |s| - from
  {
    if from < |s| {
      assert (a + s)[|a| + from] == s[from];
      BodyEndLater(a, s, from + 1, None);
      NextLiteralLater(a, s, from + 1);
    }
  }

  lemma {:induction false} SkipQuoteless(s: string, from: nat, end: nat)
    requires from <= end <= |s| && forall i :: from <= i < end ==> s[i] != '\''
    ensures NextLiteral(s, from) == NextLiteral(s, end)
    decreases end - from
  {
    if from < end {
      SkipQuoteless(s, from + 1, end);
    }
  }

  lemma {:induction false} RewriteLater(a: string, s: string, last: nat)
    requires last <= |s|
    ensures RewriteFrom(a + s, |a| + last) == RewriteFrom(s, last)
    decreases |s| - last
  {
    hide RewriteCode, NextLiteral, DoublePercents;
    NextLiteralLater(a, s, last);
    if NextLiteral(s, last).None? {
      assert (a + s)[|a| + last..] == s[last..];
    } else {
      var (start, end) := NextLiteral(s, last).value;
      assert (a + s)[|a| + last..|a| + start] == s[last..start];
      assert (a + s)[|a| + start..|a| + end] == s[start..end];
      RewriteLater(a, s, end);
    }
  }

  lemma RewriteCodeSplits(a: string, b: string)
    requires Apart(a, b)
    ensures RewriteCode(a + b) == RewriteCode(a) + RewriteCode(b)
  {
    FuseCode(false, a);
    FuseCode(false, b);
    FuseCode(false, a + b);
    hide FusedCode, SubstituteNames, DoublePercents;
    CodeSplits(false, a, b);
  }

  lemma RewriteWhole(s: string)
    ensures NextLiteral(s, 0).None? ==> Pyformat(s) == RewriteCode(s)
    ensures NextLiteral(s, 0).Some? ==>
              var (start, end) := NextLiteral(s, 0).value;
              Pyformat(s) == RewriteCode(s[..start]) + (DoublePercents(s[start..end]) + RewriteFrom(s, end))
  {
    hide RewriteCode, NextLiteral, DoublePercents;
    if NextLiteral(s, 0).None? {
      assert s[0..] == s;
    } else {
      RewriteFromUnfold(s, 0);
    }
  }

  lemma LiteralLater(a: string, b: string)
    requires Quoteless(a)
    ensures NextLiteral(a + b, 0) ==
            match NextLiteral(b, 0)
            case Some((start, end)) => Some((|a| + start, |a| + end))
            case None => None
  {
    var s := a + b;
    assert forall i :: 0 <= i < |a| ==> s[i] == a[i];
    SkipQuoteless(s, 0, |a|);
    NextLiteralLater(a, b, 0);
  }

  lemma Slices(a: string, b: string, start: nat, end: nat)
    requires start <= end <= |b|
    ensures (a + b)[..|a| + start] == a + b[..start] && (a + b)[|a| + start..|a| + end] == b[start..end]
  {
  }

  /** What a quoteless front adds to the code behind it, it adds to the whole text. */
  lemma FrontRewrites(a: string, out: string, b: string)
    requires Quoteless(a)
    requires forall n :: 0 <= n <= |b| ==> RewriteCode(a + b[..n]) == out + RewriteCode(b[..n])
    ensures Pyformat(a + b) == out + Pyformat(b)
  {
    hide *;
    LiteralLater(a, b);
    RewriteWhole(b);
    RewriteWhole(a + b);
    if NextLiteral(b, 0).None? {
      assert b[..|b|] == b;
    } else {
      var (start, end) := NextLiteral(b, 0).value;
      RewriteLater(a, b, end);
      Slices(a, b, start, end);
      Reassociate(out, RewriteCode(b[..start]), DoublePercents(b[start..end]) + RewriteFrom(b, end));
    }
  }

  lemma RewriteOfQuoteless(a: string)
    requires Quoteless(a)
    ensures Pyformat(a) == RewriteCode(a)
  {
    SkipQuoteless(a, 0, |a|);
    RewriteWhole(a);
  }

  /** The rewrite of a text is the rewrites of its parts, cut anywhere but in a literal, in
      a name or behind a colon. */
  lemma RewriteSplits(a: string, b: string)
    requires Quoteless(a) && Apart(a, b)
    ensures Pyformat(a + b) == Pyformat(a) + Pyformat(b)
  {
    hide *;
    RewriteOfQuoteless(a);
    forall n | 0 <= n <= |b| ensures RewriteCode(a + b[..n]) == Pyformat(a) + RewriteCode(b[..n]) {
      ApartFromPrefix(a, b, n);
      RewriteCodeSplits(a, b[..n]);
    }
    FrontRewrites(a, Pyformat(a), b);
  }

  lemma Reassociate(a: string, b: string, c: string)
    ensures (a + b) + c == a + (b + c)
  {
  }

  lemma ApartFromPrefix(a: string, b: string, n: nat)
    requires Apart(a, b) && n <= |b|
    ensures Apart(a, b[..n])
  {
  }

  /* ---------- the pieces ---------- */

  lemma {:induction false} NameRunOfName(name: string)
    requires forall i :: 0 <= i < |name| ==> NameChar(name[i])
    ensures NameRun(name) == |name|
  {
    if name != "" {
      NameRunOfName(name[1..]);
    }
  }

  lemma PlaceholderAlone(name: string)
    requires IsName(name)
    ensures Pyformat(":" + name) == "%(" + name + ")s"
  {
    var s := ":" + name;
    assert s[1..] == name && NameHere(false, s);
    SkipQuoteless(s, 0, |s|);
    NameRunOfName(name);
    RewriteWhole(s);
    FuseCode(false, s);
    CodeName(false, s);
    hide NameRun, NextLiteral, DoublePercents, SubstituteNames;
    assert s[1..1 + |name|] == name && s[1 + |name|..] == "";
  }

  /** A placeholder outside the literals, whatever stands around it: the name goes as far as
      letters, digits and underscores do. */
  lemma PlaceholderIsRewritten(a: string, name: string, b: string)
    requires Quoteless(a) && !EndsInColon(a) && IsName(name) && (b == "" || !NameChar(b[0]))
    ensures Pyformat(a + (":" + name + b)) == Pyformat(a) + ("%(" + name + ")s" + Pyformat(b))
  {
    var p := ":" + name;
    assert Quoteless(p) && p[|p| - 1] == name[|name| - 1];
    assert Apart(p, b) && Apart(a, p + b);
    hide Quoteless, Apart, NameChar, IsName, Pyformat;
    PlaceholderAlone(name);
    RewriteSplits(p, b);
    RewriteSplits(a, p + b);
  }

  lemma CastAlone(b: string)
    requires b == "" || b[0] != ':'
    ensures Pyformat("::" + b) == "::" + Pyformat(b)
  {
    assert Quoteless("::");
    hide *;
    forall n | 0 <= n <= |b| ensures RewriteCode("::" + b[..n]) == "::" + RewriteCode(b[..n]) {
      CodeOfCast(b[..n]);
    }
    FrontRewrites("::", "::", b);
  }

  lemma CodeOfCast(b: string)
    requires b == "" || b[0] != ':'
    ensures RewriteCode("::" + b) == "::" + RewriteCode(b)
  {
    var s := "::" + b;
    FuseCode(false, s);
    FuseCode(false, b);
    assert s[1..] == ":" + b && s[1..][1..] == b && s[0] == ':' && s[1] == ':';
    assert FusedCode(true, b) == FusedCode(false, b);
    assert FusedCode(true, s[1..]) == ":" + FusedCode(true, b);
  }

  /** A cast stays. */
  lemma CastStays(a: string, b: string)
    requires Quoteless(a) && !EndsInColon(a) && b != "" && b[0] != ':'
    ensures Pyformat(a + ("::" + b)) == Pyformat(a) + ("::" + Pyformat(b))
  {
    CastAlone(b);
    RewriteSplits(a, "::" + b);
  }

  /** A literal stays, with its percent signs doubled. */
  lemma LiteralStays(a: string, body: string, b: string)
    requires Quoteless(a) && !EndsInColon(a) && Quoteless(body) && (b == "" || b[0] != '\'')
    ensures Pyformat(a + ("'" + body + "'" + b)) == Pyformat(a) + (DoublePercents("'" + body + "'") + Pyformat(b))
  {
    var lit := "'" + body + "'";
    assert Apart(a, lit + b);
    hide Quoteless, Apart, Pyformat, DoublePercents;
    LiteralInFront(body, b);
    RewriteSplits(a, lit + b);
  }

  lemma {:induction false} BodyRuns(s: string, j: nat, end: nat)
    requires j <= end < |s| && s[end] == '\'' && (end + 1 < |s| ==> s[end + 1] != '\'')
    requires forall i :: j <= i < end ==> s[i] != '\''
    ensures BodyEnd(s, j, None) == Some(end + 1)
    decreases end - j
  {
    if j < end {
      BodyRuns(s, j + 1, end);
    }
  }

  lemma LiteralInFront(body: string, b: string)
    requires Quoteless(body) && (b == "" || b[0] != '\'')
    ensures Pyformat("'" + body + "'" + b) == DoublePercents("'" + body + "'") + Pyformat(b)
  {
    var lit := "'" + body + "'";
    var s := lit + b;
    assert forall i :: 1 <= i < |lit| - 1 ==> s[i] == body[i - 1];
    BodyRuns(s, 1, |lit| - 1);
    assert NextLiteral(s, 0) == Some((0, |lit|));
    RewriteWhole(s);
    hide NextLiteral, BodyEnd, DoublePercents;
    RewriteLater(lit, b, 0);
    assert s[..0] == "" && s[0..|lit|] == lit && RewriteCode("") == "";
  }

  lemma {:induction false} DoubleNothing(s: string)
    requires '%' !in s
    ensures DoublePercents(s) == s
  {
    if s != "" {
      DoubleNothing(s[1..]);
    }
  }

  lemma {:induction false} NoColonNoName(afterColon: bool, s: string)
    requires ':' !in s
    ensures SubstituteNames(afterColon, s) == s && ':' !in DoublePercents(s)
    decreases |s|
  {
    if s != "" {
      NoColonNoName(s[0] == ':', s[1..]);
    }
  }

  lemma OnlyPercentsDouble(s: string)
    requires Quoteless(s) && ':' !in s
    ensures Pyformat(s) == DoublePercents(s)
  {
    RewriteOfQuoteless(s);
    NoColonNoName(false, s);
    NoColonNoName(false, DoublePercents(s));
  }

  /** Text without colons, quotes and percent signs stays. */
  lemma PlainTextStays(s: string)
    requires Quoteless(s) && ':' !in s && '%' !in s
    ensures Pyformat(s) == s
  {
    OnlyPercentsDouble(s);
    DoubleNothing(s);
  }

  /** A percent sign outside the literals is doubled. */
  lemma PercentIsDoubled(a: string, b: string)
    requires Quoteless(a) && !EndsInColon(a)
    ensures Pyformat(a + ("%" + b)) == Pyformat(a) + ("%%" + Pyformat(b))
  {
    assert Pyformat("%") == "%%" by {
      SkipQuoteless("%", 0, 1);
      RewriteWhole("%");
      FuseCode(false, "%");
    }
    assert Apart("%", b) && Apart(a, "%" + b) && Quoteless("%");
    hide *;
    RewriteSplits("%", b);
    RewriteSplits(a, "%" + b);
  }
}
