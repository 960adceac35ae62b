/** Characters, white space and `str.strip`, over ASCII. */
module PythonText {

  predicate IsDigit(c: char) { '0' <= c <= '9' }

  predicate IsLetter(c: char) { 'a' <= c <= 'z' || 'A' <= c <= 'Z' }

  predicate IsWord(c: char) { IsLetter(c) || IsDigit(c) || c == '_' }

  function Lower(c: char): char { if 'A' <= c <= 'Z' then c - 'A' + 'a' else c }

  /** `"".join(parts)` */
  function Concat(parts: seq<string>): string {
    if parts == [] then "" else parts[0] + Concat(parts[1..])
  }

  lemma {:induction false} ConcatSnoc(parts: seq<string>, last: string)
    ensures Concat(parts + [last]) == Concat(parts) + last
  {
    if parts == [] {
      assert parts + [last] == [last];
    } else {
      assert (parts + [last])[1..] == parts[1..] + [last];
      ConcatSnoc(parts[1..], last);
    }
  }

  predicate IsSpace(c: char) {
    c == ' ' || '\t' <= c <= '\r' || 28 as char <= c <= 31 as char
  }

  function SkipSpaces(s: string): string {
    if s != "" && IsSpace(s[0]) then SkipSpaces(s[1..]) else s
  }

  function TrimEnd(s: string): string {
    if s != "" && IsSpace(s[|s| - 1]) then TrimEnd(s[..|s| - 1]) else s
  }

  /** `str.strip()`. */
  function Strip(s: string): string { TrimEnd(SkipSpaces(s)) }

  lemma SkipIsShorter(s: string)
    ensures |SkipSpaces(s)| <= |s|
    ensures s != "" && IsSpace(s[0]) ==> |SkipSpaces(s)| < |s|
    ensures SkipSpaces(s) != "" ==> !IsSpace(SkipSpaces(s)[0])
  {
  }

  predicate AllSpaces(s: string) { forall i :: 0 <= i < |s| ==> IsSpace(s[i]) }

  lemma {:induction false} SkipSpacesSplits(s: string) returns (run: string)
    ensures s == run + SkipSpaces(s) && AllSpaces(run)
  {
    if s != "" && IsSpace(s[0]) {
      var rest := SkipSpacesSplits(s[1..]);
      run := [s[0]] + rest;
    } else {
      run := "";
    }
  }

  lemma {:induction false} TrimEndIsPrefix(s: string) returns (tail: string)
    ensures s == TrimEnd(s) + tail && AllSpaces(tail)
    ensures TrimEnd(s) != "" ==> !IsSpace(TrimEnd(s)[|TrimEnd(s)| - 1])
  {
    if s != "" && IsSpace(s[|s| - 1]) {
      var rest := TrimEndIsPrefix(s[..|s| - 1]);
      tail := rest + [s[|s| - 1]];
    } else {
      tail := "";
    }
  }

  function NonSpaces(s: string): string {
    if s == "" then ""
    else if IsSpace(s[0]) then NonSpaces(s[1..])
    else [s[0]] + NonSpaces(s[1..])
  }

  lemma {:induction false} NonSpacesAppend(a: string, b: string)
    ensures NonSpaces(a + b) == NonSpaces(a) + NonSpaces(b)
    decreases |a|
  {
    if a == "" {
      assert a + b == b;
    } else {
      assert (a + b)[1..] == a[1..] + b;
      NonSpacesAppend(a[1..], b);
    }
  }

  lemma {:induction false} NonSpacesSkip(s: string)
    ensures NonSpaces(SkipSpaces(s)) == NonSpaces(s)
  {
    if s != "" && IsSpace(s[0]) {
      NonSpacesSkip(s[1..]);
    }
  }

  lemma {:induction false} NonSpacesOfSpaces(s: string)
    requires AllSpaces(s)
    ensures NonSpaces(s) == ""
  {
    if s != "" {
      NonSpacesOfSpaces(s[1..]);
    }
  }

  lemma {:induction false} NonSpacesTrim(s: string)
    ensures NonSpaces(TrimEnd(s)) == NonSpaces(s)
  {
    if s != "" && IsSpace(s[|s| - 1]) {
      NonSpacesTrim(s[..|s| - 1]);
      NonSpacesAppend(s[..|s| - 1], [s[|s| - 1]]);
      assert s == s[..|s| - 1] + [s[|s| - 1]];
      NonSpacesOfSpaces([s[|s| - 1]]);
    }
  }

  /** Stripping removes white space only. */
  lemma NonSpacesStrip(s: string)
    ensures NonSpaces(Strip(s)) == NonSpaces(s)
  {
    NonSpacesSkip(s);
    NonSpacesTrim(SkipSpaces(s));
  }

  lemma {:induction false} SkipsSpaces(a: string, t: string)
    requires AllSpaces(a) && (t == "" || !IsSpace(t[0]))
    ensures SkipSpaces(a + t) == t
    decreases |a|
  {
    if a == "" {
      assert a + t == t;
    } else {
      assert (a + t)[1..] == a[1..] + t;
      SkipsSpaces(a[1..], t);
    }
  }

  lemma {:induction false} TrimsSpaces(t: string, b: string)
    requires AllSpaces(b) && (t == "" || !IsSpace(t[|t| - 1]))
    ensures TrimEnd(t + b) == t
    decreases |b|
  {
    if b == "" {
      assert t + b == t;
    } else {
      assert (t + b)[..|t + b| - 1] == t + b[..|b| - 1];
      TrimsSpaces(t, b[..|b| - 1]);
    }
  }

  /** Stripping takes all white space off both ends, and nothing else. */
  lemma StripIs(a: string, t: string, b: string)
    requires AllSpaces(a) && AllSpaces(b) && (t == "" || (!IsSpace(t[0]) && !IsSpace(t[|t| - 1])))
    ensures Strip(a + (t + b)) == t
  {
    if t == "" {
      assert AllSpaces(a + (t + b)) && a + (t + b) + "" == a + (t + b);
      SkipsSpaces(a + (t + b), "");
    } else {
      SkipsSpaces(a, t + b);
      TrimsSpaces(t, b);
    }
  }
}
