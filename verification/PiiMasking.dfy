/** `_mask_pii` (src/middleware/PIIMaskingMiddleware.py), over ASCII text. */
module PiiMasking {
  import opened PythonText
  import opened Wrappers

  datatype Kind = Email | Phone | NationalId | TaxId

  /** The order of `_PII_PATTERNS`. */
  const KINDS: seq<Kind> := [Email, Phone, NationalId, TaxId]

  /** `[REDACTED:<type>]` */
  function Token(k: Kind): string {
    TOKEN_HEAD + TokenTail(k)
  }

  const TOKEN_HEAD := "[REDACTED:"

  function TokenTail(k: Kind): string {
    match k
    case Email => "EMAIL]"
    case Phone => "PHONE_DZ]"
    case NationalId => "NID_DZ]"
    case TaxId => "TAX_ID_DZ]"
  }

  /* ---------- character classes ---------- */

  /** `[a-zA-Z0-9._%+\-]` */
  predicate IsLocal(c: char) { IsLetter(c) || IsDigit(c) || c == '.' || c == '_' || c == '%' || c == '+' || c == '-' }

  /** `[a-zA-Z0-9.\-]` */
  predicate IsDomain(c: char) { IsLetter(c) || IsDigit(c) || c == '.' || c == '-' }

  predicate AfterDigit(prev: Option<char>) { prev.Some? && IsDigit(prev.value) }

  predicate AfterWord(prev: Option<char>) { prev.Some? && IsWord(prev.value) }

  function Run(s: string, p: char -> bool): (n: nat)
    ensures n <= |s| && (n < |s| ==> !p(s[n]))
    ensures forall i :: 0 <= i < n ==> p(s[i])
  {
    if s == "" || !p(s[0]) then 0 else 1 + Run(s[1..], p)
  }

  /* ---------- the patterns ---------- */

  // A pattern is tried on a suffix of the text together with the character before it,
  // which is all its lookarounds and word boundaries can see.

  /** A dot with two letters behind it. */
  predicate DotAt(d: string, q: nat) {
    q + 2 < |d| && d[q] == '.' && IsLetter(d[q + 1]) && IsLetter(d[q + 2])
  }

  /** The last such dot among positions `1..p`, or 0: where the greedy domain backs
      up to. */
  function LastDot(d: string, p: nat): (q: nat)
    ensures q <= p && (q > 0 ==> DotAt(d, q))
    ensures forall r :: q < r <= p ==> !DotAt(d, r)
  {
    if p == 0 || DotAt(d, p) then p else LastDot(d, p - 1)
  }

  /** `[a-zA-Z0-9._%+\-]+@[a-zA-Z0-9.\-]+\.[a-zA-Z]{2,}`: length of the match, or 0. */
  function EmailLen(s: string): (n: nat)
    ensures n <= |s|
  {
    var local := Run(s, IsLocal);
    if local == 0 || local == |s| || s[local] != '@' then 0
    else
      var domain := s[local + 1..];
      var dot := LastDot(domain, Run(domain, IsDomain));
      if dot == 0 then 0
      else local + 2 + dot + Run(domain[dot + 1..], IsLetter)
  }

  /** The `n` characters from `from` on are digits. */
  predicate Digits(s: string, from: nat, n: nat) {
    from + n <= |s| && forall i :: from <= i < from + n ==> IsDigit(s[i])
  }

  /** Length of `\+213` or `0` at the front. */
  function PhonePrefix(s: string): nat {
    if |s| >= 4 && s[0] == '+' && s[1] == '2' && s[2] == '1' && s[3] == '3' then 4
    else if |s| >= 1 && s[0] == '0' then 1
    else 0
  }

  /** `(?:\+213|0)[5-7]\d{8}(?!\d)` */
  function PhoneBodyLen(s: string): (n: nat)
    ensures n <= |s|
  {
    var p := PhonePrefix(s);
    if p > 0 && p < |s| && '5' <= s[p] <= '7' && Digits(s, p + 1, 8)
       && (p + 9 < |s| ==> !IsDigit(s[p + 9]))
    then p + 9 else 0
  }

  /** `\b\d{n}\b` */
  function NumberLen(prev: Option<char>, s: string, n: nat): (m: nat)
    ensures m <= |s|
  {
    if !AfterWord(prev) && Digits(s, 0, n) && (n < |s| ==> !IsWord(s[n])) then n else 0
  }

  /** Length of the match of `k` at the front of `s`, or 0. */
  function MatchLen(k: Kind, prev: Option<char>, s: string): (n: nat)
    ensures n <= |s|
  {
    match k
    case Email => EmailLen(s)
    case Phone => if AfterDigit(prev) then 0 else PhoneBodyLen(s)
    case NationalId => NumberLen(prev, s, 18)
    case TaxId => NumberLen(prev, s, 15)
  }

  /* ---------- the passes ---------- */

  /** `pattern.sub(token, s)` */
  function Sub(k: Kind, prev: Option<char>, s: string): string
    decreases |s|
  {
    if s == "" then ""
    else
      var n := MatchLen(k, prev, s);
      if n > 0 then Token(k) + Sub(k, Some(s[n - 1]), s[n..])
      else [s[0]] + Sub(k, Some(s[0]), s[1..])
  }

  /** `len(pattern.findall(s))` */
  function Hits(k: Kind, prev: Option<char>, s: string): nat
    decreases |s|
  {
    if s == "" then 0
    else
      var n := MatchLen(k, prev, s);
      if n > 0 then 1 + Hits(k, Some(s[n - 1]), s[n..])
      else Hits(k, Some(s[0]), s[1..])
  }

  /** The text after the first `n` passes. */
  function Stage(text: string, n: nat): string
    requires n <= |KINDS|
  {
    if n == 0 then text else Sub(KINDS[n - 1], None, Stage(text, n - 1))
  }

  function Masked(text: string): string {
    Stage(text, |KINDS|)
  }

  function StageHits(text: string, n: nat): nat
    requires n < |KINDS|
  {
    Hits(KINDS[n], None, Stage(text, n))
  }

  /** `counts` holds an entry for exactly the kinds that were found. */
  predicate CountsAre(text: string, n: nat, counts: map<Kind, nat>)
    requires n <= |KINDS|
  {
    && (forall i :: 0 <= i < n ==>
          if StageHits(text, i) > 0 then KINDS[i] in counts && counts[KINDS[i]] == StageHits(text, i)
          else KINDS[i] !in counts)
    && (forall i :: n <= i < |KINDS| ==> KINDS[i] !in counts)
  }

  lemma {:induction false} NoHitsNoChange(k: Kind, prev: Option<char>, s: string)
    ensures Hits(k, prev, s) == 0 <==> Clean(k, prev, s)
    ensures Hits(k, prev, s) == 0 ==> Sub(k, prev, s) == s
    decreases |s|
  {
    if s != "" && MatchLen(k, prev, s) == 0 {
      NoHitsNoChange(k, Some(s[0]), s[1..]);
    }
  }

  lemma NextCounts(text: string, n: nat, counts: map<Kind, nat>)
    requires n < |KINDS| && CountsAre(text, n, counts)
    ensures CountsAre(text, n + 1,
                      if StageHits(text, n) > 0 then counts[KINDS[n] := StageHits(text, n)] else counts)
  {
  }

  method MaskPii(text: string) returns (masked: string, counts: map<Kind, nat>)
    ensures masked == Masked(text)
    ensures CountsAre(text, |KINDS|, counts)
  {
    masked := text;
    counts := map[];
    for i := 0 to |KINDS|
      invariant masked == Stage(text, i)
      invariant CountsAre(text, i, counts)
    {
      hide CountsAre, Hits, Sub;
      var hits := Hits(KINDS[i], None, masked);
      NextCounts(text, i, counts);
      NoHitsNoChange(KINDS[i], None, masked);
      if hits > 0 {
        counts := counts[KINDS[i] := hits];
        masked := Sub(KINDS[i], None, masked);
      }
    }
  }

  /* ---------- what the passes leave behind ---------- */

  /** No match of `k` starts anywhere in `s`. */
  predicate Clean(k: Kind, prev: Option<char>, s: string)
    decreases |s|
  {
    s == "" || (MatchLen(k, prev, s) == 0 && Clean(k, Some(s[0]), s[1..]))
  }

  /** No number masked by the pass of `k` is directly followed by a `+213` number.
      Such a follower is skipped while a digit stands before it, and becomes a
      match once the token does. */
  predicate NoPlusFollower(k: Kind, prev: Option<char>, s: string)
    decreases |s|
  {
    s == "" ||
    var n := MatchLen(k, prev, s);
    if n > 0 then PhoneBodyLen(s[n..]) == 0 && NoPlusFollower(k, Some(s[n - 1]), s[n..])
    else NoPlusFollower(k, Some(s[0]), s[1..])
  }

  /** Looking once at the text without its email addresses: no phone number, standalone
      18-digit run or standalone 15-digit run in it is directly followed by a `+213`
      number. */
  predicate NoPlusFollowers(text: string) {
    forall k: Kind :: k != Email ==> NoPlusFollower(k, None, WithoutEmails(text))
  }

  /** The text after the email pass. */
  function WithoutEmails(text: string): string { Sub(Email, None, text) }

  /** The same as the passes meet it, each in the text that the passes before it leave. */
  predicate NoPlusFollowersByStage(text: string) {
    && NoPlusFollower(Phone, None, Stage(text, 1))
    && NoPlusFollower(NationalId, None, Stage(text, 2))
    && NoPlusFollower(TaxId, None, Stage(text, 3))
  }

  /** No `+` directly follows a digit. */
  predicate NoDigitPlus(prev: Option<char>, s: string)
    decreases |s|
  {
    s == "" || (!(AfterDigit(prev) && s[0] == '+') && NoDigitPlus(Some(s[0]), s[1..]))
  }

  /* ---------- emails as a shape rather than a scan ---------- */

  predicate EmailShape(s: string, n: nat, p: nat) {
    && n >= 1 && p >= 1 && n + p + 3 < |s|
    && (forall i :: 0 <= i < n ==> IsLocal(s[i]))
    && s[n] == '@'
    && (forall i :: n < i <= n + p ==> IsDomain(s[i]))
    && s[n + p + 1] == '.' && IsLetter(s[n + p + 2]) && IsLetter(s[n + p + 3])
  }

  lemma EmailHasShape(s: string)
    requires EmailLen(s) > 0
    ensures exists n: nat, p: nat :: EmailShape(s, n, p)
  {
    var n := Run(s, IsLocal);
    var domain := s[n + 1..];
    var p := LastDot(domain, Run(domain, IsDomain));
    assert forall i :: n < i < |s| ==> s[i] == domain[i - n - 1];
    assert DotAt(domain, p);
    hide Run, LastDot, EmailLen, IsLocal, IsDomain;
    assert forall i :: n < i <= n + p ==> IsDomain(s[i]) by {
      assert forall i :: 0 <= i < p ==> IsDomain(domain[i]);
    }
    assert EmailShape(s, n, p);
  }

  lemma ShapeIsEmail(s: string, n: nat, p: nat)
    requires EmailShape(s, n, p)
    ensures EmailLen(s) > 0
  {
    var local := Run(s, IsLocal);
    assert local == n;
    var domain := s[n + 1..];
    var run := Run(domain, IsDomain);
    assert DotAt(domain, p);
    assert run < |domain| ==> !IsDomain(s[n + 1 + run]);
    assert p <= run;
    assert LastDot(domain, run) >= p;
  }

  /** A match only uses characters that appear in no token, except letters. */
  lemma MatchHasNoBracket(k: Kind, prev: Option<char>, s: string)
    ensures k != Email ==> forall i :: 0 <= i < MatchLen(k, prev, s) ==> IsDigit(s[i]) || s[i] == '+'
    ensures k != Email && MatchLen(k, prev, s) > 0 ==> IsDigit(s[MatchLen(k, prev, s) - 1])
  {
  }

  /* ---------- how a pass copies text ---------- */

  predicate NoBracket(w: string) {
    forall i :: 0 <= i < |w| ==> w[i] != '['
  }

  function LastOf(prev: Option<char>, w: string): Option<char> {
    if w == "" then prev else Some(w[|w| - 1])
  }

  lemma SubCopies(k: Kind, prev: Option<char>, s: string)
    requires s != "" && MatchLen(k, prev, s) == 0
    ensures Sub(k, prev, s) == [s[0]] + Sub(k, Some(s[0]), s[1..])
  {
  }

  lemma UnbracketedStart(k: Kind, prev: Option<char>, s: string, w: string)
    requires w != "" && w <= Sub(k, prev, s) && NoBracket(w)
    ensures s != "" && MatchLen(k, prev, s) == 0 && s[0] == w[0]
    ensures w[1..] <= Sub(k, Some(s[0]), s[1..])
  {
    SubStart(k, prev, s);
    if s != "" && MatchLen(k, prev, s) == 0 {
      SubCopies(k, prev, s);
      hide Sub, MatchLen;
      PrefixTail(w, s[0], Sub(k, Some(s[0]), s[1..]));
    }
  }

  lemma SubStart(k: Kind, prev: Option<char>, s: string)
    ensures s == "" ==> Sub(k, prev, s) == ""
    ensures s != "" && MatchLen(k, prev, s) > 0 ==> Sub(k, prev, s) != "" && Sub(k, prev, s)[0] == '['
  {
    hide MatchLen;
  }

  lemma PrefixTail(w: string, c: char, rest: string)
    requires w != "" && w <= [c] + rest
    ensures w[0] == c && w[1..] <= rest
  {
    assert forall i :: 0 <= i < |w| - 1 ==> w[1..][i] == ([c] + rest)[i + 1] == rest[i];
  }

  /** Output without a bracket was copied from the input. */
  lemma {:induction false} CopiedPrefix(k: Kind, prev: Option<char>, s: string, w: string)
    requires w <= Sub(k, prev, s) && NoBracket(w)
    ensures w <= s
    ensures Sub(k, prev, s) == w + Sub(k, LastOf(prev, w), s[|w|..])
    decreases |w|
  {
    hide Sub, MatchLen;
    if w == "" {
      assert s[0..] == s;
    } else {
      UnbracketedStart(k, prev, s, w);
      SubCopies(k, prev, s);
      CopiedPrefix(k, Some(s[0]), s[1..], w[1..]);
      assert w == [s[0]] + w[1..] && s == [s[0]] + s[1..];
      assert s[1..][|w| - 1..] == s[|w|..];
    }
  }

  /** No match starts in the first `m` positions. */
  predicate Quiet(k: Kind, prev: Option<char>, s: string, m: nat)
    requires m <= |s|
    decreases m
  {
    m == 0 || (MatchLen(k, prev, s) == 0 && Quiet(k, Some(s[0]), s[1..], m - 1))
  }

  /** Where no match starts, the input is copied. */
  lemma {:induction false} CopyWithoutMatch(k: Kind, prev: Option<char>, s: string, m: nat)
    requires m <= |s| && Quiet(k, prev, s, m)
    ensures Sub(k, prev, s) == s[..m] + Sub(k, LastOf(prev, s[..m]), s[m..])
    decreases m
  {
    hide Sub, MatchLen;
    if m == 0 {
      assert s[0..] == s;
    } else {
      SubCopies(k, prev, s);
      CopyWithoutMatch(k, Some(s[0]), s[1..], m - 1);
      assert s[1..][m - 1..] == s[m..];
      assert s[..m] == [s[0]] + s[1..][..m - 1];
    }
  }

  /** No number starts directly after a digit, so the character there is copied. */
  lemma HeadAfterDigit(k: Kind, prev: Option<char>, s: string)
    requires k != Email && AfterDigit(prev)
    ensures s == "" ==> Sub(k, prev, s) == ""
    ensures s != "" ==> Sub(k, prev, s) != "" && Sub(k, prev, s)[0] == s[0]
  {
  }

  /** A number match depends on its own characters and the one that follows. */
  lemma SameNumber(q: Kind, prev: Option<char>, s: string, t: string)
    requires q != Email && MatchLen(q, prev, s) > 0
    requires var n := MatchLen(q, prev, s);
             s[..n] <= t && (|s| == n <==> |t| == n) && (|s| > n ==> t[n] == s[n])
    ensures MatchLen(q, prev, t) == MatchLen(q, prev, s)
  {
  }

  /** A number matched in the output of a number pass was matched in its input. */
  lemma NumberWasThere(q: Kind, k: Kind, prev: Option<char>, seen: Option<char>, s: string)
    requires q != Email && k != Email
    requires MatchLen(q, seen, Sub(k, prev, s)) > 0
    ensures MatchLen(q, seen, s) > 0
    ensures s[0] == Sub(k, prev, s)[0]
  {
    var out := Sub(k, prev, s);
    var n := MatchLen(q, seen, out);
    MatchHasNoBracket(q, seen, out);
    CopiedPrefix(k, prev, s, out[..n]);
    HeadAfterDigit(k, LastOf(prev, out[..n]), s[n..]);
    assert out[n..] == Sub(k, LastOf(prev, out[..n]), s[n..]);
    SameNumber(q, seen, out, s);
  }

  lemma ShapeHasNoBracket(s: string, n: nat, p: nat)
    requires EmailShape(s, n, p)
    ensures NoBracket(s[..n + p + 4])
  {
  }

  lemma ShapeOfPrefix(s: string, t: string, n: nat, p: nat)
    requires EmailShape(s, n, p) && s[..n + p + 4] <= t
    ensures EmailShape(t, n, p)
  {
    assert forall i :: 0 <= i < n + p + 4 ==> t[i] == s[..n + p + 4][i];
  }

  /** An email found in the output of any pass was in its input. */
  lemma EmailWasThere(k: Kind, prev: Option<char>, s: string)
    requires EmailLen(Sub(k, prev, s)) > 0
    ensures EmailLen(s) > 0
  {
    var out := Sub(k, prev, s);
    EmailHasShape(out);
    hide Sub, EmailLen;
    var n: nat, p: nat :| EmailShape(out, n, p);
    ShapeHasNoBracket(out, n, p);
    CopiedPrefix(k, prev, s, out[..n + p + 4]);
    ShapeOfPrefix(out, s, n, p);
    ShapeIsEmail(s, n, p);
  }

  /* ---------- tokens ---------- */

  /** Text that no pattern can use: no digit, sign or `@`, ending in a bracket. */
  predicate Inert(w: string) {
    && w != "" && w[|w| - 1] == ']'
    && forall i :: 0 <= i < |w| ==> !IsDigit(w[i]) && w[i] != '+' && w[i] != '@'
  }

  lemma InertIsNoEmail(w: string, rest: string, n: nat, p: nat)
    requires Inert(w)
    ensures !EmailShape(w + rest, n, p)
  {
    var t := w + rest;
    if n < |w| {
      assert t[n] == w[n];
    } else {
      assert t[|w| - 1] == w[|w| - 1];
    }
  }

  lemma InertHasNoMatch(k: Kind, prev: Option<char>, w: string, rest: string)
    requires Inert(w)
    ensures MatchLen(k, prev, w + rest) == 0
  {
    if k == Email && EmailLen(w + rest) > 0 {
      EmailHasShape(w + rest);
      var n: nat, p: nat :| EmailShape(w + rest, n, p);
      InertIsNoEmail(w, rest, n, p);
    }
    assert (w + rest)[0] == w[0];
  }

  lemma {:induction false} InertIsQuiet(k: Kind, prev: Option<char>, w: string, rest: string)
    requires Inert(w)
    ensures Quiet(k, prev, w + rest, |w|)
    decreases |w|
  {
    InertHasNoMatch(k, prev, w, rest);
    hide MatchLen;
    assert (w + rest)[1..] == w[1..] + rest && (w + rest)[0] == w[0];
    if |w| > 1 {
      InertIsQuiet(k, Some(w[0]), w[1..], rest);
    }
  }

  lemma TailIsInert(k: Kind)
    ensures Inert(TokenTail(k)) && NoBracket(TokenTail(k))
  {
  }

  lemma TokenIsInert(k: Kind)
    ensures Inert(Token(k)) && Token(k)[0] == '[' && |Token(k)| > 10
    ensures NoBracket(Token(k)[1..]) && Inert(Token(k)[1..])
    ensures forall j: Kind :: j != k ==> |Token(j)| > 10 && Token(j)[10] != Token(k)[10]
  {
    assert forall i :: 0 <= i < 10 ==> !IsDigit(TOKEN_HEAD[i]) && TOKEN_HEAD[i] != '+' && TOKEN_HEAD[i] != '@';
    assert forall i :: 1 <= i < 10 ==> TOKEN_HEAD[i] != '[';
    TailIsInert(k);
    forall j: Kind | j != k
      ensures |Token(j)| > 10 && Token(j)[10] != Token(k)[10]
    {
      TailIsInert(j);
      assert TokenTail(j)[0] != TokenTail(k)[0];
    }
  }

  lemma {:induction false} CleanPastInert(q: Kind, seen: Option<char>, w: string, rest: string)
    requires Inert(w)
    ensures Clean(q, seen, w + rest) <==> Clean(q, Some(']'), rest)
    decreases |w|
  {
    InertHasNoMatch(q, seen, w, rest);
    hide MatchLen;
    assert (w + rest)[1..] == w[1..] + rest;
    if |w| == 1 {
      assert w[1..] + rest == rest;
    } else {
      CleanPastInert(q, Some(w[0]), w[1..], rest);
    }
  }

  /* ---------- what is clean after a pass ---------- */

  /** What the character before the output says about the input: it is the same
      character, or a token was just written in place of a number. */
  predicate InStep(q: Kind, k: Kind, prev: Option<char>, seen: Option<char>, s: string) {
    k == Email || seen == prev ||
    (seen == Some(']') && AfterDigit(prev) && (s != "" ==> !IsDigit(s[0])) &&
     (q == Phone ==> PhoneBodyLen(s) == 0))
  }

  lemma InStepAfterMatch(q: Kind, k: Kind, prev: Option<char>, s: string)
    requires k != Email && MatchLen(k, prev, s) > 0
    requires q == Phone ==> PhoneBodyLen(s[MatchLen(k, prev, s)..]) == 0
    ensures var n := MatchLen(k, prev, s); InStep(q, k, Some(s[n - 1]), Some(']'), s[n..])
  {
    MatchHasNoBracket(k, prev, s);
  }

  lemma NoMatchInStep(q: Kind, k: Kind, prev: Option<char>, seen: Option<char>, s: string)
    requires if k == Email then q == Email else MatchLen(q, prev, s) == 0
    requires k == Email ==> EmailLen(s) == 0
    requires InStep(q, k, prev, seen, s)
    ensures MatchLen(q, seen, Sub(k, prev, s)) == 0
  {
    if MatchLen(q, seen, Sub(k, prev, s)) > 0 {
      if q == Email {
        EmailWasThere(k, prev, s);
      } else {
        NumberWasThere(q, k, prev, seen, s);
      }
    }
  }

  /** A pass leaves none of its own matches, and makes no match of an earlier
      pattern, except that a token may free a phone number behind it. */
  lemma {:induction false} CleanAfterPass(q: Kind, k: Kind, prev: Option<char>, seen: Option<char>, s: string)
    requires q == k || (k != Email && Clean(q, prev, s))
    requires InStep(q, k, prev, seen, s)
    requires q == Phone ==> NoPlusFollower(k, prev, s)
    ensures Clean(q, seen, Sub(k, prev, s))
    decreases |s|
  {
    if s != "" {
      var n := MatchLen(k, prev, s);
      if n > 0 {
        if k != Email {
          InStepAfterMatch(q, k, prev, s);
        }
        if q != k {
          CleanSuffix(q, prev, s, n);
        }
        CleanAfterPass(q, k, Some(s[n - 1]), Some(']'), s[n..]);
        TokenIsInert(k);
        CleanPastInert(q, seen, Token(k), Sub(k, Some(s[n - 1]), s[n..]));
      } else {
        NoMatchInStep(q, k, prev, seen, s);
        CleanAfterPass(q, k, Some(s[0]), Some(s[0]), s[1..]);
        hide MatchLen;
        assert Sub(k, prev, s)[1..] == Sub(k, Some(s[0]), s[1..]);
      }
    }
  }

  lemma {:induction false} CleanSuffix(q: Kind, prev: Option<char>, s: string, n: nat)
    requires n <= |s| && Clean(q, prev, s)
    ensures Clean(q, LastOf(prev, s[..n]), s[n..])
    decreases n
  {
    hide MatchLen;
    if n == 0 {
      assert s[0..] == s;
    } else {
      CleanSuffix(q, Some(s[0]), s[1..], n - 1);
      assert s[1..][n - 1..] == s[n..];
      assert LastOf(Some(s[0]), s[1..][..n - 1]) == LastOf(prev, s[..n]);
    }
  }

  /* ---------- and the other way round, for phones ---------- */

  /** The rest of a phone number, once some of it has been read. */
  predicate PhoneTail(s: string, m: nat) {
    && m <= |s| && m < 13 && (m < |s| ==> !IsDigit(s[m]))
    && (Digits(s, 0, m) || (m == 12 && s[0] == '2' && Digits(s, 1, m - 1)))
  }

  lemma {:induction false} QuietTail(k: Kind, prev: Option<char>, s: string, m: nat)
    requires k != Email && PhoneTail(s, m)
    requires k == Phone ==> AfterDigit(prev) || (prev == Some('+') && m == 12 && s[0] == '2')
    ensures Quiet(k, prev, s, m)
    ensures m > 0 ==> AfterDigit(LastOf(prev, s[..m]))
    decreases m
  {
    if m > 0 {
      assert IsDigit(s[0]);
      assert PhoneTail(s[1..], m - 1);
      QuietTail(k, Some(s[0]), s[1..], m - 1);
    }
  }

  /** A phone number in the input of a number pass is still there in its output,
      unless that pass masks it. */
  lemma PhoneSurvives(k: Kind, prev: Option<char>, s: string)
    requires k != Email && PhoneBodyLen(s) > 0
    requires k == Phone ==> AfterDigit(prev)
    ensures PhoneBodyLen(Sub(k, prev, s)) > 0
  {
    var n := PhoneBodyLen(s);
    var p := PhonePrefix(s);
    assert forall i :: p < i < p + 9 ==> IsDigit(s[i]);
    assert PhoneTail(s[1..], n - 1);
    QuietTail(k, Some(s[0]), s[1..], n - 1);
    assert MatchLen(k, prev, s) == 0;
    CopyWithoutMatch(k, prev, s, n);
    hide Sub, Quiet;
    var out := Sub(k, prev, s);
    HeadAfterDigit(k, LastOf(prev, s[..n]), s[n..]);
    assert out[n..] == Sub(k, LastOf(prev, s[..n]), s[n..]);
    SameNumber(Phone, None, s, out);
  }

  lemma {:induction false} CleanBeforePass(k: Kind, prev: Option<char>, seen: Option<char>, s: string)
    requires k != Email && Clean(Phone, seen, Sub(k, prev, s))
    requires seen == prev || AfterDigit(prev)
    ensures NoPlusFollower(k, prev, s)
    ensures k != Phone ==> Clean(Phone, prev, s)
    decreases |s|
  {
    if s != "" {
      var n := MatchLen(k, prev, s);
      var out := Sub(k, prev, s);
      if n > 0 {
        var rest := Sub(k, Some(s[n - 1]), s[n..]);
        MatchHasNoBracket(k, prev, s);
        TokenIsInert(k);
        CleanPastInert(Phone, seen, Token(k), rest);
        CleanBeforePass(k, Some(s[n - 1]), Some(']'), s[n..]);
        if PhoneBodyLen(s[n..]) > 0 {
          PhoneSurvives(k, Some(s[n - 1]), s[n..]);
        }
        if k != Phone {
          CleanAcrossNumber(k, prev, s);
        }
      } else {
        assert out[1..] == Sub(k, Some(s[0]), s[1..]);
        CleanBeforePass(k, Some(s[0]), Some(s[0]), s[1..]);
        if k != Phone && MatchLen(Phone, prev, s) > 0 {
          PhoneSurvives(k, prev, s);
        }
      }
    }
  }

  /** No phone starts inside a standalone run of fifteen or more digits. */
  lemma {:induction false} CleanAcrossNumber(k: Kind, prev: Option<char>, s: string)
    requires (k == NationalId || k == TaxId) && MatchLen(k, prev, s) > 0
    requires var n := MatchLen(k, prev, s); Clean(Phone, Some(s[n - 1]), s[n..])
    ensures Clean(Phone, prev, s)
  {
    var n := MatchLen(k, prev, s);
    assert MatchLen(Phone, prev, s) == 0 by {
      assert IsDigit(s[0]) && IsDigit(s[10]);
    }
    assert s[1..][n - 1..] == s[n..];
    CleanInsideDigits(Some(s[0]), s[1..], n - 1);
  }

  lemma {:induction false} CleanInsideDigits(prev: Option<char>, s: string, n: nat)
    requires AfterDigit(prev) && Digits(s, 0, n) && Clean(Phone, LastOf(prev, s[..n]), s[n..])
    ensures Clean(Phone, prev, s)
    decreases n
  {
    if n == 0 {
      assert s[0..] == s;
    } else {
      assert s[1..][n - 1..] == s[n..];
      assert LastOf(Some(s[0]), s[1..][..n - 1]) == LastOf(prev, s[..n]);
      CleanInsideDigits(Some(s[0]), s[1..], n - 1);
    }
  }

  /* ---------- the passes over numbers do not move each other's numbers ---------- */

  lemma {:induction false} QuietInDigits(k: Kind, prev: Option<char>, s: string, m: nat)
    requires k != Email && AfterDigit(prev) && Digits(s, 0, m)
    ensures Quiet(k, prev, s, m)
    decreases m
  {
    if m > 0 {
      QuietInDigits(k, Some(s[0]), s[1..], m - 1);
    }
  }

  lemma QuietFromDigit(k: Kind, prev: Option<char>, s: string, m: nat)
    requires k != Email && 0 < m && Digits(s, 0, m) && MatchLen(k, prev, s) == 0
    ensures Quiet(k, prev, s, m)
  {
    QuietInDigits(k, Some(s[0]), s[1..], m - 1);
  }

  /** No standalone run starts inside a phone number, nor a shorter one inside a longer. */
  lemma QuietInMatch(q: Kind, k: Kind, prev: Option<char>, s: string)
    requires q == NationalId || q == TaxId
    requires (k == Phone || (k == NationalId && q == TaxId)) && MatchLen(k, prev, s) > 0
    ensures Quiet(q, prev, s, MatchLen(k, prev, s))
  {
    var n := MatchLen(k, prev, s);
    if k == Phone {
      var p := PhonePrefix(s);
      assert forall i :: p < i < p + 9 ==> IsDigit(s[i]);
      assert PhoneTail(s[1..], n - 1);
      assert MatchLen(q, prev, s) == 0;
      QuietTail(q, Some(s[0]), s[1..], n - 1);
    } else {
      assert IsDigit(s[15]);
      QuietFromDigit(q, prev, s, n);
    }
  }

  lemma {:induction false} FollowersPastQuiet(q: Kind, prev: Option<char>, s: string, m: nat)
    requires m <= |s| && Quiet(q, prev, s, m)
    ensures NoPlusFollower(q, prev, s) <==> NoPlusFollower(q, LastOf(prev, s[..m]), s[m..])
    decreases m
  {
    hide MatchLen, PhoneBodyLen;
    if m == 0 {
      assert s[0..] == s;
    } else {
      FollowersPastQuiet(q, Some(s[0]), s[1..], m - 1);
      assert s[1..][m - 1..] == s[m..];
      assert LastOf(Some(s[0]), s[1..][..m - 1]) == LastOf(prev, s[..m]);
    }
  }

  /** A number that a pass leaves alone stays in place, and so does a phone number behind
      it. */
  lemma NumberStays(q: Kind, k: Kind, prev: Option<char>, s: string)
    requires (q == NationalId || q == TaxId) && k != Email
    requires MatchLen(k, prev, s) == 0 && MatchLen(q, prev, s) > 0
    ensures var n := MatchLen(q, prev, s);
            var out, rest := Sub(k, prev, s), Sub(k, Some(s[n - 1]), s[n..]);
            && MatchLen(q, prev, out) == n && out[n - 1] == s[n - 1] && out[n..] == rest
            && (PhoneBodyLen(rest) == 0 <==> PhoneBodyLen(s[n..]) == 0)
  {
    var n := MatchLen(q, prev, s);
    var out, rest := Sub(k, prev, s), Sub(k, Some(s[n - 1]), s[n..]);
    MatchHasNoBracket(q, prev, s);
    QuietFromDigit(k, prev, s, n);
    CopyWithoutMatch(k, prev, s, n);
    HeadAfterDigit(k, Some(s[n - 1]), s[n..]);
    assert out == s[..n] + rest;
    SameNumber(q, prev, s, out);
    if PhoneBodyLen(s[n..]) > 0 {
      PhoneSurvives(k, Some(s[n - 1]), s[n..]);
    }
    if PhoneBodyLen(rest) > 0 {
      NumberWasThere(Phone, k, Some(s[n - 1]), None, s[n..]);
    }
  }

  /** What the two characters before say: a number of `q` starts at both places or, behind
      a token, at neither. */
  lemma NumbersInStep(q: Kind, k: Kind, prev: Option<char>, seen: Option<char>, s: string)
    requires (q == NationalId || q == TaxId) && k != Email
    requires seen == prev || (seen == Some(']') && AfterDigit(prev) && (s != "" ==> !IsDigit(s[0])))
    ensures MatchLen(q, prev, s) > 0 ==> seen == prev
    ensures MatchLen(q, prev, s) == 0 ==> MatchLen(q, seen, Sub(k, prev, s)) == 0
  {
    if MatchLen(q, seen, Sub(k, prev, s)) > 0 {
      NumberWasThere(q, k, prev, seen, s);
    }
    hide Sub;
  }

  /** So an earlier pass over numbers neither makes nor removes a later one's followers. */
  lemma {:induction false} FollowersKept(q: Kind, k: Kind, prev: Option<char>, seen: Option<char>, s: string)
    requires q == NationalId || q == TaxId
    requires k == Phone || (k == NationalId && q == TaxId)
    requires seen == prev || (seen == Some(']') && AfterDigit(prev) && (s != "" ==> !IsDigit(s[0])))
    ensures NoPlusFollower(q, seen, Sub(k, prev, s)) <==> NoPlusFollower(q, prev, s)
    decreases |s|
  {
    if s == "" {
      assert Sub(k, prev, s) == "";
    } else {
      var n, m := MatchLen(k, prev, s), MatchLen(q, prev, s);
      var out := Sub(k, prev, s);
      NumbersInStep(q, k, prev, seen, s);
      hide MatchLen, Sub, NoPlusFollower, PhoneBodyLen;
      if n > 0 {
        FollowersPastMatch(q, k, prev, seen, s);
        MatchEnds(k, prev, s);
        FollowersKept(q, k, Some(s[n - 1]), Some(']'), s[n..]);
      } else if m > 0 {
        NumberStays(q, k, prev, s);
        FollowersKept(q, k, Some(s[m - 1]), Some(s[m - 1]), s[m..]);
        FollowersFromMatch(q, prev, s, out);
      } else {
        SubCopies(k, prev, s);
        FollowersKept(q, k, Some(s[0]), Some(s[0]), s[1..]);
        FollowersFromChar(q, seen, out);
        FollowersFromChar(q, prev, s);
        assert out[1..] == Sub(k, Some(s[0]), s[1..]);
      }
    }
  }

  lemma FollowersFromChar(q: Kind, prev: Option<char>, s: string)
    requires s != "" && MatchLen(q, prev, s) == 0
    ensures NoPlusFollower(q, prev, s) <==> NoPlusFollower(q, Some(s[0]), s[1..])
  {
  }

  lemma MatchEnds(k: Kind, prev: Option<char>, s: string)
    requires k != Email && MatchLen(k, prev, s) > 0
    ensures var n := MatchLen(k, prev, s);
            AfterDigit(Some(s[n - 1])) && (s[n..] != "" ==> !IsDigit(s[n..][0]))
  {
    MatchHasNoBracket(k, prev, s);
  }

  /** Both sides go on behind the number that the pass masks. */
  lemma FollowersPastMatch(q: Kind, k: Kind, prev: Option<char>, seen: Option<char>, s: string)
    requires q == NationalId || q == TaxId
    requires (k == Phone || (k == NationalId && q == TaxId)) && MatchLen(k, prev, s) > 0
    ensures var n := MatchLen(k, prev, s);
            && (NoPlusFollower(q, prev, s) <==> NoPlusFollower(q, Some(s[n - 1]), s[n..]))
            && (NoPlusFollower(q, seen, Sub(k, prev, s)) <==>
                NoPlusFollower(q, Some(']'), Sub(k, Some(s[n - 1]), s[n..])))
  {
    var n := MatchLen(k, prev, s);
    var rest := Sub(k, Some(s[n - 1]), s[n..]);
    QuietInMatch(q, k, prev, s);
    FollowersPastQuiet(q, prev, s, n);
    TokenIsInert(k);
    InertIsQuiet(q, seen, Token(k), rest);
    assert Sub(k, prev, s) == Token(k) + rest;
    hide Sub, MatchLen, NoPlusFollower, Token;
    FollowersPastQuiet(q, seen, Token(k) + rest, |Token(k)|);
    assert (Token(k) + rest)[..|Token(k)|] == Token(k) && (Token(k) + rest)[|Token(k)|..] == rest;
  }

  /** Both sides go on behind a number of `q` that stays. */
  lemma FollowersFromMatch(q: Kind, prev: Option<char>, s: string, out: string)
    requires MatchLen(q, prev, s) > 0 && MatchLen(q, prev, out) == MatchLen(q, prev, s)
    ensures var n := MatchLen(q, prev, s);
            && out[n - 1] == s[n - 1] && (PhoneBodyLen(out[n..]) == 0 <==> PhoneBodyLen(s[n..]) == 0)
            && (NoPlusFollower(q, Some(s[n - 1]), out[n..]) <==> NoPlusFollower(q, Some(s[n - 1]), s[n..])) ==>
              (NoPlusFollower(q, prev, out) <==> NoPlusFollower(q, prev, s))
  {
    hide MatchLen, PhoneBodyLen;
  }

  /** Looking once is looking stage by stage. */
  lemma FollowersOnceAndForAll(text: string)
    ensures NoPlusFollowers(text) <==> NoPlusFollowersByStage(text)
  {
    var once := WithoutEmails(text);
    assert Stage(text, 1) == once;
    hide NoPlusFollower, Sub;
    FollowersKept(NationalId, Phone, None, None, once);
    FollowersKept(TaxId, Phone, None, None, once);
    FollowersKept(TaxId, NationalId, None, None, Stage(text, 2));
    assert NoPlusFollowersByStage(text) <==>
        NoPlusFollower(Phone, None, once) && NoPlusFollower(NationalId, None, once) &&
        NoPlusFollower(TaxId, None, once);
  }

  /* ---------- the main results ---------- */

  lemma CleanStage(q: Kind, n: nat, text: string)
    requires 1 <= n < |KINDS| && q in KINDS[..n]
    requires Clean(q, None, Stage(text, n))
    requires q == Phone ==> NoPlusFollower(KINDS[n], None, Stage(text, n))
    ensures Clean(q, None, Stage(text, n + 1))
  {
    CleanAfterPass(q, KINDS[n], None, None, Stage(text, n));
  }

  lemma CleanOwnStage(n: nat, text: string)
    requires n < |KINDS|
    requires KINDS[n] == Phone ==> NoPlusFollower(Phone, None, Stage(text, n))
    ensures Clean(KINDS[n], None, Stage(text, n + 1))
  {
    CleanAfterPass(KINDS[n], KINDS[n], None, None, Stage(text, n));
  }

  /** No email, standalone 18-digit run or standalone 15-digit run survives. A phone
      number survives exactly when it directly follows a masked number. */
  lemma MaskedIsClean(text: string)
    ensures Clean(Email, None, Masked(text))
    ensures Clean(NationalId, None, Masked(text))
    ensures Clean(TaxId, None, Masked(text))
    ensures Clean(Phone, None, Masked(text)) <==> NoPlusFollowers(text)
  {
    FollowersOnceAndForAll(text);
    hide Clean, NoPlusFollower, Stage, NoPlusFollowers;
    CleanOwnStage(0, text);
    CleanStage(Email, 1, text);
    CleanStage(Email, 2, text);
    CleanStage(Email, 3, text);
    CleanOwnStage(2, text);
    CleanStage(NationalId, 3, text);
    CleanOwnStage(3, text);
    if NoPlusFollowersByStage(text) {
      CleanOwnStage(1, text);
      CleanStage(Phone, 2, text);
      CleanStage(Phone, 3, text);
    }
    if Clean(Phone, None, Masked(text)) {
      PhonesComeFromFollowers(text);
    }
  }

  lemma PhonesComeFromFollowers(text: string)
    requires Clean(Phone, None, Masked(text))
    ensures NoPlusFollowersByStage(text)
  {
    hide Clean, NoPlusFollower, Sub;
    CleanBeforePass(TaxId, None, None, Stage(text, 3));
    CleanBeforePass(NationalId, None, None, Stage(text, 2));
    CleanBeforePass(Phone, None, None, Stage(text, 1));
  }

  lemma NoPlusNoFollower(k: Kind, prev: Option<char>, s: string)
    requires k != Email && MatchLen(k, prev, s) > 0
    requires var n := MatchLen(k, prev, s); NoDigitPlus(Some(s[n - 1]), s[n..])
    ensures PhoneBodyLen(s[MatchLen(k, prev, s)..]) == 0
  {
    MatchHasNoBracket(k, prev, s);
  }

  lemma {:induction false} DigitPlusAfterPass(k: Kind, prev: Option<char>, seen: Option<char>, s: string)
    requires NoDigitPlus(prev, s) && (seen == prev || seen == Some(']'))
    ensures NoDigitPlus(seen, Sub(k, prev, s))
    ensures k != Email ==> NoPlusFollower(k, prev, s)
    decreases |s|
  {
    hide Token, MatchLen;
    if s != "" {
      var n := MatchLen(k, prev, s);
      if n > 0 {
        MatchHasNoBracket(k, prev, s);
        DigitPlusSuffix(prev, s, n);
        DigitPlusAfterPass(k, Some(s[n - 1]), Some(']'), s[n..]);
        TokenIsInert(k);
        DigitPlusPastInert(seen, Token(k), Sub(k, Some(s[n - 1]), s[n..]));
        if k != Email {
          NoPlusNoFollower(k, prev, s);
        }
      } else {
        DigitPlusAfterPass(k, Some(s[0]), Some(s[0]), s[1..]);
        assert Sub(k, prev, s)[1..] == Sub(k, Some(s[0]), s[1..]);
      }
    }
  }

  lemma {:induction false} DigitPlusSuffix(prev: Option<char>, s: string, n: nat)
    requires 0 < n <= |s| && NoDigitPlus(prev, s)
    ensures NoDigitPlus(Some(s[n - 1]), s[n..])
    decreases n
  {
    if n > 1 {
      DigitPlusSuffix(Some(s[0]), s[1..], n - 1);
      assert s[1..][n - 1..] == s[n..];
    }
  }

  lemma {:induction false} DigitPlusPastInert(seen: Option<char>, w: string, rest: string)
    requires Inert(w) && NoDigitPlus(Some(']'), rest)
    ensures NoDigitPlus(seen, w + rest)
    decreases |w|
  {
    assert (w + rest)[1..] == w[1..] + rest && (w + rest)[0] == w[0];
    if |w| == 1 {
      assert w[1..] + rest == rest;
    } else {
      DigitPlusPastInert(Some(w[0]), w[1..], rest);
    }
  }

  /** A caller can see it from the input: if no plus sign directly follows a digit, nothing
      of any kind is left. */
  lemma NoDigitPlusIsEnough(text: string)
    requires NoDigitPlus(None, text)
    ensures NoPlusFollowers(text)
    ensures Clean(Email, None, Masked(text)) && Clean(Phone, None, Masked(text))
    ensures Clean(NationalId, None, Masked(text)) && Clean(TaxId, None, Masked(text))
  {
    hide NoPlusFollower, NoDigitPlus, Sub, Clean, NoPlusFollowers;
    DigitPlusAfterPass(Email, None, None, Stage(text, 0));
    DigitPlusAfterPass(Phone, None, None, Stage(text, 1));
    DigitPlusAfterPass(NationalId, None, None, Stage(text, 2));
    DigitPlusAfterPass(TaxId, None, None, Stage(text, 3));
    FollowersOnceAndForAll(text);
    MaskedIsClean(text);
  }

  /* ---------- counting tokens ---------- */

  /** How often the token of `j` occurs in `s`. */
  function Tokens(j: Kind, s: string): nat {
    if s == "" then 0 else (if Token(j) <= s then 1 else 0) + Tokens(j, s[1..])
  }

  lemma {:induction false} TokensPast(j: Kind, w: string, rest: string)
    requires NoBracket(w)
    ensures Tokens(j, w + rest) == Tokens(j, rest)
    decreases |w|
  {
    if w == "" {
      assert w + rest == rest;
    } else {
      assert (w + rest)[1..] == w[1..] + rest;
      assert (w + rest)[0] != Token(j)[0];
      TokensPast(j, w[1..], rest);
    }
  }

  lemma TokensOfToken(j: Kind, k: Kind, rest: string)
    ensures Tokens(j, Token(k) + rest) == (if j == k then 1 else 0) + Tokens(j, rest)
  {
    TokenIsInert(k);
    hide *;
    var head, tail := [Token(k)[0]], Token(k)[1..];
    assert Token(k) + rest == head + (tail + rest);
    TokensPast(j, tail, rest);
    TokensCons(j, Token(k)[0], tail + rest);
    OneTokenHere(j, k, rest);
  }

  lemma TokensCons(j: Kind, c: char, rest: string)
    ensures Tokens(j, [c] + rest) == (if Token(j) <= [c] + rest then 1 else 0) + Tokens(j, rest)
  {
    assert ([c] + rest)[1..] == rest;
  }

  lemma OneTokenHere(j: Kind, k: Kind, rest: string)
    ensures Token(j) <= Token(k) + rest <==> j == k
  {
    TokenIsInert(k);
    hide *;
    assert Token(k) <= Token(k) + rest;
    assert (Token(k) + rest)[10] == Token(k)[10];
  }

  lemma MatchIsUnbracketed(k: Kind, prev: Option<char>, s: string)
    ensures NoBracket(s[..MatchLen(k, prev, s)])
  {
  }

  lemma PrefixOfCons(w: string, c: char, rest: string)
    ensures ['['] + w <= [c] + rest <==> c == '[' && w <= rest
  {
    var u, v := ['['] + w, [c] + rest;
    if u <= v {
      PrefixTail(u, c, rest);
      assert u[1..] == w;
    }
    if c == '[' && w <= rest {
      assert v == u + rest[|w|..];
    }
  }

  lemma SameTokenAtCopy(w: string, k: Kind, prev: Option<char>, s: string)
    requires s != "" && MatchLen(k, prev, s) == 0
    requires Inert(w) && NoBracket(w)
    ensures ['['] + w <= Sub(k, prev, s) <==> ['['] + w <= s
  {
    SubCopies(k, prev, s);
    hide *;
    var tail := s[1..];
    var rest := Sub(k, Some(s[0]), tail);
    PrefixOfCons(w, s[0], rest);
    PrefixOfCons(w, s[0], tail);
    assert s == [s[0]] + tail;
    if w <= rest {
      CopiedPrefix(k, Some(s[0]), tail, w);
    }
    if w <= tail {
      InertIsCopied(w, k, Some(s[0]), tail);
    }
  }

  lemma InertIsCopied(w: string, k: Kind, prev: Option<char>, s: string)
    requires Inert(w) && w <= s
    ensures w <= Sub(k, prev, s)
  {
    hide *;
    assert s == w + s[|w|..];
    InertIsQuiet(k, prev, w, s[|w|..]);
    CopyWithoutMatch(k, prev, s, |w|);
  }

  /** A pass adds one token of its kind per match and disturbs no other token. */
  lemma {:induction false} TokensAfterPass(j: Kind, k: Kind, prev: Option<char>, s: string)
    ensures Tokens(j, Sub(k, prev, s)) == Tokens(j, s) + (if j == k then Hits(k, prev, s) else 0)
    decreases |s|
  {
    hide Token, MatchLen;
    if s != "" {
      var n := MatchLen(k, prev, s);
      if n > 0 {
        MatchIsUnbracketed(k, prev, s);
        TokensPast(j, s[..n], s[n..]);
        assert s[..n] + s[n..] == s;
        TokensAfterPass(j, k, Some(s[n - 1]), s[n..]);
        TokensOfToken(j, k, Sub(k, Some(s[n - 1]), s[n..]));
      } else {
        TokensAfterPass(j, k, Some(s[0]), s[1..]);
        TokensAtCopy(j, k, prev, s);
      }
    }
  }

  /** Copying a character keeps or ends no token. */
  lemma TokensAtCopy(j: Kind, k: Kind, prev: Option<char>, s: string)
    requires s != "" && MatchLen(k, prev, s) == 0
    ensures Tokens(j, Sub(k, prev, s)) - Tokens(j, Sub(k, Some(s[0]), s[1..])) == Tokens(j, s) - Tokens(j, s[1..])
  {
    hide *;
    var rest := Sub(k, Some(s[0]), s[1..]);
    TokenIsInert(j);
    assert Token(j) == ['['] + Token(j)[1..];
    SameTokenAtCopy(Token(j)[1..], k, prev, s);
    SubCopies(k, prev, s);
    assert s == [s[0]] + s[1..];
    TokensCons(j, s[0], rest);
    TokensCons(j, s[0], s[1..]);
  }

  /** The reported counts are the redaction tokens that were inserted. */
  lemma CountsAreInsertedTokens(text: string, n: nat)
    requires n < |KINDS|
    ensures Tokens(KINDS[n], Masked(text)) == Tokens(KINDS[n], text) + StageHits(text, n)
  {
    hide Tokens, Hits, Sub;
    TokensAfterPass(KINDS[n], KINDS[0], None, Stage(text, 0));
    TokensAfterPass(KINDS[n], KINDS[1], None, Stage(text, 1));
    TokensAfterPass(KINDS[n], KINDS[2], None, Stage(text, 2));
    TokensAfterPass(KINDS[n], KINDS[3], None, Stage(text, 3));
  }

  lemma CleanIsFixed(k: Kind, s: string)
    ensures Clean(k, None, s) <==> Sub(k, None, s) == s
    ensures Clean(k, None, s) <==> Hits(k, None, s) == 0
  {
    NoHitsNoChange(k, None, s);
    TokensAfterPass(k, k, None, s);
  }

  lemma StagesFixed(s: string, n: nat)
    requires n <= |KINDS| && forall i :: 0 <= i < n ==> Sub(KINDS[i], None, s) == s
    ensures Stage(s, n) == s
  {
  }

  lemma CleanStagesFixed(out: string)
    requires Clean(Email, None, out) && Clean(Phone, None, out)
    requires Clean(NationalId, None, out) && Clean(TaxId, None, out)
    ensures Masked(out) == out && forall i :: 0 <= i < |KINDS| ==> StageHits(out, i) == 0
  {
    hide Clean, Hits, Sub;
    CleanIsFixed(Email, out);
    CleanIsFixed(Phone, out);
    CleanIsFixed(NationalId, out);
    CleanIsFixed(TaxId, out);
    StagesFixed(out, 1);
    StagesFixed(out, 2);
    StagesFixed(out, 3);
    StagesFixed(out, 4);
  }

  /** Masking twice is masking once exactly when no `+213` number directly follows a
      masked number. */
  lemma MaskingIsIdempotent(text: string)
    ensures Masked(Masked(text)) == Masked(text) <==> NoPlusFollowers(text)
  {
    hide Clean, Hits, Sub, NoPlusFollowers;
    var out := Masked(text);
    MaskedIsClean(text);
    if NoPlusFollowers(text) {
      CleanStagesFixed(out);
    }
    if Masked(out) == out {
      CleanIsFixed(Email, out);
      CleanIsFixed(Phone, out);
      StagesFixed(out, 1);
      CountsAreInsertedTokens(out, 1);
      assert StageHits(out, 1) == Hits(Phone, None, out);
    }
  }

  /** Then the second run reports nothing. */
  lemma SecondRunReportsNothing(text: string)
    ensures NoPlusFollowers(text) ==> CountsAre(Masked(text), |KINDS|, map[])
  {
    hide Clean, Hits, Sub, Masked, NoPlusFollowers;
    MaskedIsClean(text);
    if NoPlusFollowers(text) {
      CleanStagesFixed(Masked(text));
    }
  }

  lemma {:induction false} NoAtNoEmail(prev: Option<char>, s: string)
    requires '@' !in s
    ensures Sub(Email, prev, s) == s
    decreases |s|
  {
    if s != "" {
      assert EmailLen(s) == 0;
      NoAtNoEmail(Some(s[0]), s[1..]);
    }
  }

  /** The exception is real: a `+213` number written directly after another number is
      skipped by the phone pass, and is a phone number in the output. */
  lemma MaskingMayLeaveAPhone(first: string, second: string)
    requires '@' !in first && '@' !in second
    requires MatchLen(Phone, None, first) == |first| > 0
    requires MatchLen(Phone, None, second) == |second| > 0 && second[0] == '+'
    ensures !Clean(Phone, None, Masked(first + second))
  {
    var text := first + second;
    SamePhoneBefore(first, second);
    NoAtNoEmail(None, text);
    MaskedIsClean(text);
    hide Sub, Clean, MatchLen;
    assert text[|first|..] == second;
    assert WithoutEmails(text) == text;
    assert !NoPlusFollower(Phone, None, WithoutEmails(text));
  }

  lemma SamePhoneBefore(first: string, second: string)
    requires MatchLen(Phone, None, first) == |first| > 0
    requires second != "" && second[0] == '+'
    ensures MatchLen(Phone, None, first + second) == |first|
  {
    assert forall i :: 0 <= i < |first| ==> (first + second)[i] == first[i];
  }

  lemma APhonePair()
    ensures MatchLen(Phone, None, "0512345678") == 10
    ensures MatchLen(Phone, None, "+213512345678") == 13
  {
  }
}
