/** What `_mask_pii` masks, written out by position and character: how far each match goes. */
module PiiShapes {
  import opened PythonText
  import opened Wrappers
  import opened PiiMasking

  /* ---------- characters ---------- */

  predicate Letter(c: char) { 'a' <= c <= 'z' || 'A' <= c <= 'Z' }

  predicate Digit(c: char) { '0' <= c <= '9' }

  predicate WordChar(c: char) { Letter(c) || Digit(c) || c == '_' }

  predicate LocalChar(c: char) {
    Letter(c) || Digit(c) || c == '.' || c == '_' || c == '%' || c == '+' || c == '-'
  }

  predicate DomainChar(c: char) { Letter(c) || Digit(c) || c == '.' || c == '-' }

  /* ---------- emails ---------- */

  /** A local part of `n` characters, an at sign, `p` characters of the domain, and a dot
      with two letters. */
  predicate EmailAt(s: string, n: nat, p: nat) {
    && n >= 1 && p >= 1 && n + p + 4 <= |s|
    && (forall i :: 0 <= i < n ==> LocalChar(s[i])) && s[n] == '@'
    && (forall i :: n < i <= n + p ==> DomainChar(s[i]))
    && s[n + p + 1] == '.' && Letter(s[n + p + 2]) && Letter(s[n + p + 3])
  }

  /** The same with the last such dot and all `q` letters behind it: a whole address. */
  predicate AddressAt(s: string, n: nat, p: nat, q: nat) {
    && EmailAt(s, n, p) && (forall r :: p < r < |s| ==> !EmailAt(s, n, r))
    && q >= 2 && n + p + 2 + q <= |s|
    && (forall i :: n + p + 2 <= i < n + p + 2 + q ==> Letter(s[i]))
    && (n + p + 2 + q < |s| ==> !Letter(s[n + p + 2 + q]))
  }

  lemma EmailShapes(s: string, n: nat, p: nat)
    ensures EmailAt(s, n, p) <==> EmailShape(s, n, p)
  {
  }

  lemma {:induction false} RunUpTo(s: string, p: char -> bool, n: nat)
    requires n <= |s| && (forall i :: 0 <= i < n ==> p(s[i])) && (n < |s| ==> !p(s[n]))
    ensures Run(s, p) == n
  {
    if n > 0 {
      RunUpTo(s[1..], p, n - 1);
    }
  }

  /** Every email shape at the front has the same local part, and its dot is a dot of the
      domain that the scan sees. */
  lemma ShapeInScan(s: string, n: nat, p: nat)
    requires EmailAt(s, n, p)
    ensures Run(s, IsLocal) == n && p <= Run(s[n + 1..], IsDomain) && DotAt(s[n + 1..], p)
  {
    RunUpTo(s, IsLocal, n);
    var domain := s[n + 1..];
    forall j | 0 <= j < p ensures IsDomain(domain[j]) {
      assert domain[j] == s[n + 1 + j];
    }
  }

  lemma ScanIsShape(s: string, domain: string, n: nat, p: nat)
    requires 1 <= n < |s| && s[n] == '@' && p >= 1 && forall i :: 0 <= i < n ==> IsLocal(s[i])
    requires domain == s[n + 1..] && DotAt(domain, p) && forall j :: 0 <= j < p ==> IsDomain(domain[j])
    ensures EmailAt(s, n, p)
  {
    forall i | n < i <= n + p ensures DomainChar(s[i]) {
      assert domain[i - n - 1] == s[i];
    }
  }

  /** The parts of a match: a local part, the last dot of the domain, and the letters. */
  lemma MatchParts(s: string) returns (n: nat, p: nat, q: nat)
    requires EmailLen(s) > 0
    ensures n == Run(s, IsLocal) && 1 <= n < |s| && s[n] == '@'
    ensures p == LastDot(s[n + 1..], Run(s[n + 1..], IsDomain)) && p >= 1 && n + p + 2 <= |s|
    ensures q == Run(s[n + p + 2..], IsLetter) && EmailLen(s) == n + p + 2 + q
  {
    n := Run(s, IsLocal);
    var domain := s[n + 1..];
    p := LastDot(domain, Run(domain, IsDomain));
    assert domain[p + 1..] == s[n + p + 2..];
    q := Run(s[n + p + 2..], IsLetter);
  }

  lemma LettersBehind(s: string, from: nat, q: nat)
    requires from <= |s| && q == Run(s[from..], IsLetter)
    ensures from + q <= |s| && (forall i :: from <= i < from + q ==> Letter(s[i]))
    ensures from + q < |s| ==> !Letter(s[from + q])
  {
    var rest := s[from..];
    forall i | from <= i < from + q ensures Letter(s[i]) {
      assert s[i] == rest[i - from];
    }
    assert from + q < |s| ==> s[from + q] == rest[q];
  }

  lemma NoLaterDot(s: string, n: nat, p: nat)
    requires n < |s| && n == Run(s, IsLocal) && p == LastDot(s[n + 1..], Run(s[n + 1..], IsDomain))
    ensures forall r :: p < r < |s| ==> !EmailAt(s, n, r)
  {
    hide Run, EmailAt;
    forall r | p < r < |s| ensures !EmailAt(s, n, r) {
      if EmailAt(s, n, r) {
        ShapeInScan(s, n, r);
      }
    }
  }

  lemma PartsAreShape(s: string, n: nat, p: nat)
    requires n == Run(s, IsLocal) && 1 <= n < |s| && s[n] == '@'
    requires p == LastDot(s[n + 1..], Run(s[n + 1..], IsDomain)) && p >= 1
    ensures EmailAt(s, n, p)
  {
    hide EmailAt;
    ScanIsShape(s, s[n + 1..], n, p);
  }

  /** A match takes in the whole address. */
  lemma EmailGoesAsFar(s: string) returns (n: nat, p: nat, q: nat)
    requires EmailLen(s) > 0
    ensures AddressAt(s, n, p, q) && EmailLen(s) == n + p + 2 + q
  {
    hide *;
    n, p, q := MatchParts(s);
    PartsAreShape(s, n, p);
    NoLaterDot(s, n, p);
    DotLetters(s, n, p);
    TwoLetters(s[n + p + 2..]);
    LettersBehind(s, n + p + 2, q);
    AddressIntro(s, n, p, q);
  }

  lemma AddressIntro(s: string, n: nat, p: nat, q: nat)
    requires EmailAt(s, n, p) && (forall r :: p < r < |s| ==> !EmailAt(s, n, r))
    requires q >= 2 && n + p + 2 + q <= |s| && (forall i :: n + p + 2 <= i < n + p + 2 + q ==> Letter(s[i]))
    requires n + p + 2 + q < |s| ==> !Letter(s[n + p + 2 + q])
    ensures AddressAt(s, n, p, q)
  {
  }

  lemma DotLetters(s: string, n: nat, p: nat)
    requires EmailAt(s, n, p)
    ensures n + p + 4 <= |s| && IsLetter(s[n + p + 2..][0]) && IsLetter(s[n + p + 2..][1])
  {
  }

  lemma TwoLetters(s: string)
    requires |s| >= 2 && IsLetter(s[0]) && IsLetter(s[1])
    ensures Run(s, IsLetter) >= 2
  {
  }

  /** And every address at the front is matched whole. */
  lemma AddressIsMatched(s: string, n: nat, p: nat, q: nat)
    requires AddressAt(s, n, p, q)
    ensures EmailLen(s) == n + p + 2 + q
  {
    EmailShapes(s, n, p);
    ShapeIsEmail(s, n, p);
    var n', p', q' := EmailGoesAsFar(s);
    ShapeInScan(s, n, p);
    ShapeInScan(s, n', p');
    hide Run, EmailLen, DotAt;
    assert n == n' && p == p';
  }

  /* ---------- numbers ---------- */

  /** The character before position `i`. */
  function Before(t: string, i: nat): Option<char>
    requires i <= |t|
  {
    if i == 0 then None else Some(t[i - 1])
  }

  predicate DigitsAt(t: string, i: nat, n: nat) {
    i + n <= |t| && forall k :: i <= k < i + n ==> Digit(t[k])
  }

  /** A run of `n` digits with no letter, digit or underscore beside it. */
  predicate NumberAt(t: string, i: nat, n: nat) {
    && DigitsAt(t, i, n) && (i > 0 ==> i <= |t| && !WordChar(t[i - 1])) && (i + n < |t| ==> !WordChar(t[i + n]))
  }

  /** `+213` or `0`, one of 5, 6 and 7, eight more digits and then none. */
  predicate PhoneBodyAt(t: string, i: nat, n: nat) {
    && i + n <= |t| && (n == 13 || n == 10)
    && (if n == 13 then t[i] == '+' && t[i + 1] == '2' && t[i + 2] == '1' && t[i + 3] == '3' else t[i] == '0')
    && (t[i + n - 9] == '5' || t[i + n - 9] == '6' || t[i + n - 9] == '7')
    && DigitsAt(t, i + n - 8, 8) && (i + n < |t| ==> !Digit(t[i + n]))
  }

  /** The same, not behind a digit. */
  predicate PhoneAt(t: string, i: nat, n: nat) {
    PhoneBodyAt(t, i, n) && (i > 0 ==> !Digit(t[i - 1]))
  }

  lemma NumberIsMatched(t: string, i: nat, n: nat)
    requires i <= |t| && n > 0
    ensures NumberLen(Before(t, i), t[i..], n) == if NumberAt(t, i, n) then n else 0
  {
    var s := t[i..];
    assert forall k :: 0 <= k < |s| ==> s[k] == t[i + k];
    if NumberAt(t, i, n) {
      assert Digits(s, 0, n);
    }
    if Digits(s, 0, n) {
      assert forall k :: i <= k < i + n ==> t[k] == s[k - i];
    }
  }

  lemma BodyIsMatched(t: string, i: nat)
    requires i <= |t|
    ensures PhoneBodyLen(t[i..]) ==
            if PhoneBodyAt(t, i, 13) then 13 else if PhoneBodyAt(t, i, 10) then 10 else 0
  {
    var s := t[i..];
    assert forall k :: 0 <= k < |s| ==> s[k] == t[i + k];
    var p := PhonePrefix(s);
    if p > 0 && p + 9 <= |s| {
      assert Digits(s, p + 1, 8) <==> DigitsAt(t, i + p + 1, 8) by {
        if Digits(s, p + 1, 8) {
          assert forall k :: i + p + 1 <= k < i + p + 9 ==> t[k] == s[k - i];
        }
        if DigitsAt(t, i + p + 1, 8) {
          assert forall k :: p + 1 <= k < p + 9 ==> s[k] == t[i + k];
        }
      }
    }
  }

  /** The length of the match at position `i`, read off the characters. */
  function LengthAt(k: Kind, t: string, i: nat): nat
    requires i <= |t|
  {
    match k
    case Email => EmailLen(t[i..])
    case Phone => if PhoneAt(t, i, 13) then 13 else if PhoneAt(t, i, 10) then 10 else 0
    case NationalId => if NumberAt(t, i, 18) then 18 else 0
    case TaxId => if NumberAt(t, i, 15) then 15 else 0
  }

  lemma MatchIsAt(k: Kind, t: string, i: nat)
    requires i <= |t|
    ensures MatchLen(k, Before(t, i), t[i..]) == LengthAt(k, t, i)
  {
    hide PhoneBodyLen, NumberLen, EmailLen;
    match k
    case Email =>
    case Phone => BodyIsMatched(t, i);
    case NationalId => NumberIsMatched(t, i, 18);
    case TaxId => NumberIsMatched(t, i, 15);
  }

  /* ---------- nothing is left, position by position ---------- */

  lemma {:induction false} CleanFrom(k: Kind, t: string, i: nat)
    requires i <= |t|
    ensures Clean(k, Before(t, i), t[i..]) <==> forall j :: i <= j < |t| ==> LengthAt(k, t, j) == 0
    decreases |t| - i
  {
    hide MatchLen, LengthAt;
    if i < |t| {
      MatchIsAt(k, t, i);
      CleanFrom(k, t, i + 1);
      assert t[i..][1..] == t[i + 1..];
    }
  }

  /** No address begins at any position, and no number of the two lengths stands anywhere. */
  predicate NoneLeft(t: string) {
    && (forall i, n, p :: 0 <= i < |t| && 0 <= n < |t| && 0 <= p < |t| ==> !EmailAt(t[i..], n, p))
    && (forall i :: 0 <= i < |t| ==> !NumberAt(t, i, 18) && !NumberAt(t, i, 15))
  }

  predicate NoPhone(t: string) {
    forall i :: 0 <= i < |t| ==> !PhoneAt(t, i, 13) && !PhoneAt(t, i, 10)
  }

  lemma CleanEverywhere(k: Kind, t: string)
    ensures Clean(k, None, t) <==> forall j :: 0 <= j < |t| ==> LengthAt(k, t, j) == 0
  {
    assert t[0..] == t;
    CleanFrom(k, t, 0);
  }

  lemma CleanOfEmails(t: string)
    requires Clean(Email, None, t)
    ensures forall i, n, p :: 0 <= i < |t| && 0 <= n < |t| && 0 <= p < |t| ==> !EmailAt(t[i..], n, p)
  {
    CleanEverywhere(Email, t);
    hide EmailAt, EmailLen, Clean;
    forall i, n, p | 0 <= i < |t| && 0 <= n < |t| && 0 <= p < |t| ensures !EmailAt(t[i..], n, p) {
      assert LengthAt(Email, t, i) == 0;
      NoLengthNoEmail(t[i..], n, p);
    }
  }

  lemma CleanOfNumbers(t: string)
    ensures Clean(NationalId, None, t) <==> forall i :: 0 <= i < |t| ==> !NumberAt(t, i, 18)
    ensures Clean(TaxId, None, t) <==> forall i :: 0 <= i < |t| ==> !NumberAt(t, i, 15)
    ensures Clean(Phone, None, t) <==> NoPhone(t)
  {
    CleanEverywhere(NationalId, t);
    CleanEverywhere(TaxId, t);
    CleanEverywhere(Phone, t);
    hide Clean, NumberAt, PhoneAt;
    assert forall i :: 0 <= i < |t| ==> (LengthAt(NationalId, t, i) == 0 <==> !NumberAt(t, i, 18));
    assert forall i :: 0 <= i < |t| ==> (LengthAt(TaxId, t, i) == 0 <==> !NumberAt(t, i, 15));
    assert forall i :: 0 <= i < |t| ==> (LengthAt(Phone, t, i) == 0 <==> !PhoneAt(t, i, 13) && !PhoneAt(t, i, 10));
  }

  /** What masking leaves behind: no email, no number of 18 or 15 digits, and no phone
      number exactly under the condition on the input. */
  lemma NothingIsLeft(text: string)
    ensures NoneLeft(Masked(text))
    ensures NoPhone(Masked(text)) <==> NoPlusFollowers(text)
  {
    MaskedIsClean(text);
    hide *;
    CleanOfEmails(Masked(text));
    CleanOfNumbers(Masked(text));
    NoneLeftIntro(Masked(text));
  }

  lemma NoneLeftIntro(t: string)
    requires forall i, n, p :: 0 <= i < |t| && 0 <= n < |t| && 0 <= p < |t| ==> !EmailAt(t[i..], n, p)
    requires forall i :: 0 <= i < |t| ==> !NumberAt(t, i, 18)
    requires forall i :: 0 <= i < |t| ==> !NumberAt(t, i, 15)
    ensures NoneLeft(t)
  {
  }

  lemma NoLengthNoEmail(s: string, n: nat, p: nat)
    requires EmailLen(s) == 0
    ensures !EmailAt(s, n, p)
  {
    if EmailAt(s, n, p) {
      EmailShapes(s, n, p);
      ShapeIsEmail(s, n, p);
    }
  }

  /* ---------- the condition on the input, position by position ---------- */

  /** No number of the text is directly followed by a `+213` number. */
  predicate NoFollower(t: string) {
    && (forall i :: 0 <= i < |t| ==> !(NumberAt(t, i, 18) && PhoneBodyAt(t, i + 18, 13)))
    && (forall i :: 0 <= i < |t| ==> !(NumberAt(t, i, 15) && PhoneBodyAt(t, i + 15, 13)))
    && (forall i :: 0 <= i < |t| ==> !(PhoneAt(t, i, 13) && PhoneBodyAt(t, i + 13, 13)))
    && (forall i :: 0 <= i < |t| ==> !(PhoneAt(t, i, 10) && PhoneBodyAt(t, i + 10, 13)))
  }

  /** No number begins inside another of its kind. */
  lemma NoneInside(k: Kind, t: string, i: nat, j: nat)
    requires k != Email && i < |t| && i < j < i + LengthAt(k, t, i)
    ensures j < |t| && LengthAt(k, t, j) == 0
  {
    if k == Phone {
      assert t[j - 1] == t[i] || Digit(t[j - 1]) by {
        PhoneIsDigits(t, i, LengthAt(k, t, i), j - 1);
      }
    }
  }

  lemma PhoneIsDigits(t: string, i: nat, n: nat, j: nat)
    requires PhoneBodyAt(t, i, n) && i <= j < i + n
    ensures j == i || Digit(t[j])
  {
  }

  predicate FollowedAt(k: Kind, t: string, i: nat)
    requires i <= |t|
  {
    var n := LengthAt(k, t, i);
    n > 0 && i + n <= |t| && PhoneBodyLen(t[i + n..]) > 0
  }

  lemma LengthFits(k: Kind, t: string, i: nat)
    requires i <= |t|
    ensures i + LengthAt(k, t, i) <= |t|
  {
  }

  lemma FollowersStep(k: Kind, t: string, i: nat)
    requires i < |t| && k != Email
    ensures i + LengthAt(k, t, i) <= |t|
    ensures var n := LengthAt(k, t, i);
            NoPlusFollower(k, Before(t, i), t[i..]) <==>
            (if n > 0 then PhoneBodyLen(t[i + n..]) == 0 && NoPlusFollower(k, Before(t, i + n), t[i + n..])
             else NoPlusFollower(k, Before(t, i + 1), t[i + 1..]))
  {
    LengthFits(k, t, i);
    MatchIsAt(k, t, i);
    var n, s := LengthAt(k, t, i), t[i..];
    hide MatchLen, LengthAt, PhoneBodyLen;
    assert s[1..] == t[i + 1..] && s[n..] == t[i + n..];
    assert n > 0 ==> s[n - 1] == t[i + n - 1];
  }

  predicate NoneFollowed(k: Kind, t: string, i: nat) {
    forall j :: i <= j < |t| ==> !FollowedAt(k, t, j)
  }

  lemma NoneFollowedStep(k: Kind, t: string, i: nat, next: nat)
    requires i < next <= |t| && forall j :: i < j < next ==> !FollowedAt(k, t, j)
    ensures NoneFollowed(k, t, i) <==> !FollowedAt(k, t, i) && NoneFollowed(k, t, next)
  {
    hide FollowedAt;
  }

  lemma FollowedOf(k: Kind, t: string, i: nat)
    requires i < |t|
    ensures var n := LengthAt(k, t, i);
            && i + n <= |t| && (n == 0 ==> !FollowedAt(k, t, i))
            && (n > 0 ==> (FollowedAt(k, t, i) <==> PhoneBodyLen(t[i + n..]) > 0))
  {
    hide LengthAt, PhoneBodyLen;
    LengthFits(k, t, i);
  }

  lemma NotFollowedInside(k: Kind, t: string, i: nat, j: nat)
    requires k != Email && i < |t| && i < j < i + LengthAt(k, t, i)
    ensures j < |t| && !FollowedAt(k, t, j)
  {
    NoneInside(k, t, i, j);
    hide LengthAt;
  }

  lemma {:induction false} FollowersFrom(k: Kind, t: string, i: nat)
    requires i <= |t| && k != Email
    ensures NoPlusFollower(k, Before(t, i), t[i..]) <==> NoneFollowed(k, t, i)
    decreases |t| - i
  {
    hide *;
    if i == |t| {
      NobodyFollows(k, t);
    } else {
      FollowersStep(k, t, i);
      FollowedOf(k, t, i);
      var n := LengthAt(k, t, i);
      var next := if n > 0 then i + n else i + 1;
      FollowersFrom(k, t, next);
      forall j | i < j < next ensures !FollowedAt(k, t, j) {
        NotFollowedInside(k, t, i, j);
      }
      NoneFollowedStep(k, t, i, next);
    }
  }

  lemma NobodyFollows(k: Kind, t: string)
    ensures NoPlusFollower(k, Before(t, |t|), t[|t|..]) && NoneFollowed(k, t, |t|)
  {
  }

  /** Behind a number there is no digit, so a number that follows begins with its sign. */
  lemma FollowerHasSign(t: string, i: nat)
    requires i < |t| ==> !Digit(t[i])
    requires i <= |t|
    ensures PhoneBodyLen(t[i..]) > 0 <==> PhoneBodyAt(t, i, 13)
  {
    BodyIsMatched(t, i);
  }

  lemma FollowedIs(t: string, i: nat)
    requires i < |t|
    ensures FollowedAt(NationalId, t, i) <==> NumberAt(t, i, 18) && PhoneBodyAt(t, i + 18, 13)
    ensures FollowedAt(TaxId, t, i) <==> NumberAt(t, i, 15) && PhoneBodyAt(t, i + 15, 13)
    ensures FollowedAt(Phone, t, i) <==>
            (PhoneAt(t, i, 13) && PhoneBodyAt(t, i + 13, 13)) || (PhoneAt(t, i, 10) && PhoneBodyAt(t, i + 10, 13))
  {
    hide PhoneBodyLen;
    if NumberAt(t, i, 18) {
      FollowerHasSign(t, i + 18);
    }
    if NumberAt(t, i, 15) {
      FollowerHasSign(t, i + 15);
    }
    if PhoneAt(t, i, 13) {
      FollowerHasSign(t, i + 13);
      SignOrZero(t, i);
    }
    if PhoneAt(t, i, 10) {
      FollowerHasSign(t, i + 10);
      SignOrZero(t, i);
    }
  }

  lemma SignOrZero(t: string, i: nat)
    ensures !(PhoneBodyAt(t, i, 13) && PhoneBodyAt(t, i, 10))
  {
  }

  /** The condition under which no phone number is left, read off the positions of the text
      without its emails. */
  lemma FollowersByPosition(text: string)
    ensures NoPlusFollowers(text) <==> NoFollower(WithoutEmails(text))
  {
    var t := WithoutEmails(text);
    assert t[0..] == t;
    FollowersFrom(Phone, t, 0);
    FollowersFrom(NationalId, t, 0);
    FollowersFrom(TaxId, t, 0);
    hide NoPlusFollower, WithoutEmails, FollowedAt, NumberAt, PhoneAt, PhoneBodyAt;
    assert NoPlusFollowers(text) <==>
        NoPlusFollower(Phone, None, t) && NoPlusFollower(NationalId, None, t) && NoPlusFollower(TaxId, None, t);
    forall i | 0 <= i < |t|
      ensures FollowedAt(NationalId, t, i) <==> NumberAt(t, i, 18) && PhoneBodyAt(t, i + 18, 13)
      ensures FollowedAt(TaxId, t, i) <==> NumberAt(t, i, 15) && PhoneBodyAt(t, i + 15, 13)
      ensures FollowedAt(Phone, t, i) <==>
              (PhoneAt(t, i, 13) && PhoneBodyAt(t, i + 13, 13)) || (PhoneAt(t, i, 10) && PhoneBodyAt(t, i + 10, 13))
    {
      FollowedIs(t, i);
    }
  }

  /* ---------- what is written ---------- */

  /** What a match is replaced by. */
  function TokenText(k: Kind): string {
    match k
    case Email => "[REDACTED:EMAIL]"
    case Phone => "[REDACTED:PHONE_DZ]"
    case NationalId => "[REDACTED:NID_DZ]"
    case TaxId => "[REDACTED:TAX_ID_DZ]"
  }

  lemma SubStep(k: Kind, t: string, i: nat)
    requires i < |t|
    ensures i + LengthAt(k, t, i) <= |t|
    ensures var n := LengthAt(k, t, i);
            Sub(k, Before(t, i), t[i..]) ==
            if n > 0 then Token(k) + Sub(k, Before(t, i + n), t[i + n..])
            else [t[i]] + Sub(k, Before(t, i + 1), t[i + 1..])
  {
    LengthFits(k, t, i);
    MatchIsAt(k, t, i);
    var n, s := LengthAt(k, t, i), t[i..];
    hide MatchLen, LengthAt;
    assert s[1..] == t[i + 1..] && s[n..] == t[i + n..];
    assert n > 0 ==> s[n - 1] == t[i + n - 1];
  }

  lemma {:induction false} SubSkips(k: Kind, t: string, i: nat, m: nat)
    requires i <= m <= |t| && forall j :: i <= j < m ==> LengthAt(k, t, j) == 0
    ensures Sub(k, Before(t, i), t[i..]) == t[i..m] + Sub(k, Before(t, m), t[m..])
    decreases m - i
  {
    hide LengthAt, Sub;
    if i == m {
      assert t[i..m] == "";
    } else {
      SubStep(k, t, i);
      SubSkips(k, t, i + 1, m);
      OneMore(t, i, m, Sub(k, Before(t, m), t[m..]));
    }
  }

  lemma OneMore(t: string, i: nat, m: nat, rest: string)
    requires i < m <= |t|
    ensures [t[i]] + (t[i + 1..m] + rest) == t[i..m] + rest
  {
  }

  lemma TokensAre(k: Kind)
    ensures Token(k) == TokenText(k)
  {
  }

  /** A pass leaves the text before the first match, replaces the match, whole, by the token,
      and goes on behind it. */
  lemma FirstMatchIsReplaced(k: Kind, t: string, i: nat)
    requires i < |t| && LengthAt(k, t, i) > 0 && forall j :: 0 <= j < i ==> LengthAt(k, t, j) == 0
    ensures var end := i + LengthAt(k, t, i);
            && end <= |t|
            && Sub(k, None, t) == t[..i] + (TokenText(k) + Sub(k, Before(t, end), t[end..]))
  {
    hide LengthAt, Sub, Token, TokenText;
    assert t[0..] == t;
    SubSkips(k, t, 0, i);
    SubStep(k, t, i);
    TokensAre(k);
  }

  /** And a text without a match stays. */
  lemma NoMatchStays(k: Kind, t: string)
    requires forall j :: 0 <= j < |t| ==> LengthAt(k, t, j) == 0
    ensures Sub(k, None, t) == t
  {
    hide LengthAt;
    assert t[0..] == t;
    SubSkips(k, t, 0, |t|);
  }

  /* ---------- one item in a text ---------- */

  /** No digit, sign or `@`. */
  predicate Mute(s: string) {
    forall i :: 0 <= i < |s| ==> !Digit(s[i]) && s[i] != '+' && s[i] != '@'
  }

  lemma AtNeeded(t: string, i: nat)
    requires i <= |t| && LengthAt(Email, t, i) > 0
    ensures exists j :: i < j < |t| && t[j] == '@' && forall m :: i <= m < j ==> LocalChar(t[m])
  {
    var s := t[i..];
    var n, p, q := EmailGoesAsFar(s);
    assert t[i + n] == s[n];
    forall m | i <= m < i + n ensures LocalChar(t[m]) {
      assert t[m] == s[m - i];
    }
  }

  /** Nothing matches where no digit and no `@` come. */
  lemma MuteHasNoMatch(k: Kind, t: string, i: nat)
    requires i < |t| && Mute(t[i..])
    ensures LengthAt(k, t, i) == 0
  {
    assert t[i] == t[i..][0];
    if k == Email {
      assert forall j :: i <= j < |t| ==> t[j] == t[i..][j - i];
      if LengthAt(k, t, i) > 0 {
        AtNeeded(t, i);
      }
    } else {
      NumberStarts(k, t, i);
    }
  }

  lemma NumberStarts(k: Kind, t: string, i: nat)
    requires i < |t| && k != Email
    ensures LengthAt(k, t, i) > 0 ==> Digit(t[i]) || t[i] == '+'
  {
  }

  lemma MuteStays(k: Kind, t: string)
    requires Mute(t)
    ensures Sub(k, None, t) == t
  {
    hide LengthAt;
    forall j | 0 <= j < |t| ensures LengthAt(k, t, j) == 0 {
      assert forall m :: 0 <= m < |t[j..]| ==> t[j..][m] == t[j + m];
      MuteHasNoMatch(k, t, j);
    }
    NoMatchStays(k, t);
  }

  /** `item` stands alone in `t`, between `a` and `b`, and is what `k` matches. */
  predicate Alone(k: Kind, t: string, a: string, item: string, b: string) {
    && t == a + (item + b) && Mute(a) && Mute(b) && item != "" && LengthAt(k, t, |a|) == |item|
    && (k == Email && a != "" ==> !LocalChar(a[|a| - 1]))
  }

  lemma PartsOf(t: string, a: string, item: string, b: string)
    requires t == a + (item + b)
    ensures t[..|a|] == a && t[|a| + |item|..] == b
    ensures forall j :: 0 <= j < |a| ==> t[j] == a[j]
    ensures forall j :: |a| <= j < |a| + |item| ==> t[j] == item[j - |a|]
    ensures forall j :: |a| + |item| <= j < |t| ==> t[j] == b[j - |a| - |item|]
  {
  }

  lemma NoneBefore(k: Kind, t: string, a: string, item: string, b: string, j: nat)
    requires Alone(k, t, a, item, b) && j < |a|
    ensures LengthAt(k, t, j) == 0
  {
    PartsOf(t, a, item, b);
    if k == Email {
      assert t[|a| - 1] == a[|a| - 1];
      if LengthAt(k, t, j) > 0 {
        AtNeeded(t, j);
      }
    } else {
      NumberStarts(k, t, j);
    }
  }

  lemma Behind(t: string, a: string, item: string, b: string, n: nat)
    requires t == a + (item + b) && n <= |b|
    ensures t[|a| + |item| + n..] == b[n..]
  {
  }

  lemma NoneBehind(k: Kind, t: string, a: string, item: string, b: string, j: nat)
    requires Alone(k, t, a, item, b) && |a| + |item| <= j < |t|
    ensures LengthAt(k, t, j) == 0
  {
    hide LengthAt;
    var n := j - |a| - |item|;
    Behind(t, a, item, b, n);
    assert Mute(b[n..]);
    hide Alone, Mute;
    MuteHasNoMatch(k, t, j);
  }

  /** The pass of its kind replaces the item. */
  lemma OwnPass(k: Kind, t: string, a: string, item: string, b: string)
    requires Alone(k, t, a, item, b)
    ensures Sub(k, None, t) == a + (TokenText(k) + b)
  {
    hide Sub, TokenText, LengthAt;
    var end := |a| + |item|;
    forall j | 0 <= j < |a| ensures LengthAt(k, t, j) == 0 {
      NoneBefore(k, t, a, item, b, j);
    }
    FirstMatchIsReplaced(k, t, |a|);
    forall j | end <= j < |t| ensures LengthAt(k, t, j) == 0 {
      NoneBehind(k, t, a, item, b, j);
    }
    SubSkips(k, t, end, |t|);
    SubOfNothing(k, Before(t, |t|));
    PartsOf(t, a, item, b);
    assert t[|t|..] == "" && b + "" == b;
  }

  lemma SubOfNothing(k: Kind, prev: Option<char>)
    ensures Sub(k, prev, "") == ""
  {
  }

  lemma NoAtNoPass(t: string)
    requires forall j :: 0 <= j < |t| ==> t[j] != '@'
    ensures Sub(Email, None, t) == t
  {
    hide LengthAt;
    forall j | 0 <= j < |t| ensures LengthAt(Email, t, j) == 0 {
      if LengthAt(Email, t, j) > 0 {
        AtNeeded(t, j);
      }
    }
    NoMatchStays(Email, t);
  }

  /** No phone number stands in a longer run of digits, and no run of 18 in one of 15. */
  lemma NoOtherNumber(q: Kind, k: Kind, t: string, i: nat, j: nat)
    requires i < |t| && ((q == Phone && (k == NationalId || k == TaxId)) || (q == NationalId && k == TaxId))
    requires LengthAt(k, t, i) > 0 && i <= j < i + LengthAt(k, t, i) && j < |t|
    ensures LengthAt(q, t, j) == 0
  {
    assert Digit(t[j]) && (j > i ==> Digit(t[j - 1]));
  }

  /** The item is one that no pass before its own can see. */
  lemma OtherPass(q: Kind, k: Kind, t: string, a: string, item: string, b: string)
    requires Alone(k, t, a, item, b)
    requires || (q == Email && k != Email) || (q == Phone && (k == NationalId || k == TaxId))
             || (q == NationalId && k == TaxId)
    ensures Sub(q, None, t) == t
  {
    if q == Email {
      NoAtHere(k, t, a, item, b);
      NoAtNoPass(t);
    } else {
      PartsOf(t, a, item, b);
      hide LengthAt;
      forall j | 0 <= j < |t| ensures LengthAt(q, t, j) == 0 {
        if |a| <= j < |a| + |item| {
          NoOtherNumber(q, k, t, |a|, j);
        } else {
          NumberStarts(q, t, j);
        }
      }
      NoMatchStays(q, t);
    }
  }

  lemma NoAtHere(k: Kind, t: string, a: string, item: string, b: string)
    requires Alone(k, t, a, item, b) && k != Email
    ensures forall j :: 0 <= j < |t| ==> t[j] != '@'
  {
    PartsOf(t, a, item, b);
    forall j | |a| <= j < |a| + |item| ensures t[j] != '@' {
      if k == Phone {
        PhoneIsDigits(t, |a|, |item|, j);
      }
    }
  }

  lemma {:induction false} StagesOf(text: string)
    ensures Masked(text) == Sub(TaxId, None, Sub(NationalId, None, Sub(Phone, None, Sub(Email, None, text))))
  {
    hide Sub;
    assert Stage(text, 1) == Sub(Email, None, text);
    assert Stage(text, 2) == Sub(Phone, None, Stage(text, 1));
    assert Stage(text, 3) == Sub(NationalId, None, Stage(text, 2));
    assert Stage(text, 4) == Sub(TaxId, None, Stage(text, 3));
  }

  lemma TokenIsMute(k: Kind, a: string, b: string)
    requires Mute(a) && Mute(b)
    ensures Mute(a + (TokenText(k) + b))
  {
    TokenIsInert(k);
    TokensAre(k);
    hide Token, TokenText;
    var t := a + (TokenText(k) + b);
    PartsOf(t, a, TokenText(k), b);
    forall i | 0 <= i < |t| ensures !Digit(t[i]) && t[i] != '+' && t[i] != '@' {
      if |a| <= i < |a| + |TokenText(k)| {
        assert t[i] == TokenText(k)[i - |a|];
      }
    }
  }

  /** Masking a text with one item puts the token of its kind in its place and changes
      nothing else. */
  lemma OneItemIsMasked(k: Kind, t: string, a: string, item: string, b: string)
    requires Alone(k, t, a, item, b)
    ensures Masked(t) == a + (TokenText(k) + b)
  {
    hide *;
    MuteParts(k, t, a, item, b);
    StagesOf(t);
    OwnPass(k, t, a, item, b);
    TokenIsMute(k, a, b);
    var out := a + (TokenText(k) + b);
    MuteStays(Phone, out);
    MuteStays(NationalId, out);
    MuteStays(TaxId, out);
    if k != Email {
      OtherPass(Email, k, t, a, item, b);
    }
    if k == NationalId || k == TaxId {
      OtherPass(Phone, k, t, a, item, b);
    }
    if k == TaxId {
      OtherPass(NationalId, k, t, a, item, b);
    }
  }

  lemma MuteParts(k: Kind, t: string, a: string, item: string, b: string)
    requires Alone(k, t, a, item, b)
    ensures Mute(a) && Mute(b)
  {
  }
}
