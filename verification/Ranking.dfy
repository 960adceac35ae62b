/**
 Python's `sorted(xs, key=..., reverse=True)[:k]`: descending, and stable, so that
 elements with equal keys keep their order.
 */
module Ranking {

  function Insert<T>(x: T, key: T -> real, ys: seq<T>): seq<T> {
    if ys == [] || key(ys[0]) <= key(x) then [x] + ys
    else [ys[0]] + Insert(x, key, ys[1..])
  }

  function Ranked<T>(xs: seq<T>, key: T -> real): seq<T> {
    if xs == [] then [] else Insert(xs[0], key, Ranked(xs[1..], key))
  }

  /** `xs[:k]`, for negative `k` too. */
  function FirstK<T>(xs: seq<T>, k: int): (r: seq<T>)
    ensures r <= xs && |r| <= |xs|
    ensures k >= 0 ==> |r| == if k < |xs| then k else |xs|
    ensures k < 0 ==> |r| == if |xs| + k > 0 then |xs| + k else 0
    ensures k >= |xs| ==> r == xs
  {
    if k >= 0 then xs[..if k < |xs| then k else |xs|]
    else xs[..if |xs| + k > 0 then |xs| + k else 0]
  }

  predicate Descending<T>(xs: seq<T>, key: T -> real) {
    forall i, j :: 0 <= i < j < |xs| ==> key(xs[i]) >= key(xs[j])
  }

  /** The elements with key `v`, in order. */
  function WithKey<T>(xs: seq<T>, key: T -> real, v: real): seq<T> {
    if xs == [] then []
    else (if key(xs[0]) == v then [xs[0]] else []) + WithKey(xs[1..], key, v)
  }

  /** What it means to be the stable descending order of `xs`. */
  ghost predicate IsRanking<T>(xs: seq<T>, ys: seq<T>, key: T -> real) {
    Descending(ys, key) && forall v :: WithKey(ys, key, v) == WithKey(xs, key, v)
  }

  lemma {:induction false} InsertMultiset<T>(x: T, key: T -> real, ys: seq<T>)
    ensures multiset(Insert(x, key, ys)) == multiset([x]) + multiset(ys)
  {
    if ys != [] && key(ys[0]) > key(x) {
      InsertMultiset(x, key, ys[1..]);
      assert ys == [ys[0]] + ys[1..];
    }
  }

  lemma {:induction false} InsertIsDescending<T>(x: T, key: T -> real, ys: seq<T>, top: real)
    requires Descending(ys, key) && key(x) <= top && forall i :: 0 <= i < |ys| ==> key(ys[i]) <= top
    ensures Descending(Insert(x, key, ys), key)
    ensures forall i :: 0 <= i < |Insert(x, key, ys)| ==> key(Insert(x, key, ys)[i]) <= top
  {
    if ys != [] && key(ys[0]) > key(x) {
      InsertIsDescending(x, key, ys[1..], key(ys[0]));
    }
  }

  lemma WithKeyCons<T>(x: T, xs: seq<T>, key: T -> real, v: real)
    ensures WithKey([x] + xs, key, v) == (if key(x) == v then [x] else []) + WithKey(xs, key, v)
  {
    assert ([x] + xs)[1..] == xs;
  }

  lemma {:induction false} InsertKeepsOrder<T>(x: T, key: T -> real, ys: seq<T>, v: real)
    ensures WithKey(Insert(x, key, ys), key, v) == (if key(x) == v then [x] else []) + WithKey(ys, key, v)
    decreases |ys|
  {
    if ys == [] || key(ys[0]) <= key(x) {
      WithKeyCons(x, ys, key, v);
    } else {
      var y, rest := ys[0], ys[1..];
      assert Insert(x, key, ys) == [y] + Insert(x, key, rest);
      hide *;
      assert ys == [y] + rest;
      InsertKeepsOrder(x, key, rest, v);
      WithKeyCons(y, Insert(x, key, rest), key, v);
      WithKeyCons(y, rest, key, v);
      assert [] + WithKey(rest, key, v) == WithKey(rest, key, v);
    }
  }

  lemma {:induction false} RankedIsRanking<T>(xs: seq<T>, key: T -> real)
    ensures IsRanking(xs, Ranked(xs, key), key)
    ensures multiset(Ranked(xs, key)) == multiset(xs)
  {
    if xs != [] {
      var rest := Ranked(xs[1..], key);
      RankedIsRanking(xs[1..], key);
      var top := if rest == [] || key(rest[0]) <= key(xs[0]) then key(xs[0]) else key(rest[0]);
      InsertIsDescending(xs[0], key, rest, top);
      InsertMultiset(xs[0], key, rest);
      forall v ensures WithKey(Ranked(xs, key), key, v) == WithKey(xs, key, v) {
        InsertKeepsOrder(xs[0], key, rest, v);
      }
      assert xs == [xs[0]] + xs[1..];
    }
  }

  lemma {:induction false} WithKeyMembers<T>(xs: seq<T>, key: T -> real, v: real)
    ensures forall x :: x in WithKey(xs, key, v) <==> x in xs && key(x) == v
    ensures |WithKey(xs, key, v)| <= |xs|
    decreases |xs|
  {
    if xs != [] {
      WithKeyMembers(xs[1..], key, v);
      assert forall x :: x in xs <==> x == xs[0] || x in xs[1..];
    }
  }

  lemma SameMembers<T>(xs: seq<T>, ys: seq<T>, key: T -> real, x: T)
    requires WithKey(ys, key, key(x)) == WithKey(xs, key, key(x))
    ensures x in xs <==> x in ys
  {
    WithKeyMembers(xs, key, key(x));
    WithKeyMembers(ys, key, key(x));
  }

  /** The first element of a descending list is the first of its own key. */
  lemma HeadOfRanking<T>(xs: seq<T>, ys: seq<T>, key: T -> real)
    requires Descending(xs, key) && Descending(ys, key) && ys != []
    requires forall v :: WithKey(ys, key, v) == WithKey(xs, key, v)
    ensures xs != [] && xs[0] == ys[0]
  {
    var y := ys[0];
    SameMembers(xs, ys, key, y);
    assert y in xs;
    var x := xs[0];
    SameMembers(xs, ys, key, x);
    assert key(x) >= key(y) && key(y) >= key(x);
    assert WithKey(xs, key, key(y)) == WithKey(ys, key, key(y));
    assert WithKey(xs, key, key(y))[0] == x && WithKey(ys, key, key(y))[0] == y;
  }

  /** A descending list is determined by its elements of each key. */
  lemma {:induction false} RankingIsUnique<T>(xs: seq<T>, ys: seq<T>, key: T -> real)
    requires Descending(xs, key) && Descending(ys, key)
    requires forall v :: WithKey(ys, key, v) == WithKey(xs, key, v)
    ensures xs == ys
    decreases |ys|
  {
    if ys == [] {
      if xs != [] {
        HeadOfRanking(ys, xs, key);
      }
    } else {
      HeadOfRanking(xs, ys, key);
      forall v ensures WithKey(ys[1..], key, v) == WithKey(xs[1..], key, v) {
        var head := if key(xs[0]) == v then [xs[0]] else [];
        assert WithKey(xs, key, v) == head + WithKey(xs[1..], key, v);
        assert WithKey(ys, key, v) == head + WithKey(ys[1..], key, v);
        assert WithKey(xs, key, v)[|head|..] == WithKey(xs[1..], key, v);
      }
      RankingIsUnique(xs[1..], ys[1..], key);
      assert xs == [xs[0]] + xs[1..] && ys == [ys[0]] + ys[1..];
    }
  }

  /** The ranking is the only descending order that keeps ties in place. */
  lemma RankedIsTheRanking<T>(xs: seq<T>, ys: seq<T>, key: T -> real)
    ensures ys == Ranked(xs, key) <==> IsRanking(xs, ys, key)
  {
    RankedIsRanking(xs, key);
    if IsRanking(xs, ys, key) {
      RankingIsUnique(Ranked(xs, key), ys, key);
    }
  }

  /* ---------- orders of the same keys ---------- */

  /** The keys of `xs`, in place. */
  function Values<T>(xs: seq<T>, key: T -> real): seq<real> {
    seq(|xs|, i requires 0 <= i < |xs| => key(xs[i]))
  }

  lemma ValueAt<T>(xs: seq<T>, key: T -> real, i: nat)
    requires i < |xs|
    ensures Values(xs, key)[i] == key(xs[i])
  {
  }

  lemma {:induction false} ValuesOfPermutation<T>(xs: seq<T>, ys: seq<T>, key: T -> real)
    requires multiset(xs) == multiset(ys)
    ensures multiset(Values(xs, key)) == multiset(Values(ys, key))
    decreases |xs|
  {
    hide *;
    SameLength(xs, ys);
    if xs == [] {
      assert ys == [];
    } else {
      var i := IndexIn(xs, ys);
      WithoutOne(xs, 0);
      WithoutOne(ys, i);
      TakeOut(xs, 0, key);
      TakeOut(ys, i, key);
      ValuesOfPermutation(xs[..0] + xs[1..], ys[..i] + ys[i + 1..], key);
    }
  }

  lemma IndexIn<T>(xs: seq<T>, ys: seq<T>) returns (i: nat)
    requires multiset(xs) == multiset(ys) && xs != []
    ensures i < |ys| && ys[i] == xs[0]
  {
    assert xs[0] in multiset(ys);
    assert xs[0] in ys;
    i :| 0 <= i < |ys| && ys[i] == xs[0];
  }

  lemma WithoutOne<T>(ys: seq<T>, i: nat)
    requires i < |ys|
    ensures multiset(ys[..i] + ys[i + 1..]) == multiset(ys) - multiset{ys[i]}
  {
    assert ys == ys[..i] + [ys[i]] + ys[i + 1..];
  }

  lemma TakeOut<T>(ys: seq<T>, i: nat, key: T -> real)
    requires i < |ys|
    ensures multiset(Values(ys, key)) == multiset(Values(ys[..i] + ys[i + 1..], key)) + multiset{key(ys[i])}
  {
    var a, b := Values(ys[..i], key), Values(ys[i + 1..], key);
    assert Values(ys, key) == a + [key(ys[i])] + b;
    assert Values(ys[..i] + ys[i + 1..], key) == a + b;
  }

  predicate Falling(vs: seq<real>) {
    forall i, j :: 0 <= i < j < |vs| ==> vs[i] >= vs[j]
  }

  /** Only one falling order of a multiset of numbers. */
  lemma {:induction false} FallingIsUnique(a: seq<real>, b: seq<real>)
    requires Falling(a) && Falling(b) && multiset(a) == multiset(b)
    ensures a == b
    decreases |a|
  {
    hide *;
    SameLength(a, b);
    if a == [] {
      assert b == [];
    } else {
      SameGreatest(a, b);
      FallingTail(a);
      FallingTail(b);
      TailMultiset(a);
      TailMultiset(b);
      FallingIsUnique(a[1..], b[1..]);
      assert a == [a[0]] + a[1..] && b == [b[0]] + b[1..];
    }
  }

  lemma SameLength<T>(a: seq<T>, b: seq<T>)
    requires multiset(a) == multiset(b)
    ensures |a| == |b|
  {
    assert |multiset(a)| == |a|;
  }

  lemma TailMultiset(a: seq<real>)
    requires a != []
    ensures multiset(a[1..]) == multiset(a) - multiset{a[0]}
  {
    assert a == [a[0]] + a[1..];
  }

  lemma FallingTail(a: seq<real>)
    requires Falling(a) && a != []
    ensures Falling(a[1..])
  {
  }

  lemma SameGreatest(a: seq<real>, b: seq<real>)
    requires Falling(a) && Falling(b) && multiset(a) == multiset(b) && a != [] && b != []
    ensures a[0] == b[0]
  {
    assert a[0] in multiset(b) && b[0] in multiset(a);
    assert a[0] in b && b[0] in a;
  }

  predicate Distinct<T(==)>(xs: seq<T>) {
    forall i, j :: 0 <= i < j < |xs| ==> xs[i] != xs[j]
  }

  lemma {:induction false} DistinctCount<T>(xs: seq<T>, x: T)
    requires Distinct(xs)
    ensures multiset(xs)[x] == if x in xs then 1 else 0
  {
    if xs != [] {
      assert xs == [xs[0]] + xs[1..];
      assert Distinct(xs[1..]) && xs[0] !in xs[1..];
      DistinctCount(xs[1..], x);
    }
  }

  lemma SameDistinctElements<T>(xs: seq<T>, ys: seq<T>)
    requires Distinct(xs) && Distinct(ys) && forall x :: x in xs <==> x in ys
    ensures multiset(xs) == multiset(ys)
  {
    forall x ensures multiset(xs)[x] == multiset(ys)[x] {
      DistinctCount(xs, x);
      DistinctCount(ys, x);
    }
  }
}
