/** More objects than boxes: two of them share a box. */
module Pigeonhole {

  function Image(f: nat -> nat, n: nat): set<nat> {
    set i | 0 <= i < n :: f(i)
  }

  lemma {:induction false} ImageGrows(f: nat -> nat, n: nat)
    requires forall i, j :: 0 <= i < j < n ==> f(i) != f(j)
    ensures |Image(f, n)| == n
  {
    if n > 0 {
      ImageGrows(f, n - 1);
      assert Image(f, n) == Image(f, n - 1) + {f(n - 1)};
      assert f(n - 1) !in Image(f, n - 1);
    }
  }

  lemma {:induction false} BoundedSetIsSmall(s: set<nat>, boxes: nat)
    requires forall x :: x in s ==> x < boxes
    ensures |s| <= boxes
    decreases boxes
  {
    if boxes == 0 {
      assert s == {};
    } else {
      BoundedSetIsSmall(s - {boxes - 1}, boxes - 1);
    }
  }

  lemma TwoShareABox(f: nat -> nat, boxes: nat) returns (i: nat, j: nat)
    requires forall x :: 0 <= x <= boxes ==> f(x) < boxes
    ensures i < j <= boxes && f(i) == f(j)
  {
    if forall x, y :: 0 <= x < y <= boxes ==> f(x) != f(y) {
      ImageGrows(f, boxes + 1);
      BoundedSetIsSmall(Image(f, boxes + 1), boxes);
      assert false;
    }
    i, j :| 0 <= i < j <= boxes && f(i) == f(j);
  }
}
