/** Lists in strict order under some relation. */
module Chains {

  ghost predicate Asymmetric<T(!new)>(before: (T, T) -> bool) {
    forall x, y :: before(x, y) ==> !before(y, x)
  }

  /** Every element comes before all that follow it. */
  ghost predicate Chain<T>(before: (T, T) -> bool, l: seq<T>) {
    forall i, j :: 0 <= i < j < |l| ==> before(l[i], l[j])
  }

  lemma ChainTail<T(!new)>(before: (T, T) -> bool, l: seq<T>, x: T)
    requires Asymmetric(before) && Chain(before, l) && l != []
    ensures x in l[1..] <==> x in l && x != l[0]
  {
    if x in l[1..] {
      var i :| 0 <= i < |l| - 1 && l[1..][i] == x;
      assert before(l[0], l[i + 1]);
    }
  }

  /** A chain is determined by its members. */
  lemma {:induction false} ChainUnique<T(!new)>(before: (T, T) -> bool, a: seq<T>, b: seq<T>)
    requires Asymmetric(before) && Chain(before, a) && Chain(before, b)
    requires forall x :: x in a <==> x in b
    ensures a == b
  {
    assert |b| > 0 ==> b[0] in b;
    if a != [] {
      assert a[0] in b && b[0] in a;
      var i :| 0 <= i < |b| && b[i] == a[0];
      var j :| 0 <= j < |a| && a[j] == b[0];
      assert a[0] == b[0];
      forall x
        ensures x in a[1..] <==> x in b[1..]
      {
        ChainTail(before, a, x);
        ChainTail(before, b, x);
      }
      ChainUnique(before, a[1..], b[1..]);
      assert a == [a[0]] + a[1..] && b == [b[0]] + b[1..];
    }
  }
}
