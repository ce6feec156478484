/** Counting: a finite set smaller than an interval misses one of its numbers. */
module Finite {

  function Interval(lo: nat, hi: nat): (r: set<nat>)
    requires lo <= hi
    ensures forall i: nat :: i in r <==> lo <= i < hi
    ensures |r| == hi - lo
    decreases hi
  {
    if lo == hi then {} else Interval(lo, hi - 1) + {hi - 1}
  }

  lemma {:induction false} SubsetSize<T>(a: set<T>, b: set<T>)
    requires a <= b
    ensures |a| <= |b|
  {
    if a != {} {
      var x :| x in a;
      SubsetSize(a - {x}, b - {x});
    }
  }

  lemma Missing(used: set<nat>, lo: nat, hi: nat)
    requires lo <= hi && |used| < hi - lo
    ensures exists i: nat :: lo <= i < hi && i !in used
  {
    if forall i: nat | lo <= i < hi :: i in used {
      assert Interval(lo, hi) <= used;
      SubsetSize(Interval(lo, hi), used);
    }
  }
}
