/** Counting arguments on finite sets and sequences of numbers. */
module Counting {

  function Upto(n: nat): (s: set<nat>)
    ensures forall i: nat :: i in s <==> i < n
    ensures |s| == n
  {
    if n == 0 then {} else Upto(n - 1) + {n - 1}
  }

  ghost predicate Distinct(s: seq<nat>) {
    forall i, j :: 0 <= i < j < |s| ==> s[i] != s[j]
  }

  function Elements(s: seq<nat>): set<nat> {
    set x | x in s
  }

  lemma {:induction false} DistinctSize(s: seq<nat>)
    requires Distinct(s)
    ensures |Elements(s)| == |s|
  {
    if s != [] {
      var last := s[|s| - 1];
      var init := s[..|s| - 1];
      DistinctSize(init);
      assert s == init + [last];
      assert last !in init;
      assert Elements(s) == Elements(init) + {last};
    }
  }

  lemma SubsetOfSameSize(a: set<nat>, b: set<nat>)
    requires a <= b && |a| == |b|
    ensures a == b
  {
    assert |b - a| == |b| - |a|;
  }

  /** n different numbers below n are all of them. */
  lemma Pigeonhole(s: seq<nat>, n: nat)
    requires |s| == n && Distinct(s) && forall x <- s :: x < n
    ensures forall i: nat :: i < n ==> i in s
  {
    DistinctSize(s);
    SubsetOfSameSize(Elements(s), Upto(n));
    forall i: nat | i < n
      ensures i in s
    {
      assert i in Upto(n) && i in Elements(s);
    }
  }
}
