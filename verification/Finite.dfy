/** Counting facts about finite sets and index lists shared by the component models. */
module Finite {

  function Interval(lo: nat, hi: nat): (r: set<nat>)
    requires lo <= hi
    ensures |r| == hi - lo
    ensures forall j: nat :: j in r <==> lo <= j < hi
    decreases hi - lo
  {
    if lo == hi then {} else Interval(lo, hi - 1) + {hi - 1}
  }

  lemma {:induction false} SubsetSize<T>(a: set<T>, b: set<T>)
    requires a <= b
    ensures |a| <= |b|
    ensures |a| == |b| ==> a == b
  {
    if a != {} {
      var x :| x in a;
      SubsetSize(a - {x}, b - {x});
    } else if |b| == 0 {
      assert b == {};
    }
  }

  ghost predicate Distinct<T>(s: seq<T>) {
    forall i, j :: 0 <= i < j < |s| ==> s[i] != s[j]
  }

  ghost function Elements<T>(s: seq<T>): set<T> {
    set x | x in s
  }

  lemma {:induction false} DistinctSize<T>(s: seq<T>)
    requires Distinct(s)
    ensures |Elements(s)| == |s|
  {
    if s != [] {
      var k := |s| - 1;
      DistinctSize(s[..k]);
      assert Elements(s) == Elements(s[..k]) + {s[k]};
    }
  }

  /** Distinct numbers drawn from an interval are no more than the interval holds. */
  lemma Pigeonhole(s: seq<nat>, lo: nat, hi: nat)
    requires lo <= hi && Distinct(s)
    requires forall i :: 0 <= i < |s| ==> lo <= s[i] < hi
    ensures |s| <= hi - lo
    ensures |s| == hi - lo ==> forall j: nat :: lo <= j < hi ==> j in s
  {
    DistinctSize(s);
    SubsetSize(Elements(s), Interval(lo, hi));
    if |s| == hi - lo {
      forall j: nat | lo <= j < hi
        ensures j in s
      {
        assert j in Interval(lo, hi);
      }
    }
  }

  // ---------- picking elements out of a list ----------

  /** The marked positions, in increasing order: which elements a filter keeps, and in which order. */
  ghost function Positions(marks: seq<bool>): (at: seq<nat>)
    ensures forall k :: 0 <= k < |at| ==> at[k] < |marks| && marks[at[k]]
    ensures forall j, k :: 0 <= j < k < |at| ==> at[j] < at[k]
    ensures forall i :: 0 <= i < |marks| && marks[i] ==> i in at
  {
    if marks == [] then []
    else
      var k := |marks| - 1;
      var at := Positions(marks[..k]);
      if marks[k] then at + [k] else at
  }

  lemma PositionsNext(marks: seq<bool>)
    requires marks != []
    ensures var k := |marks| - 1;
      Positions(marks) == Positions(marks[..k]) + if marks[k] then [k] else []
  {
  }
}
