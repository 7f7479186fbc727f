/** Stable sorting by a rank: the result is unique, so it does not matter which stable algorithm
    the library uses. */
module StableSort {

  ghost predicate Ranked<T>(s: seq<T>, rank: T -> nat) {
    forall i, j :: 0 <= i < j < |s| ==> rank(s[i]) <= rank(s[j])
  }

  ghost function OfRank<T>(s: seq<T>, rank: T -> nat, r: nat): seq<T> {
    if s == [] then []
    else (if rank(s[0]) == r then [s[0]] else []) + OfRank(s[1..], rank, r)
  }

  /** The elements of every rank are the same, in the same order. */
  ghost predicate SameByRank<T>(a: seq<T>, b: seq<T>, rank: T -> nat) {
    forall r: nat :: OfRank(a, rank, r) == OfRank(b, rank, r)
  }

  /** What a stable sort promises: rank order, and the elements of each rank in their original order. */
  ghost predicate IsStableSort<T>(s: seq<T>, sorted: seq<T>, rank: T -> nat) {
    Ranked(sorted, rank) && SameByRank(s, sorted, rank)
  }

  /** Insert in front of the first element whose rank is not below the new one's. */
  function Insert<T>(x: T, sorted: seq<T>, rank: T -> nat): seq<T> {
    if sorted == [] || rank(x) <= rank(sorted[0]) then [x] + sorted
    else [sorted[0]] + Insert(x, sorted[1..], rank)
  }

  function Sort<T>(s: seq<T>, rank: T -> nat): seq<T> {
    if s == [] then [] else Insert(s[0], Sort(s[1..], rank), rank)
  }

  lemma SameByRankThrough<T>(s: seq<T>, a: seq<T>, b: seq<T>, rank: T -> nat)
    requires SameByRank(s, a, rank) && SameByRank(s, b, rank)
    ensures SameByRank(a, b, rank)
  {
    forall r: nat
      ensures OfRank(a, rank, r) == OfRank(b, rank, r)
    {
      assert OfRank(s, rank, r) == OfRank(a, rank, r);
    }
  }

  lemma OfRankCons<T>(x: T, s: seq<T>, rank: T -> nat, r: nat)
    ensures OfRank([x] + s, rank, r) == (if rank(x) == r then [x] else []) + OfRank(s, rank, r)
  {
    assert ([x] + s)[1..] == s;
  }

  lemma {:induction false} InsertPermutes<T>(x: T, sorted: seq<T>, rank: T -> nat)
    ensures multiset(Insert(x, sorted, rank)) == multiset{x} + multiset(sorted)
  {
    if sorted != [] && rank(x) > rank(sorted[0]) {
      InsertPermutes(x, sorted[1..], rank);
      assert sorted == [sorted[0]] + sorted[1..];
    }
  }

  ghost predicate AtLeast<T>(s: seq<T>, rank: T -> nat, low: nat) {
    forall i :: 0 <= i < |s| ==> low <= rank(s[i])
  }

  lemma {:induction false} InsertAtLeast<T>(x: T, sorted: seq<T>, rank: T -> nat, low: nat)
    requires low <= rank(x) && AtLeast(sorted, rank, low)
    ensures AtLeast(Insert(x, sorted, rank), rank, low)
  {
    if sorted != [] && rank(x) > rank(sorted[0]) {
      InsertAtLeast(x, sorted[1..], rank, low);
    }
  }

  lemma ConsRanked<T>(x: T, s: seq<T>, rank: T -> nat)
    requires Ranked(s, rank) && AtLeast(s, rank, rank(x))
    ensures Ranked([x] + s, rank)
  {
  }

  lemma {:induction false} InsertRanked<T>(x: T, sorted: seq<T>, rank: T -> nat)
    requires Ranked(sorted, rank)
    ensures Ranked(Insert(x, sorted, rank), rank)
  {
    if sorted != [] && rank(x) > rank(sorted[0]) {
      InsertRanked(x, sorted[1..], rank);
      InsertAtLeast(x, sorted[1..], rank, rank(sorted[0]));
      ConsRanked(sorted[0], Insert(x, sorted[1..], rank), rank);
    } else {
      ConsRanked(x, sorted, rank);
    }
  }

  lemma {:induction false} InsertStable<T>(x: T, sorted: seq<T>, rank: T -> nat, r: nat)
    ensures OfRank(Insert(x, sorted, rank), rank, r) == (if rank(x) == r then [x] else []) + OfRank(sorted, rank, r)
  {
    if sorted == [] || rank(x) <= rank(sorted[0]) {
      OfRankCons(x, sorted, rank, r);
    } else {
      InsertStable(x, sorted[1..], rank, r);
      OfRankCons(sorted[0], Insert(x, sorted[1..], rank), rank, r);
    }
  }

  lemma {:induction false} SortPermutes<T>(s: seq<T>, rank: T -> nat)
    ensures multiset(Sort(s, rank)) == multiset(s)
  {
    if s != [] {
      SortPermutes(s[1..], rank);
      InsertPermutes(s[0], Sort(s[1..], rank), rank);
      assert s == [s[0]] + s[1..];
    }
  }

  lemma {:induction false} SortIsStable<T>(s: seq<T>, rank: T -> nat)
    ensures IsStableSort(s, Sort(s, rank), rank)
  {
    if s != [] {
      SortIsStable(s[1..], rank);
      var rest := Sort(s[1..], rank);
      InsertRanked(s[0], rest, rank);
      forall r: nat
        ensures OfRank(Sort(s, rank), rank, r) == OfRank(s, rank, r)
      {
        InsertStable(s[0], rest, rank, r);
        assert OfRank(s[1..], rank, r) == OfRank(rest, rank, r);
      }
    }
  }

  lemma {:induction false} NoneBelow<T>(s: seq<T>, rank: T -> nat, r: nat)
    requires forall i :: 0 <= i < |s| ==> r < rank(s[i])
    ensures OfRank(s, rank, r) == []
  {
    if s != [] {
      NoneBelow(s[1..], rank, r);
    }
  }

  lemma HeadNotBelow<T>(a: seq<T>, b: seq<T>, rank: T -> nat)
    requires a != [] && b != [] && Ranked(b, rank) && SameByRank(a, b, rank)
    ensures rank(b[0]) <= rank(a[0])
  {
    assert OfRank(a, rank, rank(a[0])) == OfRank(b, rank, rank(a[0]));
    if rank(a[0]) < rank(b[0]) {
      NoneBelow(b, rank, rank(a[0]));
    }
  }

  lemma SameHead<T>(a: seq<T>, b: seq<T>, rank: T -> nat)
    requires a != [] && b != [] && Ranked(a, rank) && Ranked(b, rank) && SameByRank(a, b, rank)
    ensures a[0] == b[0]
    ensures SameByRank(a[1..], b[1..], rank)
  {
    HeadNotBelow(a, b, rank);
    HeadNotBelow(b, a, rank);
    var top := rank(a[0]);
    assert OfRank(a, rank, top) == OfRank(b, rank, top);
    assert OfRank(a, rank, top)[0] == a[0] && OfRank(b, rank, top)[0] == b[0];
    forall r: nat
      ensures OfRank(a[1..], rank, r) == OfRank(b[1..], rank, r)
    {
      assert OfRank(a, rank, r) == OfRank(b, rank, r);
      if r == top {
        assert OfRank(a, rank, r)[1..] == OfRank(a[1..], rank, r);
        assert OfRank(b, rank, r)[1..] == OfRank(b[1..], rank, r);
      } else {
        assert OfRank(a, rank, r) == OfRank(a[1..], rank, r);
        assert OfRank(b, rank, r) == OfRank(b[1..], rank, r);
      }
    }
  }

  lemma BothEmpty<T>(a: seq<T>, b: seq<T>, rank: T -> nat)
    requires SameByRank(a, b, rank)
    ensures a == [] ==> b == []
  {
    if b != [] {
      assert OfRank(a, rank, rank(b[0])) == OfRank(b, rank, rank(b[0]));
    }
  }

  /** Two rank-ordered lists that agree rank by rank are equal: stable sorting has one result. */
  lemma {:induction false} StableSortUnique<T>(a: seq<T>, b: seq<T>, rank: T -> nat)
    requires Ranked(a, rank) && Ranked(b, rank) && SameByRank(a, b, rank)
    ensures a == b
  {
    BothEmpty(a, b, rank);
    BothEmpty(b, a, rank);
    if a != [] {
      SameHead(a, b, rank);
      StableSortUnique(a[1..], b[1..], rank);
      assert a == [a[0]] + a[1..] && b == [b[0]] + b[1..];
    }
  }
}
