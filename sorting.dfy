/**
 The ordering used by the pH noise filter: what it means for a batch of
 readings to be sorted ascending, and a reference sorted permutation of any
 batch (a functional insertion sort) against which the in-place exchange sort
 of `PhFilter.PhReader.Sort` is proved.
 */
module Sorting {

  /** `s` is non-decreasing: every earlier reading is at most every later one. */
  ghost predicate IsSorted(s: seq<int>)
  {
    forall k, m :: 0 <= k < m < |s| ==> s[k] <= s[m]
  }

  /** Places `x` into the sorted sequence `s`, before the first element not smaller than it. */
  function Insert(x: int, s: seq<int>): (r: seq<int>)
    requires IsSorted(s)
    ensures IsSorted(r)
    ensures multiset(r) == multiset(s) + multiset{x}
    ensures |r| == |s| + 1
  {
    if s == [] then [x]
    else if x <= s[0] then [x] + s
    else
      var rest := Insert(x, s[1..]);
      assert s == [s[0]] + s[1..];
      InsertAboveHead(x, s, rest);
      [s[0]] + rest
  }

  /** The step of `Insert` that keeps the head: when `x` exceeds the head of
      `s`, the head stays below every element of the tail with `x` inserted. */
  lemma InsertAboveHead(x: int, s: seq<int>, rest: seq<int>)
    requires IsSorted(s) && s != [] && s[0] < x
    requires IsSorted(rest) && multiset(rest) == multiset(s[1..]) + multiset{x}
    ensures IsSorted([s[0]] + rest)
  {
    forall m | 0 <= m < |rest|
      ensures s[0] <= rest[m]
    {
      assert rest[m] in multiset(rest);
      if rest[m] != x {
        assert rest[m] in multiset(s[1..]);
        var k :| 0 <= k < |s[1..]| && s[1..][k] == rest[m];
        assert s[k + 1] == rest[m];
      }
    }
  }

  /** The reference sorted permutation of a batch of readings. */
  function SortedOf(s: seq<int>): (r: seq<int>)
    ensures IsSorted(r)
    ensures multiset(r) == multiset(s)
    ensures |r| == |s|
  {
    if s == [] then []
    else
      assert s == [s[0]] + s[1..];
      Insert(s[0], SortedOf(s[1..]))
  }

  /** Positions before `i` are final: each holds a reading no larger than
      any reading after it. */
  ghost predicate Settled(s: seq<int>, i: int)
  {
    forall k, m :: 0 <= k < i && k < m < |s| ==> s[k] <= s[m]
  }

  /** Position `i` holds a reading no larger than those at positions i+1..j-1. */
  ghost predicate HeadBelow(s: seq<int>, i: int, j: int)
    requires 0 <= i < |s|
  {
    forall m :: i < m < j && m < |s| ==> s[i] <= s[m]
  }

  /** One compare-and-swap of the exchange sort: positions `i` and `j` are
      exchanged when the reading at `i` is the larger one. */
  function Exchanged(s: seq<int>, i: nat, j: nat): (r: seq<int>)
    requires i < j < |s|
    ensures |r| == |s| && multiset(r) == multiset(s)
    ensures r[i] <= r[j]
  {
    if s[i] > s[j] then s[i := s[j]][j := s[i]] else s
  }

  /** A compare-and-swap at (i, j) keeps the settled prefix before `i` and
      extends the range that position `i` is known to be below to j. */
  lemma ExchangeStep(s: seq<int>, i: nat, j: nat)
    requires i < j < |s|
    requires Settled(s, i) && HeadBelow(s, i, j)
    ensures Settled(Exchanged(s, i, j), i)
    ensures HeadBelow(Exchanged(s, i, j), i, j + 1)
  {
  }

  /** Once every position but the last is settled, the sequence is sorted. */
  lemma SettledIsSorted(s: seq<int>)
    requires |s| > 0 && Settled(s, |s| - 1)
    ensures IsSorted(s)
  {
  }

  /** A sorted sequence is fixed by its multiset of elements: two sorted
      arrangements of the same readings are identical. */
  lemma {:induction false} SortedUnique(a: seq<int>, b: seq<int>)
    requires IsSorted(a) && IsSorted(b)
    requires multiset(a) == multiset(b)
    ensures a == b
  {
    if a == [] {
      assert |multiset(b)| == 0;
    } else {
      assert |b| == |multiset(b)| == |multiset(a)| == |a|;
      assert a[0] in multiset(b);
      var p :| 0 <= p < |b| && b[p] == a[0];
      assert b[0] in multiset(a);
      var q :| 0 <= q < |a| && a[q] == b[0];
      assert a[0] == b[0];
      assert a == [a[0]] + a[1..];
      assert b == [b[0]] + b[1..];
      assert multiset(a[1..]) == multiset(a) - multiset{a[0]};
      assert multiset(b[1..]) == multiset(b) - multiset{b[0]};
      SortedUnique(a[1..], b[1..]);
    }
  }

  /** Any sorted rearrangement of `s` is the reference sorted permutation. */
  lemma SortedOfCharacterized(s: seq<int>, r: seq<int>)
    requires IsSorted(r) && multiset(r) == multiset(s)
    ensures r == SortedOf(s)
  {
    SortedUnique(r, SortedOf(s));
  }

  /** Sorting forgets the arrival order: batches holding the same readings
      sort to the same sequence. */
  lemma SortedOfPermutationInvariant(s: seq<int>, t: seq<int>)
    requires multiset(s) == multiset(t)
    ensures SortedOf(s) == SortedOf(t)
  {
    SortedUnique(SortedOf(s), SortedOf(t));
  }
}
