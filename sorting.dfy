/** Sorting as `slice::sort` does it for ordered values: the result is sorted
    ascending and is a permutation of the input. For a total order that result
    is unique, so the reference definition here (insertion into a sorted
    sequence) and any in-place algorithm agree with Rust's merge sort. */
module Sorting {

  /** `le` is a total order: any two values compare, only equal values compare
      both ways, and comparisons chain. */
  ghost predicate IsTotalOrder<T(!new)>(le: (T, T) -> bool)
  {
    && (forall x, y :: le(x, y) || le(y, x))
    && (forall x, y :: le(x, y) && le(y, x) ==> x == y)
    && (forall x, y, z :: le(x, y) && le(y, z) ==> le(x, z))
  }

  /** Ascending: every element is at most every later element. */
  ghost predicate Sorted<T>(s: seq<T>, le: (T, T) -> bool)
  {
    forall i, j :: 0 <= i < j < |s| ==> le(s[i], s[j])
  }

  /** Ascending neighbours make a sorted sequence. */
  lemma {:induction false} SortedByNeighbours<T(!new)>(s: seq<T>, le: (T, T) -> bool)
    requires IsTotalOrder(le)
    requires forall i :: 0 < i < |s| ==> le(s[i - 1], s[i])
    ensures Sorted(s, le)
  {
    if |s| > 1 {
      SortedByNeighbours(s[1..], le);
      assert forall j :: 1 < j < |s| ==> le(s[1], s[j]) by {
        assert forall j :: 1 < j < |s| ==> s[1..][0] == s[1] && s[1..][j - 1] == s[j];
      }
      assert forall i, j :: 0 <= i < j < |s| && 0 < i ==> le(s[i], s[j]) by {
        assert forall i, j :: 0 < i < j < |s| ==> s[1..][i - 1] == s[i] && s[1..][j - 1] == s[j];
      }
    }
  }

  /** Dropping the first element keeps a sequence sorted. */
  lemma SortedTail<T>(s: seq<T>, le: (T, T) -> bool)
    requires s != [] && Sorted(s, le)
    ensures Sorted(s[1..], le)
  {
    assert forall i :: 0 <= i < |s| - 1 ==> s[1..][i] == s[i + 1];
  }

  /** When `x` goes after the first element of `s`, that element stays below
      everything inserted after it. */
  lemma HeadBelowInserted<T(!new)>(x: T, s: seq<T>, tail: seq<T>, le: (T, T) -> bool)
    requires IsTotalOrder(le) && Sorted(s, le)
    requires s != [] && !le(x, s[0])
    requires multiset(tail) == multiset(s[1..]) + multiset{x}
    ensures forall k :: 0 <= k < |tail| ==> le(s[0], tail[k])
  {
    forall k | 0 <= k < |tail|
      ensures le(s[0], tail[k])
    {
      assert tail[k] in multiset(tail);
      if tail[k] != x {
        var m :| 0 <= m < |s[1..]| && s[1..][m] == tail[k];
        assert s[m + 1] == tail[k];
      }
    }
  }

  /** `x` placed before the first element that is not below it. */
  function Insert<T(==,!new)>(x: T, s: seq<T>, le: (T, T) -> bool): (r: seq<T>)
    requires IsTotalOrder(le) && Sorted(s, le)
    ensures Sorted(r, le)
    ensures multiset(r) == multiset(s) + multiset{x}
  {
    if s == [] || le(x, s[0]) then [x] + s
    else
      SortedTail(s, le);
      var tail := Insert(x, s[1..], le);
      HeadBelowInserted(x, s, tail, le);
      assert s == [s[0]] + s[1..];
      [s[0]] + tail
  }

  /** The sorted permutation of `s`. */
  function SortSeq<T(==,!new)>(s: seq<T>, le: (T, T) -> bool): (r: seq<T>)
    requires IsTotalOrder(le)
    ensures Sorted(r, le)
    ensures multiset(r) == multiset(s)
  {
    if s == [] then []
    else
      assert s == [s[0]] + s[1..];
      Insert(s[0], SortSeq(s[1..], le), le)
  }

  /** The first element of a sorted sequence is at most each of its elements. */
  lemma HeadIsLeast<T(!new)>(s: seq<T>, x: T, le: (T, T) -> bool)
    requires IsTotalOrder(le) && Sorted(s, le) && x in multiset(s)
    ensures le(s[0], x)
  {
    var k :| 0 <= k < |s| && s[k] == x;
    if k == 0 {
      assert le(x, x) || le(x, x);
    }
  }

  /** Two sequences with the same elements and the same first element have
      the same elements after it. */
  lemma SameTailElements<T>(a: seq<T>, b: seq<T>)
    requires a != [] && b != [] && a[0] == b[0] && multiset(a) == multiset(b)
    ensures multiset(a[1..]) == multiset(b[1..])
  {
    assert a == [a[0]] + a[1..] && b == [b[0]] + b[1..];
    assert multiset(a[1..]) == multiset(a) - multiset{a[0]};
    assert multiset(b[1..]) == multiset(b) - multiset{b[0]};
  }

  /** Two sorted sequences with the same elements are equal. */
  lemma {:induction false} SortedUnique<T(!new)>(a: seq<T>, b: seq<T>, le: (T, T) -> bool)
    requires IsTotalOrder(le)
    requires Sorted(a, le) && Sorted(b, le)
    requires multiset(a) == multiset(b)
    ensures a == b
  {
    if a == [] {
      assert |multiset(b)| == 0;
    } else {
      assert |multiset(b)| == |multiset(a)|;
      HeadIsLeast(a, b[0], le);
      HeadIsLeast(b, a[0], le);
      SameTailElements(a, b);
      SortedTail(a, le);
      SortedTail(b, le);
      SortedUnique(a[1..], b[1..], le);
      assert a == [a[0]] + a[1..] && b == [b[0]] + b[1..];
    }
  }

  /** Sorting a sorted sequence changes nothing. */
  lemma SortSeqOfSorted<T(!new)>(s: seq<T>, le: (T, T) -> bool)
    requires IsTotalOrder(le) && Sorted(s, le)
    ensures SortSeq(s, le) == s
  {
    SortedUnique(SortSeq(s, le), s, le);
  }

  /** The sorted result depends only on the elements, not on their order. */
  lemma SortSeqOfPermutation<T(!new)>(a: seq<T>, b: seq<T>, le: (T, T) -> bool)
    requires IsTotalOrder(le) && multiset(a) == multiset(b)
    ensures SortSeq(a, le) == SortSeq(b, le)
  {
    SortedUnique(SortSeq(a, le), SortSeq(b, le), le);
  }

  /** Moves `a[i]` down by adjacent swaps until it is not below its left
      neighbour, so that the sorted prefix grows by one. */
  method InsertLast<T(==,!new)>(a: array<T>, i: nat, le: (T, T) -> bool)
    requires IsTotalOrder(le) && i < a.Length
    requires forall p, q :: 0 <= p < q < i ==> le(a[p], a[q])
    modifies a
    ensures forall p, q :: 0 <= p < q <= i ==> le(a[p], a[q])
    ensures multiset(a[..]) == multiset(old(a[..]))
    ensures a[i + 1..] == old(a[i + 1..])
  {
    var j := i;
    while 0 < j && !le(a[j - 1], a[j])
      invariant 0 <= j <= i
      invariant forall p, q :: 0 <= p < q <= i && p != j && q != j ==> le(a[p], a[q])
      invariant forall q :: j < q <= i ==> le(a[j], a[q])
      invariant multiset(a[..]) == multiset(old(a[..]))
      invariant a[i + 1..] == old(a[i + 1..])
    {
      a[j - 1], a[j] := a[j], a[j - 1];
      j := j - 1;
    }
  }

  /** `slice::sort` in place, as an insertion sort; the result is the sorted
      permutation, which under a total order is unique. */
  method SortInPlace<T(==,!new)>(a: array<T>, le: (T, T) -> bool)
    requires IsTotalOrder(le)
    modifies a
    ensures Sorted(a[..], le)
    ensures multiset(a[..]) == multiset(old(a[..]))
    ensures a[..] == SortSeq(old(a[..]), le)
  {
    var i := 0;
    while i < a.Length
      invariant 0 <= i <= a.Length
      invariant forall p, q :: 0 <= p < q < i ==> le(a[p], a[q])
      invariant multiset(a[..]) == multiset(old(a[..]))
    {
      InsertLast(a, i, le);
      i := i + 1;
    }
    SortedUnique(a[..], SortSeq(old(a[..]), le), le);
  }
}
