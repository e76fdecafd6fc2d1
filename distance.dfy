/** The `distance` subcommand (`calculate_total_distance`): parse every line
    as a pair of `i32`, split the pairs into a left and a right column, sort
    each column on its own and add up the absolute differences of the values
    of equal rank. */
module DistanceProcessor {

  import opened Wrappers
  import opened Numerals
  import opened Sequences
  import opened Sorting
  import opened LineParser

  type Pair = (I32, I32)

  function LeInt(x: I32, y: I32): bool
  {
    x <= y
  }

  lemma LeIntIsTotalOrder()
    ensures IsTotalOrder(LeInt)
  {
  }

  /** The pair an input line contributes to `distance`. */
  function DistanceLine(line: string): Option<Pair>
  {
    ParsePair(line, ParseI32)
  }

  function Left(p: Pair): I32
  {
    p.0
  }

  function Right(p: Pair): I32
  {
    p.1
  }

  /** The pairs of the input, in file order. */
  function DistancePairs(lines: seq<string>): seq<Pair>
  {
    FilterMap(lines, DistanceLine)
  }

  function Abs(x: int): nat
  {
    if x < 0 then -x else x
  }

  /** `l.iter().zip(r.iter()).map(|(a, b)| (a - b).abs()).sum()` over
      mathematical integers: `zip` stops at the end of the shorter column. */
  function TotalDistance(l: seq<int>, r: seq<int>): (d: int)
    ensures d >= 0
    ensures d == 0 <==> forall i :: 0 <= i < |l| && i < |r| ==> l[i] == r[i]
  {
    if l == [] || r == [] then 0
    else
      assert forall i :: 0 < i < |l| && i < |r| ==> l[i] == l[1..][i - 1] && r[i] == r[1..][i - 1];
      Abs(l[0] - r[0]) + TotalDistance(l[1..], r[1..])
  }

  /** The left column and the right column after `sort()`. */
  function SortedColumns(lines: seq<string>): (cols: (seq<I32>, seq<I32>))
    ensures Sorted(cols.0, LeInt) && Sorted(cols.1, LeInt)
    ensures multiset(cols.0) == multiset(Map(DistancePairs(lines), Left))
    ensures multiset(cols.1) == multiset(Map(DistancePairs(lines), Right))
    ensures |cols.0| == |cols.1|
  {
    LeIntIsTotalOrder();
    var ps := DistancePairs(lines);
    var l, r := SortSeq(Map(ps, Left), LeInt), SortSeq(Map(ps, Right), LeInt);
    assert |multiset(l)| == |multiset(r)|;
    (l, r)
  }

  /** The value `calculate_total_distance` returns for the given input lines. */
  function Distance(lines: seq<string>): int
  {
    var cols := SortedColumns(lines);
    TotalDistance(cols.0, cols.1)
  }

  /** Lines 95-107: push the two values of every pair onto two columns. */
  method ReadColumns(lines: seq<string>) returns (left: seq<I32>, right: seq<I32>)
    ensures left == Map(DistancePairs(lines), Left)
    ensures right == Map(DistancePairs(lines), Right)
    ensures |left| == |right| <= |lines|
  {
    left, right := [], [];
    for i := 0 to |lines|
      invariant left == Map(DistancePairs(lines[..i]), Left)
      invariant right == Map(DistancePairs(lines[..i]), Right)
    {
      assert lines[..i + 1] == lines[..i] + [lines[i]];
      FilterMapConcat(lines[..i], [lines[i]], DistanceLine);
      var before := DistancePairs(lines[..i]);
      match DistanceLine(lines[i])
      case Some(p) =>
        assert DistancePairs(lines[..i + 1]) == before + [p];
        MapConcat(before, [p], Left);
        MapConcat(before, [p], Right);
        assert Map([p], Left) == [p.0];
        assert Map([p], Right) == [p.1];
        left := left + [p.0];
        right := right + [p.1];
      case None =>
        assert DistancePairs(lines[..i + 1]) == before;
    }
    assert lines[..|lines|] == lines;
  }

  /** Lines 109-110: `sort()` on a column held in a vector. */
  method SortColumn(column: seq<I32>) returns (sorted: seq<I32>)
    ensures sorted == SortSeq(column, LeInt)
  {
    var list := new I32[|column|](i requires 0 <= i < |column| => column[i]);
    assert list[..] == column;
    LeIntIsTotalOrder();
    SortInPlace(list, LeInt);
    sorted := list[..];
  }

  /** `calculate_total_distance` without the file system. The sum is taken
      over mathematical integers. */
  method CalculateTotalDistance(lines: seq<string>) returns (total: int)
    ensures total == Distance(lines)
    ensures total >= 0
  {
    var left, right := ReadColumns(lines);
    var leftList := SortColumn(left);
    var rightList := SortColumn(right);
    total := TotalDistance(leftList, rightList);
  }

  /** Swapping the two columns does not change the distance. */
  lemma {:induction false} TotalDistanceSymmetric(l: seq<int>, r: seq<int>)
    ensures TotalDistance(l, r) == TotalDistance(r, l)
  {
    if l != [] && r != [] {
      TotalDistanceSymmetric(l[1..], r[1..]);
    }
  }

  /** The distance does not depend on the order of the input lines. */
  lemma DistancePermutationInvariant(lines1: seq<string>, lines2: seq<string>)
    requires multiset(lines1) == multiset(lines2)
    ensures Distance(lines1) == Distance(lines2)
  {
    var ps1, ps2 := DistancePairs(lines1), DistancePairs(lines2);
    FilterMapPermutation(lines1, lines2, DistanceLine);
    MapPermutation(ps1, ps2, Left);
    MapPermutation(ps1, ps2, Right);
    LeIntIsTotalOrder();
    SortedUnique(SortedColumns(lines1).0, SortedColumns(lines2).0, LeInt);
    SortedUnique(SortedColumns(lines1).1, SortedColumns(lines2).1, LeInt);
  }

  /** When every pair has two equal values the columns are the same. */
  lemma {:induction false} EqualPairsEqualColumns(ps: seq<Pair>)
    requires forall i :: 0 <= i < |ps| ==> ps[i].0 == ps[i].1
    ensures Map(ps, Left) == Map(ps, Right)
  {
    if ps != [] {
      EqualPairsEqualColumns(ps[1..]);
    }
  }

  /** An input whose accepted pairs all have equal values has distance 0. */
  lemma DistanceOfEqualPairs(lines: seq<string>)
    requires forall i :: 0 <= i < |DistancePairs(lines)| ==> DistancePairs(lines)[i].0 == DistancePairs(lines)[i].1
    ensures Distance(lines) == 0
  {
    EqualPairsEqualColumns(DistancePairs(lines));
    LeIntIsTotalOrder();
    SortedUnique(SortedColumns(lines).0, SortedColumns(lines).1, LeInt);
  }
}
