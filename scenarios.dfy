/** Worked inputs for both subcommands: a two-line `order` input, a line of
    words that are not numbers, and a six-line `distance` input, each with
    the result the model computes for it. */
module Scenarios {

  import opened Wrappers
  import opened Text
  import opened Numerals
  import opened Sequences
  import opened Sorting
  import opened LineParser
  import opened OrderProcessor
  import opened DistanceProcessor

  /** A line of two non-negative numbers in `Display` form parses to them in
      the `i32` domain too. */
  lemma DistanceLineOfDecimals(a: nat, b: nat)
    requires a <= I32_MAX && b <= I32_MAX
    ensures DistanceLine(DecimalString(a) + " " + DecimalString(b)) == Some((a, b))
  {
    DecimalStringIsWord(a);
    DecimalStringIsWord(b);
    ParseI32OfSignedDecimalString(a);
    ParseI32OfSignedDecimalString(b);
    ParsePairOfTwoWords(DecimalString(a), DecimalString(b), ParseI32);
  }

  /** A line of two single digits separated by a space. */
  lemma DigitLine(line: string)
    requires |line| == 3 && IsDigit(line[0]) && line[1] == ' ' && IsDigit(line[2])
    ensures OrderLine(line) == Some((DigitValue(line[0]), DigitValue(line[2])))
    ensures DistanceLine(line) == Some((DigitValue(line[0]), DigitValue(line[2])))
    ensures FormatPair((DigitValue(line[0]), DigitValue(line[2]))) == line
  {
    var a, b := DigitValue(line[0]), DigitValue(line[2]);
    assert DigitChar(a) == line[0] && DigitChar(b) == line[2];
    assert line == DecimalString(a) + " " + DecimalString(b);
    assert line == FormatPair((a, b));
    OrderLineOfFormatPair((a, b));
    DistanceLineOfDecimals(a, b);
  }

  lemma TenFiveLine(line: string)
    requires line == "10 5"
    ensures OrderLine(line) == Some((10, 5))
    ensures DistanceLine(line) == Some((10, 5))
    ensures FormatPair((10, 5)) == line
  {
    assert DecimalString(10) == "10";
    assert line == DecimalString(10) + " " + DecimalString(5);
    OrderLineOfFormatPair((10, 5));
    DistanceLineOfDecimals(10, 5);
  }

  /** `"abc def"` has two tokens, neither of them a number. */
  lemma NotNumbersLine(line: string)
    requires line == "abc def"
    ensures OrderLine(line) == None
    ensures DistanceLine(line) == None
  {
    var a, b := "abc", "def";
    assert IsWord(a) && IsWord(b);
    assert !IsDigit(a[0]);
    assert ParseU32(a) == None && ParseI32(a) == None;
    assert line == a + " " + b;
    ParsePairOfTwoWords(a, b, ParseU32);
    ParsePairOfTwoWords(a, b, ParseI32);
  }

  lemma OrderScenarioSorted(ps: seq<OrderProcessor.Pair>, sorted: seq<OrderProcessor.Pair>)
    requires ps == [(10, 5), (3, 8)] && sorted == [(3, 8), (10, 5)]
    ensures SortSeq(ps, LePair) == sorted
  {
    assert ps == [sorted[1]] + [sorted[0]] && sorted == [sorted[0]] + [sorted[1]];
    assert multiset(ps) == multiset(sorted);
    LePairIsTotalOrder();
    SortedByNeighbours(sorted, LePair);
    SortedUnique(SortSeq(ps, LePair), sorted, LePair);
  }

  lemma OrderScenarioText(lines: seq<string>)
    requires lines == ["3 8", "10 5"]
    ensures WriteLines(lines) == "3 8\n10 5\n"
  {
    assert lines[1..] == ["10 5"];
    assert WriteLines(["10 5"]) == "10 5\n";
  }

  lemma OrderScenarioPairs(lines: seq<string>)
    requires lines == ["10 5", "3 8"]
    ensures OrderPairs(lines) == [(10, 5), (3, 8)]
  {
    TenFiveLine(lines[0]);
    DigitLine(lines[1]);
    FilterMapAllKept(lines, OrderLine, [(10, 5), (3, 8)]);
  }

  /** The lines `"10 5"` and `"3 8"` are written back as `"3 8\n10 5\n"`. */
  lemma OrderScenario(lines: seq<string>)
    requires lines == ["10 5", "3 8"]
    ensures Order(lines) == "3 8\n10 5\n"
  {
    OrderScenarioPairs(lines);
    var sorted: seq<OrderProcessor.Pair> := [(3, 8), (10, 5)];
    OrderScenarioSorted(OrderPairs(lines), sorted);
    DigitLine("3 8");
    TenFiveLine("10 5");
    MapElements(sorted, FormatPair, ["3 8", "10 5"]);
    OrderScenarioText(["3 8", "10 5"]);
  }

  /** A line of words that are not numbers contributes nothing to either
      subcommand; the valid line after it still does. */
  lemma MalformedLineScenario(lines: seq<string>)
    requires lines == ["abc def", "10 5"]
    ensures OrderPairs(lines) == [(10, 5)]
    ensures DistancePairs(lines) == [(10, 5)]
  {
    NotNumbersLine(lines[0]);
    TenFiveLine(lines[1]);
    assert lines == [lines[0]] + [lines[1]];
    FilterMapConcat([lines[0]], [lines[1]], OrderLine);
    FilterMapConcat([lines[0]], [lines[1]], DistanceLine);
  }

  /** Lines that each hold two single digits parse to those digits. */
  lemma {:induction false} DigitLines(lines: seq<string>, ps: seq<DistanceProcessor.Pair>)
    requires |ps| == |lines|
    requires forall k :: 0 <= k < |lines| ==>
      |lines[k]| == 3 && IsDigit(lines[k][0]) && lines[k][1] == ' ' && IsDigit(lines[k][2])
    requires forall k :: 0 <= k < |lines| ==>
      ps[k] == (DigitValue(lines[k][0]), DigitValue(lines[k][2]))
    ensures DistancePairs(lines) == ps
  {
    forall k | 0 <= k < |lines|
      ensures DistanceLine(lines[k]) == Some(ps[k])
    {
      DigitLine(lines[k]);
    }
    FilterMapAllKept(lines, DistanceLine, ps);
  }

  lemma DistanceScenarioPairs(lines: seq<string>)
    requires lines == ["3 4", "4 3", "2 5", "1 3", "3 9", "3 3"]
    ensures DistancePairs(lines) == [(3, 4), (4, 3), (2, 5), (1, 3), (3, 9), (3, 3)]
  {
    DigitLines(lines, [(3, 4), (4, 3), (2, 5), (1, 3), (3, 9), (3, 3)]);
  }

  lemma ScenarioColumns(ps: seq<DistanceProcessor.Pair>)
    requires ps == [(3, 4), (4, 3), (2, 5), (1, 3), (3, 9), (3, 3)]
    ensures Map(ps, Left) == [3, 4, 2, 1, 3, 3]
    ensures Map(ps, Right) == [4, 3, 5, 3, 9, 3]
  {
    MapElements(ps, Left, [3, 4, 2, 1, 3, 3]);
    MapElements(ps, Right, [4, 3, 5, 3, 9, 3]);
  }

  lemma LeftColumnSorted(s: seq<I32>, sorted: seq<I32>)
    requires s == [3, 4, 2, 1, 3, 3] && sorted == [1, 2, 3, 3, 3, 4]
    ensures SortSeq(s, LeInt) == sorted
  {
    LeIntIsTotalOrder();
    SortedByNeighbours(sorted, LeInt);
    assert multiset(s) == multiset(sorted);
    SortedUnique(SortSeq(s, LeInt), sorted, LeInt);
  }

  lemma RightColumnSorted(s: seq<I32>, sorted: seq<I32>)
    requires s == [4, 3, 5, 3, 9, 3] && sorted == [3, 3, 3, 4, 5, 9]
    ensures SortSeq(s, LeInt) == sorted
  {
    LeIntIsTotalOrder();
    SortedByNeighbours(sorted, LeInt);
    assert multiset(s) == multiset(sorted);
    SortedUnique(SortSeq(s, LeInt), sorted, LeInt);
  }

  /** One step of the sum of the rank-matched differences. */
  lemma TotalDistanceCons(x: int, l: seq<int>, y: int, r: seq<int>)
    ensures TotalDistance([x] + l, [y] + r) == Abs(x - y) + TotalDistance(l, r)
  {
    assert ([x] + l)[1..] == l && ([y] + r)[1..] == r;
  }

  lemma ScenarioTotal(l: seq<int>, r: seq<int>)
    requires l == [1, 2, 3, 3, 3, 4] && r == [3, 3, 3, 4, 5, 9]
    ensures TotalDistance(l, r) == 11
  {
    TotalDistanceCons(4, [], 9, []);
    TotalDistanceCons(3, [4], 5, [9]);
    TotalDistanceCons(3, [3, 4], 4, [5, 9]);
    TotalDistanceCons(3, [3, 3, 4], 3, [4, 5, 9]);
    TotalDistanceCons(2, [3, 3, 3, 4], 3, [3, 4, 5, 9]);
    TotalDistanceCons(1, [2, 3, 3, 3, 4], 3, [3, 3, 4, 5, 9]);
  }

  /** A six-line input with total distance 11: the
      sorted columns are 1 2 3 3 3 4 and 3 3 3 4 5 9. */
  lemma DistanceScenario(lines: seq<string>)
    requires lines == ["3 4", "4 3", "2 5", "1 3", "3 9", "3 3"]
    ensures Distance(lines) == 11
  {
    DistanceScenarioPairs(lines);
    ScenarioColumns(DistancePairs(lines));
    LeftColumnSorted([3, 4, 2, 1, 3, 3], [1, 2, 3, 3, 3, 4]);
    RightColumnSorted([4, 3, 5, 3, 9, 3], [3, 3, 3, 4, 5, 9]);
    ScenarioTotal([1, 2, 3, 3, 3, 4], [3, 3, 3, 4, 5, 9]);
  }
}
