/** The `order` subcommand (`process_files`): parse every line as a pair of
    `u32`, sort the pairs lexicographically and write each as `"<a> <b>\n"`. */
module OrderProcessor {

  import opened Wrappers
  import opened Text
  import opened Numerals
  import opened Sequences
  import opened Sorting
  import opened LineParser

  type Pair = (U32, U32)

  /** Rust's `Ord` on tuples: by the first element, ties by the second. */
  function LePair(p: Pair, q: Pair): bool
  {
    p.0 < q.0 || (p.0 == q.0 && p.1 <= q.1)
  }

  lemma LePairIsTotalOrder()
    ensures IsTotalOrder(LePair)
  {
  }

  /** The pair an input line contributes to `order`. */
  function OrderLine(line: string): Option<Pair>
  {
    ParsePair(line, ParseU32)
  }

  /** The `"{} {}"` text of a pair. */
  function FormatPair(p: Pair): string
  {
    DecimalString(p.0) + " " + DecimalString(p.1)
  }

  /** The output file for pairs already in output order. */
  function Render(ps: seq<Pair>): string
  {
    WriteLines(Map(ps, FormatPair))
  }

  /** The pairs of the input, in file order. */
  function OrderPairs(lines: seq<string>): seq<Pair>
  {
    FilterMap(lines, OrderLine)
  }

  /** The pairs of the input in the order `pairs.sort()` leaves them. */
  function SortedPairs(lines: seq<string>): (r: seq<Pair>)
    ensures Sorted(r, LePair)
    ensures multiset(r) == multiset(OrderPairs(lines))
  {
    LePairIsTotalOrder();
    SortSeq(OrderPairs(lines), LePair)
  }

  /** The text `order` writes to its output file. */
  function Order(lines: seq<string>): string
  {
    Render(SortedPairs(lines))
  }

  /** Lines 68-78: collect the pairs of the lines that parse. */
  method ReadPairs(lines: seq<string>) returns (pairs: seq<Pair>)
    ensures pairs == OrderPairs(lines)
    ensures |pairs| <= |lines|
  {
    pairs := [];
    for i := 0 to |lines|
      invariant pairs == OrderPairs(lines[..i])
    {
      assert lines[..i + 1] == lines[..i] + [lines[i]];
      FilterMapConcat(lines[..i], [lines[i]], OrderLine);
      match OrderLine(lines[i])
      case Some(p) => pairs := pairs + [p];
      case None =>
    }
    assert lines[..|lines|] == lines;
  }

  /** Lines 82-85: write every pair, in array order, as one line. */
  method WritePairs(pairs: array<Pair>) returns (output: string)
    ensures output == Render(pairs[..])
  {
    output := "";
    for i := 0 to pairs.Length
      invariant output == Render(pairs[..i])
    {
      assert pairs[..i + 1] == pairs[..i] + [pairs[i]];
      MapConcat(pairs[..i], [pairs[i]], FormatPair);
      assert Map([pairs[i]], FormatPair) == [FormatPair(pairs[i])];
      WriteLinesSnoc(Map(pairs[..i], FormatPair), FormatPair(pairs[i]));
      output := output + FormatPair(pairs[i]) + "\n";
    }
    assert pairs[..pairs.Length] == pairs[..];
  }

  /** `process_files` without the file system: the text written for the
      given input lines. */
  method ProcessFiles(lines: seq<string>) returns (output: string)
    ensures output == Order(lines)
  {
    var pairs := ReadPairs(lines);
    var sorted := new Pair[|pairs|](i requires 0 <= i < |pairs| => pairs[i]);
    assert sorted[..] == pairs;
    LePairIsTotalOrder();
    SortInPlace(sorted, LePair);
    output := WritePairs(sorted);
  }

  /** The digits of a number form one token. */
  lemma DecimalStringIsWord(n: nat)
    ensures IsWord(DecimalString(n)) && IsPlainLine(DecimalString(n))
  {
    var s := DecimalString(n);
    assert forall i :: 0 <= i < |s| ==> IsDigit(s[i]);
  }

  /** Two words joined by a space hold no line break and do not end in a
      carriage return. */
  lemma SpacedWordsArePlain(a: string, b: string)
    requires IsWord(a) && IsWord(b)
    ensures IsPlainLine(a + " " + b)
  {
    var line := a + " " + b;
    forall i | 0 <= i < |line|
      ensures line[i] != '\n'
    {
      if i < |a| { assert line[i] == a[i]; }
      else if i > |a| { assert line[i] == b[i - |a| - 1]; }
    }
    assert line[|line| - 1] == b[|b| - 1];
  }

  /** A written pair line reads back as the same pair. */
  lemma OrderLineOfFormatPair(p: Pair)
    ensures OrderLine(FormatPair(p)) == Some(p)
    ensures IsPlainLine(FormatPair(p))
  {
    var a, b := DecimalString(p.0), DecimalString(p.1);
    DecimalStringIsWord(p.0);
    DecimalStringIsWord(p.1);
    ParseU32OfDecimalString(p.0);
    ParseU32OfDecimalString(p.1);
    ParsePairOfTwoWords(a, b, ParseU32);
    SpacedWordsArePlain(a, b);
  }

  /** Every written line is plain and reads back as its pair. */
  lemma {:induction false} ReadBackFormatted(ps: seq<Pair>)
    ensures forall i :: 0 <= i < |Map(ps, FormatPair)| ==> IsPlainLine(Map(ps, FormatPair)[i])
    ensures FilterMap(Map(ps, FormatPair), OrderLine) == ps
  {
    if ps != [] {
      ReadBackFormatted(ps[1..]);
      OrderLineOfFormatPair(ps[0]);
      var lines := Map(ps, FormatPair);
      assert lines == [FormatPair(ps[0])] + Map(ps[1..], FormatPair);
      assert lines[1..] == Map(ps[1..], FormatPair);
      assert ps == [ps[0]] + ps[1..];
    }
  }

  /** The output holds exactly one line per parsed pair, in sorted order, and
      nothing else. */
  lemma OrderOutputLines(lines: seq<string>)
    ensures ReadLines(Order(lines)) == Map(SortedPairs(lines), FormatPair)
    ensures |ReadLines(Order(lines))| == |OrderPairs(lines)|
  {
    ReadBackFormatted(SortedPairs(lines));
    ReadLinesOfWriteLines(Map(SortedPairs(lines), FormatPair));
    assert |multiset(SortedPairs(lines))| == |multiset(OrderPairs(lines))|;
  }

  /** Read back as pairs, the output is sorted and is a permutation of the
      pairs parsed from the input. */
  lemma OrderOutputIsSortedPermutation(lines: seq<string>)
    ensures Sorted(OrderPairs(ReadLines(Order(lines))), LePair)
    ensures multiset(OrderPairs(ReadLines(Order(lines)))) == multiset(OrderPairs(lines))
  {
    OrderOutputLines(lines);
    ReadBackFormatted(SortedPairs(lines));
  }

  /** Running `order` on its own output writes the same text again. */
  lemma OrderIdempotent(lines: seq<string>)
    ensures Order(ReadLines(Order(lines))) == Order(lines)
  {
    var sorted := SortedPairs(lines);
    OrderOutputLines(lines);
    ReadBackFormatted(sorted);
    assert OrderPairs(ReadLines(Order(lines))) == sorted;
    LePairIsTotalOrder();
    SortSeqOfSorted(sorted, LePair);
  }

  /** The output does not depend on the order of the input lines. */
  lemma OrderPermutationInvariant(lines1: seq<string>, lines2: seq<string>)
    requires multiset(lines1) == multiset(lines2)
    ensures Order(lines1) == Order(lines2)
  {
    FilterMapPermutation(lines1, lines2, OrderLine);
    LePairIsTotalOrder();
    SortSeqOfPermutation(OrderPairs(lines1), OrderPairs(lines2), LePair);
  }
}
