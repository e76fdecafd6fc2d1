# Order tool — a Dafny model

The order tool is a small command-line program. It reads a text file where
each line should hold two whitespace-separated integers, and it has two
subcommands:

- `order` (`process_files`) reads every line as a pair of `u32`, ignores
  lines that are not exactly two tokens which both parse, sorts the pairs
  (Rust's tuple order: by the first value, ties by the second) and writes
  each pair as `"<a> <b>\n"` to an output file.
- `distance` (`calculate_total_distance`) reads every line as a pair of
  `i32` with the same rules, puts the first values in a left list and the
  second values in a right list, sorts each list on its own, and returns the
  sum of `|left[i] - right[i]|` over the pairs that `zip` forms.

The model takes the input as the sequence of lines (`seq<string>`), or as
the raw text split by `Text.ReadLines`. Each subcommand's result is a
function of those lines:

- `OrderProcessor.Order` is the text (a `string`) that `order` writes.
- `DistanceProcessor.Distance` is the integer (an `int`) that `distance`
  returns.

The loops of the source are methods proved against these functions:

- `OrderProcessor.ReadPairs`, `WritePairs` and `ProcessFiles`;
- `DistanceProcessor.ReadColumns`, `SortColumn` and
  `CalculateTotalDistance`.

Both sorts run `Sorting.SortInPlace`, an in-place sort on an `array`.

Modules:

- `Wrappers`: `Option`.
- `Text`: `split_whitespace` over Rust's Unicode `char::is_whitespace`, plus
  `BufRead::lines` and repeated `writeln!`.
- `Numerals`: `str::parse::<u32>`, `str::parse::<i32>` and the `Display`
  form of integers.
- `Sequences`: the `filter`/`map` shape of the loops, and their behaviour
  under concatenation and permutation.
- `Sorting`: total orders, a reference insertion sort on sequences, the
  uniqueness of a sorted permutation, and the in-place array sort.
- `LineParser`: the per-line rule the two subcommands share.
- `OrderProcessor` and `DistanceProcessor`: the two subcommands.
- `Scenarios`: worked inputs computed through the model.

Integer parsing follows `from_str_radix` with radix 10:

- one optional leading `+`; for `i32` it may be a `-` instead;
- at least one ASCII digit and nothing else;
- then a range check.

The source's sort is a stable merge sort. The model sorts by insertion
instead. Under a total order there is exactly one sorted permutation of a
sequence (`Sorting.SortedUnique`), so both sorts give the same result.

## Model

| member | source | states |
|---|---|---|
| Text.IsWhitespace | 1-order_tool/src/main.rs:72 | the separator set of `split_whitespace`: exactly the Unicode White_Space characters that `char::is_whitespace` accepts; `Text.Words`, `Text.WordsAfterWhitespace` and `Text.BlankOfNoWords` state how it splits a line |
| Text.Words | 1-order_tool/src/main.rs:72 | every token of `split_whitespace` is non-empty and free of Unicode whitespace |
| Text.WordsOfJoinWords | 1-order_tool/src/main.rs:72 | splitting words joined by single spaces gives back exactly those words |
| Text.WordsAfterWhitespace | 1-order_tool/src/main.rs:72 | whitespace before a text adds no token |
| Text.BlankOfNoWords | 1-order_tool/src/main.rs:72 | a text with no tokens is nothing but whitespace |
| Text.TwoWordsShape | 1-order_tool/src/main.rs:72-73 | a text with exactly two tokens is whitespace, the first token, at least one whitespace character, the second token, then whitespace |
| Text.WriteLines | 1-order_tool/src/main.rs:83-84 | repeated `writeln!`: each line followed by `'\n'`; `Text.ReadLinesOfWriteLines` and `Text.WriteLinesSnoc` state its properties |
| Text.ReadLines | 1-order_tool/src/main.rs:70 | no line yielded by `lines()` contains a `'\n'` |
| Text.ReadLinesOfWriteLines | 1-order_tool/src/main.rs:83-84 | reading the lines of text written line by line with `writeln!` gives back the lines, when none holds `'\n'` or ends in `'\r'` |
| Numerals.ParseU32 | 1-order_tool/src/main.rs:74 | `str::parse::<u32>`: an optional `+`, then one or more ASCII digits whose value is at most `u32::MAX`; the lemmas `Numerals.ParseU32OfDecimalString`, `ParseU32OutOfRange` and `ParseU32RejectsMinus` state what it accepts and rejects |
| Numerals.ParseI32 | 1-order_tool/src/main.rs:102 | `str::parse::<i32>`: an optional `+` or `-`, then one or more ASCII digits whose signed value lies in `i32::MIN..=i32::MAX`; the lemmas `Numerals.ParseI32OfSignedDecimalString`, `ParseI32OutOfRange` and `ParseI32AgreesWithU32` state what it accepts and rejects |
| Numerals.DecimalString | 1-order_tool/src/main.rs:84 | the `Display` text is a non-empty string of digits with no leading zero |
| Numerals.DigitsValueOfDecimalString | 1-order_tool/src/main.rs:84 | the digits written for `n` denote `n` |
| Numerals.ParseU32OfDecimalString | 1-order_tool/src/main.rs:74 | `parse::<u32>` of a printed `u32` is that value |
| Numerals.ParseU32OutOfRange | 1-order_tool/src/main.rs:74 | a number above `u32::MAX`, with or without `+`, does not parse as `u32` |
| Numerals.ParseU32RejectsMinus | 1-order_tool/src/main.rs:74 | a string starting with `-` never parses as `u32` |
| Numerals.ParseI32OfSignedDecimalString | 1-order_tool/src/main.rs:102 | `parse::<i32>` of a printed `i32`, negative ones included, is that value |
| Numerals.ParseI32OutOfRange | 1-order_tool/src/main.rs:102 | a number outside `i32::MIN..=i32::MAX` does not parse as `i32` |
| Numerals.ParseI32AgreesWithU32 | 1-order_tool/src/main.rs:74-102 | without a leading `-`, `i32` accepts exactly the `u32` texts whose value is at most `i32::MAX`, with the same value |
| LineParser.ParsePair | 1-order_tool/src/main.rs:72-74 | the per-line rule, defined on the tokens of the line; the lemmas below state it in terms of the line's shape |
| LineParser.ParsePairOfTwoWords | 1-order_tool/src/main.rs:72-74 | two tokens joined by a space give the pair of their parses, and no pair when either one fails |
| LineParser.ParsePairOfSeparatedWords | 1-order_tool/src/main.rs:72-74 | two tokens with any whitespace before, between and after them give the pair of their parses, and no pair when either one fails |
| LineParser.ParsePairOfBlank | 1-order_tool/src/main.rs:73 | an empty or all-whitespace line gives no pair |
| LineParser.ParsePairOfOneWord | 1-order_tool/src/main.rs:73 | a line of one token gives no pair, even when the token parses |
| LineParser.ParsePairOfThreeWords | 1-order_tool/src/main.rs:73 | a line of three or more tokens gives no pair, even when they all parse |
| LineParser.ParsePairShape | 1-order_tool/src/main.rs:72-75 | conversely, a line that gives a pair is two tokens that both parse, whitespace-separated, and the pair is their two values |
| Sequences.FilterMap | 1-order_tool/src/main.rs:70-78 | the loop keeps at most one value per line |
| Sequences.FilterMapOrigin | 1-order_tool/src/main.rs:74-75 | every kept pair is the parse of some input line |
| Sequences.FilterMapPermutation | 1-order_tool/src/main.rs:70-78 | reordering the lines reorders the kept pairs the same way: the multiset of pairs is unchanged |
| Sequences.MapPermutation | 1-order_tool/src/main.rs:103-104 | permuting the pairs permutes each column the same way |
| Sorting.Insert | 1-order_tool/src/main.rs:80 | inserting into a sorted sequence keeps it sorted and adds exactly the one element |
| Sorting.SortSeq | 1-order_tool/src/main.rs:80 | the reference sort returns a sorted permutation of its input |
| Sorting.SortedUnique | 1-order_tool/src/main.rs:80 | two sorted sequences with the same elements under a total order are equal |
| Sorting.SortSeqOfSorted | 1-order_tool/src/main.rs:80 | sorting an already sorted sequence leaves it unchanged |
| Sorting.SortSeqOfPermutation | 1-order_tool/src/main.rs:80 | the sorted result depends only on the multiset of elements |
| Sorting.InsertLast | 1-order_tool/src/main.rs:80 | one insertion step: a sorted prefix of `i` elements becomes `i + 1` sorted elements, the array's elements stay the same, and the elements after position `i` are untouched |
| Sorting.SortInPlace | 1-order_tool/src/main.rs:80 | after the in-place sort the array is sorted, is a permutation of its old contents, and equals the reference sort of them |
| OrderProcessor.LePair | 1-order_tool/src/main.rs:80 | Rust's `Ord` on `(u32, u32)`: by the first value, ties broken by the second; `OrderProcessor.LePairIsTotalOrder` proves it a total order |
| OrderProcessor.FormatPair | 1-order_tool/src/main.rs:84 | the `"{} {}"` text of a pair; `OrderProcessor.OrderLineOfFormatPair` proves it parses back as the same pair and is a plain line |
| OrderProcessor.Order | 1-order_tool/src/main.rs:61-88 | the text `process_files` writes for the input lines; `OrderProcessor.ProcessFiles` computes it, and `OrderOutputLines`, `OrderOutputIsSortedPermutation`, `OrderIdempotent` and `OrderPermutationInvariant` state its properties |
| OrderProcessor.LePairIsTotalOrder | 1-order_tool/src/main.rs:80 | the tuple order that `sort()` uses on `(u32, u32)` is a total order |
| OrderProcessor.SortedPairs | 1-order_tool/src/main.rs:80 | the pairs after `sort()` are sorted and are a permutation of the parsed pairs |
| OrderProcessor.ReadPairs | 1-order_tool/src/main.rs:68-78 | the loop collects exactly the parsed pairs in file order, at most one per line |
| OrderProcessor.WritePairs | 1-order_tool/src/main.rs:82-85 | the output is every pair, in array order, written as `"<a> <b>\n"` |
| OrderProcessor.ProcessFiles | 1-order_tool/src/main.rs:61-88 | the method writes exactly the text `Order` defines: parsed pairs, sorted, one line each |
| OrderProcessor.DecimalStringIsWord | 1-order_tool/src/main.rs:84 | a printed number is one token and one plain line |
| OrderProcessor.SpacedWordsArePlain | 1-order_tool/src/main.rs:84 | a line written as `"{} {}"` holds no line break and does not end in `'\r'` |
| OrderProcessor.OrderLineOfFormatPair | 1-order_tool/src/main.rs:84 | a written pair line parses back as the same pair |
| OrderProcessor.ReadBackFormatted | 1-order_tool/src/main.rs:83-84 | the written lines are plain and parse back as exactly the written pairs |
| OrderProcessor.OrderOutputLines | 1-order_tool/src/main.rs:80-85 | the output file has one line per parsed pair, in sorted order, and nothing else |
| OrderProcessor.OrderOutputIsSortedPermutation | 1-order_tool/src/main.rs:80-85 | read back, the output pairs are sorted and are a permutation of the input's pairs |
| OrderProcessor.OrderIdempotent | 1-order_tool/src/main.rs:61-88 | running `order` on its own output writes the same text again |
| OrderProcessor.OrderPermutationInvariant | 1-order_tool/src/main.rs:68-85 | the output does not depend on the order of the input lines |
| DistanceProcessor.Distance | 1-order_tool/src/main.rs:90-119 | the value `calculate_total_distance` returns, over mathematical integers; `DistanceProcessor.CalculateTotalDistance` computes it, and `DistancePermutationInvariant` and `DistanceOfEqualPairs` state its properties |
| DistanceProcessor.LeIntIsTotalOrder | 1-order_tool/src/main.rs:109-110 | the order `sort()` uses on `i32` is a total order |
| DistanceProcessor.TotalDistance | 1-order_tool/src/main.rs:112-116 | the sum of absolute differences is non-negative, and it is zero exactly when the lists agree at every position `zip` reaches |
| DistanceProcessor.TotalDistanceSymmetric | 1-order_tool/src/main.rs:112-116 | swapping the two lists does not change the sum |
| DistanceProcessor.SortedColumns | 1-order_tool/src/main.rs:95-110 | both lists are sorted, each is a permutation of its column of parsed pairs, and they have the same length |
| DistanceProcessor.ReadColumns | 1-order_tool/src/main.rs:95-107 | the loop fills the left and right lists with the first and second values of the parsed pairs, in file order; both have the same length, at most the number of lines |
| DistanceProcessor.SortColumn | 1-order_tool/src/main.rs:109-110 | the in-place `sort()` of a list gives the reference sorted permutation |
| DistanceProcessor.CalculateTotalDistance | 1-order_tool/src/main.rs:90-119 | the method returns exactly `Distance` of the lines, which is non-negative |
| DistanceProcessor.DistancePermutationInvariant | 1-order_tool/src/main.rs:95-116 | the distance does not depend on the order of the input lines |
| DistanceProcessor.EqualPairsEqualColumns | 1-order_tool/src/main.rs:103-104 | when every pair has two equal values, the two lists are equal |
| DistanceProcessor.DistanceOfEqualPairs | 1-order_tool/src/main.rs:109-116 | when every parsed pair is `(x, x)` the distance is 0 |
| Scenarios.DigitLine | 1-order_tool/src/main.rs:72-74 | a line `"d e"` of two digits parses as `(d, e)` in both domains, and `"{} {}"` writes it back unchanged |
| Scenarios.NotNumbersLine | 1-order_tool/src/main.rs:73-74 | `"abc def"`, two tokens that are not numbers, gives no pair in either domain |
| Scenarios.OrderScenario | 1-order_tool/src/main.rs:61-88 | the lines `"10 5"`, `"3 8"` are written as `"3 8\n10 5\n"` |
| Scenarios.MalformedLineScenario | 1-order_tool/src/main.rs:72-77 | in `["abc def", "10 5"]` only the second line gives a pair, for both subcommands |
| Scenarios.DigitLines | 1-order_tool/src/main.rs:98-107 | lines of two single digits each give their digit pairs, in order |
| Scenarios.ScenarioTotal | 1-order_tool/src/main.rs:112-116 | the sum for the sorted lists `1 2 3 3 3 4` and `3 3 3 4 5 9` is 11 |
| Scenarios.DistanceScenario | 1-order_tool/src/main.rs:90-119 | the six lines `3 4`, `4 3`, `2 5`, `1 3`, `3 9`, `3 3` have total distance 11 |

## Left out

- `main` and the `clap` command-line definition (lines 6-59) are not modelled. Each subcommand is modelled as a function of the input lines.
- Console messages from `println!`/`eprintln!` (lines 49, 55-56) are not modelled.
- `File::open`, `File::create`, `BufReader` and `?` propagation of I/O errors (lines 62-66, 71, 82, 84, 91-93, 99) are not modelled. That includes a line that is not valid UTF-8, which `lines()` turns into an error. The model starts from lines or text that have already been read.
- `Text.ReadLines` models what the `lines()` iterator yields on text that was read successfully. It is not a model of buffering.
- `Sorting.SortInPlace` is an insertion sort, while `slice::sort` is a stable merge sort. Under a total order the result is the same (`Sorting.SortedUnique`), and stability cannot be observed on plain integers and integer pairs. Running time is not modelled.
- CalculateTotalDistance: computes over mathematical integers. In the source, `left - right`, `abs()` and `sum()` are `i32` operations, which panic in debug builds and wrap in release builds on overflow. That happens, for example, for `i32::MIN` against a positive value, or when the sum exceeds `i32::MAX`. The model's result is the exact sum.
- TotalDistance: over `int` for the same reason; the `i32` overflow behaviour of the subtraction and the sum is not represented.
- Sequences.Map: its contract states only that the length is preserved. The element-wise facts used by the proofs are separate lemmas (`Sequences.MapConcat`, `Sequences.MapElements`).
