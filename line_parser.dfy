/** The per-line parse shared by both subcommands: split on whitespace and
    accept the line only when it has exactly two tokens that both parse. */
module LineParser {

  import opened Wrappers
  import opened Text

  /** The pair a line contributes, if any, with `parse` standing for
      `str::parse` in the subcommand's integer domain. */
  function ParsePair<T>(line: string, parse: string -> Option<T>): (r: Option<(T, T)>)
    ensures r.Some? <==> |Words(line)| == 2 && parse(Words(line)[0]).Some? && parse(Words(line)[1]).Some?
    ensures r.Some? ==> r.value == (parse(Words(line)[0]).value, parse(Words(line)[1]).value)
  {
    var parts := Words(line);
    if |parts| == 2 && parse(parts[0]).Some? && parse(parts[1]).Some? then
      Some((parse(parts[0]).value, parse(parts[1]).value))
    else
      None
  }

  /** Two tokens joined by a single space give the pair of their parses. */
  lemma ParsePairOfTwoWords<T>(a: string, b: string, parse: string -> Option<T>)
    requires IsWord(a) && IsWord(b)
    ensures ParsePair(a + " " + b, parse) ==
      if parse(a).Some? && parse(b).Some? then Some((parse(a).value, parse(b).value)) else None
  {
    WordsOfJoinWords([a, b]);
    assert JoinWords([a, b]) == a + " " + b by {
      assert [a, b][1..] == [b];
    }
  }

  /** A line of two tokens reads the same whatever whitespace surrounds and
      separates them: it gives the pair of their parses, or nothing when
      either one does not parse. */
  lemma ParsePairOfSeparatedWords<T>(w0: string, a: string, w1: string, b: string, w2: string,
                                     parse: string -> Option<T>)
    requires AllWhitespace(w0) && AllWhitespace(w1) && w1 != [] && AllWhitespace(w2)
    requires IsWord(a) && IsWord(b)
    ensures ParsePair(w0 + a + w1 + b + w2, parse) ==
      if parse(a).Some? && parse(b).Some? then Some((parse(a).value, parse(b).value)) else None
  {
    assert w0 + a + w1 + b + w2 == w0 + (a + w1 + (b + w2));
    WordsAfterWhitespace(w0, a + w1 + (b + w2));
    WordsAfterSeparatedWord(a, w1, b + w2);
    WordsAfterWord(b, w2);
    WordsOfBlank(w2);
  }

  /** A blank line gives no pair. */
  lemma ParsePairOfBlank<T>(line: string, parse: string -> Option<T>)
    requires AllWhitespace(line)
    ensures ParsePair(line, parse) == None
  {
    WordsOfBlank(line);
  }

  /** A line of a single token gives no pair, even when the token parses. */
  lemma ParsePairOfOneWord<T>(w0: string, a: string, w1: string, parse: string -> Option<T>)
    requires AllWhitespace(w0) && IsWord(a) && AllWhitespace(w1)
    ensures ParsePair(w0 + a + w1, parse) == None
  {
    assert w0 + a + w1 == w0 + (a + w1);
    WordsAfterWhitespace(w0, a + w1);
    WordsAfterWord(a, w1);
    WordsOfBlank(w1);
  }

  /** A line of three or more tokens gives no pair, even when they all parse. */
  lemma ParsePairOfThreeWords<T>(w0: string, a: string, w1: string, b: string, w2: string,
                                 c: string, rest: string, parse: string -> Option<T>)
    requires AllWhitespace(w0) && AllWhitespace(w1) && w1 != [] && AllWhitespace(w2) && w2 != []
    requires IsWord(a) && IsWord(b) && IsWord(c)
    requires rest == [] || IsWhitespace(rest[0])
    ensures ParsePair(w0 + a + w1 + b + w2 + c + rest, parse) == None
  {
    assert w0 + a + w1 + b + w2 + c + rest == w0 + (a + w1 + (b + w2 + (c + rest)));
    WordsAfterWhitespace(w0, a + w1 + (b + w2 + (c + rest)));
    WordsAfterSeparatedWord(a, w1, b + w2 + (c + rest));
    WordsAfterSeparatedWord(b, w2, c + rest);
    WordsAfterWord(c, rest);
  }

  /** Conversely, a line that gives a pair is two tokens that both parse,
      surrounded and separated by whitespace. */
  lemma ParsePairShape<T>(line: string, parse: string -> Option<T>)
      returns (w0: string, a: string, w1: string, b: string, w2: string)
    requires ParsePair(line, parse).Some?
    ensures AllWhitespace(w0) && AllWhitespace(w1) && w1 != [] && AllWhitespace(w2)
    ensures IsWord(a) && IsWord(b) && line == w0 + a + w1 + b + w2
    ensures parse(a).Some? && parse(b).Some?
    ensures ParsePair(line, parse) == Some((parse(a).value, parse(b).value))
  {
    a, b := Words(line)[0], Words(line)[1];
    w0, w1, w2 := TwoWordsShape(line);
  }
}
