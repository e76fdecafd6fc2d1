/** Character-level text handling used by the order tool: splitting a line into
    whitespace-separated tokens (`str::split_whitespace`), splitting a text into
    lines (`BufRead::lines`) and writing newline-terminated lines (`writeln!`). */
module Text {

  /** Rust's `char::is_whitespace`: the characters with the Unicode White_Space
      property (U+0009..U+000D, U+0020, U+0085, U+00A0, U+1680, U+2000..U+200A,
      U+2028, U+2029, U+202F, U+205F, U+3000). */
  predicate IsWhitespace(c: char)
  {
    || ('\t' <= c <= '\r')
    || c == ' '
    || c == '\U{0085}'
    || c == '\U{00A0}'
    || c == '\U{1680}'
    || ('\U{2000}' <= c <= '\U{200A}')
    || c == '\U{2028}'
    || c == '\U{2029}'
    || c == '\U{202F}'
    || c == '\U{205F}'
    || c == '\U{3000}'
  }

  predicate IsNewline(c: char)
  {
    c == '\n'
  }

  /** A token of `split_whitespace`: non-empty and free of whitespace. */
  predicate IsWord(w: string)
  {
    w != [] && forall i :: 0 <= i < |w| ==> !IsWhitespace(w[i])
  }

  /** A run of separators: nothing but whitespace, possibly empty. */
  predicate AllWhitespace(w: string)
  {
    forall i :: 0 <= i < |w| ==> IsWhitespace(w[i])
  }

  /** The length of the longest prefix of `s` that contains no character
      satisfying `stop`. */
  function SpanUntil(s: string, stop: char -> bool): (n: nat)
    ensures n <= |s|
    ensures forall i :: 0 <= i < n ==> !stop(s[i])
    ensures n == |s| || stop(s[n])
  {
    if s == [] || stop(s[0]) then 0 else 1 + SpanUntil(s[1..], stop)
  }

  /** `s.split_whitespace().collect()`: the maximal runs of non-whitespace
      characters of `s`, in order. */
  function Words(s: string): (ws: seq<string>)
    ensures forall i :: 0 <= i < |ws| ==> IsWord(ws[i])
    decreases |s|
  {
    if s == [] then []
    else if IsWhitespace(s[0]) then Words(s[1..])
    else
      var n := SpanUntil(s, IsWhitespace);
      [s[..n]] + Words(s[n..])
  }

  /** The words separated by single spaces. */
  function JoinWords(ws: seq<string>): string
  {
    if |ws| == 0 then ""
    else if |ws| == 1 then ws[0]
    else ws[0] + " " + JoinWords(ws[1..])
  }

  /** Removes the `'\r'` of a CRLF line ending. */
  function StripCarriageReturn(line: string): string
  {
    if line != [] && line[|line| - 1] == '\r' then line[..|line| - 1] else line
  }

  /** `BufRead::lines` on a text: the pieces between `'\n'` characters, each
      without its `'\n'` and without a `'\r'` that directly precedes it; a final
      piece with no `'\n'` after it is a line only when it is not empty. */
  function ReadLines(text: string): (lines: seq<string>)
    ensures forall i :: 0 <= i < |lines| ==> '\n' !in lines[i]
    decreases |text|
  {
    if text == [] then []
    else
      var k := SpanUntil(text, IsNewline);
      if k == |text| then [text]
      else [StripCarriageReturn(text[..k])] + ReadLines(text[k + 1..])
  }

  /** Repeated `writeln!`: every line followed by `'\n'`. */
  function WriteLines(lines: seq<string>): string
  {
    if lines == [] then "" else lines[0] + "\n" + WriteLines(lines[1..])
  }

  /** A line that `ReadLines` gives back unchanged once written. */
  predicate IsPlainLine(line: string)
  {
    '\n' !in line && (line == [] || line[|line| - 1] != '\r')
  }

  /** A prefix free of stop characters, followed by a stop character or by
      nothing, is exactly the span. */
  lemma {:induction false} SpanUntilAfter(w: string, t: string, stop: char -> bool)
    requires forall i :: 0 <= i < |w| ==> !stop(w[i])
    requires t == [] || stop(t[0])
    ensures SpanUntil(w + t, stop) == |w|
    decreases |w|
  {
    if w == [] {
      assert w + t == t;
    } else {
      assert (w + t)[0] == w[0];
      assert (w + t)[1..] == w[1..] + t;
      SpanUntilAfter(w[1..], t, stop);
    }
  }

  /** A word followed by nothing or by whitespace is the first token. */
  lemma WordsAfterWord(w: string, rest: string)
    requires IsWord(w)
    requires rest == [] || IsWhitespace(rest[0])
    ensures Words(w + rest) == [w] + Words(rest)
  {
    var s := w + rest;
    SpanUntilAfter(w, rest, IsWhitespace);
    assert s[..|w|] == w && s[|w|..] == rest;
  }

  /** Leading whitespace produces no token. */
  lemma {:induction false} WordsAfterWhitespace(w: string, s: string)
    requires AllWhitespace(w)
    ensures Words(w + s) == Words(s)
    decreases |w|
  {
    if w == [] {
      assert w + s == s;
    } else {
      assert (w + s)[0] == w[0];
      assert (w + s)[1..] == w[1..] + s;
      WordsAfterWhitespace(w[1..], s);
    }
  }

  /** A line of nothing but whitespace has no tokens. */
  lemma WordsOfBlank(w: string)
    requires AllWhitespace(w)
    ensures Words(w) == []
  {
    WordsAfterWhitespace(w, "");
    assert w + "" == w;
  }

  /** A text without tokens is nothing but whitespace. */
  lemma {:induction false} BlankOfNoWords(s: string)
    requires Words(s) == []
    ensures AllWhitespace(s)
    decreases |s|
  {
    if s != [] {
      assert IsWhitespace(s[0]);
      BlankOfNoWords(s[1..]);
      assert forall i :: 1 <= i < |s| ==> s[i] == s[1..][i - 1];
    }
  }

  /** A word, at least one whitespace character, then more text: the word is
      the first token and the rest is split on its own. */
  lemma WordsAfterSeparatedWord(w: string, sep: string, s: string)
    requires IsWord(w) && AllWhitespace(sep) && sep != []
    ensures Words(w + sep + s) == [w] + Words(s)
  {
    assert w + sep + s == w + (sep + s);
    assert (sep + s)[0] == sep[0];
    WordsAfterWord(w, sep + s);
    WordsAfterWhitespace(sep, s);
  }

  /** A text that starts with a token splits into that token and a rest that
      starts with whitespace and holds the other tokens. */
  lemma LeadingWord(s: string) returns (rest: string)
    requires s != [] && !IsWhitespace(s[0])
    ensures Words(s) != [] && s == Words(s)[0] + rest
    ensures rest == [] || IsWhitespace(rest[0])
    ensures Words(rest) == Words(s)[1..]
  {
    var n := SpanUntil(s, IsWhitespace);
    rest := s[n..];
    assert Words(s) == [s[..n]] + Words(rest);
    assert s == s[..n] + rest;
    assert rest != [] ==> rest[0] == s[n];
  }

  /** Any text with a token splits into leading whitespace, the first token,
      and a rest that starts with whitespace and holds the other tokens. */
  lemma {:induction false} FirstWord(s: string) returns (lead: string, rest: string)
    requires Words(s) != []
    ensures AllWhitespace(lead) && s == lead + Words(s)[0] + rest
    ensures rest == [] || IsWhitespace(rest[0])
    ensures Words(rest) == Words(s)[1..]
    decreases |s|
  {
    if IsWhitespace(s[0]) {
      assert Words(s) == Words(s[1..]);
      var lead', rest' := FirstWord(s[1..]);
      lead, rest := [s[0]] + lead', rest';
      assert s == [s[0]] + (lead' + Words(s)[0] + rest');
    } else {
      lead := "";
      rest := LeadingWord(s);
    }
  }

  /** A text of exactly two tokens is leading whitespace, the first token, at
      least one whitespace character, the second token and trailing
      whitespace. */
  lemma TwoWordsShape(s: string) returns (w0: string, w1: string, w2: string)
    requires |Words(s)| == 2
    ensures AllWhitespace(w0) && AllWhitespace(w1) && w1 != [] && AllWhitespace(w2)
    ensures s == w0 + Words(s)[0] + w1 + Words(s)[1] + w2
  {
    var a, b := Words(s)[0], Words(s)[1];
    var rest1, rest2;
    w0, rest1 := FirstWord(s);
    assert Words(rest1) == [b];
    w1, rest2 := FirstWord(rest1);
    assert Words(rest2) == [];
    BlankOfNoWords(rest2);
    w2 := rest2;
    assert IsWord(b);
    assert rest1 == w1 + b + rest2 && rest1[|w1|] == b[0];
  }

  /** Splitting words joined by single spaces gives the words back. */
  lemma {:induction false} WordsOfJoinWords(ws: seq<string>)
    requires forall i :: 0 <= i < |ws| ==> IsWord(ws[i])
    ensures Words(JoinWords(ws)) == ws
  {
    if |ws| == 1 {
      WordsAfterWord(ws[0], "");
      assert ws[0] + "" == ws[0];
    } else if |ws| > 1 {
      var tail := JoinWords(ws[1..]);
      WordsAfterWord(ws[0], " " + tail);
      assert ws[0] + " " + tail == ws[0] + (" " + tail);
      assert (" " + tail)[1..] == tail;
      WordsOfJoinWords(ws[1..]);
      assert ws == [ws[0]] + ws[1..];
    }
  }

  /** A plain line followed by `'\n'` is read as that line, then the rest. */
  lemma ReadLinesAfterLine(line: string, rest: string)
    requires IsPlainLine(line)
    ensures ReadLines(line + "\n" + rest) == [line] + ReadLines(rest)
  {
    var text := line + "\n" + rest;
    assert text == line + ("\n" + rest);
    assert forall i :: 0 <= i < |line| ==> !IsNewline(line[i]);
    SpanUntilAfter(line, "\n" + rest, IsNewline);
    assert text[..|line|] == line;
    assert text[|line| + 1..] == rest;
  }

  /** Reading back written lines gives the lines, provided none of them holds a
      newline or ends in a carriage return. */
  lemma {:induction false} ReadLinesOfWriteLines(lines: seq<string>)
    requires forall i :: 0 <= i < |lines| ==> IsPlainLine(lines[i])
    ensures ReadLines(WriteLines(lines)) == lines
  {
    if lines != [] {
      ReadLinesAfterLine(lines[0], WriteLines(lines[1..]));
      ReadLinesOfWriteLines(lines[1..]);
      assert lines == [lines[0]] + lines[1..];
    }
  }

  /** Writing one more line appends it and its newline to the text. */
  lemma {:induction false} WriteLinesSnoc(lines: seq<string>, line: string)
    ensures WriteLines(lines + [line]) == WriteLines(lines) + line + "\n"
  {
    if lines != [] {
      assert (lines + [line])[1..] == lines[1..] + [line];
      WriteLinesSnoc(lines[1..], line);
    }
  }
}
