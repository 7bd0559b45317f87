/**
 * The race-summary document's greedy word wrapper `wrapText`. The font's
 * `widthOfTextAtSize(text, fontSize)` at the fixed size is the parameter `width`.
 */
module Pdf {
  import opened JsText
  import opened Lists

  /** The words of one line: `line.split(" ")`. */
  function LineWords(line: string): seq<string> {
    SplitOn(line, ' ')
  }

  /** The words held so far in the line under construction; the empty line holds none. */
  function PendingWords(current: string): seq<string> {
    if current == [] then [] else LineWords(current)
  }

  /**
   * The line `line` was closed before `next` for want of room: either it is already too wide
   * by itself, or adding the first word of `next` would have made it too wide.
   */
  predicate ClosedForRoom(width: string -> real, maxWidth: real, line: string, next: string) {
    width(line) > maxWidth || width(line + " " + LineWords(next)[0]) > maxWidth
  }

  /**
   * What holds of the lines closed so far and of the line under construction once the words
   * `done` have been placed: together they hold exactly those words, no closed line is empty,
   * every line of two or more words fits, and every line was closed for want of room.
   */
  ghost predicate Wrapped(width: string -> real, maxWidth: real, lines: seq<string>, current: string, done: seq<string>) {
    && Flatten(Map(lines, LineWords)) + PendingWords(current) == done
    && (forall k :: 0 <= k < |lines| ==> lines[k] != [])
    && (forall k :: 0 <= k < |lines| && |LineWords(lines[k])| >= 2 ==> width(lines[k]) <= maxWidth)
    && (|PendingWords(current)| >= 2 ==> width(current) <= maxWidth)
    && (forall k :: 0 <= k < |lines| - 1 ==> ClosedForRoom(width, maxWidth, lines[k], lines[k + 1]))
    && (lines != [] && current != [] ==> ClosedForRoom(width, maxWidth, lines[|lines| - 1], current))
    && (lines != [] && current == [] ==> width(lines[|lines| - 1]) > maxWidth)
    && |lines| + (if current == [] then 0 else 1) <= |done|
    && (done != [] ==> lines != [] || current != [])
  }

  /**
   * `wrapText`: breaks the white-space separated words of `text` into lines, greedily adding
   * words to the current line while it fits in `maxWidth`. A word too wide by itself gets a
   * line of its own.
   */
  method WrapText(text: string, width: string -> real, maxWidth: real) returns (lines: seq<string>)
    ensures lines == [] <==> Words(text) == []
    ensures forall k :: 0 <= k < |lines| ==> lines[k] != []
    ensures Flatten(Map(lines, LineWords)) == Words(text)
    ensures forall k :: 0 <= k < |lines| && |LineWords(lines[k])| >= 2 ==> width(lines[k]) <= maxWidth
    ensures forall k :: 0 <= k < |lines| && width(lines[k]) > maxWidth ==> |LineWords(lines[k])| == 1
    ensures forall k :: 0 <= k < |lines| - 1 ==> ClosedForRoom(width, maxWidth, lines[k], lines[k + 1])
    ensures |lines| <= |Words(text)|
  {
    var words := Words(text);
    if |words| == 0 {
      return [];
    }
    WordsHaveNoSpaceChar(words);
    lines := WrapWords(words, width, maxWidth);
  }

  /** A text has no words, and so no lines, exactly when it is blank. */
  lemma NoWordsIffBlank(text: string)
    ensures Words(text) == [] <==> forall i :: 0 <= i < |text| ==> IsSpace(text[i])
  {
    var t := TrimStart(text);
    TrimStartSuffix(text);
    if t != [] {
      assert t[0] == text[|text| - |t|];
    }
  }

  /** The loop of `wrapText` over the words of the text. */
  method WrapWords(words: seq<string>, width: string -> real, maxWidth: real) returns (lines: seq<string>)
    requires words != [] && forall k :: 0 <= k < |words| ==> words[k] != [] && ' ' !in words[k]
    ensures lines != [] && |lines| <= |words|
    ensures forall k :: 0 <= k < |lines| ==> lines[k] != []
    ensures Flatten(Map(lines, LineWords)) == words
    ensures forall k :: 0 <= k < |lines| && |LineWords(lines[k])| >= 2 ==> width(lines[k]) <= maxWidth
    ensures forall k :: 0 <= k < |lines| && width(lines[k]) > maxWidth ==> |LineWords(lines[k])| == 1
    ensures forall k :: 0 <= k < |lines| - 1 ==> ClosedForRoom(width, maxWidth, lines[k], lines[k + 1])
  {
    lines := [];
    var current := "";
    for i := 0 to |words|
      invariant Wrapped(width, maxWidth, lines, current, words[..i])
    {
      WordHasNoSpace(words, i);
      TakeSnoc(words, i);
      lines, current := PlaceWord(width, maxWidth, lines, current, words[i], words[..i], words[..i + 1]);
    }
    TakeAll(words);
    var result := if current == [] then lines else lines + [current];
    Finished(width, maxWidth, lines, current, words, result);
    SingleWordLines(result, width, maxWidth);
    lines := result;
  }

  /**
   * One turn of the loop of `wrapText`: the word joins the current line if the line is empty or
   * still fits with it; otherwise the current line is closed and the word starts the next one,
   * which is closed at once when the word alone is too wide.
   */
  method PlaceWord(width: string -> real, maxWidth: real, lines: seq<string>, current: string, word: string,
                   ghost done: seq<string>, ghost done': seq<string>)
    returns (lines': seq<string>, current': string)
    requires Wrapped(width, maxWidth, lines, current, done) && done' == done + [word]
    requires word != [] && ' ' !in word && LineWords(word) == [word]
    ensures Wrapped(width, maxWidth, lines', current', done')
  {
    var candidate := if |current| > 0 then current + " " + word else word;
    if width(candidate) <= maxWidth || |current| == 0 {
      ExtendStep(width, maxWidth, lines, current, word, done);
      return lines, candidate;
    }
    BreakStep(width, maxWidth, lines, current, word, done);
    lines', current' := lines + [current], word;
    if width(current') > maxWidth {
      CloseStep(width, maxWidth, lines', current', done + [word]);
      lines', current' := lines' + [current'], "";
    }
  }

  /** The word joins the line under construction. */
  lemma ExtendStep(width: string -> real, maxWidth: real, lines: seq<string>, current: string, word: string, done: seq<string>)
    requires Wrapped(width, maxWidth, lines, current, done)
    requires word != [] && ' ' !in word && LineWords(word) == [word]
    requires var candidate := if |current| > 0 then current + " " + word else word;
      width(candidate) <= maxWidth || current == []
    ensures Wrapped(width, maxWidth, lines, if |current| > 0 then current + " " + word else word, done + [word])
  {
    ExtendLine(current, word);
  }

  /** The line under construction is closed for want of room, and the word starts the next one. */
  lemma BreakStep(width: string -> real, maxWidth: real, lines: seq<string>, current: string, word: string, done: seq<string>)
    requires Wrapped(width, maxWidth, lines, current, done)
    requires word != [] && LineWords(word) == [word]
    requires current != [] && width(current + " " + word) > maxWidth
    ensures Wrapped(width, maxWidth, lines + [current], word, done + [word])
  {
    PushLine(lines, current);
  }

  /** A line too wide by itself is closed at once; the next line starts empty. */
  lemma CloseStep(width: string -> real, maxWidth: real, lines: seq<string>, current: string, done: seq<string>)
    requires Wrapped(width, maxWidth, lines, current, done)
    requires current != [] && width(current) > maxWidth
    ensures Wrapped(width, maxWidth, lines + [current], "", done)
  {
    PushLine(lines, current);
  }

  /** Closing the last line, if any, yields what `wrapText` promises. */
  lemma Finished(width: string -> real, maxWidth: real, lines: seq<string>, current: string, words: seq<string>,
                 result: seq<string>)
    requires Wrapped(width, maxWidth, lines, current, words) && words != []
    requires result == if current == [] then lines else lines + [current]
    ensures result != [] && |result| <= |words|
    ensures forall k :: 0 <= k < |result| ==> result[k] != []
    ensures Flatten(Map(result, LineWords)) == words
    ensures forall k :: 0 <= k < |result| && |LineWords(result[k])| >= 2 ==> width(result[k]) <= maxWidth
    ensures forall k :: 0 <= k < |result| - 1 ==> ClosedForRoom(width, maxWidth, result[k], result[k + 1])
  {
    if current != [] {
      PushLine(lines, current);
      FinishedLines(width, maxWidth, lines, current);
    }
  }

  lemma FinishedLines(width: string -> real, maxWidth: real, lines: seq<string>, current: string)
    requires current != []
    requires forall k :: 0 <= k < |lines| ==> lines[k] != []
    requires forall k :: 0 <= k < |lines| && |LineWords(lines[k])| >= 2 ==> width(lines[k]) <= maxWidth
    requires |PendingWords(current)| >= 2 ==> width(current) <= maxWidth
    requires forall k :: 0 <= k < |lines| - 1 ==> ClosedForRoom(width, maxWidth, lines[k], lines[k + 1])
    requires lines != [] ==> ClosedForRoom(width, maxWidth, lines[|lines| - 1], current)
    ensures var result := lines + [current];
      && (forall k :: 0 <= k < |result| ==> result[k] != [])
      && (forall k :: 0 <= k < |result| && |LineWords(result[k])| >= 2 ==> width(result[k]) <= maxWidth)
      && (forall k :: 0 <= k < |result| - 1 ==> ClosedForRoom(width, maxWidth, result[k], result[k + 1]))
  {
  }

  /** The words of a text hold no space character. */
  lemma WordsHaveNoSpaceChar(words: seq<string>)
    requires forall k :: 0 <= k < |words| ==> words[k] != [] && NoSpace(words[k])
    ensures forall k :: 0 <= k < |words| ==> words[k] != [] && ' ' !in words[k]
  {
    assert IsSpace(' ');
  }

  /** A word is a line of one word. */
  lemma WordHasNoSpace(words: seq<string>, i: nat)
    requires i < |words| && forall k :: 0 <= k < |words| ==> words[k] != [] && ' ' !in words[k]
    ensures words[i] != [] && ' ' !in words[i] && LineWords(words[i]) == [words[i]]
  {
    SplitOnNoSep(words[i], ' ');
  }

  /** Appending a word to the line under construction appends it to the line's words. */
  lemma ExtendLine(current: string, word: string)
    requires word != [] && ' ' !in word && LineWords(word) == [word]
    ensures var candidate := if |current| > 0 then current + " " + word else word;
      PendingWords(candidate) == PendingWords(current) + [word] &&
      (current != [] ==> LineWords(candidate)[0] == LineWords(current)[0])
  {
    if current != [] {
      SplitOnSnoc(current, word, ' ');
    }
  }

  /** Closing a non-empty line moves its words from the pending ones to the finished ones. */
  lemma PushLine(lines: seq<string>, current: string)
    requires current != []
    ensures Flatten(Map(lines + [current], LineWords)) == Flatten(Map(lines, LineWords)) + PendingWords(current)
  {
    MapSnoc(lines, current, LineWords);
    assert (Map(lines, LineWords) + [LineWords(current)])[..|lines|] == Map(lines, LineWords);
  }

  /** A line of two or more words fits, so a line that does not fit has one word. */
  lemma SingleWordLines(lines: seq<string>, width: string -> real, maxWidth: real)
    requires forall k :: 0 <= k < |lines| && |LineWords(lines[k])| >= 2 ==> width(lines[k]) <= maxWidth
    ensures forall k :: 0 <= k < |lines| && width(lines[k]) > maxWidth ==> |LineWords(lines[k])| == 1
  {
  }

  /** Splitting `a + [sep] + b`, where `b` has no separator, gives the parts of `a` and then `b`. */
  lemma {:induction false} SplitOnSnoc(a: string, b: string, sep: char)
    requires sep !in b
    ensures SplitOn(a + [sep] + b, sep) == SplitOn(a, sep) + [b]
  {
    if a == [] {
      assert a + [sep] + b == [sep] + b;
      SplitOnNoSep(b, sep);
    } else {
      assert (a + [sep] + b)[1..] == a[1..] + [sep] + b;
      SplitOnSnoc(a[1..], b, sep);
    }
  }
}
