/**
 * Line breaking of speech-bubble text (`wrap_text`, nested in
 * `add_speech_bubble`). Words are the tokens of `text.split(' ')`; they are
 * put on the current line while the running length plus the word plus one
 * stays within the width, otherwise the current line is closed and the word
 * starts a new one. A fixed-width chunking follows for a text that came out
 * as one line but is longer than the width; that fallback can never fire.
 */
module BubbleText {
  import opened PyStr

  /** The width the application always wraps at (`width_chars=15`). */
  const BubbleWidth := 15

  /** The loop's variables `lines`, `current_line` and `current_length`. */
  datatype WrapState = WrapState(lines: seq<string>, current: seq<string>, length: int)

  const Start := WrapState([], [], 0)

  /** One iteration of the loop over the words. */
  function Step(st: WrapState, word: string, width: int): WrapState {
    if st.length + |word| + 1 <= width then
      WrapState(st.lines, st.current + [word], st.length + |word| + 1)
    else
      WrapState(st.lines + [Join(st.current)], [word], |word|)
  }

  /** The state after the loop has taken every word of `words`. */
  function Run(words: seq<string>, width: int): WrapState
    decreases |words|
  {
    if words == [] then Start
    else Step(Run(words[..|words| - 1], width), words[|words| - 1], width)
  }

  /** Closing the last line after the loop. */
  function Finish(st: WrapState): seq<string> {
    if st.current != [] then st.lines + [Join(st.current)] else st.lines
  }

  /** The greedy lines of `text`, before the fallback. */
  function Greedy(text: string, width: int): seq<string> {
    Finish(Run(Split(text), width))
  }

  /** The fallback `text[i:i+width]` for `i` in `range(0, len(text), width)`.
      A negative step gives an empty range; a zero step (a `ValueError` in
      Python) also gives no lines here, see WrapFallbackUnreachable. */
  function Chunks(text: string, width: int): seq<string>
    decreases |text|
  {
    if width <= 0 || |text| == 0 then []
    else if |text| <= width then [text]
    else [text[..width]] + Chunks(text[width..], width)
  }

  /** What `wrap_text(text, width)` returns, fallback included. */
  function WrapLines(text: string, width: int): seq<string> {
    var lines := Greedy(text, width);
    if |lines| == 1 && |text| > width then Chunks(text, width) else lines
  }

  /** The current line holds the last words taken, and at least one. */
  ghost predicate CurrentIsSuffix(words: seq<string>, st: WrapState) {
    && st.current != []
    && |st.current| <= |words|
    && st.current == words[|words| - |st.current|..]
  }

  /** What `current_length` counts. Before the first line is closed it is one
      more than the length of the words so far, and they fit; afterwards it is
      the length of the current line, and the words so far do not fit on one
      line. A line of two or more words is never counted past the width. */
  ghost predicate LengthInv(words: seq<string>, width: int, st: WrapState) {
    && (st.lines == [] ==> st.current == words && st.length == |Join(words)| + 1 <= width)
    && (st.lines != [] ==> st.length == |Join(st.current)| && |Join(words)| >= width)
    && (|st.current| >= 2 ==> st.length <= width)
  }

  /** Every closed line with a space in it fits in the width. */
  ghost predicate WidthInv(width: int, st: WrapState) {
    forall i :: 0 <= i < |st.lines| ==> ' ' in st.lines[i] ==> |st.lines[i]| <= width
  }

  /** The lines, current one included, join back to the words, after an empty
      first line when the first word did not fit. */
  ghost predicate JoinInv(words: seq<string>, width: int, st: WrapState)
    requires |words| >= 1
  {
    if |words[0]| + 1 <= width then Join(st.lines + [Join(st.current)]) == Join(words)
    else st.lines != [] && st.lines[0] == "" && Join(st.lines[1..] + [Join(st.current)]) == Join(words)
  }

  /** What holds of the loop state after the words `words` (at least one). */
  ghost predicate RunInv(words: seq<string>, width: int, st: WrapState)
    requires |words| >= 1
  {
    CurrentIsSuffix(words, st) && LengthInv(words, width, st) && WidthInv(width, st) && JoinInv(words, width, st)
  }

  lemma JoinShort(ws: seq<string>)
    requires |ws| <= 1 && SpaceFree(ws)
    ensures ' ' !in Join(ws)
  {
  }

  lemma CurrentSpaceFree(words: seq<string>, st: WrapState)
    requires SpaceFree(words) && CurrentIsSuffix(words, st)
    ensures SpaceFree(st.current)
  {
    forall k | 0 <= k < |st.current| ensures ' ' !in st.current[k] {
      assert st.current[k] == words[|words| - |st.current| + k];
    }
  }

  /** The first word: it goes on the first line if it fits, otherwise an empty
      line is closed first. */
  lemma FirstStepInv(w: string, width: int)
    requires ' ' !in w
    ensures RunInv([w], width, Step(Start, w, width))
  {
    assert [] + [w] == [w];
    assert Join([] + [w]) == w;
    if |w| + 1 > width {
      assert Step(Start, w, width).lines[1..] == [];
    }
  }

  /** A word that fits is appended to the current line. */
  lemma AppendStepInv(prefix: seq<string>, w: string, width: int, st: WrapState)
    requires |prefix| >= 1 && RunInv(prefix, width, st)
    requires st.length + |w| + 1 <= width
    ensures RunInv(prefix + [w], width, Step(st, w, width))
  {
    var words := prefix + [w];
    var next := Step(st, w, width);
    assert next == WrapState(st.lines, st.current + [w], st.length + |w| + 1);
    JoinSnoc(st.current, w);
    assert CurrentIsSuffix(words, next) by {
      assert next.current == words[|words| - |next.current|..];
    }
    assert LengthInv(words, width, next) by {
      JoinSnoc(prefix, w);
    }
    AppendJoinInv(prefix, w, width, st);
  }

  lemma AppendJoinInv(prefix: seq<string>, w: string, width: int, st: WrapState)
    requires |prefix| >= 1 && JoinInv(prefix, width, st)
    requires st.length + |w| + 1 <= width && st.current != []
    ensures JoinInv(prefix + [w], width, Step(st, w, width))
  {
    var words := prefix + [w];
    var x := Join(st.current);
    var next := Step(st, w, width);
    assert next == WrapState(st.lines, st.current + [w], st.length + |w| + 1);
    JoinSnoc(st.current, w);
    JoinSnoc(prefix, w);
    assert words[0] == prefix[0];
    if |words[0]| + 1 <= width {
      JoinSnoc(st.lines, x);
      JoinSnoc(st.lines, x + " " + w);
    } else {
      JoinSnoc(st.lines[1..], x);
      JoinSnoc(st.lines[1..], x + " " + w);
    }
  }

  /** A word that does not fit closes the current line and starts the next. */
  lemma BreakStepInv(prefix: seq<string>, w: string, width: int, st: WrapState)
    requires |prefix| >= 1 && SpaceFree(prefix) && RunInv(prefix, width, st)
    requires st.length + |w| + 1 > width
    ensures RunInv(prefix + [w], width, Step(st, w, width))
  {
    var words := prefix + [w];
    var x := Join(st.current);
    var next := Step(st, w, width);
    assert next == WrapState(st.lines + [x], [w], |w|);
    assert CurrentIsSuffix(words, next) by {
      assert next.current == words[|words| - 1..];
    }
    assert LengthInv(words, width, next) by {
      JoinSnoc(prefix, w);
    }
    assert WidthInv(width, next) by {
      if |st.current| <= 1 {
        CurrentSpaceFree(prefix, st);
        JoinShort(st.current);
      }
    }
    BreakJoinInv(prefix, w, width, st);
  }

  lemma BreakJoinInv(prefix: seq<string>, w: string, width: int, st: WrapState)
    requires |prefix| >= 1 && JoinInv(prefix, width, st)
    requires st.length + |w| + 1 > width
    ensures JoinInv(prefix + [w], width, Step(st, w, width))
  {
    var words := prefix + [w];
    var x := Join(st.current);
    assert Step(st, w, width) == WrapState(st.lines + [x], [w], |w|);
    JoinSnoc(prefix, w);
    assert words[0] == prefix[0];
    JoinSnoc(st.lines + [x], w);
    if |words[0]| + 1 > width {
      JoinSnoc(st.lines[1..] + [x], w);
      assert (st.lines + [x])[1..] == st.lines[1..] + [x];
    }
  }

  lemma {:induction false} RunInvariant(words: seq<string>, width: int)
    requires |words| >= 1 && SpaceFree(words)
    ensures RunInv(words, width, Run(words, width))
    decreases |words|
  {
    var w := words[|words| - 1];
    var prefix := words[..|words| - 1];
    assert words == prefix + [w];
    if |words| == 1 {
      assert prefix == [];
      FirstStepInv(w, width);
    } else {
      assert SpaceFree(prefix);
      RunInvariant(prefix, width);
      var st := Run(prefix, width);
      if st.length + |w| + 1 <= width {
        AppendStepInv(prefix, w, width, st);
      } else {
        BreakStepInv(prefix, w, width, st);
      }
    }
  }

  /** The greedy pass yields a single line exactly when the whole text is
      shorter than the width, and that line is then the text itself. */
  lemma GreedySingleLine(text: string, width: int)
    ensures |Greedy(text, width)| == 1 <==> |text| < width
    ensures |Greedy(text, width)| == 1 ==> Greedy(text, width) == [text]
    ensures |Greedy(text, width)| >= 1
  {
    var words := Split(text);
    RunInvariant(words, width);
    JoinSplit(text);
  }

  /** The fallback guard `len(lines) == 1 and len(text) > width_chars` never
      holds, so `wrap_text` returns the greedy lines. */
  lemma WrapFallbackUnreachable(text: string, width: int)
    ensures !(|Greedy(text, width)| == 1 && |text| > width)
    ensures WrapLines(text, width) == Greedy(text, width)
  {
    GreedySingleLine(text, width);
  }

  /** `wrap_text` never returns an empty list, so `max` over its lines is
      defined; it returns one line exactly when the text is shorter than the
      width. */
  lemma WrapNonEmpty(text: string, width: int)
    ensures |WrapLines(text, width)| >= 1
    ensures |WrapLines(text, width)| == 1 <==> |text| < width
  {
    WrapFallbackUnreachable(text, width);
    GreedySingleLine(text, width);
  }

  /** The call for the speech bubble uses the default width of 15: the list
      `max(...)` is taken over is never empty, and the text is split over
      several lines exactly when it has 15 characters or more. */
  lemma BubbleLines(text: string)
    ensures |WrapLines(text, BubbleWidth)| >= 1
    ensures |WrapLines(text, BubbleWidth)| > 1 <==> |text| >= 15
  {
    WrapNonEmpty(text, BubbleWidth);
  }

  /** A line holding two or more words (it contains a space) fits in the width;
      only a line that is one over-long word can be wider. */
  lemma WrapLineWidth(text: string, width: int)
    ensures forall i :: 0 <= i < |WrapLines(text, width)| ==>
      ' ' in WrapLines(text, width)[i] ==> |WrapLines(text, width)[i]| <= width
  {
    WrapFallbackUnreachable(text, width);
    var words := Split(text);
    RunInvariant(words, width);
    var st := Run(words, width);
    var x := Join(st.current);
    assert ' ' in x ==> |x| <= width by {
      if |st.current| <= 1 {
        CurrentSpaceFree(words, st);
        JoinShort(st.current);
      }
    }
  }

  /** Joining the lines with single spaces gives back the text, except that
      an extra empty first line is emitted when the first word does not fit
      on the first line. */
  lemma WrapJoinsBack(text: string, width: int)
    ensures |WrapLines(text, width)| >= 1
    ensures |Split(text)[0]| + 1 <= width ==> Join(WrapLines(text, width)) == text
    ensures |Split(text)[0]| + 1 > width ==>
      WrapLines(text, width)[0] == "" && Join(WrapLines(text, width)[1..]) == text
  {
    WrapFallbackUnreachable(text, width);
    var words := Split(text);
    RunInvariant(words, width);
    JoinSplit(text);
    var st := Run(words, width);
    if |words[0]| + 1 > width {
      assert (st.lines + [Join(st.current)])[1..] == st.lines[1..] + [Join(st.current)];
    }
  }

  /** The `wrap_text` loop, proved to compute WrapLines. */
  method WrapText(text: string, width: int) returns (lines: seq<string>)
    ensures lines == WrapLines(text, width)
    ensures |lines| >= 1
    ensures |lines| == 1 <==> |text| < width
  {
    var words := Split(text);
    lines := [];
    var currentLine: seq<string> := [];
    var currentLength := 0;
    for i := 0 to |words|
      invariant WrapState(lines, currentLine, currentLength) == Run(words[..i], width)
    {
      var word := words[i];
      assert words[..i + 1][..i] == words[..i];
      if currentLength + |word| + 1 <= width {
        currentLine := currentLine + [word];
        currentLength := currentLength + |word| + 1;
      } else {
        lines := lines + [Join(currentLine)];
        currentLine := [word];
        currentLength := |word|;
      }
    }
    assert words[..|words|] == words;
    if currentLine != [] {
      lines := lines + [Join(currentLine)];
    }
    if |lines| == 1 && |text| > width {
      lines := Chunks(text, width);
    }
    WrapNonEmpty(text, width);
  }
}
