/**
 * What printing does to the console, as functions of the console's state:
 * a TextBox, a Line and a list of Lines. The printing methods of Layout and
 * Display are proved to follow these.
 */
module Rendering {
  import opened Terminal
  import opened Effects

  /** The printable content of a TextBox: its text, its colours and its effect. */
  datatype Segment = Segment(text: string, bg: ConsoleColor, fg: ConsoleColor, effect: Effect)

  /** Every segment of every line completes. */
  predicate AllComplete(lines: seq<seq<Segment>>)
  {
    forall i, j | 0 <= i < |lines| && 0 <= j < |lines[i]| :: Returns(lines[i][j].effect, lines[i][j].text)
  }

  /**
   * TextBox.PrintText: save the console colours, switch to the segment's,
   * run the effect, then put the saved colours back. The restore is written
   * after the effect with no try/finally, so an effect that does not return
   * leaves the segment's colours on the console.
   */
  function RenderBox(seg: Segment, s: ConsoleState): (r: Outcome)
    ensures r.state.trace == s.trace + Emit(seg.effect, seg.text, seg.bg, seg.fg).events
    ensures r.returned <==> Returns(seg.effect, seg.text)
    ensures r.returned ==> r.state.background == s.background && r.state.foreground == s.foreground
    ensures !r.returned ==> r.state.background == seg.bg && r.state.foreground == seg.fg
  {
    var saved := s;
    var applied := s.(background := seg.bg, foreground := seg.fg);
    var em := Emit(seg.effect, seg.text, applied.background, applied.foreground);
    var emitted := applied.(trace := applied.trace + em.events);
    if em.returned then
      Outcome(emitted.(background := saved.background, foreground := saved.foreground), true)
    else
      Outcome(emitted, false)
  }

  /** The segments printed one after the other, stopping at one that does not return. */
  function RenderSegments(segs: seq<Segment>, s: ConsoleState): (r: Outcome)
    ensures |s.trace| <= |r.state.trace| && r.state.trace[..|s.trace|] == s.trace
    ensures r.returned <==> forall j | 0 <= j < |segs| :: Returns(segs[j].effect, segs[j].text)
    ensures r.returned ==> r.state.background == s.background && r.state.foreground == s.foreground
  {
    if segs == [] then Outcome(s, true)
    else
      var first := RenderBox(segs[0], s);
      if !first.returned then first
      else
        var r := RenderSegments(segs[1..], first.state);
        assert forall j | 1 <= j < |segs| :: segs[j] == segs[1..][j - 1];
        r
  }

  /** Printing the segments from index `i` on: segment `i`, then, if it returned, the rest. */
  lemma RenderSegmentsFrom(segs: seq<Segment>, i: nat, s: ConsoleState)
    requires i < |segs|
    ensures var first := RenderBox(segs[i], s);
      RenderSegments(segs[i..], s) == if first.returned then RenderSegments(segs[i + 1..], first.state) else first
  {
    assert segs[i..][0] == segs[i] && segs[i..][1..] == segs[i + 1..];
  }

  /** Line.PrintText: the segments in order, then one line terminator. */
  function RenderLine(segs: seq<Segment>, s: ConsoleState): (r: Outcome)
    ensures |s.trace| <= |r.state.trace| && r.state.trace[..|s.trace|] == s.trace
    ensures r.returned <==> forall j | 0 <= j < |segs| :: Returns(segs[j].effect, segs[j].text)
    ensures r.returned ==> r.state.background == s.background && r.state.foreground == s.foreground
  {
    var body := RenderSegments(segs, s);
    if body.returned then Outcome(body.state.(trace := body.state.trace + [NewLine]), true)
    else body
  }

  /** Display.Print(lines): the lines in order, stopping at one that does not return. */
  function RenderLines(lines: seq<seq<Segment>>, s: ConsoleState): (r: Outcome)
    ensures |s.trace| <= |r.state.trace| && r.state.trace[..|s.trace|] == s.trace
    ensures r.returned <==> AllComplete(lines)
    ensures r.returned ==> r.state.background == s.background && r.state.foreground == s.foreground
  {
    if lines == [] then Outcome(s, true)
    else
      var first := RenderLine(lines[0], s);
      if !first.returned then first
      else
        var r := RenderLines(lines[1..], first.state);
        assert forall i | 1 <= i < |lines| :: lines[i] == lines[1..][i - 1];
        r
  }

  /** Printing the lines from index `i` on: line `i`, then, if it returned, the rest. */
  lemma RenderLinesFrom(lines: seq<seq<Segment>>, i: nat, s: ConsoleState)
    requires i < |lines|
    ensures var first := RenderLine(lines[i], s);
      RenderLines(lines[i..], s) == if first.returned then RenderLines(lines[i + 1..], first.state) else first
  {
    assert lines[i..][0] == lines[i] && lines[i..][1..] == lines[i + 1..];
  }

  /** The texts of the segments, joined in order. */
  function Texts(segs: seq<Segment>): string
  {
    if segs == [] then "" else segs[0].text + Texts(segs[1..])
  }

  /** Each line's texts followed by a line feed, lines in order. */
  function Join(lines: seq<seq<Segment>>): string
  {
    if lines == [] then "" else Texts(lines[0]) + "\n" + Join(lines[1..])
  }

  /** Each segment's effect events in its own colours, segments in order. */
  function SegmentsEvents(segs: seq<Segment>): seq<Event>
  {
    if segs == [] then []
    else Emit(segs[0].effect, segs[0].text, segs[0].bg, segs[0].fg).events + SegmentsEvents(segs[1..])
  }

  /** Each line's segment events followed by a line terminator, lines in order. */
  function LinesEvents(lines: seq<seq<Segment>>): seq<Event>
  {
    if lines == [] then [] else SegmentsEvents(lines[0]) + [NewLine] + LinesEvents(lines[1..])
  }

  /** The events `r` added to the trace of `s`. */
  function Appended(s: ConsoleState, r: ConsoleState): seq<Event>
    requires |s.trace| <= |r.trace|
  {
    r.trace[|s.trace|..]
  }

  /**
   * A printed TextBox: its events are the effect's, all of them in the box's
   * colours. If the effect returns, the box's text is on screen and the
   * console's colours are the ones it had before; if not, the console keeps
   * the box's colours.
   */
  lemma BoxRestoresColours(seg: Segment, s: ConsoleState)
    ensures var r := RenderBox(seg, s);
      && r.state.trace == s.trace + Emit(seg.effect, seg.text, seg.bg, seg.fg).events
      && WritesIn(Appended(s, r.state), seg.bg, seg.fg)
      && NewLines(Appended(s, r.state)) == 0
      && (r.returned <==> Returns(seg.effect, seg.text))
      && (r.returned ==> Output(Appended(s, r.state)) == seg.text)
      && (r.returned ==> r.state.background == s.background && r.state.foreground == s.foreground)
      && (!r.returned ==> r.state.background == seg.bg && r.state.foreground == seg.fg)
  {
    var r := RenderBox(seg, s);
    assert Appended(s, r.state) == Emit(seg.effect, seg.text, seg.bg, seg.fg).events;
    EmitShowsText(seg.effect, seg.text, seg.bg, seg.fg);
  }

  /** The events of `r`, which extends `m`, which extends `s`, are those of `m` then the rest. */
  lemma AppendedSplits(s: ConsoleState, m: ConsoleState, r: ConsoleState)
    requires |s.trace| <= |m.trace| && m.trace[..|s.trace|] == s.trace
    requires |m.trace| <= |r.trace| && r.trace[..|m.trace|] == m.trace
    ensures Appended(s, r) == Appended(s, m) + Appended(m, r)
  {
  }

  /**
   * Printed segments end no line; when they all return, their texts are on
   * screen in order.
   */
  lemma {:induction false} SegmentsShowTexts(segs: seq<Segment>, s: ConsoleState)
    ensures var r := RenderSegments(segs, s);
      && NewLines(Appended(s, r.state)) == 0
      && (r.returned ==> Output(Appended(s, r.state)) == Texts(segs))
  {
    if segs != [] {
      var first := RenderBox(segs[0], s);
      BoxRestoresColours(segs[0], s);
      if first.returned {
        var r := RenderSegments(segs[1..], first.state);
        SegmentsShowTexts(segs[1..], first.state);
        AppendedSplits(s, first.state, r.state);
        OutputAppend(Appended(s, first.state), Appended(first.state, r.state));
      }
    }
  }

  /**
   * A printed line ends with exactly one line terminator when all its
   * segments return, showing their texts and a line feed; otherwise it ends
   * no line at all.
   */
  lemma LineShowsTexts(segs: seq<Segment>, s: ConsoleState)
    ensures var r := RenderLine(segs, s);
      && (r.returned ==> Output(Appended(s, r.state)) == Texts(segs) + "\n" && NewLines(Appended(s, r.state)) == 1)
      && (!r.returned ==> NewLines(Appended(s, r.state)) == 0)
  {
    var body := RenderSegments(segs, s);
    SegmentsShowTexts(segs, s);
    if body.returned {
      var r := RenderLine(segs, s);
      var before := Appended(s, body.state);
      assert r.state.trace == body.state.trace + [NewLine];
      assert Appended(s, r.state) == before + [NewLine];
      OneEvent(NewLine);
      OutputAppend(before, [NewLine]);
    }
  }

  /**
   * Printed lines: when every segment returns, the screen shows each line's
   * texts followed by a line feed, and there is exactly one line terminator
   * per line; otherwise fewer lines are ended than were given.
   */
  lemma {:induction false} LinesShowTexts(lines: seq<seq<Segment>>, s: ConsoleState)
    ensures var r := RenderLines(lines, s);
      && (r.returned ==> Output(Appended(s, r.state)) == Join(lines) && NewLines(Appended(s, r.state)) == |lines|)
      && (!r.returned ==> NewLines(Appended(s, r.state)) < |lines|)
  {
    if lines != [] {
      var first := RenderLine(lines[0], s);
      LineShowsTexts(lines[0], s);
      if first.returned {
        var r := RenderLines(lines[1..], first.state);
        LinesShowTexts(lines[1..], first.state);
        AppendedSplits(s, first.state, r.state);
        OutputAppend(Appended(s, first.state), Appended(first.state, r.state));
      }
    }
  }

  /**
   * Printed segments that all return append exactly each segment's effect
   * events, in that segment's colours, one segment after the other.
   */
  lemma {:induction false} SegmentsAppendEvents(segs: seq<Segment>, s: ConsoleState)
    ensures var r := RenderSegments(segs, s);
      r.returned ==> Appended(s, r.state) == SegmentsEvents(segs)
  {
    if segs != [] {
      var first := RenderBox(segs[0], s);
      if first.returned {
        var r := RenderSegments(segs[1..], first.state);
        SegmentsAppendEvents(segs[1..], first.state);
        AppendedSplits(s, first.state, r.state);
      }
    }
  }

  /** A printed line that returns appends its segments' events and then one terminator. */
  lemma LineAppendsEvents(segs: seq<Segment>, s: ConsoleState)
    ensures var r := RenderLine(segs, s);
      r.returned ==> Appended(s, r.state) == SegmentsEvents(segs) + [NewLine]
  {
    var body := RenderSegments(segs, s);
    SegmentsAppendEvents(segs, s);
    if body.returned {
      var r := RenderLine(segs, s);
      assert r.state.trace == body.state.trace + [NewLine];
    }
  }

  /**
   * Printed lines that all return append, line by line, the segments' events
   * followed by a terminator.
   */
  lemma {:induction false} LinesAppendEvents(lines: seq<seq<Segment>>, s: ConsoleState)
    ensures var r := RenderLines(lines, s);
      r.returned ==> Appended(s, r.state) == LinesEvents(lines)
  {
    if lines != [] {
      var first := RenderLine(lines[0], s);
      LineAppendsEvents(lines[0], s);
      if first.returned {
        var r := RenderLines(lines[1..], first.state);
        LinesAppendEvents(lines[1..], first.state);
        AppendedSplits(s, first.state, r.state);
      }
    }
  }

  /** Printing a line with no segments only ends the line. */
  lemma EmptyLineOnlyEndsLine(s: ConsoleState)
    ensures RenderLine([], s) == Outcome(s.(trace := s.trace + [NewLine]), true)
  {
  }
}
