/** Display: the four Print overloads. */
module Display {
  import opened Terminal
  import opened Rendering
  import opened Layout

  /** What each line shows, in order. */
  function LineSegments(lines: seq<Line>): (r: seq<seq<Segment>>)
    ensures |r| == |lines|
    ensures forall k :: 0 <= k < |lines| ==> r[k] == lines[k].Segments()
  {
    if lines == [] then [] else [lines[0].Segments()] + LineSegments(lines[1..])
  }

  /** Print(lines): each line in order, each ending its own line of output. */
  method PrintLines(lines: seq<Line>, console: Console) returns (returned: bool)
    modifies console
    ensures Outcome(console.State(), returned) == RenderLines(LineSegments(lines), old(console.State()))
  {
    ghost var segs := LineSegments(lines);
    returned := true;
    var i := 0;
    while i < |lines|
      invariant 0 <= i <= |lines|
      invariant RenderLines(segs[i..], console.State()) == RenderLines(segs, old(console.State()))
    {
      RenderLinesFrom(segs, i, console.State());
      returned := lines[i].PrintText(console);
      if !returned {
        return;
      }
      i := i + 1;
    }
    assert segs[i..] == [];
  }

  /** Print(line): the one line. */
  method PrintLine(line: Line, console: Console) returns (returned: bool)
    modifies console
    ensures Outcome(console.State(), returned) == RenderLine(line.Segments(), old(console.State()))
  {
    returned := line.PrintText(console);
  }

  /** Print(text): the one box, with no line terminator. */
  method PrintTextBox(text: TextBox, console: Console) returns (returned: bool)
    modifies console
    ensures Outcome(console.State(), returned) == RenderBox(text.Snapshot(), old(console.State()))
  {
    returned := text.PrintText(console);
  }

  /** Print(): an empty line, which only ends the line and leaves the colours alone. */
  method PrintBlank(console: Console) returns (returned: bool)
    modifies console
    ensures returned
    ensures console.State() == old(console.State()).(trace := old(console.trace) + [NewLine])
  {
    var line := new Line.Empty();
    assert line.Segments() == [];
    returned := line.PrintText(console);
  }
}
