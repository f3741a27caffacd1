/** The program's top-level statements, and how the defaults are read. */
module Program {
  import opened Terminal
  import opened Wrappers
  import opened Effects
  import opened Rendering
  import opened Layout
  import Display

  /** The segments the sample's two lines print. */
  function SampleLines(): seq<seq<Segment>>
  {
    [[Segment("Hello", Blue, Gray, TypeWriter(250)), Segment(" World!", Gray, Blue, NoEffect)],
     [Segment("This somehow works...", DarkRed, Yellow, TypeWriter(100))]]
  }

  /**
   * Printing the sample's lines returns, restores the colours, shows both
   * lines and ends them, and appends exactly the boxes' events line by line.
   */
  lemma SampleRenders(s: ConsoleState)
    ensures var r := RenderLines(SampleLines(), s);
      && r.returned
      && r.state.background == s.background && r.state.foreground == s.foreground
      && Output(Appended(s, r.state)) == "Hello" + " World!" + "\n" + "This somehow works..." + "\n"
      && NewLines(Appended(s, r.state)) == 2
      && Appended(s, r.state) == LinesEvents(SampleLines())
  {
    var segs := SampleLines();
    assert AllComplete(segs);
    LinesShowTexts(segs, s);
    LinesAppendEvents(segs, s);
    JoinOfTwo(segs[0], segs[1]);
    TextsOfTwo(segs[0][0], segs[0][1]);
    TextsOfOne(segs[1][0]);
  }

  /**
   * The sample: two lines, "Hello" typed at 250 ms per character followed by
   * " World!", then "This somehow works..." typed at 100 ms per character.
   * Every effect returns, so the console ends in its starting colours with
   * both lines shown and ended.
   */
  method Sample(console: Console) returns (returned: bool)
    modifies console
    ensures returned
    ensures console.background == old(console.background) && console.foreground == old(console.foreground)
    ensures |old(console.trace)| <= |console.trace|
    ensures console.trace[..|old(console.trace)|] == old(console.trace)
    ensures Output(console.trace[|old(console.trace)|..]) == "Hello" + " World!" + "\n" + "This somehow works..." + "\n"
    ensures NewLines(console.trace[|old(console.trace)|..]) == 2
    ensures console.trace[|old(console.trace)|..] == LinesEvents(SampleLines())
  {
    var defaults := new Defaults();
    var color1 := new Color(Some(Blue), Some(Gray), defaults);
    var hello := new TextBox(Some("Hello"), Some(color1), Some(NewTypeWriter(Some(250))), defaults);
    var color2 := new Color(Some(Gray), Some(Blue), defaults);
    var world := new TextBox(Some(" World!"), Some(color2), None, defaults);
    var line1 := new Line([hello, world]);
    var color3 := new Color(Some(DarkRed), Some(Yellow), defaults);
    var works := new TextBox(Some("This somehow works..."), Some(color3), Some(NewTypeWriter(Some(100))), defaults);
    var line2 := new Line([works]);

    ghost var segs := Display.LineSegments([line1, line2]);
    assert line1.Segments() == [hello.Snapshot(), world.Snapshot()];
    assert line2.Segments() == [works.Snapshot()];
    assert segs == SampleLines();
    ghost var start := console.State();
    returned := Display.PrintLines([line1, line2], console);
    SampleRenders(start);
  }

  lemma JoinOfTwo(a: seq<Segment>, b: seq<Segment>)
    ensures Join([a, b]) == Texts(a) + "\n" + Texts(b) + "\n"
  {
    assert [a, b][1..] == [b] && [b][1..] == [];
    assert Join([b]) == Texts(b) + "\n" + "";
  }

  lemma TextsOfTwo(x: Segment, y: Segment)
    ensures Texts([x, y]) == x.text + y.text
  {
    assert [x, y][1..] == [y];
    TextsOfOne(y);
  }

  lemma TextsOfOne(x: Segment)
    ensures Texts([x]) == x.text
  {
    assert [x][1..] == [];
  }

  /**
   * Defaults are copied when a Color or TextBox is built: a box built with
   * nothing given keeps the defaults of that moment after they are changed.
   */
  method DefaultsAreCopied(defaults: Defaults, bg: ConsoleColor, fg: ConsoleColor, effect: Effect)
    returns (box: TextBox)
    modifies defaults
    ensures defaults.defaultBGColor == bg && defaults.defaultTextColor == fg && defaults.defaultEffect == effect
    ensures box.text == ""
    ensures box.color.bgColor == old(defaults.defaultBGColor) && box.color.textColor == old(defaults.defaultTextColor)
    ensures box.effect == old(defaults.defaultEffect)
  {
    box := new TextBox(None, None, None, defaults);
    defaults.defaultBGColor := bg;
    defaults.defaultTextColor := fg;
    defaults.defaultEffect := effect;
  }
}
