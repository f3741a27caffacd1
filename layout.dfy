/**
 * The objects a caller builds: a Color (background and text colour), a
 * TextBox (text, Color and Effect) and a Line (a list of TextBoxes). The
 * static mutable defaults of Color and TextBox live in a Defaults object
 * that the constructors read.
 */
module Layout {
  import opened Terminal
  import opened Wrappers
  import opened Effects
  import opened Rendering

  /** Color.DefaultBGColor, Color.DefaultTextColor and TextBox.DefaultEffect. */
  class Defaults {
    var defaultBGColor: ConsoleColor
    var defaultTextColor: ConsoleColor
    var defaultEffect: Effect

    /** The values at program start: black, white and no effect. */
    constructor ()
      ensures defaultBGColor == Black && defaultTextColor == White && defaultEffect == NoEffect
    {
      defaultBGColor := Black;
      defaultTextColor := White;
      defaultEffect := NoEffect;
    }
  }

  class Color {
    const bgColor: ConsoleColor
    const textColor: ConsoleColor

    /**
     * `new Color(bgColor, textColor)`: a colour that is given is kept; an
     * omitted one is the current default, copied now.
     */
    constructor (bgColor: Option<ConsoleColor>, textColor: Option<ConsoleColor>, defaults: Defaults)
      ensures bgColor.Some? ==> this.bgColor == bgColor.value
      ensures bgColor.None? ==> this.bgColor == defaults.defaultBGColor
      ensures textColor.Some? ==> this.textColor == textColor.value
      ensures textColor.None? ==> this.textColor == defaults.defaultTextColor
    {
      this.bgColor := bgColor.GetOr(defaults.defaultBGColor);
      this.textColor := textColor.GetOr(defaults.defaultTextColor);
    }
  }

  class TextBox {
    const text: string
    const color: Color
    const effect: Effect

    /**
     * `new TextBox(text, color, effect)`: an omitted text is empty, an
     * omitted color is a fresh `new Color()` and an omitted effect is the
     * current default effect, so a box always has an effect.
     */
    constructor (text: Option<string>, color: Option<Color>, effect: Option<Effect>, defaults: Defaults)
      ensures text.Some? ==> this.text == text.value
      ensures text.None? ==> this.text == ""
      ensures color.Some? ==> this.color == color.value
      ensures color.None? ==>
        fresh(this.color) && this.color.bgColor == defaults.defaultBGColor && this.color.textColor == defaults.defaultTextColor
      ensures effect.Some? ==> this.effect == effect.value
      ensures effect.None? ==> this.effect == defaults.defaultEffect
    {
      // The property initialisers run first, then the constructor body.
      var initialColor := new Color(None, None, defaults);
      this.text := text.GetOr("");
      this.color := color.GetOr(initialColor);
      this.effect := effect.GetOr(defaults.defaultEffect);
    }

    /** What printing this box shows, read from its fields and its Color. */
    function Snapshot(): Segment
    {
      Segment(text, color.bgColor, color.textColor, effect)
    }

    /**
     * TextBox.PrintText: prints the text in the box's colours with its
     * effect and, when the effect returns, restores the console's colours.
     */
    method PrintText(console: Console) returns (returned: bool)
      modifies console
      ensures Outcome(console.State(), returned) == RenderBox(Snapshot(), old(console.State()))
    {
      var defBGColor := console.background;
      var defTextColor := console.foreground;

      console.background := color.bgColor;
      console.foreground := color.textColor;

      returned := effect.PrintEffect(text, console);
      if !returned {
        return;
      }

      console.background := defBGColor;
      console.foreground := defTextColor;
    }
  }

  /** The boxes' snapshots, in order. */
  function Snapshots(boxes: seq<TextBox>): (r: seq<Segment>)
    ensures |r| == |boxes|
    ensures forall k :: 0 <= k < |boxes| ==> r[k] == boxes[k].Snapshot()
  {
    if boxes == [] then [] else [boxes[0].Snapshot()] + Snapshots(boxes[1..])
  }

  class Line {
    const texts: seq<TextBox>

    /** `new Line()`: no boxes. */
    constructor Empty()
      ensures texts == []
    {
      texts := [];
    }

    /** `new Line(text)`: exactly the one box. */
    constructor Single(text: TextBox)
      ensures texts == [text]
    {
      texts := [text];
    }

    /**
     * `new Line(texts)`: the given boxes, in order. A sequence is a value, so
     * this is already the copy that `AddRange` makes.
     */
    constructor (texts: seq<TextBox>)
      ensures this.texts == texts
    {
      this.texts := texts;
    }

    function Segments(): seq<Segment>
    {
      Snapshots(texts)
    }

    /** Line.PrintText: prints the boxes in order, then ends the line. */
    method PrintText(console: Console) returns (returned: bool)
      modifies console
      ensures Outcome(console.State(), returned) == RenderLine(Segments(), old(console.State()))
    {
      ghost var segs := Segments();
      var i := 0;
      while i < |texts|
        invariant 0 <= i <= |texts|
        invariant RenderSegments(segs[i..], console.State()) == RenderSegments(segs, old(console.State()))
      {
        RenderSegmentsFrom(segs, i, console.State());
        assert segs[i] == texts[i].Snapshot();
        returned := texts[i].PrintText(console);
        if !returned {
          return;
        }
        i := i + 1;
      }
      assert segs[i..] == [];
      console.WriteLine();
      returned := true;
    }
  }
}
