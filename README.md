# MFFF console text formatter, modelled in Dafny

MFFF composes styled runs of text into lines and prints them to the console.
A `Color` holds a background and a text colour. A `TextBox` holds a text, a
`Color` and an `Effect`. A `Line` holds a list of `TextBox`es. `Display.Print`
prints lines, a line, a box, or an empty line. An `Effect` is either
`NoEffect`, which writes the whole text at once, or `TypeWriter`, which writes
one character at a time and sleeps `Delay` milliseconds after each one.
`Color` and `TextBox` fill in omitted constructor arguments from static
mutable defaults: `Color.DefaultBGColor`, `Color.DefaultTextColor` and
`TextBox.DefaultEffect`.

The model replaces `System.Console` and `Thread.Sleep` with a class,
`Terminal.Console`. Its fields are the current background colour, the current
foreground colour and an append-only trace of events: `Write(text, bg, fg)`,
`Sleep(ms)` and `NewLine`. A write records the colours the console had at that
moment, because that is how the text appears on screen.

`Thread.Sleep` does not return for a negative delay: `-1` waits forever and any
other negative value throws `ArgumentOutOfRangeException`. So every printing
method returns `returned`, which is false when control never comes back
normally. A false `returned` stops everything after it: the restoring of the
colours, the rest of the line, the line terminator and the remaining lines.
This is how the model shows that `TextBox.PrintText` restores the colours only
on normal return, since the code has no try/finally.

Layout:

- `wrappers.dfy` (`Wrappers`): `Option`, standing for C#'s nullable optional arguments (`x ?? d` is `x.GetOr(d)`).
- `terminal.dfy` (`Terminal`): the 16 console colours, C#'s 32-bit `int` (`int32`), events, the `Console` class, `Output` (the characters shown, with `"\n"` standing for the platform's line terminator) and `NewLines`.
- `utils.dfy` (`Utils`): `ParseString`.
- `effects.dfy` (`Effects`): the `Effect` datatype with its `PrintEffect` method, and `Emit`, the function that gives the events an effect emits.
- `rendering.dfy` (`Rendering`): pure functions of the console state for printing a box, a line and a list of lines, and the lemmas about what they show.
- `layout.dfy` (`Layout`): the `Defaults`, `Color`, `TextBox` and `Line` classes, whose printing methods are proved against `Rendering`.
- `display.dfy` (`Display`): the four `Print` overloads, named `PrintLines`, `PrintLine`, `PrintTextBox` and `PrintBlank`.
- `program.dfy` (`Program`): the sample program, and a client method showing that defaults are copied when an object is constructed.

Two behaviours of the code that a reader might expect to be otherwise are modelled as written:

- The code restores the console colours only when the effect returns. There is no try/finally.
- `TypeWriter` also sleeps after the last character.

## Model

| member | source | states |
|---|---|---|
| Utils.ParseString | MFFF/Program.cs:200-211 | one single-character string per input character, in order; as many pieces as characters (none for `""`); the pieces joined give the input back |
| Terminal.Console.Write | MFFF/Program.cs:146 | `Console.Write` appends one write of the text in the current colours and changes nothing else |
| Terminal.Console.WriteLine | MFFF/Program.cs:60 | `Console.WriteLine()` appends one line terminator and changes nothing else |
| Terminal.Console.Sleep | MFFF/Program.cs:164 | `Thread.Sleep` returns exactly when the delay is non-negative, and then records one sleep of that length; otherwise nothing is recorded and control does not return |
| Effects.NewTypeWriter | MFFF/Program.cs:168-171 | a TypeWriter keeps a given delay; the delay defaults to 500 ms |
| Effects.Effect.PrintEffect | MFFF/Program.cs:138-166 | the console's colours are unchanged, and its trace grows by exactly what `Emit` gives for the colours current at the call; it returns exactly when `Emit` does |
| Effects.Emit | MFFF/Program.cs:138-166 | an effect returns normally unless it is a TypeWriter with a negative delay and a non-empty text; every write it makes is in the colours it was given |
| Effects.TypeWriterEmission | MFFF/Program.cs:156-166 | TypeWriter returns exactly when its delay is non-negative or the text is empty; all its writes are in the given colours |
| Effects.NoEffectWritesOnce | MFFF/Program.cs:142-147 | NoEffect emits exactly one write of the whole text, in the current colours, no sleep, and returns |
| Effects.TypeWriterInterleaves | MFFF/Program.cs:156-166 | with a non-negative delay, the events are `Write(c), Sleep(delay)` for each character `c` in order, a sleep after the last one included, and nothing else (2·length events) |
| Effects.TypeWriterStopsOnNegativeDelay | MFFF/Program.cs:160-165 | with a negative delay and a non-empty text, only the first character is written, then control does not return |
| Effects.EmitShowsText | MFFF/Program.cs:142-166 | no effect ends a line; an effect that returns shows exactly its text |
| Effects.EffectsAgreeOnText | MFFF/Program.cs:142-166 | with a non-negative delay, NoEffect and TypeWriter show the same characters, namely the text |
| Rendering.RenderBox | MFFF/Program.cs:85-99 | printing a box appends exactly its effect's events in the box's colours; it returns exactly when the effect does; on return the console has its saved colours back, otherwise it is left in the box's colours |
| Rendering.RenderSegments | MFFF/Program.cs:56-59 | printing boxes in order only extends the trace; it returns exactly when every box's effect returns, and then the colours equal the starting ones |
| Rendering.RenderLine | MFFF/Program.cs:52-61 | printing a line only extends the trace; it returns exactly when every box returns, and then the colours are the starting ones (the terminator's place is stated by LineAppendsEvents) |
| Rendering.RenderLines | MFFF/Program.cs:14-22 | printing lines in order only extends the trace; it returns exactly when every box of every line returns, and then the colours equal the starting ones |
| Rendering.RenderSegmentsFrom | MFFF/Program.cs:56-59 | printing the boxes from index i on is printing box i, then the rest only if box i returned |
| Rendering.RenderLinesFrom | MFFF/Program.cs:18-21 | printing the lines from index i on is printing line i, then the rest only if line i returned |
| Rendering.BoxRestoresColours | MFFF/Program.cs:89-98 | a printed box appends exactly its effect's events, every write in the box's colours and no line end; if the effect returns, the box's text is shown and the console gets back its saved colours; if not, the console is left in the box's colours |
| Rendering.SegmentsShowTexts | MFFF/Program.cs:56-59 | printing boxes ends no line; if they all return, the screen shows their texts joined in order |
| Rendering.LineShowsTexts | MFFF/Program.cs:52-61 | a line that returns shows its boxes' texts in order plus one line feed, with exactly one line terminator; a line that does not return ends no line |
| Rendering.LinesShowTexts | MFFF/Program.cs:14-22 | printed lines that all return show each line's texts followed by a line feed, in order, with exactly one terminator per line; otherwise fewer lines are ended than were given |
| Rendering.SegmentsAppendEvents | MFFF/Program.cs:56-59 | boxes that all return append exactly each box's effect events, in that box's colours, box after box |
| Rendering.LineAppendsEvents | MFFF/Program.cs:52-61 | a line that returns appends its boxes' events in order and then exactly one terminator, after them |
| Rendering.LinesAppendEvents | MFFF/Program.cs:14-22 | lines that all return append, line by line, the boxes' events followed by a terminator |
| Rendering.EmptyLineOnlyEndsLine | MFFF/Program.cs:52-63 | a line with no boxes appends only a line terminator and leaves the colours alone |
| Layout.Defaults.constructor | MFFF/Program.cs:114-115 | the defaults start as black background, white text and (line 80) NoEffect |
| Layout.Color.constructor | MFFF/Program.cs:119-123 | a given colour is kept; an omitted one is the default current at construction |
| Layout.TextBox.constructor | MFFF/Program.cs:102-107 | omitted text is `""`; an omitted color is a fresh `Color` with the current default colours; an omitted effect is the current default effect, so a box always has an effect |
| Layout.TextBox.PrintText | MFFF/Program.cs:85-99 | the new console state and the returned flag are those of `RenderBox` on the box's text, colours and effect from the old state |
| Layout.Line.Empty | MFFF/Program.cs:63 | `new Line()` holds no boxes |
| Layout.Line.Single | MFFF/Program.cs:65-68 | `new Line(text)` holds exactly `[text]` |
| Layout.Line.constructor | MFFF/Program.cs:70-73 | `new Line(texts)` holds the given boxes, in order |
| Layout.Line.PrintText | MFFF/Program.cs:52-61 | the new console state and the returned flag are those of `RenderLine` on the line's boxes from the old state |
| Display.PrintLines | MFFF/Program.cs:14-22 | the new console state and the returned flag are those of `RenderLines` on the lines' boxes from the old state |
| Display.PrintLine | MFFF/Program.cs:24-29 | as `RenderLine` on the line's boxes |
| Display.PrintTextBox | MFFF/Program.cs:31-36 | as `RenderBox` on the box, with no line terminator |
| Display.PrintBlank | MFFF/Program.cs:38-43 | always returns; appends exactly one line terminator and changes no colour |
| Program.SampleRenders | MFFF/Program.cs:3-6 | printing the sample's two lines returns, restores the colours, shows `"Hello" + " World!" + "\n" + "This somehow works..." + "\n"`, ends exactly two lines, and appends exactly the boxes' events: the typed characters each followed by `Sleep(250)` or `Sleep(100)`, every write in its box's colours |
| Program.Sample | MFFF/Program.cs:3-6 | the sample, built through the modelled constructors, returns and leaves the console exactly as SampleRenders describes |
| Program.DefaultsAreCopied | MFFF/Program.cs:119-123 | a box built with every argument omitted keeps the default colours and effect of its construction time after all three defaults are changed |

## Left out

- Real terminal behaviour (colour support, redirection, rendering) and real timing: the console is the abstract `Terminal.Console` and a sleep is only a trace event.
- The base `Effect.PrintEffect`, which throws `NotImplementedException`, cannot be reached: `Effect` is a closed datatype with the two variants.
- The `Colors` table (lines 174-194) only names the 16 `ConsoleColor` values. The model uses the `ConsoleColor` constructors directly.
- Reassigning a property after construction (`Text`, `Color`, `Effect`, `BGColor`, `TextColor`, `Texts`) is left out. The code never does it, so these are `const` fields set by the constructors. Only the defaults and the console are mutable.
- `Effect` is a value, not a shared object. A change to the `Delay` of a `TypeWriter` that several boxes (or `DefaultEffect`) share is not modelled.
- What happens after a call does not return is left out. An exception from `Thread.Sleep` goes uncaught and ends the program; `-1` blocks forever. Neither is modelled beyond the stopped trace.
- Failures of `Console.Write` and `Console.WriteLine` themselves (for example I/O errors) are not modelled.
- C# strings are UTF-16 code units, and `ToCharArray` splits surrogate pairs. Dafny's `char` is a Unicode scalar value, so the model's `ParseString` never splits a character.
- Concurrency on the shared console state: the code does not address it.
