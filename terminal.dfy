/**
 * An abstract stand-in for System.Console and Thread.Sleep: the console's
 * current background and foreground colours and an append-only trace of the
 * events that reach the terminal.
 */
module Terminal {

  /** The sixteen console colours, in the order of System.ConsoleColor. */
  datatype ConsoleColor =
    | Black | DarkBlue | DarkGreen | DarkCyan | DarkRed | DarkMagenta | DarkYellow | Gray
    | DarkGray | Blue | Green | Cyan | Red | Magenta | Yellow | White

  /** C#'s `int`. */
  newtype int32 = x: int | -0x8000_0000 <= x < 0x8000_0000

  /**
   * What reaches the terminal. A write carries the colours the console had
   * when it was written, since that is how the text appears on screen.
   */
  datatype Event =
    | Write(text: string, bg: ConsoleColor, fg: ConsoleColor)
    | Sleep(ms: int32)
    | NewLine

  /** A snapshot of the console. */
  datatype ConsoleState = ConsoleState(background: ConsoleColor, foreground: ConsoleColor, trace: seq<Event>)

  /** The console after a print call, and whether the call returned normally. */
  datatype Outcome = Outcome(state: ConsoleState, returned: bool)

  /**
   * The characters the events put on screen. `WriteLine()` writes the
   * platform's line terminator (`Environment.NewLine`), shown here as "\n".
   */
  function Output(es: seq<Event>): string
  {
    if es == [] then ""
    else
      var head := match es[0]
        case Write(s, _, _) => s
        case Sleep(_) => ""
        case NewLine => "\n";
      head + Output(es[1..])
  }

  /** The number of line terminators in the events. */
  function NewLines(es: seq<Event>): nat
  {
    if es == [] then 0 else (if es[0].NewLine? then 1 else 0) + NewLines(es[1..])
  }

  /** Every write among `es` is in background `bg` and foreground `fg`. */
  predicate WritesIn(es: seq<Event>, bg: ConsoleColor, fg: ConsoleColor)
  {
    forall k | 0 <= k < |es| :: es[k].Write? ==> es[k].bg == bg && es[k].fg == fg
  }

  /** Output and line count are additive over concatenated traces. */
  lemma {:induction false} OutputAppend(a: seq<Event>, b: seq<Event>)
    ensures Output(a + b) == Output(a) + Output(b)
    ensures NewLines(a + b) == NewLines(a) + NewLines(b)
  {
    if a == [] {
      assert a + b == b;
    } else {
      assert (a + b)[0] == a[0];
      assert (a + b)[1..] == a[1..] + b;
      OutputAppend(a[1..], b);
    }
  }

  /** What a single event shows and whether it ends a line. */
  lemma OneEvent(e: Event)
    ensures Output([e]) == match e case Write(s, _, _) => s case Sleep(_) => "" case NewLine => "\n"
    ensures NewLines([e]) == if e.NewLine? then 1 else 0
  {
    assert [e][1..] == [];
  }

  class Console {
    var background: ConsoleColor
    var foreground: ConsoleColor
    var trace: seq<Event>

    /** A console in the given colours that has shown nothing yet. */
    constructor (background: ConsoleColor, foreground: ConsoleColor)
      ensures State() == ConsoleState(background, foreground, [])
    {
      this.background := background;
      this.foreground := foreground;
      trace := [];
    }

    function State(): ConsoleState
      reads this
    {
      ConsoleState(background, foreground, trace)
    }

    /** Console.Write(text): shows `text` in the current colours. */
    method Write(text: string)
      modifies this
      ensures State() == old(State()).(trace := old(trace) + [Event.Write(text, background, foreground)])
    {
      trace := trace + [Event.Write(text, background, foreground)];
    }

    /** Console.WriteLine(): ends the current line. */
    method WriteLine()
      modifies this
      ensures State() == old(State()).(trace := old(trace) + [NewLine])
    {
      trace := trace + [NewLine];
    }

    /**
     * Thread.Sleep(ms). A non-negative delay sleeps and returns. A negative one
     * does not return: -1 waits forever and any other negative value throws
     * ArgumentOutOfRangeException.
     */
    method Sleep(ms: int32) returns (returned: bool)
      modifies this
      ensures returned <==> 0 <= ms
      ensures State() == if returned then old(State()).(trace := old(trace) + [Event.Sleep(ms)]) else old(State())
    {
      returned := 0 <= ms;
      if returned {
        trace := trace + [Event.Sleep(ms)];
      }
    }
  }
}
