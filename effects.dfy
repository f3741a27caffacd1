/**
 * The text effects: how a TextBox's text is sent to the console. The base
 * class's `PrintEffect` only throws; with a closed datatype it is unreachable.
 */
module Effects {
  import opened Terminal
  import opened Wrappers
  import Utils

  /** The delay, in milliseconds, of a TypeWriter built without one. */
  const DefaultDelay: int32 := 500

  /** The events an effect emits, and whether it returned normally. */
  datatype Emission = Emission(events: seq<Event>, returned: bool)

  datatype Effect = NoEffect | TypeWriter(delay: int32)
  {
    /**
     * Effect.PrintEffect: emits `text` in the console's current colours,
     * which it leaves alone.
     */
    method PrintEffect(text: string, console: Console) returns (returned: bool)
      modifies console
      ensures var em := Emit(this, text, old(console.background), old(console.foreground));
        && console.State() == old(console.State()).(trace := old(console.trace) + em.events)
        && returned == em.returned
    {
      match this
      case NoEffect =>
        console.Write(text);
        returned := true;
      case TypeWriter(delay) =>
        var chars := Utils.ParseString(text);
        returned := true;
        var i := 0;
        while i < |chars|
          invariant 0 <= i <= |chars|
          invariant 0 < i ==> 0 <= delay
          invariant console.background == old(console.background) && console.foreground == old(console.foreground)
          invariant console.trace + TypeWriterEmission(text[i..], delay, console.background, console.foreground).events
                 == old(console.trace) + TypeWriterEmission(text, delay, console.background, console.foreground).events
        {
          console.Write(chars[i]);
          assert text[i..][1..] == text[i + 1..];
          returned := console.Sleep(delay);
          if !returned {
            return;
          }
          i := i + 1;
        }
    }
  }

  /** `new TypeWriter(delay)`, where an omitted delay is 500 ms. */
  function NewTypeWriter(delay: Option<int32>): (e: Effect)
    ensures e.TypeWriter?
    ensures delay.Some? ==> e.delay == delay.value
    ensures delay.None? ==> e.delay == 500
  {
    TypeWriter(delay.GetOr(DefaultDelay))
  }

  /** What `e.PrintEffect(text)` emits while the console is in colours `bg`/`fg`. */
  function Emit(e: Effect, text: string, bg: ConsoleColor, fg: ConsoleColor): (r: Emission)
    ensures r.returned <==> Returns(e, text)
    ensures WritesIn(r.events, bg, fg)
  {
    match e
    case NoEffect => Emission([Write(text, bg, fg)], true)
    case TypeWriter(delay) => TypeWriterEmission(text, delay, bg, fg)
  }

  /**
   * An effect returns normally unless it is a TypeWriter with a negative
   * delay and there is at least one character to sleep after.
   */
  predicate Returns(e: Effect, text: string)
  {
    !(e.TypeWriter? && e.delay < 0 && text != [])
  }

  /** TypeWriter.PrintEffect: each character is written, then the thread sleeps `delay`. */
  function TypeWriterEmission(text: string, delay: int32, bg: ConsoleColor, fg: ConsoleColor): (r: Emission)
    ensures r.returned <==> (0 <= delay || text == [])
    ensures WritesIn(r.events, bg, fg)
  {
    if text == [] then Emission([], true)
    else
      var written := [Write([text[0]], bg, fg)];
      if delay < 0 then Emission(written, false)
      else
        var rest := TypeWriterEmission(text[1..], delay, bg, fg);
        Emission(written + [Sleep(delay)] + rest.events, rest.returned)
  }

  /** NoEffect writes the whole text in one write, never sleeps, and returns. */
  lemma NoEffectWritesOnce(text: string, bg: ConsoleColor, fg: ConsoleColor)
    ensures Emit(NoEffect, text, bg, fg) == Emission([Write(text, bg, fg)], true)
  {
  }

  /**
   * With a non-negative delay, TypeWriter emits exactly `Write(c), Sleep(delay)`
   * for each character `c` of the text, in order, the last one included.
   */
  lemma {:induction false} TypeWriterInterleaves(text: string, delay: int32, bg: ConsoleColor, fg: ConsoleColor)
    requires 0 <= delay
    ensures var es := TypeWriterEmission(text, delay, bg, fg).events;
      && |es| == 2 * |text|
      && forall k :: 0 <= k < |text| ==> es[2 * k] == Write([text[k]], bg, fg) && es[2 * k + 1] == Sleep(delay)
  {
    if text != [] {
      var rest := TypeWriterEmission(text[1..], delay, bg, fg).events;
      TypeWriterInterleaves(text[1..], delay, bg, fg);
      var es := TypeWriterEmission(text, delay, bg, fg).events;
      assert es == [Write([text[0]], bg, fg), Sleep(delay)] + rest;
      forall k | 1 <= k < |text|
        ensures es[2 * k] == Write([text[k]], bg, fg) && es[2 * k + 1] == Sleep(delay)
      {
        assert es[2 * k] == rest[2 * (k - 1)];
        assert es[2 * k + 1] == rest[2 * (k - 1) + 1];
        assert text[1..][k - 1] == text[k];
      }
    }
  }

  /**
   * With a negative delay, TypeWriter writes the first character and then
   * does not return, so nothing else is emitted.
   */
  lemma TypeWriterStopsOnNegativeDelay(text: string, delay: int32, bg: ConsoleColor, fg: ConsoleColor)
    requires delay < 0 && text != []
    ensures TypeWriterEmission(text, delay, bg, fg) == Emission([Write([text[0]], bg, fg)], false)
  {
  }

  /** An effect that returns has put exactly its text on screen and ended no line. */
  lemma {:induction false} EmitShowsText(e: Effect, text: string, bg: ConsoleColor, fg: ConsoleColor)
    ensures var em := Emit(e, text, bg, fg);
      && NewLines(em.events) == 0
      && (em.returned ==> Output(em.events) == text)
  {
    match e
    case NoEffect =>
      OneEvent(Write(text, bg, fg));
    case TypeWriter(delay) =>
      TypeWriterShowsText(text, delay, bg, fg);
  }

  lemma {:induction false} TypeWriterShowsText(text: string, delay: int32, bg: ConsoleColor, fg: ConsoleColor)
    ensures var em := TypeWriterEmission(text, delay, bg, fg);
      && NewLines(em.events) == 0
      && (em.returned ==> Output(em.events) == text)
  {
    if text != [] {
      var written := [Write([text[0]], bg, fg)];
      OneEvent(written[0]);
      if 0 <= delay {
        var rest := TypeWriterEmission(text[1..], delay, bg, fg);
        TypeWriterShowsText(text[1..], delay, bg, fg);
        OneEvent(Sleep(delay));
        OutputAppend(written, [Sleep(delay)]);
        OutputAppend(written + [Sleep(delay)], rest.events);
        assert text == [text[0]] + text[1..];
      }
    }
  }

  /** Both effects put the same characters on screen when they return. */
  lemma EffectsAgreeOnText(text: string, delay: int32, bg: ConsoleColor, fg: ConsoleColor)
    requires 0 <= delay
    ensures Output(Emit(TypeWriter(delay), text, bg, fg).events) == Output(Emit(NoEffect, text, bg, fg).events) == text
  {
    EmitShowsText(TypeWriter(delay), text, bg, fg);
    EmitShowsText(NoEffect, text, bg, fg);
  }
}
