/** The machine the engine drives: an LED buffer of RGB triples that is
    updated in place and pushed to the strip by `write`, plus the sleeps the
    loops perform. Writes and sleeps are recorded as events instead of
    being carried out. */
module Machines {
  import opened Validate

  /** An effect the engine has on the outside world. */
  datatype Event =
    | Wrote(frame: seq<Color>)
    | SleptMs(ms: int)
    | Slept(seconds: int)

  /** A strip of all-black pixels of the given length. */
  function Blank(count: nat): (r: seq<Color>)
    ensures |r| == count
    ensures forall i :: 0 <= i < count ==> r[i] == Black
  {
    seq(count, _ => Black)
  }

  class Machine {
    /** `machine.leds`: the pixel buffer; its length is the strip length. */
    const leds: array<Color>
    /** The writes and sleeps so far, oldest first. */
    var events: seq<Event>

    constructor(count: nat)
      ensures leds.Length == count && fresh(leds)
      ensures leds[..] == Blank(count)
      ensures events == []
    {
      leds := new Color[count](_ => Black);
      events := [];
    }

    /** `leds.fill(color)`: every pixel takes the colour. */
    method Fill(c: Color)
      modifies leds
      ensures leds[..] == seq(leds.Length, _ => c)
    {
      var i := 0;
      while i < leds.Length
        invariant 0 <= i <= leds.Length
        invariant forall j :: 0 <= j < i ==> leds[j] == c
      {
        leds[i] := c;
        i := i + 1;
      }
    }

    /** `leds.write()`: the current buffer goes to the strip. */
    method Write()
      modifies this
      ensures events == old(events) + [Wrote(leds[..])]
    {
      events := events + [Wrote(leds[..])];
    }

    /** `machine.sleep_ms(ms)`. */
    method SleepMs(ms: int)
      modifies this
      ensures events == old(events) + [SleptMs(ms)]
    {
      events := events + [SleptMs(ms)];
    }

    /** `time.sleep(seconds)`. */
    method Sleep(seconds: int)
      modifies this
      ensures events == old(events) + [Slept(seconds)]
    {
      events := events + [Slept(seconds)];
    }
  }
}
