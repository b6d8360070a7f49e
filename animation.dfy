/** Patterns and animations of `blinky/animation.py`: building them from
    their JSON description, the per-frame lookup that writes a pattern's
    colours into the LED buffer, and `Animation.run`. */
module Animations {
  import opened Values
  import opened Validate
  import opened LedSpecs
  import opened Keyframes
  import opened Machines

  /** A `Colors` pattern: its `(led, phase)` entries and its colour table. */
  datatype Pattern = Pattern(ledSpecs: seq<LedSpec>, colors: seq<Color>)

  datatype Animation = Animation(interval: int, duration: int, patterns: seq<Pattern>)

  // ---------------------------------------------------------------------
  // Construction.

  /** `Pattern.parse`: only the `"colors"` type exists; its constructor
      reads the LEDs first and then the colour table. */
  function PatternOf(data: Value, count: int, dur: int): (r: Result<Pattern>)
    ensures r.Ok? <==> data.JObj? && "type" in data.fields && data.fields["type"] == JStr("colors") &&
                       LedsOf(data.fields, count, dur).Ok? && TableOf(data.fields).Ok?
    ensures r.Ok? ==> r.value == Pattern(LedsOf(data.fields, count, dur).value, TableOf(data.fields).value)
  {
    match data
    case JObj(fields) =>
      var kind :- Get(fields, "type");
      if kind != JStr("colors") then Err(UnknownPattern(kind))
      else
        var specs :- LedsOf(fields, count, dur);
        var colors :- TableOf(fields);
        Ok(Pattern(specs, colors))
    case _ => Err(NotSubscriptable)
  }

  method ParsePattern(data: Value, count: int, dur: int) returns (r: Result<Pattern>)
    ensures r == PatternOf(data, count, dur)
  {
    if !data.JObj? {
      return Err(NotSubscriptable);
    }
    var kind :- Get(data.fields, "type");
    if kind != JStr("colors") {
      return Err(UnknownPattern(kind));
    }
    var specs :- ParseLeds(data.fields, count, dur);
    var colors :- ColorTable(data.fields);
    return Ok(Pattern(specs, colors));
  }

  /** `[Pattern.parse(self, p) for p in ps]`, or the first failure. */
  function PatternsOf(ps: seq<Value>, count: int, dur: int): Result<seq<Pattern>>
    decreases |ps|
  {
    if ps == [] then Ok([])
    else
      var before :- PatternsOf(ps[..|ps| - 1], count, dur);
      var last :- PatternOf(ps[|ps| - 1], count, dur);
      Ok(before + [last])
  }

  /** `Animation.__init__`: `interval`, then `duration`, then the patterns,
      which see the duration already set. */
  function AnimationOf(data: Value, count: int): Result<Animation> {
    match data
    case JObj(fields) =>
      var intervalValue :- Get(fields, "interval");
      var interval :- AssertInt(intervalValue);
      var durationValue :- Get(fields, "duration");
      var duration :- AssertInt(durationValue);
      var patternsValue :- Get(fields, "patterns");
      var items :- Records(patternsValue);
      var patterns :- PatternsOf(items, count, duration);
      Ok(Animation(interval, duration, patterns))
    case _ => Err(NotSubscriptable)
  }

  lemma {:induction false} PatternsFailure(ps: seq<Value>, j: nat, count: int, dur: int)
    requires j <= |ps| && PatternsOf(ps[..j], count, dur).Err?
    ensures PatternsOf(ps, count, dur) == PatternsOf(ps[..j], count, dur)
    decreases |ps|
  {
    if j < |ps| {
      var init := ps[..|ps| - 1];
      assert init[..j] == ps[..j];
      PatternsFailure(init, j, count, dur);
    } else {
      assert ps[..j] == ps;
    }
  }

  method BuildPatterns(ps: seq<Value>, count: int, dur: int) returns (r: Result<seq<Pattern>>)
    ensures r == PatternsOf(ps, count, dur)
  {
    var patterns: seq<Pattern> := [];
    var i := 0;
    while i < |ps|
      invariant 0 <= i <= |ps|
      invariant PatternsOf(ps[..i], count, dur) == Ok(patterns)
    {
      assert ps[..i + 1][..i] == ps[..i];
      var p := ParsePattern(ps[i], count, dur);
      if p.Err? {
        PatternsFailure(ps, i + 1, count, dur);
        return Err(p.error);
      }
      patterns := patterns + [p.value];
      i := i + 1;
    }
    assert ps[..i] == ps;
    return Ok(patterns);
  }

  method BuildAnimation(data: Value, count: int) returns (r: Result<Animation>)
    ensures r == AnimationOf(data, count)
  {
    if !data.JObj? {
      return Err(NotSubscriptable);
    }
    var intervalValue :- Get(data.fields, "interval");
    var interval :- AssertInt(intervalValue);
    var durationValue :- Get(data.fields, "duration");
    var duration :- AssertInt(durationValue);
    var patternsValue :- Get(data.fields, "patterns");
    var items :- Records(patternsValue);
    var patterns :- BuildPatterns(items, count, duration);
    return Ok(Animation(interval, duration, patterns));
  }

  /** One pattern per element of `"patterns"`, in order, each built with
      the animation's duration. */
  lemma {:induction false} PatternsShape(ps: seq<Value>, count: int, dur: int)
    requires PatternsOf(ps, count, dur).Ok?
    ensures |PatternsOf(ps, count, dur).value| == |ps|
    ensures forall q :: 0 <= q < |ps| ==> PatternOf(ps[q], count, dur) == Ok(PatternsOf(ps, count, dur).value[q])
    decreases |ps|
  {
    if ps != [] {
      var init := ps[..|ps| - 1];
      PatternsShape(init, count, dur);
      forall q | 0 <= q < |ps| - 1
        ensures ps[q] == init[q]
      {
      }
    }
  }

  /** A successful `Animation(...)` keeps the interval and duration it was
      given, and has one pattern per element of the `"patterns"` list. */
  lemma AnimationShape(data: Value, count: int)
    requires AnimationOf(data, count).Ok?
    ensures data.JObj? && "interval" in data.fields && "duration" in data.fields && "patterns" in data.fields
    ensures var a := AnimationOf(data, count).value;
            data.fields["interval"] == JInt(a.interval) && data.fields["duration"] == JInt(a.duration)
    ensures var a := AnimationOf(data, count).value;
            var ps := data.fields["patterns"];
            ps.JList? ==>
              (|a.patterns| == |ps.items| &&
               forall q :: 0 <= q < |ps.items| ==> PatternOf(ps.items[q], count, a.duration) == Ok(a.patterns[q]))
  {
    var items := Records(data.fields["patterns"]).value;
    PatternsShape(items, count, AnimationOf(data, count).value.duration);
  }

  // ---------------------------------------------------------------------
  // The per-frame lookup: `leds(offset)` and `LookupPattern.apply`.

  /** The buffer after a step, and the exception that stopped it, if any.
      Writes made before the exception stay in the buffer. */
  datatype Outcome = Outcome(buf: seq<Color>, failure: Option<Error>)

  /** What one entry of `apply` does on a strip of `n` pixels: the phase
      `(phase + offset) % duration`, the colour `colors[phase % len(colors)]`
      and the slot `machine.leds[led]` addresses, in that order. */
  function Lookup(spec: LedSpec, offset: int, dur: int, colors: seq<Color>, n: nat): (r: Result<(nat, Color)>)
    ensures r.Ok? <==> dur != 0 && |colors| > 0 && 0 <= spec.led + n && spec.led < n
    ensures r.Ok? ==> ListIndex(spec.led, n) == Ok(r.value.0) &&
                      r.value.1 == colors[PyMod(PyMod(spec.phase + offset, dur), |colors|)]
  {
    var phase :- Mod(spec.phase + offset, dur);
    var index :- Mod(phase, |colors|);
    var slot :- ListIndex(spec.led, n);
    Ok((slot, colors[index]))
  }

  /** `apply(offset)` over the entries `specs`, starting from `buf`. */
  function ApplyFrom(buf: seq<Color>, specs: seq<LedSpec>, offset: int, dur: int, colors: seq<Color>): (r: Outcome)
    ensures |r.buf| == |buf|
    decreases |specs|
  {
    if specs == [] then Outcome(buf, None)
    else match Lookup(specs[0], offset, dur, colors, |buf|)
      case Err(e) => Outcome(buf, Some(e))
      case Ok((slot, c)) => ApplyFrom(buf[slot := c], specs[1..], offset, dur, colors)
  }

  /** True when `apply` cannot raise for a pattern on a strip of `n`
      pixels: it owns no LED, or the duration is non-zero, the colour table
      is non-empty and every entry addresses the strip. */
  predicate Fits(specs: seq<LedSpec>, colors: seq<Color>, dur: int, n: nat) {
    specs == [] || (dur != 0 && |colors| > 0 && forall k :: 0 <= k < |specs| ==> 0 <= specs[k].led + n && specs[k].led < n)
  }

  /** `apply` raises exactly when the pattern does not fit the strip, and
      then on its first entry that does not. */
  lemma {:induction false} ApplySucceeds(buf: seq<Color>, specs: seq<LedSpec>, offset: int, dur: int, colors: seq<Color>)
    ensures ApplyFrom(buf, specs, offset, dur, colors).failure.None? <==> Fits(specs, colors, dur, |buf|)
    decreases |specs|
  {
    if specs != [] && Lookup(specs[0], offset, dur, colors, |buf|).Ok? {
      var (slot, c) := Lookup(specs[0], offset, dur, colors, |buf|).value;
      ApplySucceeds(buf[slot := c], specs[1..], offset, dur, colors);
      if Fits(specs[1..], colors, dur, |buf|) {
        forall k | 0 <= k < |specs|
          ensures 0 <= specs[k].led + |buf| && specs[k].led < |buf|
        {
          if k > 0 {
            assert specs[k] == specs[1..][k - 1];
          }
        }
      }
    }
  }

  /** `apply` leaves every pixel no entry addresses unchanged, whether or
      not it raises. */
  lemma {:induction false} ApplyUntouched(buf: seq<Color>, specs: seq<LedSpec>, offset: int, dur: int,
                                          colors: seq<Color>, j: nat)
    requires j < |buf|
    requires forall k :: 0 <= k < |specs| ==> ListIndex(specs[k].led, |buf|) != Ok(j)
    ensures ApplyFrom(buf, specs, offset, dur, colors).buf[j] == buf[j]
    decreases |specs|
  {
    if specs != [] && Lookup(specs[0], offset, dur, colors, |buf|).Ok? {
      var (slot, c) := Lookup(specs[0], offset, dur, colors, |buf|).value;
      forall k | 0 <= k < |specs| - 1
        ensures ListIndex(specs[1..][k].led, |buf|) != Ok(j)
      {
        assert specs[1..][k] == specs[k + 1];
      }
      ApplyUntouched(buf[slot := c], specs[1..], offset, dur, colors, j);
    }
  }

  /** When several entries address one pixel, the last one wins: after a
      successful `apply` the pixel holds the colour of the last entry
      addressing it. */
  lemma {:induction false} ApplyLastWins(buf: seq<Color>, specs: seq<LedSpec>, offset: int, dur: int,
                                         colors: seq<Color>, k: nat, j: nat)
    requires k < |specs| && j < |buf|
    requires ApplyFrom(buf, specs, offset, dur, colors).failure.None?
    requires ListIndex(specs[k].led, |buf|) == Ok(j)
    requires forall k' :: k < k' < |specs| ==> ListIndex(specs[k'].led, |buf|) != Ok(j)
    ensures Lookup(specs[k], offset, dur, colors, |buf|).Ok?
    ensures ApplyFrom(buf, specs, offset, dur, colors).buf[j] == Lookup(specs[k], offset, dur, colors, |buf|).value.1
    decreases |specs|
  {
    ApplySucceeds(buf, specs, offset, dur, colors);
    var (slot, c) := Lookup(specs[0], offset, dur, colors, |buf|).value;
    var rest := specs[1..];
    if k == 0 {
      forall k' | 0 <= k' < |rest|
        ensures ListIndex(rest[k'].led, |buf|) != Ok(j)
      {
        assert rest[k'] == specs[k' + 1];
      }
      ApplyUntouched(buf[slot := c], rest, offset, dur, colors, j);
    } else {
      assert rest[k - 1] == specs[k];
      forall k' | k - 1 < k' < |rest|
        ensures ListIndex(rest[k'].led, |buf|) != Ok(j)
      {
        assert rest[k'] == specs[k' + 1];
      }
      ApplyLastWins(buf[slot := c], rest, offset, dur, colors, k - 1, j);
    }
  }

  /** `pattern.apply(offset)` on the machine's buffer. */
  method Apply(m: Machine, p: Pattern, offset: int, dur: int) returns (failure: Option<Error>)
    modifies m.leds
    ensures ApplyFrom(old(m.leds[..]), p.ledSpecs, offset, dur, p.colors) == Outcome(m.leds[..], failure)
  {
    var i := 0;
    while i < |p.ledSpecs|
      invariant 0 <= i <= |p.ledSpecs|
      invariant ApplyFrom(old(m.leds[..]), p.ledSpecs, offset, dur, p.colors)
                == ApplyFrom(m.leds[..], p.ledSpecs[i..], offset, dur, p.colors)
    {
      var spec := p.ledSpecs[i];
      var phase := Mod(spec.phase + offset, dur);
      if phase.Err? {
        return Some(phase.error);
      }
      var index := Mod(phase.value, |p.colors|);
      if index.Err? {
        return Some(index.error);
      }
      var slot := ListIndex(spec.led, m.leds.Length);
      if slot.Err? {
        return Some(slot.error);
      }
      assert p.ledSpecs[i..][1..] == p.ledSpecs[i + 1..];
      m.leds[slot.value] := p.colors[index.value];
      i := i + 1;
    }
    return None;
  }

  /** One frame: every pattern applies in list order, so later patterns
      win on shared pixels; the first exception stops the frame. */
  function ApplyAll(buf: seq<Color>, patterns: seq<Pattern>, offset: int, dur: int): (r: Outcome)
    ensures |r.buf| == |buf|
    decreases |patterns|
  {
    if patterns == [] then Outcome(buf, None)
    else
      var o := ApplyFrom(buf, patterns[0].ledSpecs, offset, dur, patterns[0].colors);
      if o.failure.Some? then o
      else ApplyAll(o.buf, patterns[1..], offset, dur)
  }

  predicate AllFit(patterns: seq<Pattern>, dur: int, n: nat) {
    forall q :: 0 <= q < |patterns| ==> Fits(patterns[q].ledSpecs, patterns[q].colors, dur, n)
  }

  /** A frame raises exactly when some pattern does not fit the strip. */
  lemma {:induction false} ApplyAllSucceeds(buf: seq<Color>, patterns: seq<Pattern>, offset: int, dur: int)
    ensures ApplyAll(buf, patterns, offset, dur).failure.None? <==> AllFit(patterns, dur, |buf|)
    decreases |patterns|
  {
    if patterns != [] {
      var p := patterns[0];
      ApplySucceeds(buf, p.ledSpecs, offset, dur, p.colors);
      var o := ApplyFrom(buf, p.ledSpecs, offset, dur, p.colors);
      ApplyAllSucceeds(o.buf, patterns[1..], offset, dur);
      assert AllFit(patterns, dur, |buf|) <==>
             Fits(p.ledSpecs, p.colors, dur, |buf|) && AllFit(patterns[1..], dur, |buf|) by {
        if Fits(p.ledSpecs, p.colors, dur, |buf|) && AllFit(patterns[1..], dur, |buf|) {
          forall q | 0 < q < |patterns|
            ensures Fits(patterns[q].ledSpecs, patterns[q].colors, dur, |buf|)
          {
            assert patterns[q] == patterns[1..][q - 1];
          }
        }
      }
    }
  }

  /** True when no entry of any pattern addresses pixel `j`. */
  predicate Unowned(patterns: seq<Pattern>, n: nat, j: nat) {
    forall q, k :: 0 <= q < |patterns| && 0 <= k < |patterns[q].ledSpecs| ==>
      ListIndex(patterns[q].ledSpecs[k].led, n) != Ok(j)
  }

  /** A pattern built for a positive duration from a description without
      bare integer indices addresses only pixels on the strip, so it raises
      on `apply` only when it owns LEDs but has an empty colour table. */
  lemma ParsedPatternFits(data: Value, count: nat, dur: int)
    requires dur > 0 && PatternOf(data, count, dur).Ok? && data.JObj? && NoBareIndex(data.fields)
    ensures var p := PatternOf(data, count, dur).value;
            Fits(p.ledSpecs, p.colors, dur, count) <==> p.ledSpecs == [] || p.colors != []
  {
    LedsShape(data.fields, count, dur);
  }

  /** A frame leaves pixels no pattern owns unchanged. */
  lemma {:induction false} ApplyAllUntouched(buf: seq<Color>, patterns: seq<Pattern>, offset: int, dur: int, j: nat)
    requires j < |buf| && Unowned(patterns, |buf|, j)
    ensures ApplyAll(buf, patterns, offset, dur).buf[j] == buf[j]
    decreases |patterns|
  {
    if patterns != [] {
      var p := patterns[0];
      ApplyUntouched(buf, p.ledSpecs, offset, dur, p.colors, j);
      var o := ApplyFrom(buf, p.ledSpecs, offset, dur, p.colors);
      forall q, k | 0 <= q < |patterns| - 1 && 0 <= k < |patterns[1..][q].ledSpecs|
        ensures ListIndex(patterns[1..][q].ledSpecs[k].led, |buf|) != Ok(j)
      {
        assert patterns[1..][q] == patterns[q + 1];
      }
      ApplyAllUntouched(o.buf, patterns[1..], offset, dur, j);
    }
  }

  /** On a pixel several patterns share, the later pattern wins: after a
      successful frame the pixel holds the colour of the last entry of the
      last pattern addressing it. */
  lemma {:induction false} LaterPatternWins(buf: seq<Color>, patterns: seq<Pattern>, offset: int, dur: int,
                                            q: nat, k: nat, j: nat)
    requires q < |patterns| && k < |patterns[q].ledSpecs| && j < |buf|
    requires ApplyAll(buf, patterns, offset, dur).failure.None?
    requires ListIndex(patterns[q].ledSpecs[k].led, |buf|) == Ok(j)
    requires forall k' :: k < k' < |patterns[q].ledSpecs| ==> ListIndex(patterns[q].ledSpecs[k'].led, |buf|) != Ok(j)
    requires Unowned(patterns[q + 1..], |buf|, j)
    ensures Lookup(patterns[q].ledSpecs[k], offset, dur, patterns[q].colors, |buf|).Ok?
    ensures ApplyAll(buf, patterns, offset, dur).buf[j]
            == Lookup(patterns[q].ledSpecs[k], offset, dur, patterns[q].colors, |buf|).value.1
    decreases |patterns|
  {
    var p := patterns[0];
    var o := ApplyFrom(buf, p.ledSpecs, offset, dur, p.colors);
    if q == 0 {
      ApplyLastWins(buf, p.ledSpecs, offset, dur, p.colors, k, j);
      ApplyAllUntouched(o.buf, patterns[1..], offset, dur, j);
    } else {
      assert patterns[1..][q - 1] == patterns[q];
      assert patterns[1..][q - 1 + 1..] == patterns[q + 1..];
      LaterPatternWins(o.buf, patterns[1..], offset, dur, q - 1, k, j);
    }
  }

  method ApplyPatterns(m: Machine, a: Animation, offset: int) returns (failure: Option<Error>)
    modifies m.leds
    ensures ApplyAll(old(m.leds[..]), a.patterns, offset, a.duration) == Outcome(m.leds[..], failure)
  {
    var q := 0;
    while q < |a.patterns|
      invariant 0 <= q <= |a.patterns|
      invariant ApplyAll(old(m.leds[..]), a.patterns, offset, a.duration)
                == ApplyAll(m.leds[..], a.patterns[q..], offset, a.duration)
    {
      assert a.patterns[q..][1..] == a.patterns[q + 1..];
      failure := Apply(m, a.patterns[q], offset, a.duration);
      if failure.Some? {
        return;
      }
      q := q + 1;
    }
    return None;
  }

  // ---------------------------------------------------------------------
  // `Animation.run`.

  /** The buffer at the end of a run, the writes and sleeps it made, and
      the exception that ended it early, if any. */
  datatype Trace = Trace(buf: seq<Color>, events: seq<Event>, failure: Option<Error>)

  /** Frames `n .. duration - 1`, starting from `buf`: each applies the
      patterns with offset `n`, then writes the buffer and sleeps
      `interval` milliseconds. */
  function Frames(buf: seq<Color>, a: Animation, n: int): (t: Trace)
    ensures |t.buf| == |buf|
    decreases a.duration - n
  {
    if n >= a.duration then Trace(buf, [], None)
    else
      var o := ApplyAll(buf, a.patterns, n, a.duration);
      if o.failure.Some? then Trace(o.buf, [], o.failure)
      else
        var rest := Frames(o.buf, a, n + 1);
        Trace(rest.buf, [Wrote(o.buf), SleptMs(a.interval)] + rest.events, rest.failure)
  }

  /** `run()` on a strip of `count` pixels: the buffer is first filled with
      black, so what was on the strip before does not matter. */
  function RunTrace(count: nat, a: Animation): Trace {
    Frames(Blank(count), a, 0)
  }

  method RunAnimation(m: Machine, a: Animation) returns (failure: Option<Error>)
    modifies m, m.leds
    ensures var t := RunTrace(m.leds.Length, a);
            m.leds[..] == t.buf && m.events == old(m.events) + t.events && failure == t.failure
  {
    m.Fill(Black);
    assert m.leds[..] == Blank(m.leds.Length);
    // `pattern.init()` does nothing for a `Colors` pattern.
    ghost var emitted: seq<Event> := [];
    var n := 0;
    while n < a.duration
      invariant m.events == old(m.events) + emitted
      invariant var t := Frames(m.leds[..], a, n);
                RunTrace(m.leds.Length, a) == Trace(t.buf, emitted + t.events, t.failure)
      decreases a.duration - n
    {
      failure := ApplyPatterns(m, a, n);
      if failure.Some? {
        return;
      }
      m.Write();
      m.SleepMs(a.interval);
      ghost var pair := [Wrote(m.leds[..]), SleptMs(a.interval)];
      AppendAssociates(emitted, pair, Frames(m.leds[..], a, n + 1).events);
      AppendAssociates(old(m.events), emitted, pair);
      emitted := emitted + pair;
      n := n + 1;
    }
    return None;
  }

  /** The events of a run come in pairs, one per completed frame: a write
      of the frame, then a sleep of `interval` milliseconds. */
  predicate FramePairs(events: seq<Event>, interval: int, count: nat) {
    |events| % 2 == 0 &&
    forall i :: 0 <= i < |events| ==>
      (i % 2 == 0 ==> events[i].Wrote? && |events[i].frame| == count) &&
      (i % 2 == 1 ==> events[i] == SleptMs(interval))
  }

  /** A run writes once per frame and sleeps `interval` after each write;
      a run that does not raise makes exactly `duration` frames. A run
      raises exactly when some pattern does not fit the strip and there is
      at least one frame. */
  lemma {:induction false} FramesShape(buf: seq<Color>, a: Animation, n: int)
    ensures var t := Frames(buf, a, n);
            FramePairs(t.events, a.interval, |buf|) &&
            (t.failure.None? ==> |t.events| == 2 * Max0(a.duration - n)) &&
            (t.failure.None? <==> n >= a.duration || AllFit(a.patterns, a.duration, |buf|))
    decreases a.duration - n
  {
    if n < a.duration {
      var o := ApplyAll(buf, a.patterns, n, a.duration);
      ApplyAllSucceeds(buf, a.patterns, n, a.duration);
      if o.failure.None? {
        FramesShape(o.buf, a, n + 1);
        PairsCons(o.buf, a.interval, Frames(o.buf, a, n + 1).events);
      }
    }
  }

  /** One more frame in front of a run's events keeps them in pairs. */
  lemma PairsCons(frame: seq<Color>, interval: int, rest: seq<Event>)
    requires FramePairs(rest, interval, |frame|)
    ensures FramePairs([Wrote(frame), SleptMs(interval)] + rest, interval, |frame|)
  {
  }

  /** A pixel no pattern owns stays black in every frame a run writes. */
  lemma {:induction false} FramesUnowned(buf: seq<Color>, a: Animation, n: int, j: nat)
    requires j < |buf| && buf[j] == Black && Unowned(a.patterns, |buf|, j)
    ensures var t := Frames(buf, a, n);
            t.buf[j] == Black &&
            forall i :: 0 <= i < |t.events| && t.events[i].Wrote? ==>
              j < |t.events[i].frame| && t.events[i].frame[j] == Black
    decreases a.duration - n
  {
    if n < a.duration {
      var o := ApplyAll(buf, a.patterns, n, a.duration);
      ApplyAllUntouched(buf, a.patterns, n, a.duration, j);
      if o.failure.None? {
        FramesUnowned(o.buf, a, n + 1, j);
        var rest := Frames(o.buf, a, n + 1);
        var events := [Wrote(o.buf), SleptMs(a.interval)] + rest.events;
        forall i | 2 <= i < |events|
          ensures events[i] == rest.events[i - 2]
        {
        }
      }
    }
  }
}
