/** The LED-selection language of `Pattern.__init__` in
    `blinky/animation.py`: which LEDs a pattern owns and the phase offset of
    each. The loops of the source are methods proved against the
    specification functions of this module. */
module LedSpecs {
  import opened Values
  import opened Validate

  /** One entry of `led_specs`: an LED index and its phase in frames. */
  datatype LedSpec = LedSpec(led: int, phase: int)

  /** A call `add_led(index, offset)` whose index passed the bounds check. */
  datatype Cand = Cand(led: int, offset: int)

  /** The candidate `add_led(index, offset)` keeps: none unless
      `0 <= index < count`. */
  function Bounded(index: int, offset: int, count: int): seq<Cand> {
    if 0 <= index < count then [Cand(index, offset)] else []
  }

  /** The entries recorded for candidates: `(index, offset % duration)`. */
  function Tag(cands: seq<Cand>, dur: int): (r: seq<LedSpec>)
    requires dur != 0
    ensures |r| == |cands|
    ensures forall k :: 0 <= k < |cands| ==> r[k] == LedSpec(cands[k].led, PyMod(cands[k].offset, dur))
  {
    seq(|cands|, k requires 0 <= k < |cands| => LedSpec(cands[k].led, PyMod(cands[k].offset, dur)))
  }

  /** Recording candidates in order: the first one raises ZeroDivisionError
      when the duration is 0. */
  function Record(cands: seq<Cand>, dur: int): (r: Result<seq<LedSpec>>)
    ensures r.Err? <==> cands != [] && dur == 0
    ensures r.Ok? ==> |r.value| == |cands|
    ensures r.Ok? ==> forall k :: 0 <= k < |cands| ==>
      r.value[k].led == cands[k].led && (dur > 0 ==> 0 <= r.value[k].phase < dur)
  {
    if cands == [] then Ok([]) else if dur == 0 then Err(ZeroDivision) else Ok(Tag(cands, dur))
  }

  /** The nested `add_led(index, offset)`: it appends `(index, offset %
      duration)` exactly when `0 <= index < count`. */
  function AddLed(index: int, offset: int, count: int, dur: int): (r: Result<seq<LedSpec>>)
    ensures r.Err? <==> 0 <= index < count && dur == 0
    ensures r.Ok? && 0 <= index < count ==> r.value == [LedSpec(index, PyMod(offset, dur))]
    ensures r.Ok? && !(0 <= index < count) ==> r.value == []
  {
    Record(Bounded(index, offset, count), dur)
  }

  lemma TagAppend(a: seq<Cand>, b: seq<Cand>, dur: int)
    requires dur != 0
    ensures Tag(a + b, dur) == Tag(a, dur) + Tag(b, dur)
  {
  }

  /** `specs` is what recording the candidates `done` has appended. */
  predicate Recorded(done: seq<Cand>, specs: seq<LedSpec>, dur: int) {
    (dur != 0 ==> specs == Tag(done, dur)) && (dur == 0 ==> done == [] && specs == [])
  }

  /** Recording more candidates after `done` appends their entries. */
  lemma RecordJoin(done: seq<Cand>, specs: seq<LedSpec>, more: seq<Cand>, dur: int)
    requires Recorded(done, specs, dur) && Record(more, dur).Ok?
    ensures Recorded(done + more, specs + Record(more, dur).value, dur)
    ensures Record(done + more, dur) == Ok(specs + Record(more, dur).value)
  {
  }

  /** Once every candidate is recorded, the entries are `Record`'s result. */
  lemma RecordedAll(done: seq<Cand>, specs: seq<LedSpec>, dur: int)
    requires Recorded(done, specs, dur)
    ensures Record(done, dur) == Ok(specs)
  {
  }

  // ---------------------------------------------------------------------
  // No "leds" key: every LED of the strip, phase 0.

  function EveryLed(count: int): (r: seq<Cand>)
    ensures |r| == Max0(count)
    ensures forall i :: 0 <= i < |r| ==> r[i] == Cand(i, 0)
  {
    seq(Max0(count), i => Cand(i, 0))
  }

  /** `for i in range(len(leds)): add_led(i, 0)`: LEDs `0 .. count-1` in
      order, each with phase 0. */
  method AllLeds(count: int, dur: int) returns (r: Result<seq<LedSpec>>)
    ensures r == Record(EveryLed(count), dur)
    ensures r.Err? <==> count > 0 && dur == 0
    ensures r.Ok? ==> |r.value| == Max0(count) &&
                      forall i :: 0 <= i < |r.value| ==> r.value[i] == LedSpec(i, 0)
  {
    var specs: seq<LedSpec> := [];
    ghost var done: seq<Cand> := [];
    var i := 0;
    while i < count
      invariant 0 <= i <= Max0(count)
      invariant done == EveryLed(i)
      invariant Recorded(done, specs, dur)
    {
      var added :- AddLed(i, 0, count, dur);
      RecordJoin(done, specs, Bounded(i, 0, count), dur);
      done := done + Bounded(i, 0, count);
      specs := specs + added;
      i := i + 1;
    }
    assert done == EveryLed(count);
    RecordedAll(done, specs, dur);
    return Ok(specs);
  }

  // ---------------------------------------------------------------------
  // "index" with "repeat": index, index + repeat, ... while below count.

  /** The candidates of `while index < count: add_led(index, offset);
      index += stride`, for a stride that makes the loop end. */
  function StrideCands(index: int, stride: int, offset: int, count: int): seq<Cand>
    requires stride > 0
    decreases count - index
  {
    if index >= count then []
    else Bounded(index, offset, count) + StrideCands(index + stride, stride, offset, count)
  }

  /** The outcome of the `index`/`repeat` loop. With a stride that is not
      positive and a start below `count` the loop never ends: it spins
      forever, or, with stride 0 on an LED of the strip, appends forever
      until memory runs out; an LED of the strip with duration 0 raises at
      once. */
  function StrideOutcome(index: int, stride: int, offset: int, count: int, dur: int): Result<seq<LedSpec>> {
    if index >= count then Ok([])
    else if stride > 0 then Record(StrideCands(index, stride, offset, count), dur)
    else if 0 <= index && dur == 0 then Err(ZeroDivision)
    else if 0 <= index && stride == 0 then Err(OutOfMemory)
    else Err(Diverges)
  }

  method Stride(index0: int, stride: int, offset: int, count: int, dur: int) returns (r: Result<seq<LedSpec>>)
    ensures r == StrideOutcome(index0, stride, offset, count, dur)
  {
    if stride <= 0 && index0 < count {
      // the loop below would never exit
      if 0 <= index0 && dur == 0 {
        return Err(ZeroDivision);
      } else if 0 <= index0 && stride == 0 {
        return Err(OutOfMemory);
      }
      return Err(Diverges);
    }
    if index0 >= count {
      return Ok([]);
    }
    var specs: seq<LedSpec> := [];
    ghost var done: seq<Cand> := [];
    var index := index0;
    while index < count
      invariant StrideCands(index0, stride, offset, count) == done + StrideCands(index, stride, offset, count)
      invariant Recorded(done, specs, dur)
      decreases count - index
    {
      var added :- AddLed(index, offset, count, dur);
      RecordJoin(done, specs, Bounded(index, offset, count), dur);
      assert StrideCands(index, stride, offset, count)
             == Bounded(index, offset, count) + StrideCands(index + stride, stride, offset, count);
      AppendAssociates(done, Bounded(index, offset, count), StrideCands(index + stride, stride, offset, count));
      done := done + Bounded(index, offset, count);
      specs := specs + added;
      index := index + stride;
    }
    assert StrideCands(index, stride, offset, count) == [];
    assert done + [] == done;
    RecordedAll(done, specs, dur);
    return Ok(specs);
  }

  /** The `index`/`repeat` form visits exactly the LEDs of the strip at or
      after `index` that are a whole number of strides away from it. */
  lemma {:induction false} StrideMembers(index: int, stride: int, offset: int, count: int, c: Cand)
    requires stride > 0
    ensures c in StrideCands(index, stride, offset, count) <==>
            c.offset == offset && 0 <= c.led < count && index <= c.led && (c.led - index) % stride == 0
    decreases count - index
  {
    if index < count {
      StrideMembers(index + stride, stride, offset, count, c);
      if index < c.led && (c.led - index) % stride == 0 {
        assert (c.led - (index + stride)) % stride == 0 by {
          ShiftByModulus(c.led - index, stride);
        }
      }
      if index + stride <= c.led && (c.led - (index + stride)) % stride == 0 {
        assert (c.led - index) % stride == 0 by {
          ShiftByModulus(c.led - index, stride);
        }
      }
      if index < c.led && c.led < index + stride {
        assert (c.led - index) % stride == c.led - index;
      }
    }
  }

  /** Subtracting the modulus does not change the remainder. */
  lemma ShiftByModulus(x: int, m: int)
    requires m > 0
    ensures (x - m) % m == x % m
  {
    var q := x / m;
    assert x - m == m * (q - 1) + x % m;
    ModUnique(x - m, m, q - 1, x % m);
  }

  /** Strictly increasing LED indices. */
  ghost predicate Increasing(cs: seq<Cand>) {
    forall a, b :: 0 <= a < b < |cs| ==> cs[a].led < cs[b].led
  }

  /** The `index`/`repeat` form lists its LEDs in strictly increasing order. */
  lemma {:induction false} StrideIncreasing(index: int, stride: int, offset: int, count: int)
    requires stride > 0
    ensures Increasing(StrideCands(index, stride, offset, count))
    ensures forall c :: c in StrideCands(index, stride, offset, count) ==> index <= c.led
    decreases count - index
  {
    if index < count {
      StrideIncreasing(index + stride, stride, offset, count);
      var head := Bounded(index, offset, count);
      var tail := StrideCands(index + stride, stride, offset, count);
      var cs := head + tail;
      forall a, b | 0 <= a < b < |cs|
        ensures cs[a].led < cs[b].led
      {
        if a < |head| {
          assert cs[b] == tail[b - |head|];
          assert tail[b - |head|] in tail;
        } else {
          assert cs[a] == tail[a - |head|] && cs[b] == tail[b - |head|];
          assert tail[a - |head|].led < tail[b - |head|].led;
        }
      }
    }
  }

  // ---------------------------------------------------------------------
  // "start": runs of `length` LEDs, `skip` apart, phase rising by
  // `offsetAdjust` per run, at most `repeat + 1` runs when `repeat` is given.

  /** The candidates of `for n in range(length): add_led(start + n, offset)`. */
  function RunCands(start: int, length: int, offset: int, count: int): seq<Cand>
    decreases length
  {
    if length <= 0 then []
    else RunCands(start, length - 1, offset, count) + Bounded(start + length - 1, offset, count)
  }

  /** The loop `while start < count and (repeat is None or repeat >= 0)`
      ends: a repeat count runs out, or a positive step passes `count`. */
  predicate StartEnds(start: int, length: int, skip: int, repeat: Option<int>, count: int) {
    repeat.Some? || length + skip > 0 || start >= count
  }

  function Decrement(repeat: Option<int>): Option<int> {
    if repeat.Some? then Some(repeat.value - 1) else None
  }

  function StartMeasure(start: int, repeat: Option<int>, count: int): int {
    if repeat.Some? then repeat.value + 1 else count - start
  }

  /** The candidates of the `start` loop. */
  function StartCands(start: int, length: int, skip: int, offset: int, adjust: int,
                      repeat: Option<int>, count: int): seq<Cand>
    requires StartEnds(start, length, skip, repeat, count)
    decreases StartMeasure(start, repeat, count)
  {
    if start < count && (repeat.None? || repeat.value >= 0) then
      RunCands(start, length, offset, count) +
      StartCands(start + length + skip, length, skip, offset + adjust, adjust, Decrement(repeat), count)
    else []
  }

  /** The outcome of the `start` loop. Without `repeat` and with a step
      `length + skip` that is not positive, a loop that starts never ends:
      if its first run holds an LED of the strip, duration 0 raises at once
      and a zero step appends that run forever until memory runs out;
      otherwise it spins forever. */
  function StartOutcome(start: int, length: int, skip: int, offset: int, adjust: int,
                        repeat: Option<int>, count: int, dur: int): Result<seq<LedSpec>>
  {
    if StartEnds(start, length, skip, repeat, count) then
      Record(StartCands(start, length, skip, offset, adjust, repeat, count), dur)
    else if RunCands(start, length, offset, count) != [] then
      if dur == 0 then Err(ZeroDivision)
      else if length + skip == 0 then Err(OutOfMemory)
      else Err(Diverges)
    else Err(Diverges)
  }

  /** Position `n` of a run is among its candidates when it is on the strip. */
  lemma {:induction false} RunHas(start: int, length: int, offset: int, count: int, n: int)
    requires 0 <= n < length && 0 <= start + n < count
    ensures Cand(start + n, offset) in RunCands(start, length, offset, count)
    decreases length
  {
    if n < length - 1 {
      RunHas(start, length - 1, offset, count, n);
    }
  }

  /** `for n in range(length): add_led(start + n, offset)`. */
  method Run(start: int, length: int, offset: int, count: int, dur: int) returns (r: Result<seq<LedSpec>>)
    ensures r == Record(RunCands(start, length, offset, count), dur)
  {
    var specs: seq<LedSpec> := [];
    ghost var done: seq<Cand> := [];
    var n := 0;
    while n < length
      invariant 0 <= n <= Max0(length)
      invariant done == RunCands(start, n, offset, count)
      invariant Recorded(done, specs, dur)
    {
      if 0 <= start + n < count && dur == 0 {
        RunHas(start, length, offset, count, n);
      }
      var added :- AddLed(start + n, offset, count, dur);
      RecordJoin(done, specs, Bounded(start + n, offset, count), dur);
      done := done + Bounded(start + n, offset, count);
      specs := specs + added;
      n := n + 1;
    }
    RecordedAll(done, specs, dur);
    return Ok(specs);
  }

  /** The `start` form: runs until `count` is passed or the repeat count
      runs out. */
  method Start(start0: int, length: int, skip: int, offset0: int, adjust: int,
               repeat0: Option<int>, count: int, dur: int) returns (r: Result<seq<LedSpec>>)
    ensures r == StartOutcome(start0, length, skip, offset0, adjust, repeat0, count, dur)
  {
    if !StartEnds(start0, length, skip, repeat0, count) {
      // the loop below would never exit
      if RunCands(start0, length, offset0, count) != [] {
        if dur == 0 {
          return Err(ZeroDivision);
        } else if length + skip == 0 {
          return Err(OutOfMemory);
        }
      }
      return Err(Diverges);
    }
    var specs: seq<LedSpec> := [];
    ghost var done: seq<Cand> := [];
    var start, offset, repeat := start0, offset0, repeat0;
    while start < count && (repeat.None? || repeat.value >= 0)
      invariant repeat.Some? == repeat0.Some?
      invariant StartEnds(start, length, skip, repeat, count)
      invariant StartCands(start0, length, skip, offset0, adjust, repeat0, count)
                == done + StartCands(start, length, skip, offset, adjust, repeat, count)
      invariant Recorded(done, specs, dur)
      decreases StartMeasure(start, repeat, count)
    {
      var added :- Run(start, length, offset, count, dur);
      RecordJoin(done, specs, RunCands(start, length, offset, count), dur);
      ghost var later := StartCands(start + length + skip, length, skip, offset + adjust, adjust, Decrement(repeat), count);
      assert StartCands(start, length, skip, offset, adjust, repeat, count)
             == RunCands(start, length, offset, count) + later;
      AppendAssociates(done, RunCands(start, length, offset, count), later);
      done := done + RunCands(start, length, offset, count);
      specs := specs + added;
      start, offset, repeat := start + length + skip, offset + adjust, Decrement(repeat);
    }
    assert StartCands(start, length, skip, offset, adjust, repeat, count) == [];
    assert done == StartCands(start0, length, skip, offset0, adjust, repeat0, count);
    assert StartOutcome(start0, length, skip, offset0, adjust, repeat0, count, dur) == Record(done, dur);
    RecordedAll(done, specs, dur);
    return Ok(specs);
  }

  /** A run holds at most `length` candidates, each on the strip, inside
      `[start, start + length)` and carrying the run's offset. */
  lemma {:induction false} RunShape(start: int, length: int, offset: int, count: int)
    ensures |RunCands(start, length, offset, count)| <= Max0(length)
    ensures forall c :: c in RunCands(start, length, offset, count) ==>
              c.offset == offset && start <= c.led < start + length && 0 <= c.led < count
    decreases length
  {
    if length > 0 {
      RunShape(start, length - 1, offset, count);
    }
  }

  /** Candidate `c` belongs to run `k` of the `start` form: run `k` begins
      `k` steps of `length + skip` after `start` and its phase has risen by
      `k` times `offsetAdjust`. */
  ghost predicate InRun(c: Cand, start: int, length: int, skip: int, offset: int, adjust: int, k: nat) {
    var first := start + k * (length + skip);
    first <= c.led < first + length && c.offset == offset + k * adjust
  }

  /** Every LED the `start` form records is on the strip and lies in one of
      its runs, and with `repeat` given that run is among the first
      `repeat + 1`. */
  lemma {:induction false} StartSound(start: int, length: int, skip: int, offset: int, adjust: int,
                                      repeat: Option<int>, count: int, c: Cand)
    requires StartEnds(start, length, skip, repeat, count)
    requires c in StartCands(start, length, skip, offset, adjust, repeat, count)
    ensures 0 <= c.led < count
    ensures exists k: nat :: (repeat.Some? ==> k <= repeat.value) && BeginsBelow(start, length + skip, k, count) &&
                             InRun(c, start, length, skip, offset, adjust, k)
    decreases StartMeasure(start, repeat, count)
  {
    RunShape(start, length, offset, count);
    var step := length + skip;
    if c in RunCands(start, length, offset, count) {
      assert BeginsBelow(start, step, 0, count);
      assert InRun(c, start, length, skip, offset, adjust, 0);
    } else {
      StartSound(start + step, length, skip, offset + adjust, adjust, Decrement(repeat), count, c);
      var k: nat :| (Decrement(repeat).Some? ==> k <= Decrement(repeat).value) &&
                    BeginsBelow(start + step, step, k, count) &&
                    InRun(c, start + step, length, skip, offset + adjust, adjust, k);
      assert BeginsBelow(start, step, k + 1, count);
      assert (k + 1) * step == k * step + step;
      assert (k + 1) * adjust == k * adjust + adjust;
      assert InRun(c, start, length, skip, offset, adjust, k + 1);
    }
  }

  /** Runs `0 .. k` of the `start` form, beginning at `start` and `step`
      apart, all begin below `count`. */
  predicate BeginsBelow(start: int, step: int, k: nat, count: int)
    decreases k
  {
    start < count && (k > 0 ==> BeginsBelow(start + step, step, k - 1, count))
  }

  /** Conversely, every position of run `k` that lies on the strip is
      recorded, with phase offset `offset + k*offsetAdjust`, provided the
      loop reaches run `k`: runs `0 .. k` all begin below `count` and, with
      `repeat` given, `k <= repeat`. */
  lemma {:induction false} StartComplete(start: int, length: int, skip: int, offset: int, adjust: int,
                                         repeat: Option<int>, count: int, k: nat, n: int)
    requires StartEnds(start, length, skip, repeat, count)
    requires BeginsBelow(start, length + skip, k, count)
    requires repeat.Some? ==> k <= repeat.value
    requires 0 <= n < length && 0 <= start + k * (length + skip) + n < count
    ensures Cand(start + k * (length + skip) + n, offset + k * adjust)
            in StartCands(start, length, skip, offset, adjust, repeat, count)
    decreases k
  {
    var step := length + skip;
    if k == 0 {
      RunHas(start, length, offset, count, n);
    } else {
      var next := start + step;
      assert next + (k - 1) * step == start + k * step by {
        assert k * step == (k - 1) * step + step;
      }
      assert (offset + adjust) + (k - 1) * adjust == offset + k * adjust by {
        assert k * adjust == (k - 1) * adjust + adjust;
      }
      StartComplete(next, length, skip, offset + adjust, adjust, Decrement(repeat), count, k - 1, n);
    }
  }

  /** With `repeat` given, the `start` form emits at most `repeat + 1` runs,
      so at most `(repeat + 1) * length` LEDs, and none when `repeat < 0`. */
  lemma {:induction false} StartBounded(start: int, length: int, skip: int, offset: int, adjust: int,
                                        repeat: int, count: int)
    ensures |StartCands(start, length, skip, offset, adjust, Some(repeat), count)|
            <= Max0(repeat + 1) * Max0(length)
    decreases Max0(repeat + 1)
  {
    if start < count && repeat >= 0 {
      RunShape(start, length, offset, count);
      StartBounded(start + length + skip, length, skip, offset + adjust, adjust, repeat - 1, count);
      OneMoreRun(|RunCands(start, length, offset, count)|,
                 |StartCands(start + length + skip, length, skip, offset + adjust, adjust, Some(repeat - 1), count)|,
                 repeat, Max0(length));
    }
  }

  /** A run of at most `l` LEDs followed by at most `r` runs of at most `l`
      LEDs: at most `r + 1` runs' worth. */
  lemma OneMoreRun(first: int, rest: int, r: nat, l: nat)
    requires first <= l && rest <= r * l
    ensures first + rest <= (r + 1) * l
  {
    assert (r + 1) * l == r * l + l;
  }

  // ---------------------------------------------------------------------
  // One LED specification and the whole "leds" field.

  /** `repeat = None; if "repeat" in spec: repeat = assert_int(spec["repeat"])`. */
  function RepeatField(fields: map<string, Value>): (r: Result<Option<int>>)
    ensures "repeat" !in fields ==> r == Ok(None)
    ensures "repeat" in fields ==> (r.Ok? <==> fields["repeat"].JInt?)
    ensures r.Ok? && "repeat" in fields ==> r.value == Some(fields["repeat"].i)
  {
    if "repeat" in fields then
      var n :- AssertInt(fields["repeat"]);
      Ok(Some(n))
    else Ok(None)
  }

  /** `parse_led_spec(spec)`: the entries one specification appends. A bare
      integer is appended with phase 0 and no bounds check; a dict is read
      in the `index` form or, failing that, the `start` form; anything else
      raises. */
  function LedSpecOf(spec: Value, count: int, dur: int): (r: Result<seq<LedSpec>>)
    ensures spec.JInt? ==> r == Ok([LedSpec(spec.i, 0)])
    ensures !spec.JInt? && !spec.JObj? ==> r.Err?
    ensures spec.JObj? && "index" !in spec.fields && "start" !in spec.fields ==> r.Err?
  {
    match spec
    case JInt(i) => Ok([LedSpec(i, 0)])
    case JObj(fields) =>
      var offset :- IntField(fields, "offset", 0);
      var adjust :- IntField(fields, "offsetAdjust", 0);
      var repeat :- RepeatField(fields);
      if "index" in fields then
        var index :- AssertInt(fields["index"]);
        if repeat.Some? then StrideOutcome(index, repeat.value, offset, count, dur)
        else AddLed(index, offset, count, dur)
      else if "start" in fields then
        var start :- AssertInt(fields["start"]);
        var length :- IntField(fields, "length", 1);
        var skip :- IntField(fields, "skip", 0);
        StartOutcome(start, length, skip, offset, adjust, repeat, count, dur)
      else Err(UnknownLedSpec)
    case _ => Err(NotSubscriptable)
  }

  method ParseLedSpec(spec: Value, count: int, dur: int) returns (r: Result<seq<LedSpec>>)
    ensures r == LedSpecOf(spec, count, dur)
  {
    match spec {
      case JInt(i) =>
        return Ok([LedSpec(i, 0)]);
      case JObj(fields) =>
        var offset :- IntField(fields, "offset", 0);
        var adjust :- IntField(fields, "offsetAdjust", 0);
        var repeat :- RepeatField(fields);
        if "index" in fields {
          var index :- AssertInt(fields["index"]);
          if repeat.Some? {
            r := Stride(index, repeat.value, offset, count, dur);
          } else {
            r := AddLed(index, offset, count, dur);
          }
          return;
        }
        if "start" in fields {
          var start :- AssertInt(fields["start"]);
          var length :- IntField(fields, "length", 1);
          var skip :- IntField(fields, "skip", 0);
          r := Start(start, length, skip, offset, adjust, repeat, count, dur);
          return;
        }
        return Err(UnknownLedSpec);
      case _ =>
        return Err(NotSubscriptable);
    }
  }

  /** `for led_spec in data["leds"]: parse_led_spec(led_spec)`: the
      entries of the specifications in order, or the first failure. */
  function SpecListOf(specs: seq<Value>, count: int, dur: int): Result<seq<LedSpec>>
    decreases |specs|
  {
    if specs == [] then Ok([])
    else
      var before :- SpecListOf(specs[..|specs| - 1], count, dur);
      var last :- LedSpecOf(specs[|specs| - 1], count, dur);
      Ok(before + last)
  }

  /** The LED part of `Pattern.__init__`: every LED when there is no
      `"leds"` key, each element of a list, or a single specification. */
  function LedsOf(data: map<string, Value>, count: int, dur: int): Result<seq<LedSpec>> {
    if "leds" !in data then Record(EveryLed(count), dur)
    else match data["leds"]
      case JList(specs) => SpecListOf(specs, count, dur)
      case spec => LedSpecOf(spec, count, dur)
  }

  /** A failure in the first `j` specifications is the failure of the list. */
  lemma {:induction false} FirstFailureWins(specs: seq<Value>, j: nat, count: int, dur: int)
    requires 0 < j <= |specs| && SpecListOf(specs[..j], count, dur).Err?
    ensures SpecListOf(specs, count, dur) == SpecListOf(specs[..j], count, dur)
    decreases |specs|
  {
    if j < |specs| {
      var init := specs[..|specs| - 1];
      assert init[..j] == specs[..j];
      FirstFailureWins(init, j, count, dur);
    } else {
      assert specs[..j] == specs;
    }
  }

  method ParseLeds(data: map<string, Value>, count: int, dur: int) returns (r: Result<seq<LedSpec>>)
    ensures r == LedsOf(data, count, dur)
  {
    if "leds" !in data {
      r := AllLeds(count, dur);
      return;
    }
    match data["leds"] {
      case JList(specs) =>
        var all: seq<LedSpec> := [];
        var i := 0;
        while i < |specs|
          invariant 0 <= i <= |specs|
          invariant SpecListOf(specs[..i], count, dur) == Ok(all)
        {
          assert specs[..i + 1][..i] == specs[..i];
          var added := ParseLedSpec(specs[i], count, dur);
          if added.Err? {
            FirstFailureWins(specs, i + 1, count, dur);
            return Err(added.error);
          }
          var entries := added.value;
          all := all + entries;
          i := i + 1;
        }
        assert specs[..i] == specs;
        return Ok(all);
      case spec =>
        r := ParseLedSpec(spec, count, dur);
    }
  }

  // ---------------------------------------------------------------------
  // Where the recorded LEDs and phases lie.

  ghost predicate OnStrip(specs: seq<LedSpec>, count: int) {
    forall k :: 0 <= k < |specs| ==> 0 <= specs[k].led < count
  }

  ghost predicate PhasesWithin(specs: seq<LedSpec>, dur: int) {
    forall k :: 0 <= k < |specs| ==> 0 <= specs[k].phase < dur
  }

  ghost predicate CandsOnStrip(cands: seq<Cand>, count: int) {
    forall c :: c in cands ==> 0 <= c.led < count
  }

  lemma RecordShape(cands: seq<Cand>, count: int, dur: int)
    requires Record(cands, dur).Ok? && CandsOnStrip(cands, count)
    ensures OnStrip(Record(cands, dur).value, count)
    ensures dur > 0 ==> PhasesWithin(Record(cands, dur).value, dur)
  {
  }

  /** What one specification records: every phase lies in `[0, duration)`,
      and every LED is on the strip unless the specification is a bare
      integer, which is recorded without a bounds check. */
  lemma LedSpecShape(spec: Value, count: int, dur: int)
    requires dur > 0 && LedSpecOf(spec, count, dur).Ok?
    ensures PhasesWithin(LedSpecOf(spec, count, dur).value, dur)
    ensures !spec.JInt? ==> OnStrip(LedSpecOf(spec, count, dur).value, count)
  {
    match spec {
      case JInt(i) =>
      case JObj(fields) =>
        var offset := IntField(fields, "offset", 0).value;
        var adjust := IntField(fields, "offsetAdjust", 0).value;
        var repeat := RepeatField(fields).value;
        if "index" in fields {
          var index := AssertInt(fields["index"]).value;
          if repeat.Some? && index < count {
            var cands := StrideCands(index, repeat.value, offset, count);
            forall c | c in cands ensures 0 <= c.led < count {
              StrideMembers(index, repeat.value, offset, count, c);
            }
            RecordShape(cands, count, dur);
          } else if repeat.None? {
            RecordShape(Bounded(index, offset, count), count, dur);
          }
        } else {
          var start := AssertInt(fields["start"]).value;
          var length := IntField(fields, "length", 1).value;
          var skip := IntField(fields, "skip", 0).value;
          var cands := StartCands(start, length, skip, offset, adjust, repeat, count);
          forall c | c in cands ensures 0 <= c.led < count {
            StartSound(start, length, skip, offset, adjust, repeat, count, c);
          }
          RecordShape(cands, count, dur);
        }
    }
  }

  lemma {:induction false} SpecListShape(specs: seq<Value>, count: int, dur: int)
    requires dur > 0 && SpecListOf(specs, count, dur).Ok?
    ensures PhasesWithin(SpecListOf(specs, count, dur).value, dur)
    ensures (forall k :: 0 <= k < |specs| ==> !specs[k].JInt?) ==> OnStrip(SpecListOf(specs, count, dur).value, count)
    decreases |specs|
  {
    if specs != [] {
      var init := specs[..|specs| - 1];
      SpecListShape(init, count, dur);
      LedSpecShape(specs[|specs| - 1], count, dur);
    }
  }

  /** No bare integer among the LED specifications of a pattern. */
  ghost predicate NoBareIndex(data: map<string, Value>) {
    "leds" in data ==>
      match data["leds"]
      case JInt(_) => false
      case JList(specs) => forall k :: 0 <= k < |specs| ==> !specs[k].JInt?
      case _ => true
  }

  /** Every phase a pattern records lies in `[0, duration)`, and every LED
      is on the strip unless a bare integer put it there; without a
      `"leds"` key the pattern owns LEDs `0 .. count-1`, all at phase 0. */
  lemma LedsShape(data: map<string, Value>, count: int, dur: int)
    requires dur > 0 && LedsOf(data, count, dur).Ok?
    ensures PhasesWithin(LedsOf(data, count, dur).value, dur)
    ensures NoBareIndex(data) ==> OnStrip(LedsOf(data, count, dur).value, count)
    ensures "leds" !in data ==> LedsOf(data, count, dur).value == seq(Max0(count), i => LedSpec(i, 0))
  {
    if "leds" !in data {
      var specs := LedsOf(data, count, dur).value;
      assert forall k :: 0 <= k < |specs| ==> specs[k] == LedSpec(k, PyMod(0, dur));
      RecordShape(EveryLed(count), count, dur);
    } else {
      match data["leds"] {
        case JList(specs) => SpecListShape(specs, count, dur);
        case spec => LedSpecShape(spec, count, dur);
      }
    }
  }

  /** A bare integer inside a `"leds"` list is appended as it is, after the
      entries of the specifications before it, even off the end of the strip. */
  lemma BareIndexInListUnchecked(specs: seq<Value>, i: int, count: int, dur: int)
    requires SpecListOf(specs, count, dur).Ok?
    ensures SpecListOf(specs + [JInt(i)], count, dur)
         == Ok(SpecListOf(specs, count, dur).value + [LedSpec(i, 0)])
  {
  }

  /** A bare integer is recorded as it is, even off the end of the strip. */
  lemma BareIndexUnchecked(i: int, count: int, dur: int)
    ensures LedsOf(map["leds" := JInt(i)], count, dur) == Ok([LedSpec(i, 0)])
  {
  }
}
