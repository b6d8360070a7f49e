/** The outer loop `main` of `blinky/__init__.py`: every iteration pulls a
    new set of animation descriptions inside a safe block, replaces the
    current animations only when a whole new list was built, then runs every
    current animation once, each in its own safe block, or sleeps 30 seconds
    while there are none. The pull is an input: one reply per iteration. */
module MainLoop {
  import opened Values
  import opened Validate
  import opened Machines
  import opened Animations
  import opened Log

  /** What `machine.pull_animations()` does in one iteration. */
  datatype Pull =
    /** returns None: nothing new */
    | NoUpdate
    /** returns a decoded JSON value (`null` counts as None) */
    | Update(specs: Value)
    /** raises an exception other than an interrupt */
    | PullFails
    /** raises `KeyboardInterrupt` */
    | PullInterrupted

  // ---------------------------------------------------------------------
  // The update block.

  /** `[Animation(machine, d) for d in items]`, or the first failure. */
  function AnimationsOf(items: seq<Value>, count: int): Result<seq<Animation>>
    decreases |items|
  {
    if items == [] then Ok([])
    else
      var before :- AnimationsOf(items[..|items| - 1], count);
      var last :- AnimationOf(items[|items| - 1], count);
      Ok(before + [last])
  }

  /** A successful update holds one animation per description, in order. */
  lemma {:induction false} AnimationsShape(items: seq<Value>, count: int)
    requires AnimationsOf(items, count).Ok?
    ensures |AnimationsOf(items, count).value| == |items|
    ensures forall q :: 0 <= q < |items| ==> AnimationOf(items[q], count) == Ok(AnimationsOf(items, count).value[q])
    decreases |items|
  {
    if items != [] {
      var init := items[..|items| - 1];
      AnimationsShape(init, count);
      forall q | 0 <= q < |items| - 1
        ensures items[q] == init[q]
      {
      }
    }
  }

  lemma {:induction false} AnimationsFailure(items: seq<Value>, j: nat, count: int)
    requires j <= |items| && AnimationsOf(items[..j], count).Err?
    ensures AnimationsOf(items, count) == AnimationsOf(items[..j], count)
    decreases |items|
  {
    if j < |items| {
      var init := items[..|items| - 1];
      assert init[..j] == items[..j];
      AnimationsFailure(init, j, count);
    } else {
      assert items[..j] == items;
    }
  }

  method BuildAnimations(items: seq<Value>, count: int) returns (r: Result<seq<Animation>>)
    ensures r == AnimationsOf(items, count)
  {
    var animations: seq<Animation> := [];
    var i := 0;
    while i < |items|
      invariant 0 <= i <= |items|
      invariant AnimationsOf(items[..i], count) == Ok(animations)
    {
      assert items[..i + 1][..i] == items[..i];
      var a := BuildAnimation(items[i], count);
      if a.Err? {
        AnimationsFailure(items, i + 1, count);
        return Err(a.error);
      }
      animations := animations + [a.value];
      i := i + 1;
    }
    assert items[..i] == items;
    return Ok(animations);
  }

  /** How the body of the update block ends. */
  datatype BlockEnd =
    | Updated(animations: seq<Animation>)
    | Unchanged
    | Raises(exc: Exc)
    /** an LED specification whose loop never ends: the block never ends */
    | Hangs

  /** The body of `with machine.log.safe("Updating animations")` on a
      strip of `count` pixels. The new list replaces the old one only once
      every animation in it was built; the first failure leaves the old
      list in place. */
  function UpdateBlock(pull: Pull, count: nat): (r: BlockEnd)
    ensures r.Updated? <==> pull.Update? && pull.specs != JNull && Records(pull.specs).Ok? &&
                            AnimationsOf(Records(pull.specs).value, count).Ok?
    ensures r.Updated? ==> r.animations == AnimationsOf(Records(pull.specs).value, count).value
    ensures r == Raises(Interrupt) <==> pull == PullInterrupted
    ensures r.Hangs? <==> pull.Update? && pull.specs != JNull && Records(pull.specs).Ok? &&
                          AnimationsOf(Records(pull.specs).value, count) == Err(Diverges)
    ensures r == Unchanged <==> pull == NoUpdate || pull == Update(JNull)
  {
    match pull
    case NoUpdate => Unchanged
    case PullFails => Raises(Raised(External))
    case PullInterrupted => Raises(Interrupt)
    case Update(v) =>
      if v == JNull then Unchanged
      else match Records(v)
        case Err(e) => Raises(Raised(e))
        case Ok(items) =>
          match AnimationsOf(items, count)
          case Ok(animations) => Updated(animations)
          case Err(Diverges) => Hangs
          case Err(e) => Raises(Raised(e))
  }

  method UpdateAnimations(pull: Pull, count: nat) returns (r: BlockEnd)
    ensures r == UpdateBlock(pull, count)
  {
    match pull {
      case NoUpdate => return Unchanged;
      case PullFails => return Raises(Raised(External));
      case PullInterrupted => return Raises(Interrupt);
      case Update(v) =>
        if v == JNull {
          return Unchanged;
        }
        var items := Records(v);
        if items.Err? {
          return Raises(Raised(items.error));
        }
        var built := BuildAnimations(items.value, count);
        if built.Ok? {
          return Updated(built.value);
        } else if built.error == Diverges {
          return Hangs;
        } else {
          return Raises(Raised(built.error));
        }
    }
  }

  // ---------------------------------------------------------------------
  // Running the current animations.

  /** Runs every animation once, in order, on a strip holding `buf`. An
      exception from one run is swallowed by its safe block and the next
      animation still runs. */
  function RunAll(buf: seq<Color>, animations: seq<Animation>): (r: (seq<Color>, seq<Event>))
    ensures |r.0| == |buf|
    decreases |animations|
  {
    if animations == [] then (buf, [])
    else
      var t := RunTrace(|buf|, animations[0]);
      var rest := RunAll(t.buf, animations[1..]);
      (rest.0, t.events + rest.1)
  }

  /** The events of running every animation on a strip of `n` pixels: each
      animation's own run, one after the other, whatever the earlier runs
      did. */
  function RunEvents(n: nat, animations: seq<Animation>): seq<Event>
    decreases |animations|
  {
    if animations == [] then []
    else RunTrace(n, animations[0]).events + RunEvents(n, animations[1..])
  }

  /** Since every run starts by blanking the strip, what the runs write
      depends only on the strip length, and the strip ends as the last run
      left it. */
  lemma {:induction false} RunAllShape(buf: seq<Color>, animations: seq<Animation>)
    ensures RunAll(buf, animations).1 == RunEvents(|buf|, animations)
    ensures animations == [] ==> RunAll(buf, animations).0 == buf
    ensures animations != [] ==> RunAll(buf, animations).0 == RunTrace(|buf|, animations[|animations| - 1]).buf
    decreases |animations|
  {
    if animations != [] {
      var t := RunTrace(|buf|, animations[0]);
      RunAllShape(t.buf, animations[1..]);
      if |animations| > 1 {
        assert animations[1..][|animations[1..]| - 1] == animations[|animations| - 1];
      }
    }
  }

  method RunAnimations(m: Machine, animations: seq<Animation>)
    modifies m, m.leds
    ensures var r := RunAll(old(m.leds[..]), animations);
            m.leds[..] == r.0 && m.events == old(m.events) + r.1
  {
    ghost var emitted: seq<Event> := [];
    var n := 0;
    assert animations[n..] == animations;
    assert emitted + RunAll(m.leds[..], animations).1 == RunAll(m.leds[..], animations).1;
    while n < |animations|
      invariant 0 <= n <= |animations|
      invariant m.events == old(m.events) + emitted
      invariant var r := RunAll(m.leds[..], animations[n..]);
                RunAll(old(m.leds[..]), animations) == (r.0, emitted + r.1)
    {
      assert animations[n..][1..] == animations[n + 1..];
      ghost var cur := m.leds[..];
      // The safe block swallows whatever the run raises.
      var _ := RunAnimation(m, animations[n]);
      ghost var t := RunTrace(|cur|, animations[n]);
      AppendAssociates(emitted, t.events, RunAll(m.leds[..], animations[n + 1..]).1);
      AppendAssociates(old(m.events), emitted, t.events);
      emitted := emitted + t.events;
      n := n + 1;
    }
  }

  /** What one iteration does after the update block: run the current
      animations, or sleep 30 seconds while there are none. An empty list
      counts as present: nothing runs and nothing sleeps. */
  function Iteration(buf: seq<Color>, current: Option<seq<Animation>>): (r: (seq<Color>, seq<Event>))
    ensures |r.0| == |buf|
    ensures current.None? ==> r == (buf, [Slept(30)])
    ensures current == Some([]) ==> r == (buf, [])
    ensures current.Some? ==> r.1 == RunEvents(|buf|, current.value)
  {
    if current.Some? then
      RunAllShape(buf, current.value);
      RunAll(buf, current.value)
    else (buf, [Slept(30)])
  }

  method RunIteration(m: Machine, current: Option<seq<Animation>>)
    modifies m, m.leds
    ensures var r := Iteration(old(m.leds[..]), current);
            m.leds[..] == r.0 && m.events == old(m.events) + r.1
  {
    if current.Some? {
      RunAnimations(m, current.value);
    } else {
      m.Sleep(30);
    }
  }

  // ---------------------------------------------------------------------
  // The loop.

  datatype Stop =
    /** `loops` iterations were made */
    | Finished
    /** a `KeyboardInterrupt` left the update block */
    | Interrupted
    /** an update never finished */
    | Hung
    /** the pulls given to the model ran out first */
    | OutOfInput

  datatype MainEnd = MainEnd(buf: seq<Color>, events: seq<Event>, stop: Stop, iterations: nat)

  /** The loop from its `i`-th iteration on, with the counter at `count`
      and the current animations `current`. */
  function MainFrom(buf: seq<Color>, current: Option<seq<Animation>>, pulls: seq<Pull>, i: nat,
                    count: int, loops: int): (r: MainEnd)
    requires i <= |pulls|
    decreases |pulls| - i
  {
    if !(count < loops || loops == 0) then MainEnd(buf, [], Finished, 0)
    else if i == |pulls| then MainEnd(buf, [], OutOfInput, 0)
    else
      var e := UpdateBlock(pulls[i], |buf|);
      if e.Hangs? then MainEnd(buf, [], Hung, 0)
      else if e.Raises? && !Suppresses(Some(e.exc), true) then MainEnd(buf, [], Interrupted, 0)
      else
        var next := if e.Updated? then Some(e.animations) else current;
        var (after, events) := Iteration(buf, next);
        var rest := MainFrom(after, next, pulls, i + 1, if loops > 0 then count + 1 else count, loops);
        MainEnd(rest.buf, events + rest.events, rest.stop, rest.iterations + 1)
  }

  /** One iteration that neither hangs nor is interrupted. */
  lemma MainStep(buf: seq<Color>, current: Option<seq<Animation>>, pulls: seq<Pull>, i: nat,
                 count: int, loops: int, next: Option<seq<Animation>>)
    requires i < |pulls| && (count < loops || loops == 0)
    requires var e := UpdateBlock(pulls[i], |buf|);
             !e.Hangs? && !(e.Raises? && !Suppresses(Some(e.exc), true)) &&
             next == (if e.Updated? then Some(e.animations) else current)
    ensures var it := Iteration(buf, next);
            var rest := MainFrom(it.0, next, pulls, i + 1, if loops > 0 then count + 1 else count, loops);
            MainFrom(buf, current, pulls, i, count, loops)
            == MainEnd(rest.buf, it.1 + rest.events, rest.stop, rest.iterations + 1)
  {
  }

  /** `main(machine, loops)`, fed one pull reply per iteration. */
  method RunMain(m: Machine, loops: int, pulls: seq<Pull>) returns (stop: Stop, iterations: nat)
    modifies m, m.leds
    ensures var r := MainFrom(old(m.leds[..]), None, pulls, 0, 0, loops);
            m.leds[..] == r.buf && m.events == old(m.events) + r.events &&
            stop == r.stop && iterations == r.iterations
  {
    var count := 0;
    var animations: Option<seq<Animation>> := None;
    var i := 0;
    ghost var whole := MainFrom(m.leds[..], None, pulls, 0, 0, loops);
    ghost var emitted: seq<Event> := [];
    assert emitted + whole.events == whole.events;
    while (count < loops || loops == 0) && i < |pulls|
      invariant 0 <= i <= |pulls|
      invariant m.events == old(m.events) + emitted
      invariant var t := MainFrom(m.leds[..], animations, pulls, i, count, loops);
                whole == MainEnd(t.buf, emitted + t.events, t.stop, i + t.iterations)
      decreases |pulls| - i
    {
      var e := UpdateAnimations(pulls[i], m.leds.Length);
      if e.Hangs? || (e.Raises? && !Suppresses(Some(e.exc), true)) {
        assert emitted + [] == emitted;
        if e.Hangs? {
          return Hung, i;
        }
        return Interrupted, i;
      }
      ghost var previous := animations;
      if e.Updated? {
        animations := Some(e.animations);
      }
      MainStep(m.leds[..], previous, pulls, i, count, loops, animations);
      ghost var it := Iteration(m.leds[..], animations);
      RunIteration(m, animations);
      AppendAssociates(old(m.events), emitted, it.1);
      ghost var rest := MainFrom(it.0, animations, pulls, i + 1, if loops > 0 then count + 1 else count, loops);
      AppendAssociates(emitted, it.1, rest.events);
      emitted := emitted + it.1;
      if loops > 0 {
        count := count + 1;
      }
      i := i + 1;
    }
    assert emitted + [] == emitted;
    if count < loops || loops == 0 {
      return OutOfInput, i;
    }
    return Finished, i;
  }

  /** With `loops > 0` the loop stops on its own after exactly `loops`
      iterations; with `loops == 0` it never stops on its own. Every
      iteration consumes one pull. */
  lemma {:induction false} MainCounts(buf: seq<Color>, current: Option<seq<Animation>>, pulls: seq<Pull>, i: nat,
                                      count: int, loops: int)
    requires i <= |pulls| && 0 <= count
    ensures var r := MainFrom(buf, current, pulls, i, count, loops);
            r.iterations <= |pulls| - i &&
            (r.stop == Finished ==> loops != 0 && r.iterations == Max0(loops - count)) &&
            (r.stop == OutOfInput ==> r.iterations == |pulls| - i) &&
            (loops == 0 ==> r.stop != Finished)
    decreases |pulls| - i
  {
    if (count < loops || loops == 0) && i < |pulls| {
      var e := UpdateBlock(pulls[i], |buf|);
      if !e.Hangs? && !(e.Raises? && !Suppresses(Some(e.exc), true)) {
        var next := if e.Updated? then Some(e.animations) else current;
        var it := Iteration(buf, next);
        MainCounts(it.0, next, pulls, i + 1, if loops > 0 then count + 1 else count, loops);
      }
    }
  }

  /** A pull after which the update block ends: it neither hangs nor
      raises an interrupt. */
  predicate Settles(pull: Pull, count: nat) {
    pull != PullInterrupted && !UpdateBlock(pull, count).Hangs?
  }

  /** Fed enough pulls that all settle, `main` with `loops > 0` finishes
      after exactly `loops` iterations, whatever the pulls raise. */
  lemma {:induction false} MainFinishes(buf: seq<Color>, current: Option<seq<Animation>>, pulls: seq<Pull>, i: nat,
                                        count: int, loops: int)
    requires i <= |pulls| && 0 <= count && loops > 0 && |pulls| - i >= loops - count
    requires forall k :: i <= k < |pulls| ==> Settles(pulls[k], |buf|)
    ensures MainFrom(buf, current, pulls, i, count, loops).stop == Finished
    ensures MainFrom(buf, current, pulls, i, count, loops).iterations == Max0(loops - count)
    decreases |pulls| - i
  {
    if count < loops {
      var e := UpdateBlock(pulls[i], |buf|);
      var next := if e.Updated? then Some(e.animations) else current;
      var it := Iteration(buf, next);
      MainFinishes(it.0, next, pulls, i + 1, count + 1, loops);
    }
  }
}
