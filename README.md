# blinky: a verified model of the animation engine

blinky drives an RGB LED strip from JSON animation descriptions. An
animation has a frame `interval` in milliseconds, a `duration` in frames and
a list of patterns. The only pattern type is `"colors"`. It selects LEDs
through a small language: all LEDs, a bare index, `index` with `repeat`, or
`start`/`length`/`skip`/`repeat` with `offset`/`offsetAdjust`. Each selected
LED gets a phase. The pattern also expands a list of keyframes
`(color, duration, fade)` into a cyclic colour table, fading each keyframe
into the next with an integer-truncating mix.

Every frame `n`, a pattern writes `colors[((phase + n) % duration) %
len(colors)]` into each LED it owns, in place in the machine's buffer.
`Animation.run` blanks the buffer, then for every frame applies the
patterns in order, writes the buffer to the strip and sleeps `interval`.
The outer loop `main` pulls new descriptions each iteration and swaps in a
new animation list only when it was built in full. It then runs every
animation inside a "safe" logged block. Such a block swallows any exception
except a keyboard interrupt.

The model is in Dafny, one module per concern:

- `values.dfy` (`Values`): JSON values, the exceptions, and Python's
  integer `%` and list indexing.
- `validate.dfy` (`Validate`): the `assert_*` validators and colours.
- `mix.dfy` (`Mix`): `mix_colors`.
- `leds.dfy` (`LedSpecs`): the LED-selection language.
- `keyframes.dfy` (`Keyframes`): the colour table of `Colors.__init__`.
- `machine.dfy` (`Machines`): the pixel buffer as an array, with writes
  and sleeps recorded as events.
- `animation.dfy` (`Animations`): pattern and animation construction,
  `apply`, and `run`.
- `log.dfy` (`Log`): `Logger` and `LoggedBlock`.
- `mainloop.dfy` (`MainLoop`): `main`.

Where the source loops, the model has a method with a loop. That method is
proved equal to a specification function. The promised properties are then
proved about the function as lemmas.

Exceptions are `Err` results or `failure` values. An exception raised
part-way through `apply` keeps the writes already made. Loops in the
source that never end are modelled as outcomes, not as non-terminating
code:

- `Diverges`: the loop spins for ever.
- `OutOfMemory`: the loop appends for ever.

## Model

| member | source | states |
|---|---|---|
| `Values.PyMod` | blinky/animation.py:56 | Python's `%`: for a positive divisor the result lies in `[0, b)`, for a negative one in `(b, 0]`, and it is congruent to `a` modulo `b` |
| `Values.Mod` | blinky/animation.py:126 | `%` raises ZeroDivisionError exactly when the divisor is 0; otherwise it is `PyMod` |
| `Values.ListIndex` | blinky/animation.py:139 | `leds[i]` on a strip of `n` pixels is valid exactly when `-n <= i < n`; a negative index addresses slot `i + n` |
| `Values.Get` | blinky/animation.py:158 | `data[key]` succeeds exactly when the key is present, and yields its value |
| `Values.Records` | blinky/animation.py:203 | a `for` loop whose elements are then subscripted by name gets the items of a list; an empty dict or string yields nothing; anything else raises |
| `Validate.AssertInt` | blinky/animation.py:1-5 | raises exactly for a non-integer and otherwise returns the value unchanged |
| `Validate.AssertList` | blinky/animation.py:8-12 | raises exactly for a non-list and otherwise returns the list unchanged |
| `Validate.AssertColor` | blinky/animation.py:15-19 | raises unless given a list of exactly three elements, and then returns those elements in order as a triple |
| `Validate.IntField` | blinky/animation.py:153-156 | an optional integer field takes its default when absent and is `assert_int` of the value when present |
| `Mix.TruncDiv` | blinky/animation.py:24 | `int(x / d)` truncates toward zero: the remainder has the sign of `x` and is smaller than `d` |
| `Mix.MixChannel` | blinky/animation.py:23-24 | `mix_val` succeeds exactly on two integers, and the result is `int(a + (b - a) * n/d)`: the exact value `(a*d + (b-a)*n) / d` truncated toward zero |
| `Mix.MixColors` | blinky/animation.py:22-35 | at offset `<= 0` returns `a` unchanged and at offset `>= 1` returns `b` unchanged; in between it succeeds exactly on integer colours, and each channel of the result is `int(a + (b - a) * n/d)` for that channel, truncated toward zero |
| `Mix.ChannelBetween` | blinky/animation.py:23-24 | for `0 < n/d < 1` the truncated mix of two integers lies between them |
| `Mix.MixBetween` | blinky/animation.py:31-35 | in exact arithmetic, every channel of a mix of integer colours lies between the two input channels |
| `Mix.MixSame` | blinky/animation.py:22-35 | in exact arithmetic, `mix_colors(a, a, t) == a` for every offset `t` and every integer colour `a` |
| `LedSpecs.Tag` | blinky/animation.py:56 | each recorded entry is `(index, offset % duration)`, one per accepted candidate, in order |
| `LedSpecs.Record` | blinky/animation.py:54-56 | recording raises exactly when some LED passes the bounds check and the duration is 0; otherwise there is one entry per candidate with its LED, and for a positive duration its phase lies in `[0, duration)` |
| `LedSpecs.AddLed` | blinky/animation.py:54-56 | `add_led` records `(index, offset % duration)` exactly when `0 <= index < len(leds)` and nothing otherwise; it raises only when it would record and the duration is 0 |
| `LedSpecs.AllLeds` | blinky/animation.py:58-61 | without a `"leds"` key the pattern owns LEDs `0 .. len-1` in order, each with phase 0, and raises exactly when the strip is non-empty and the duration is 0 |
| `LedSpecs.Stride` | blinky/animation.py:83-86 | the `index`/`repeat` loop agrees with its specification, including the outcomes of a repeat that is not positive |
| `LedSpecs.StrideMembers` | blinky/animation.py:83-86 | with `repeat > 0` the loop records exactly the LEDs of the strip at or after `index` that are a whole number of repeats away from it |
| `LedSpecs.StrideIncreasing` | blinky/animation.py:83-86 | the `index`/`repeat` loop records LEDs in strictly increasing order, none before `index` |
| `LedSpecs.Run` | blinky/animation.py:104-105 | one run of the `start` form agrees with its specification |
| `LedSpecs.RunShape` | blinky/animation.py:104-105 | a run records at most `length` LEDs, all in `[start, start + length)` and on the strip, all with the run's offset |
| `LedSpecs.RunHas` | blinky/animation.py:104-105 | every position of a run that is on the strip is recorded |
| `LedSpecs.Start` | blinky/animation.py:92-113 | the `start` loop agrees with its specification, including the outcomes of a loop without `repeat` whose step `length + skip` is not positive |
| `LedSpecs.StartSound` | blinky/animation.py:103-111 | every LED of the `start` form is on the strip and lies in a run `k` that the loop reaches: runs `0 .. k` all begin below the strip length, and with `repeat` given `k <= repeat`. Run `k` begins at `start + k*(length+skip)` with phase offset `offset + k*offsetAdjust` |
| `LedSpecs.StartComplete` | blinky/animation.py:103-111 | conversely, when the loop reaches run `k` (runs `0 .. k` all begin below the strip length and, with `repeat` given, `k <= repeat`), every position `start + k*(length+skip) + n` with `0 <= n < length` that lies on the strip is recorded with phase offset `offset + k*offsetAdjust` |
| `LedSpecs.StartBounded` | blinky/animation.py:103-111 | with `repeat` given the `start` form records at most `(repeat + 1) * length` LEDs, and none when `repeat < 0` |
| `LedSpecs.RepeatField` | blinky/animation.py:76-78 | `repeat` is absent (None) unless the key is present, and then it must be an integer |
| `LedSpecs.LedSpecOf` | blinky/animation.py:63-115 | a bare integer is appended as `(spec, 0)` with no bounds check; anything that is neither an integer nor a dict raises; a dict with neither `"index"` nor `"start"` raises |
| `LedSpecs.ParseLedSpec` | blinky/animation.py:63-115 | `parse_led_spec` agrees with its specification: a bare integer, then the `index` form, then the `start` form; any other dict raises |
| `LedSpecs.ParseLeds` | blinky/animation.py:58-121 | the LED part of `Pattern.__init__` agrees with its specification, stopping at the first failing specification of a list |
| `LedSpecs.FirstFailureWins` | blinky/animation.py:117-119 | a failure among the first specifications of a list is the failure of the whole list |
| `LedSpecs.RecordShape` | blinky/animation.py:54-56 | entries recorded from candidates on the strip are on the strip, with phases in `[0, duration)` |
| `LedSpecs.LedSpecShape` | blinky/animation.py:63-115 | every phase one specification records lies in `[0, duration)`, and every LED is on the strip unless the specification is a bare integer |
| `LedSpecs.SpecListShape` | blinky/animation.py:117-119 | the same for a list of specifications |
| `LedSpecs.LedsShape` | blinky/animation.py:54-121 | all phases of a pattern lie in `[0, duration)`; without bare integers every LED is on the strip; without `"leds"` the entries are exactly `(i, 0)` for `i` in `0 .. len-1` |
| `LedSpecs.BareIndexUnchecked` | blinky/animation.py:64-66 | a bare integer is recorded as `(spec, 0)` whatever its value |
| `LedSpecs.BareIndexInListUnchecked` | blinky/animation.py:117-119 | a bare integer inside a `"leds"` list is appended as `(spec, 0)` after the entries before it, whatever its value |
| `Keyframes.ParseKeyframe` | blinky/animation.py:164-174 | a list keyframe parses exactly when it has three elements, and is then its colour with the pattern defaults; a dict keyframe parses exactly when its `"color"` is a three-element list and its `duration` and `fade` are integers or absent, each overriding the default; anything else raises |
| `Keyframes.NextColor` | blinky/animation.py:176-179 | the next colour is read exactly from a three-element list or from a dict whose `"color"` is one; anything else raises |
| `Keyframes.Copies` | blinky/animation.py:181-182 | `duration` copies of the colour, none for a negative duration |
| `Keyframes.AppendKeyframe` | blinky/animation.py:181-186 | the two inner loops append exactly the keyframe's entries, or stop at the first failing mix |
| `Keyframes.BuildTable` | blinky/animation.py:160-186 | the keyframe loop builds the table of its specification, stopping at the first failure |
| `Keyframes.ColorTable` | blinky/animation.py:150-186 | the table-building part of `Colors.__init__`: raises when `"colors"` is missing or not a list, or when the pattern-level `duration` or `fade` is not an integer; otherwise it is the keyframe table built with those defaults (0 when absent), holding `duration + fade` entries per keyframe |
| `Keyframes.FadesShape` | blinky/animation.py:184-186 | the fade loop yields `mix_colors(color, next, i / fade)` for `i` in `0 .. fade-1`; it fails exactly when a step past the first meets non-integer channels |
| `Keyframes.EntriesShape` | blinky/animation.py:181-186 | a keyframe contributes `duration` copies of its colour, then `fade` mixes toward the next colour, the first of which is the colour itself |
| `Keyframes.FadesFailure` | blinky/animation.py:184-186 | a failing mix at some fade step is the failure of the whole fade loop |
| `Keyframes.TableFailure` | blinky/animation.py:160-186 | a failure at some keyframe is the failure of the whole table |
| `Keyframes.TableLength` | blinky/animation.py:160-186 | the table holds, summed over the keyframes, `duration + fade` entries each |
| `Keyframes.TablePrefix` | blinky/animation.py:160-186 | the table only ever grows: the table of the first keyframes is a prefix of the full one |
| `Keyframes.RedThenGreen` | blinky/animation.py:160-186 | two keyframes of five frames each, red then green, give five red entries followed by five green ones |
| `Machines.Blank` | blinky/animation.py:206 | a blank strip holds black in every pixel |
| `Machines.Machine.Fill` | blinky/animation.py:206 | `leds.fill(c)` sets every pixel to `c` |
| `Machines.Machine.Write` | blinky/animation.py:214 | `write()` sends the current buffer to the strip |
| `Machines.Machine.SleepMs` | blinky/animation.py:216 | `sleep_ms(interval)` is recorded after the write |
| `Machines.Machine.Sleep` | blinky/__init__.py:22 | `sleep(30)` is recorded |
| `Animations.PatternOf` | blinky/animation.py:40-44 | `Pattern.parse` succeeds exactly for a dict of type `"colors"` whose LEDs and colour table both build, and the result holds exactly those; any other type raises |
| `Animations.ParsePattern` | blinky/animation.py:40-44 | the construction of a pattern agrees with `PatternOf` |
| `Animations.BuildPatterns` | blinky/animation.py:203 | the list comprehension builds the patterns in order or stops at the first failure |
| `Animations.BuildAnimation` | blinky/animation.py:198-203 | `Animation.__init__` reads `interval`, then `duration`, then the patterns, which are built with that duration |
| `Animations.PatternsFailure` | blinky/animation.py:203 | a failing pattern description is the failure of the whole pattern list, whatever follows it |
| `Animations.PatternsShape` | blinky/animation.py:203 | there is one pattern per description, in order |
| `Animations.AnimationShape` | blinky/animation.py:198-203 | a built animation keeps the given interval and duration and has one pattern per element of the `"patterns"` list |
| `Animations.Lookup` | blinky/animation.py:124-139 | one `apply` entry succeeds exactly when the duration is non-zero, the colour table is non-empty and the LED addresses the strip; it writes `colors[((phase + offset) % duration) % len(colors)]` |
| `Animations.ApplyFrom` | blinky/animation.py:137-139 | `apply` keeps the length of the buffer |
| `Animations.ApplySucceeds` | blinky/animation.py:137-139 | `apply` raises exactly when the pattern owns LEDs and the duration is 0, the colour table is empty, or some LED is off the strip |
| `Animations.ApplyUntouched` | blinky/animation.py:137-139 | `apply` leaves every pixel that no entry addresses unchanged, even when it raises |
| `Animations.ApplyLastWins` | blinky/animation.py:137-139 | after a successful `apply`, a pixel holds the colour of the last entry addressing it |
| `Animations.Apply` | blinky/animation.py:137-139 | `apply` on the machine's array agrees with `ApplyFrom`, including the writes made before an exception |
| `Animations.ApplyAll` | blinky/animation.py:212-213 | applying all patterns keeps the length of the buffer |
| `Animations.ApplyAllSucceeds` | blinky/animation.py:212-213 | a frame raises exactly when some pattern does not fit the strip |
| `Animations.ApplyAllUntouched` | blinky/animation.py:212-213 | a frame leaves pixels that no pattern owns unchanged |
| `Animations.LaterPatternWins` | blinky/animation.py:212-213 | on a pixel shared by patterns, the later pattern in list order wins |
| `Animations.ParsedPatternFits` | blinky/animation.py:54-66 | a pattern built without bare indices for a positive duration raises in `apply` only when it owns LEDs but has an empty colour table |
| `Animations.ApplyPatterns` | blinky/animation.py:212-213 | the pattern loop on the machine agrees with `ApplyAll` |
| `Animations.Frames` | blinky/animation.py:211-216 | every frame keeps the buffer length |
| `Animations.RunAnimation` | blinky/animation.py:205-216 | `run` fills the buffer with black, then produces exactly the buffer, writes, sleeps and exception of `RunTrace` |
| `Animations.FramesShape` | blinky/animation.py:211-216 | a run writes once per frame and sleeps `interval` after each write; without an exception it makes exactly `duration` frames; it raises exactly when there is a frame and some pattern does not fit |
| `Animations.FramesUnowned` | blinky/animation.py:205-216 | a pixel no pattern owns stays black in every frame written |
| `Log.Suppresses` | blinky/log.py:41-49 | a `KeyboardInterrupt` is never suppressed; anything else is suppressed exactly in a safe block |
| `Log.ExitLines` | blinky/log.py:41-49 | an interrupt logs nothing; another exception logs an error and the traceback; completion logs "Complete" with the duration |
| `Log.Logger.Logged` | blinky/log.py:20-21 | `logged(message)` builds a fresh, non-suppressing block for the message |
| `Log.Logger.Safe` | blinky/log.py:23-24 | `safe(message)` builds a fresh, suppressing block for the message |
| `Log.LoggedBlock.constructor` | blinky/log.py:28-31 | a block keeps its logger, message and safe flag |
| `Log.LoggedBlock.Enter` | blinky/log.py:33-35 | `__enter__` traces the message and records the start tick |
| `Log.LoggedBlock.Exit` | blinky/log.py:37-49 | `__exit__` logs the outcome with duration `ticks_diff(end, start)` and returns the suppression decision |
| `Log.WithBlock` | blinky/log.py:33-49 | a `with` block traces on entry, logs how its body ended with the time between the two ticks, and says whether the exception is swallowed |
| `MainLoop.BuildAnimations` | blinky/__init__.py:15 | the list of new animations is built in order, or the first failure is reported |
| `MainLoop.AnimationsFailure` | blinky/__init__.py:15 | a failing animation description is the failure of the whole update, whatever follows it |
| `MainLoop.AnimationsShape` | blinky/__init__.py:15 | a successful update holds one animation per description, each built from its description, in order |
| `MainLoop.UpdateBlock` | blinky/__init__.py:12-15 | the animation list is replaced only when the pull returns a non-None value whose animations all build; None or `null` leaves it; an interrupt escapes; a specification loop that never ends hangs |
| `MainLoop.UpdateAnimations` | blinky/__init__.py:12-15 | the update block agrees with `UpdateBlock` |
| `MainLoop.RunAll` | blinky/__init__.py:17-20 | running the animations keeps the buffer length |
| `MainLoop.RunAllShape` | blinky/__init__.py:17-20 | every animation runs once in order, an exception in one not stopping the next; the events depend only on the strip length, and the strip ends as the last run left it |
| `MainLoop.RunAnimations` | blinky/__init__.py:17-20 | the loop over the animations on the machine agrees with `RunAll` |
| `MainLoop.Iteration` | blinky/__init__.py:17-22 | while there are no animations an iteration sleeps 30 s and runs nothing; an empty list runs nothing and does not sleep |
| `MainLoop.RunIteration` | blinky/__init__.py:17-22 | the run-or-sleep step on the machine agrees with `Iteration` |
| `MainLoop.RunMain` | blinky/__init__.py:7-25 | `main` on the machine agrees with `MainFrom`: same buffer, writes and sleeps, stop reason and iteration count |
| `MainLoop.MainCounts` | blinky/__init__.py:7-25 | the loop stops on its own only when `loops != 0`, and then after exactly `max(loops, 0)` iterations (none for a negative `loops`); with `loops == 0` it never stops on its own |
| `MainLoop.MainFinishes` | blinky/__init__.py:7-25 | with `loops > 0` and pulls that neither hang nor raise an interrupt, `main` makes exactly `loops` iterations, whatever the pulls raise |

## Left out

- `Mix.MixChannel`, `Mix.MixColors`, `Mix.MixSame`, `Mix.MixBetween`: `mix_val` computes `a + (b - a) * (n / fade)` in floating point. The model computes `(a*fade + (b-a)*n) / fade` exactly and truncates toward zero. The two agree only while the channels and intermediate values are exactly representable as floats. Channels are not range-checked, since the desktop `Pixels` double accepts any value. Beyond 2^53 on CPython, and much sooner on a single-precision MicroPython build, the float sum rounds, so `mix_colors(a, a, t) == a` and the between-bounds can fail in the source. Beyond the float range CPython raises OverflowError where the model succeeds. Inside that range the float result can still differ in its last unit when rounding lands just below an integer. `MixSame` and `MixBetween` are proved for the exact model only.
- Booleans and floats in JSON: `isinstance(True, int)` lets booleans through `assert_int`. Only integers, strings, lists, dicts and `null` are modelled.
- Exception classes and messages are descriptive only. The model claims agreement on whether something is raised, not on which Python class is raised or its text.
- An unhashable `"type"` value (a list or dict) raises TypeError when looked up in the pattern registry. The model reports it as an unknown pattern; either way the call raises.
- Loops that never end are outcomes (`Diverges`, `OutOfMemory`), not non-terminating code. This covers the `index` loop with `repeat <= 0` and the `start` loop without `repeat` whose step is not positive.
- `Machines.Machine.Write`: the NeoPixel driver's own range and type checks on pixel values are not modelled. `write` and `sleep_ms` only record events.
- The desktop `Pixels` double accepts any pixel value, so the buffer holds colours of any `Value`s. On the NeoPixel driver, storing non-integer or out-of-range channels raises inside `apply`; this is not modelled.
- `Pattern.init` is a no-op for `Colors` and is left out. The `machine` property is left out because patterns are given the strip length directly.
- `MainLoop.RunMain`: `loops == 0` loops for ever. The model runs one iteration per supplied pull reply and stops with `OutOfInput` when they run out.
- `MainLoop.RunMain`: an interrupt is modelled only as a reply of the pull. A `KeyboardInterrupt` during a run or a sleep is not modelled.
- `MainLoop.RunMain`: the log lines of `main`'s own safe blocks are not recorded. Their suppression decisions go through `Log.Suppresses`.
- The clock is the caller's: `ticks()` readings and `ticks_diff` are parameters of `Enter`, `Exit` and `WithBlock`.
- `Log.Logger.constructor`: `Logger.__init__` stores the machine, which the logging methods never use. The model's logger keeps only the lines it has printed, starting from none.
- `Logger._log` prints to the console. The model records structured `LogLine` values rather than formatted strings. `trace`, `info`, `warn` and `error` are not modelled separately.
- `blinky/color.py` is not part of this model. It holds floating-point RGB/HSL/HSV conversions that the engine does not use.
- `main.py` is not part of this model: WiFi, the NeoPixel driver, and HTTP fetching with an ETag cache are hardware and network I/O.
- `desktop.py` is not part of this model: a urllib fetch and terminal rendering. The pull reply is an input to `MainLoop.RunMain`.
- The configuration module `blinky/config.py` is imported by `main` but not used by the modelled code, and is not part of this model.
