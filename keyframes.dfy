/** The colour table of `Colors.__init__` in `blinky/animation.py`: each
    keyframe `(color, duration, fade)` contributes `duration` copies of its
    colour and then `fade` steps mixing toward the next keyframe's colour,
    the last keyframe fading into the first. */
module Keyframes {
  import opened Values
  import opened Validate
  import opened Mix

  datatype Keyframe = Keyframe(color: Color, duration: int, fade: int)

  /** One entry of `"colors"`: a bare colour takes the pattern's default
      duration and fade; a dict needs `"color"` and may override either. */
  function ParseKeyframe(spec: Value, defDur: int, defFade: int): (r: Result<Keyframe>)
    ensures spec.JList? ==> (r.Ok? <==> |spec.items| == 3)
    ensures spec.JList? && r.Ok? ==> r.value == Keyframe(AssertColor(spec).value, defDur, defFade)
    ensures spec.JObj? ==>
      (r.Ok? <==> "color" in spec.fields && AssertColor(spec.fields["color"]).Ok? &&
                  IntField(spec.fields, "duration", defDur).Ok? && IntField(spec.fields, "fade", defFade).Ok?)
    ensures spec.JObj? && r.Ok? ==>
      "color" in spec.fields && AssertColor(spec.fields["color"]) == Ok(r.value.color) &&
      IntField(spec.fields, "duration", defDur) == Ok(r.value.duration) &&
      IntField(spec.fields, "fade", defFade) == Ok(r.value.fade)
    ensures !spec.JList? && !spec.JObj? ==> r.Err?
  {
    match spec
    case JList(_) =>
      var color :- AssertColor(spec);
      Ok(Keyframe(color, defDur, defFade))
    case JObj(fields) =>
      var colorValue :- Get(fields, "color");
      var color :- AssertColor(colorValue);
      var duration :- IntField(fields, "duration", defDur);
      var fade :- IntField(fields, "fade", defFade);
      Ok(Keyframe(color, duration, fade))
    case _ => Err(NotSubscriptable)
  }

  /** The colour of the following keyframe, read the same way. */
  function NextColor(spec: Value): (r: Result<Color>)
    ensures r.Ok? <==> (spec.JList? && |spec.items| == 3) ||
                       (spec.JObj? && "color" in spec.fields &&
                        spec.fields["color"].JList? && |spec.fields["color"].items| == 3)
    ensures r.Ok? ==> (spec.JList? && r == AssertColor(spec)) ||
                      (spec.JObj? && "color" in spec.fields && r == AssertColor(spec.fields["color"]))
  {
    match spec
    case JList(_) => AssertColor(spec)
    case JObj(fields) =>
      var colorValue :- Get(fields, "color");
      AssertColor(colorValue)
    case _ => Err(NotSubscriptable)
  }

  /** `for n in range(duration): colors.append(color)`. */
  function Copies(c: Color, n: int): (r: seq<Color>)
    ensures |r| == Max0(n)
    ensures forall j :: 0 <= j < |r| ==> r[j] == c
  {
    seq(Max0(n), _ => c)
  }

  /** The first `k` steps of `for n in range(fade): colors.append(
      mix_colors(color, next, n / fade))`. */
  function Fades(c: Color, next: Color, k: int, fade: int): Result<seq<Color>>
    requires fade > 0 || k <= 0
    decreases k
  {
    if k <= 0 then Ok([])
    else
      var before :- Fades(c, next, k - 1, fade);
      var mixed :- MixColors(c, next, k - 1, fade);
      Ok(before + [mixed])
  }

  /** The entries one keyframe contributes, given the next colour. */
  function Entries(kf: Keyframe, next: Color): Result<seq<Color>> {
    var fades :- Fades(kf.color, next, kf.fade, kf.fade);
    Ok(Copies(kf.color, kf.duration) + fades)
  }

  /** Keyframe `n`'s entries; the keyframe after the last is the first. */
  function KeyframeEntries(specs: seq<Value>, n: nat, defDur: int, defFade: int): Result<seq<Color>>
    requires n < |specs|
  {
    var kf :- ParseKeyframe(specs[n], defDur, defFade);
    var next :- NextColor(specs[(n + 1) % |specs|]);
    Entries(kf, next)
  }

  /** The table after the first `k` keyframes, or the first failure. */
  function Table(specs: seq<Value>, k: nat, defDur: int, defFade: int): Result<seq<Color>>
    requires k <= |specs|
  {
    if k == 0 then Ok([])
    else
      var before :- Table(specs, k - 1, defDur, defFade);
      var entries :- KeyframeEntries(specs, k - 1, defDur, defFade);
      Ok(before + entries)
  }

  /** The `Colors`-specific part of the constructor: the pattern-wide
      defaults, which default to 0, then the table. */
  function TableOf(data: map<string, Value>): Result<seq<Color>> {
    var defDur :- IntField(data, "duration", 0);
    var defFade :- IntField(data, "fade", 0);
    var colorsValue :- Get(data, "colors");
    var specs :- AssertList(colorsValue);
    Table(specs, |specs|, defDur, defFade)
  }

  // ---------------------------------------------------------------------
  // The loops.

  lemma {:induction false} FadesFailure(c: Color, next: Color, j: int, k: int, fade: int)
    requires fade > 0 && j <= k && Fades(c, next, j, fade).Err?
    ensures Fades(c, next, k, fade) == Fades(c, next, j, fade)
    decreases k
  {
    if j < k {
      FadesFailure(c, next, j, k - 1, fade);
    }
  }

  lemma {:induction false} TableFailure(specs: seq<Value>, j: nat, k: nat, defDur: int, defFade: int)
    requires j <= k <= |specs| && Table(specs, j, defDur, defFade).Err?
    ensures Table(specs, k, defDur, defFade) == Table(specs, j, defDur, defFade)
    decreases k
  {
    if j < k {
      TableFailure(specs, j, k - 1, defDur, defFade);
    }
  }

  lemma TableStep(specs: seq<Value>, n: nat, colors: seq<Color>, defDur: int, defFade: int)
    requires n < |specs| && Table(specs, n, defDur, defFade) == Ok(colors)
    ensures var e := KeyframeEntries(specs, n, defDur, defFade);
            Table(specs, n + 1, defDur, defFade) == if e.Ok? then Ok(colors + e.value) else Err(e.error)
  {
  }

  /** Appends one keyframe's entries to `colors`. */
  method AppendKeyframe(colors: seq<Color>, kf: Keyframe, next: Color) returns (r: Result<seq<Color>>)
    ensures r.Ok? <==> Entries(kf, next).Ok?
    ensures r.Ok? ==> r.value == colors + Entries(kf, next).value
    ensures r.Err? ==> r.error == Entries(kf, next).error
  {
    var out := colors;
    var i := 0;
    while i < kf.duration
      invariant 0 <= i <= Max0(kf.duration)
      invariant out == colors + Copies(kf.color, i)
    {
      out := out + [kf.color];
      i := i + 1;
    }
    var n := 0;
    while n < kf.fade
      invariant 0 <= n <= Max0(kf.fade)
      invariant Fades(kf.color, next, n, kf.fade).Ok?
      invariant out == colors + Copies(kf.color, kf.duration) + Fades(kf.color, next, n, kf.fade).value
    {
      var mixed := MixColors(kf.color, next, n, kf.fade);
      if mixed.Err? {
        FadesFailure(kf.color, next, n + 1, kf.fade, kf.fade);
        return Err(mixed.error);
      }
      out := out + [mixed.value];
      n := n + 1;
    }
    return Ok(out);
  }

  /** The nested loops of `Colors.__init__` over the keyframes. */
  method BuildTable(specs: seq<Value>, defDur: int, defFade: int) returns (r: Result<seq<Color>>)
    ensures r == Table(specs, |specs|, defDur, defFade)
  {
    var colors: seq<Color> := [];
    var n := 0;
    while n < |specs|
      invariant 0 <= n <= |specs|
      invariant Table(specs, n, defDur, defFade) == Ok(colors)
    {
      TableStep(specs, n, colors, defDur, defFade);
      var kf := ParseKeyframe(specs[n], defDur, defFade);
      if kf.Err? {
        TableFailure(specs, n + 1, |specs|, defDur, defFade);
        return Err(kf.error);
      }
      var next := NextColor(specs[(n + 1) % |specs|]);
      if next.Err? {
        TableFailure(specs, n + 1, |specs|, defDur, defFade);
        return Err(next.error);
      }
      var appended := AppendKeyframe(colors, kf.value, next.value);
      if appended.Err? {
        TableFailure(specs, n + 1, |specs|, defDur, defFade);
        return Err(appended.error);
      }
      colors := appended.value;
      n := n + 1;
    }
    return Ok(colors);
  }

  method ColorTable(data: map<string, Value>) returns (r: Result<seq<Color>>)
    ensures r == TableOf(data)
    ensures "colors" !in data ==> r.Err?
    ensures "colors" in data && !data["colors"].JList? ==> r.Err?
    ensures IntField(data, "duration", 0).Err? || IntField(data, "fade", 0).Err? ==> r.Err?
    ensures r.Ok? ==>
      "colors" in data && data["colors"].JList? &&
      var specs := data["colors"].items;
      var defDur := IntField(data, "duration", 0).value;
      var defFade := IntField(data, "fade", 0).value;
      r == Table(specs, |specs|, defDur, defFade) &&
      |r.value| == SpanSum(specs, |specs|, defDur, defFade)
  {
    var defDur :- IntField(data, "duration", 0);
    var defFade :- IntField(data, "fade", 0);
    var colorsValue :- Get(data, "colors");
    var specs :- AssertList(colorsValue);
    r := BuildTable(specs, defDur, defFade);
    if r.Ok? {
      TableLength(specs, |specs|, defDur, defFade);
    }
  }

  // ---------------------------------------------------------------------
  // What the table holds.

  lemma {:induction false} FadesShape(c: Color, next: Color, k: int, fade: int)
    requires fade > 0 && k <= fade
    ensures Fades(c, next, k, fade).Ok? <==> k <= 1 || (IsIntColor(c) && IsIntColor(next))
    ensures Fades(c, next, k, fade).Ok? ==>
              |Fades(c, next, k, fade).value| == Max0(k) &&
              forall i :: 0 <= i < Max0(k) ==> MixColors(c, next, i, fade) == Ok(Fades(c, next, k, fade).value[i])
    decreases k
  {
    if k > 0 {
      FadesShape(c, next, k - 1, fade);
    }
  }

  /** A keyframe contributes `duration` copies of its colour, then `fade`
      entries `mix_colors(color, next, i / fade)`, the first of which is the
      colour itself. Negative counts contribute nothing. Only the mixing can
      raise, and only from the second fade step on, on non-integer channels. */
  lemma EntriesShape(kf: Keyframe, next: Color)
    ensures Entries(kf, next).Ok? <==> kf.fade <= 1 || (IsIntColor(kf.color) && IsIntColor(next))
    ensures Entries(kf, next).Ok? ==>
      var es := Entries(kf, next).value;
      var d := Max0(kf.duration);
      |es| == d + Max0(kf.fade) &&
      (forall j :: 0 <= j < d ==> es[j] == kf.color) &&
      (forall i :: 0 <= i < Max0(kf.fade) ==> MixColors(kf.color, next, i, kf.fade) == Ok(es[d + i])) &&
      (kf.fade > 0 ==> es[d] == kf.color)
  {
    if kf.fade > 0 {
      FadesShape(kf.color, next, kf.fade, kf.fade);
    }
  }

  /** The number of entries keyframe `n` contributes when it parses. */
  function Span(spec: Value, defDur: int, defFade: int): nat {
    match ParseKeyframe(spec, defDur, defFade)
    case Ok(kf) => Max0(kf.duration) + Max0(kf.fade)
    case Err(_) => 0
  }

  /** Entries of the first `k` keyframes. */
  function SpanSum(specs: seq<Value>, k: nat, defDur: int, defFade: int): nat
    requires k <= |specs|
  {
    if k == 0 then 0 else SpanSum(specs, k - 1, defDur, defFade) + Span(specs[k - 1], defDur, defFade)
  }

  /** The table holds, over the keyframes, `duration + fade` entries each
      (negative counts contributing nothing). */
  lemma {:induction false} TableLength(specs: seq<Value>, k: nat, defDur: int, defFade: int)
    requires k <= |specs| && Table(specs, k, defDur, defFade).Ok?
    ensures |Table(specs, k, defDur, defFade).value| == SpanSum(specs, k, defDur, defFade)
  {
    if k > 0 {
      TableUnfold(specs, k, defDur, defFade);
      TableLength(specs, k - 1, defDur, defFade);
      var kf := ParseKeyframe(specs[k - 1], defDur, defFade).value;
      EntriesShape(kf, NextColor(specs[k % |specs|]).value);
    }
  }

  /** One more keyframe: the table grows by that keyframe's entries. */
  lemma TableUnfold(specs: seq<Value>, k: nat, defDur: int, defFade: int)
    requires 0 < k <= |specs| && Table(specs, k, defDur, defFade).Ok?
    ensures Table(specs, k - 1, defDur, defFade).Ok? && KeyframeEntries(specs, k - 1, defDur, defFade).Ok?
    ensures Table(specs, k, defDur, defFade).value
            == Table(specs, k - 1, defDur, defFade).value + KeyframeEntries(specs, k - 1, defDur, defFade).value
  {
  }

  /** A successful table extends every shorter table of the same keyframes. */
  lemma {:induction false} TablePrefix(specs: seq<Value>, j: nat, k: nat, defDur: int, defFade: int)
    requires j <= k <= |specs| && Table(specs, k, defDur, defFade).Ok?
    ensures Table(specs, j, defDur, defFade).Ok?
    ensures |Table(specs, j, defDur, defFade).value| <= |Table(specs, k, defDur, defFade).value|
    ensures Table(specs, k, defDur, defFade).value[..|Table(specs, j, defDur, defFade).value|]
            == Table(specs, j, defDur, defFade).value
    decreases k
  {
    if j < k {
      TableUnfold(specs, k, defDur, defFade);
      TablePrefix(specs, j, k - 1, defDur, defFade);
      var short := Table(specs, j, defDur, defFade).value;
      var before := Table(specs, k - 1, defDur, defFade).value;
      var t := Table(specs, k, defDur, defFade).value;
      assert t[..|before|] == before;
      assert t[..|short|] == before[..|short|];
    }
  }

  /** Two keyframes of five frames each, red then green, give ten frames:
      five red, then five green. */
  lemma RedThenGreen()
    ensures var red := JList([JInt(255), JInt(0), JInt(0)]);
            var green := JList([JInt(0), JInt(255), JInt(0)]);
            var specs := [JObj(map["color" := red, "duration" := JInt(5), "fade" := JInt(0)]),
                          JObj(map["color" := green, "duration" := JInt(5), "fade" := JInt(0)])];
            var t := Table(specs, 2, 0, 0);
            t.Ok? && |t.value| == 10 &&
            (forall j :: 0 <= j < 5 ==> t.value[j] == Color(JInt(255), JInt(0), JInt(0))) &&
            (forall j :: 5 <= j < 10 ==> t.value[j] == Color(JInt(0), JInt(255), JInt(0)))
  {
    var red := JList([JInt(255), JInt(0), JInt(0)]);
    var green := JList([JInt(0), JInt(255), JInt(0)]);
    var specs := [JObj(map["color" := red, "duration" := JInt(5), "fade" := JInt(0)]),
                  JObj(map["color" := green, "duration" := JInt(5), "fade" := JInt(0)])];
    assert ParseKeyframe(specs[0], 0, 0) == Ok(Keyframe(Color(JInt(255), JInt(0), JInt(0)), 5, 0));
    assert ParseKeyframe(specs[1], 0, 0) == Ok(Keyframe(Color(JInt(0), JInt(255), JInt(0)), 5, 0));
    var r := Color(JInt(255), JInt(0), JInt(0));
    var g := Color(JInt(0), JInt(255), JInt(0));
    assert NextColor(specs[0]) == Ok(r);
    assert NextColor(specs[1]) == Ok(g);
    assert Fades(r, g, 0, 0) == Ok([]);
    assert Entries(Keyframe(r, 5, 0), g) == Ok(Copies(r, 5) + []);
    assert Copies(r, 5) + [] == Copies(r, 5);
    assert KeyframeEntries(specs, 0, 0, 0) == Ok(Copies(r, 5));
    assert Fades(g, r, 0, 0) == Ok([]);
    assert Entries(Keyframe(g, 5, 0), r) == Ok(Copies(g, 5) + []);
    assert Copies(g, 5) + [] == Copies(g, 5);
    assert KeyframeEntries(specs, 1, 0, 0) == Ok(Copies(g, 5));
    assert Table(specs, 0, 0, 0) == Ok([]);
    assert [] + Copies(r, 5) == Copies(r, 5);
    assert Table(specs, 1, 0, 0) == Ok(Copies(r, 5));
  }
}
