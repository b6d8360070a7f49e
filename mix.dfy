/** `mix_colors` of `blinky/animation.py`: linear interpolation between two
    colours at offset `n / d`, each channel truncated toward zero. The
    offset is kept as an exact fraction. */
module Mix {
  import opened Values
  import opened Validate

  /** Python's `int(x / d)` for an exact quotient: truncation toward zero. */
  function TruncDiv(x: int, d: int): (q: int)
    requires d > 0
    ensures 0 <= x ==> 0 <= x - q * d < d
    ensures x < 0 ==> 0 <= q * d - x < d
  {
    if x >= 0 then x / d else -((-x) / d)
  }

  /** `int(a + (b - a) * (n / d))` on integers, computed exactly. */
  function MixInt(a: int, b: int, n: int, d: int): int
    requires d > 0
  {
    TruncDiv(a * d + (b - a) * n, d)
  }

  /** `q` is `int(a + (b - a) * (n / d))`: the exact value
      `(a*d + (b - a)*n) / d` truncated toward zero. */
  predicate Truncated(a: int, b: int, n: int, d: int, q: int) {
    var x := a * d + (b - a) * n;
    (0 <= x ==> 0 <= x - q * d < d) && (x < 0 ==> 0 <= q * d - x < d)
  }

  /** `mix_val(a, b, n / d)` for `0 < n < d`: `int(a + (b - a) * offset)`.
      Only integer channels support the arithmetic; anything else raises. */
  function MixChannel(a: Value, b: Value, n: int, d: int): (r: Result<Value>)
    requires 0 < n < d
    ensures r.Ok? <==> a.JInt? && b.JInt?
    ensures r.Ok? ==> r.value.JInt? && Truncated(a.i, b.i, n, d, r.value.i)
  {
    if a.JInt? && b.JInt? then Ok(JInt(MixInt(a.i, b.i, n, d)))
    else Err(BadOperand)
  }

  /** `mix_colors(a, b, n / d)`. At or below offset 0 it returns `a` and at
      or above offset 1 it returns `b`, untouched; in between it mixes the
      three channels in order. */
  function MixColors(a: Color, b: Color, n: int, d: int): (r: Result<Color>)
    requires d > 0
    ensures n <= 0 ==> r == Ok(a)
    ensures n >= d ==> r == Ok(b)
    ensures r.Ok? <==> n <= 0 || n >= d || (IsIntColor(a) && IsIntColor(b))
    ensures 0 < n < d && r.Ok? ==>
      IsIntColor(r.value) &&
      Truncated(a.r.i, b.r.i, n, d, r.value.r.i) &&
      Truncated(a.g.i, b.g.i, n, d, r.value.g.i) &&
      Truncated(a.b.i, b.b.i, n, d, r.value.b.i)
  {
    if n <= 0 then Ok(a)
    else if n >= d then Ok(b)
    else
      var r :- MixChannel(a.r, b.r, n, d);
      var g :- MixChannel(a.g, b.g, n, d);
      var bl :- MixChannel(a.b, b.b, n, d);
      Ok(Color(r, g, bl))
  }

  /** The truncated mix of two integers lies between them. */
  lemma {:induction false} ChannelBetween(a: int, b: int, n: int, d: int)
    requires 0 < n < d
    ensures var q := MixInt(a, b, n, d);
            (a <= q <= b) || (b <= q <= a)
  {
    var x := a * d + (b - a) * n;
    var q := TruncDiv(x, d);
    if a <= b {
      ScaledStep(b - a, n, d);
      assert a * d + (b - a) * d == b * d;
      BetweenMultiples(x, d, q, a, b);
    } else {
      ScaledStep(a - b, n, d);
      assert a * d + (b - a) * n == a * d - (a - b) * n;
      assert a * d - (a - b) * d == b * d;
      BetweenMultiples(x, d, q, b, a);
    }
  }

  /** A non-negative gap scaled by `n` stays between 0 and the gap scaled by
      `d`, when `0 < n < d`. */
  lemma ScaledStep(gap: int, n: int, d: int)
    requires gap >= 0 && 0 < n < d
    ensures 0 <= gap * n <= gap * d
  {
  }


  /** If `lo * d <= x <= hi * d`, truncating `x / d` stays in `[lo, hi]`. */
  lemma BetweenMultiples(x: int, d: int, q: int, lo: int, hi: int)
    requires d > 0 && q == TruncDiv(x, d)
    requires lo * d <= x <= hi * d
    ensures lo <= q <= hi
  {
    assert lo * d < (q + 1) * d;
    LessAfterScaling(lo, q + 1, d);
    assert (q - 1) * d < hi * d;
    LessAfterScaling(q - 1, hi, d);
  }

  /** Scaling by a positive factor keeps strict order. */
  lemma LessAfterScaling(u: int, v: int, d: int)
    requires d > 0
    ensures u * d < v * d ==> u < v
  {
  }

  /** Every channel of a successful mix lies between the two inputs'
      channels. */
  lemma MixBetween(a: Color, b: Color, n: int, d: int)
    requires 0 < n < d && IsIntColor(a) && IsIntColor(b)
    ensures MixColors(a, b, n, d).Ok?
    ensures var c := MixColors(a, b, n, d).value;
            (a.r.i <= c.r.i <= b.r.i || b.r.i <= c.r.i <= a.r.i) &&
            (a.g.i <= c.g.i <= b.g.i || b.g.i <= c.g.i <= a.g.i) &&
            (a.b.i <= c.b.i <= b.b.i || b.b.i <= c.b.i <= a.b.i)
  {
    ChannelBetween(a.r.i, b.r.i, n, d);
    ChannelBetween(a.g.i, b.g.i, n, d);
    ChannelBetween(a.b.i, b.b.i, n, d);
  }

  /** Mixing a colour with itself gives it back, at every offset, provided
      its channels are integers (otherwise the arithmetic raises). */
  lemma MixSame(a: Color, n: int, d: int)
    requires d > 0 && IsIntColor(a)
    ensures MixColors(a, a, n, d) == Ok(a)
  {
    if 0 < n < d {
      MixBetween(a, a, n, d);
    }
  }
}
