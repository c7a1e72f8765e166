/** `Decimal.quantize` with the default half-even rounding, over exact reals. */
module Rounding {
  import opened Reals

  function RoundHalfEven(y: real): (k: int)
    ensures -0.5 <= k as real - y <= 0.5
  {
    var f := y.Floor;
    var rest := y - f as real;
    if rest < 0.5 then f
    else if rest > 0.5 then f + 1
    else if f % 2 == 0 then f
    else f + 1
  }

  /** Rounds to a multiple of `1/scale`; scale 100.0 is two places, 10000.0 is four. */
  function Quantize(x: real, scale: real): real
    requires scale > 0.0
  {
    RoundHalfEven(x * scale) as real / scale
  }

  lemma RoundMonotone(a: real, b: real)
    requires a <= b
    ensures RoundHalfEven(a) <= RoundHalfEven(b)
  {
  }

  lemma RoundInteger(k: int)
    ensures RoundHalfEven(k as real) == k
  {
  }

  /** Rounding keeps a value on the same side of every grid point `k/scale`. */
  lemma QuantizeBounds(x: real, scale: real, lo: int, hi: int)
    requires scale > 0.0
    requires lo as real <= x * scale <= hi as real
    ensures lo as real / scale <= Quantize(x, scale) <= hi as real / scale
  {
    RoundInteger(lo);
    RoundInteger(hi);
    RoundMonotone(lo as real, x * scale);
    RoundMonotone(x * scale, hi as real);
    var k := RoundHalfEven(x * scale);
    assert lo <= k <= hi;
    QuotientMonotone(lo as real, k as real, scale);
    QuotientMonotone(k as real, hi as real, scale);
  }

  /** A non-negative value stays non-negative. */
  lemma QuantizeNonNegative(x: real, scale: real)
    requires scale > 0.0 && x >= 0.0
    ensures Quantize(x, scale) >= 0.0
  {
    RoundInteger(0);
    RoundMonotone(0.0, x * scale);
    QuotientMonotone(0.0, RoundHalfEven(x * scale) as real, scale);
  }

  lemma QuantizeMonotone(x: real, y: real, scale: real)
    requires scale > 0.0 && x <= y
    ensures Quantize(x, scale) <= Quantize(y, scale)
  {
    assert x * scale <= y * scale;
    RoundMonotone(x * scale, y * scale);
    QuotientMonotone(RoundHalfEven(x * scale) as real, RoundHalfEven(y * scale) as real, scale);
  }

  /** A grid point is its own rounding. */
  lemma QuantizeGrid(q: real, scale: real, k: int)
    requires scale > 0.0 && q * scale == k as real
    ensures Quantize(q, scale) == k as real / scale
  {
    RoundInteger(k);
  }

  lemma QuantizeTwice(x: real, scale: real)
    requires scale > 0.0
    ensures Quantize(Quantize(x, scale), scale) == Quantize(x, scale)
  {
    var k := RoundHalfEven(x * scale);
    QuotientTimes(k as real, scale);
    QuantizeGrid(Quantize(x, scale), scale, k);
  }

  // ----- What rounding means

  /** `k` is an integer nearest to `y`, the even one when two are equally near. */
  predicate RoundsTo(y: real, k: int) {
    && y - 0.5 <= k as real <= y + 0.5
    && (k as real == y - 0.5 || k as real == y + 0.5 ==> k % 2 == 0)
  }

  lemma RoundIsNearest(y: real, k: int)
    ensures RoundHalfEven(y) == k <==> RoundsTo(y, k)
  {
  }

  /** `q` is `x` rounded to the grid of `1/scale`. */
  ghost predicate Rounded(x: real, scale: real, q: real)
    requires scale > 0.0
  {
    exists k :: RoundsAt(x, scale, q, k)
  }

  predicate RoundsAt(x: real, scale: real, q: real, k: int)
    requires scale > 0.0
  {
    RoundsTo(x * scale, k) && q == k as real / scale
  }

  lemma QuantizeExact(x: real, scale: real, q: real)
    requires scale > 0.0
    ensures Quantize(x, scale) == q <==> Rounded(x, scale, q)
  {
    var k := RoundHalfEven(x * scale);
    RoundIsNearest(x * scale, k);
    assert RoundsAt(x, scale, Quantize(x, scale), k);
    forall j | RoundsAt(x, scale, q, j) ensures j == k { RoundIsNearest(x * scale, j); }
  }
}
