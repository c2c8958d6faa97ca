/** Fixed-scale decimals. A DECIMAL(p,s) column, a numeric cast and big.Rat.FloatString all round half away from
    zero. */
module Decimals {

  /** Half away from zero. */
  function RoundHalf(r: real): int {
    if r >= 0.0 then (r + 0.5).Floor else -((-r + 0.5).Floor)
  }

  /** It is the nearest integer, and of two equally near ones the one farther from zero. */
  lemma RoundHalfIff(r: real, k: int)
    ensures k == RoundHalf(r) <==>
      if r >= 0.0 then -0.5 < k as real - r <= 0.5 else -0.5 <= k as real - r < 0.5
  {
    assert k as real == RoundHalf(r) as real <==> k == RoundHalf(r);
  }

  /** `x` in units of 1/scale. */
  function Round(x: real, scale: int): int
    requires scale > 0
  {
    RoundHalf(x * scale as real)
  }

  function Value(units: int, scale: int): real
    requires scale > 0
  {
    units as real / scale as real
  }

  /** Rounding moves a number by at most half a unit. */
  lemma RoundError(x: real, scale: int)
    requires scale > 0
    ensures -0.5 <= Round(x, scale) as real - x * scale as real <= 0.5
  {
  }

  lemma RoundExact(units: int, scale: int)
    requires scale > 0
    ensures Round(Value(units, scale), scale) == units
  {
    assert Value(units, scale) * scale as real == units as real;
  }

  lemma RoundHalfMonotone(r: real, t: real)
    requires r <= t
    ensures RoundHalf(r) <= RoundHalf(t)
  {
  }

  lemma RoundMonotone(x: real, y: real, scale: int)
    requires scale > 0 && x <= y
    ensures Round(x, scale) <= Round(y, scale)
  {
    ScaledMonotone(x, y, scale as real);
    RoundHalfMonotone(x * scale as real, y * scale as real);
  }

  lemma ScaledMonotone(x: real, y: real, s: real)
    requires s > 0.0 && x <= y
    ensures x * s <= y * s
  {
    assert (y - x) * s >= 0.0;
    assert (y - x) * s == y * s - x * s;
  }

  /** A number at or below a stored value rounds to at most that value. */
  lemma RoundBelow(x: real, units: int, scale: int)
    requires scale > 0 && x <= Value(units, scale)
    ensures Round(x, scale) <= units
  {
    RoundMonotone(x, Value(units, scale), scale);
    RoundExact(units, scale);
  }
}
