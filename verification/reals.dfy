/** `Math.min` and `Math.max` on exact reals, and a step of real arithmetic the proofs share. */
module Reals {

  function Min(a: real, b: real): real {
    if a <= b then a else b
  }

  function Max(a: real, b: real): real {
    if a >= b then a else b
  }

  /** Multiplying by a non-negative factor keeps an inequality. */
  lemma ScaleMonotone(a: real, x: real, y: real)
    requires 0.0 <= a && x <= y
    ensures a * x <= a * y
  {
    assert a * y - a * x == a * (y - x);
  }

  /** Multiplying by a positive factor keeps a strict inequality. */
  lemma ScaleStrictlyMonotone(a: real, x: real, y: real)
    requires 0.0 < a && x < y
    ensures a * x < a * y
  {
    assert a * y - a * x == a * (y - x);
  }

  /** `Math.max(0, a * x)` is monotone in `x` for a non-negative factor. */
  lemma FlooredScaleMonotone(a: real, x: real, y: real)
    requires 0.0 <= a && x <= y
    ensures Max(0.0, a * x) <= Max(0.0, a * y)
  {
    ScaleMonotone(a, x, y);
    MaxMonotone(0.0, a * x, a * y);
  }

  lemma MaxMonotone(c: real, u: real, v: real)
    requires u <= v
    ensures Max(c, u) <= Max(c, v)
  {
  }

  /** ... and strictly so for a positive factor on non-negative arguments. */
  lemma FlooredScaleStrictlyMonotone(a: real, x: real, y: real)
    requires 0.0 < a && 0.0 <= x < y
    ensures Max(0.0, a * x) < Max(0.0, a * y)
  {
    ScaleStrictlyMonotone(a, x, y);
    ScaleMonotone(a, 0.0, x);
    assert a * 0.0 == 0.0;
  }

  /** A fraction in [0, 1] of a non-negative value lies between 0 and that value. */
  lemma FlooredScaleBounded(a: real, x: real)
    requires 0.0 <= a && 0.0 <= x <= 1.0
    ensures 0.0 <= Max(0.0, a * x) <= a
  {
    ScaleMonotone(a, x, 1.0);
    assert a * 1.0 == a;
  }

  /** A factor above 1 of a positive value exceeds that value. */
  lemma FlooredScaleAbove(a: real, x: real)
    requires 0.0 < a && 1.0 < x
    ensures Max(0.0, a * x) > a
  {
    ScaleStrictlyMonotone(a, 1.0, x);
    assert a * 1.0 == a;
  }
}
