/** Arithmetic helpers standing in for the JavaScript built-ins the engine calls. */
module Numeric {

  /** Math.round: the nearest integer, with halves rounded towards +infinity. */
  function Round(x: real): (r: int)
    ensures x - 0.5 < r as real <= x + 0.5
  {
    (x + 0.5).Floor
  }

  /** Math.round(x * 100) / 100: rounding to two decimal places. */
  function Round2(x: real): (r: real)
    ensures x - 0.005 < r <= x + 0.005
    ensures (r * 100.0).Floor as real == r * 100.0
  {
    Round(x * 100.0) as real / 100.0
  }

  /** Math.min on two numbers. */
  function Min(a: real, b: real): (r: real)
    ensures r <= a && r <= b
    ensures r == a || r == b
  {
    if a <= b then a else b
  }

  /** Math.min on two integers (used for the bound of `slice(0, n)`). */
  function MinInt(a: int, b: int): (r: int)
    ensures r <= a && r <= b
    ensures r == a || r == b
  {
    if a <= b then a else b
  }

  /** Math.max(lo, Math.min(hi, x)). */
  function Clamp(x: int, lo: int, hi: int): (r: int)
    requires lo <= hi
    ensures lo <= r <= hi
    ensures lo <= x <= hi ==> r == x
    ensures x < lo ==> r == lo
    ensures x > hi ==> r == hi
  {
    if x < lo then lo else if x > hi then hi else x
  }

  /** Rounding never leaves an integer interval that contains its argument. */
  lemma RoundWithin(x: real, lo: int, hi: int)
    requires lo as real <= x <= hi as real
    ensures lo <= Round(x) <= hi
  {
  }

  /** Rounding is monotone. */
  lemma RoundMonotone(x: real, y: real)
    requires x <= y
    ensures Round(x) <= Round(y)
  {
  }

  /** Rounding an integer gives it back. */
  lemma RoundInteger(n: int)
    ensures Round(n as real) == n
  {
  }

  /**
   * Real multiplication under a name. Facts stated about `Mul(x, y)` carry over
   * to any arguments equal to `x` and `y`, which the solver does not do for a
   * bare nonlinear product.
   */
  function Mul(x: real, y: real): real {
    x * y
  }

  lemma SquareNonNegative(x: real)
    ensures Mul(x, x) >= 0.0
  {
  }

  lemma ProductNonNegative(x: real, y: real)
    requires x >= 0.0 && y >= 0.0
    ensures Mul(x, y) >= 0.0
  {
  }

  lemma ProductPositive(x: real, y: real)
    requires x > 0.0 && y > 0.0
    ensures Mul(x, y) > 0.0
  {
  }

  lemma SquarePositive(x: real)
    requires x != 0.0
    ensures Mul(x, x) > 0.0
  {
    if x < 0.0 {
      ProductPositive(-x, -x);
      assert Mul(-x, -x) == Mul(x, x);
    } else {
      ProductPositive(x, x);
    }
  }

  lemma ProductMonotone(x: real, y: real, z: real)
    requires x <= y && z >= 0.0
    ensures Mul(x, z) <= Mul(y, z)
  {
  }
}
