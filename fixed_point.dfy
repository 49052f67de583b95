/**
 * Exact integer arithmetic standing in for the JavaScript floating-point
 * expressions of the economy: powers, `Math.max`, and `toFixed` rounding.
 */
module FixedPoint {

  /** b to the power e. */
  function Pow(b: int, e: nat): int
  {
    if e == 0 then 1 else b * Pow(b, e - 1)
  }

  lemma {:induction false} PowPositive(b: int, e: nat)
    requires b > 0
    ensures Pow(b, e) > 0
  {
    if e > 0 {
      PowPositive(b, e - 1);
    }
  }

  /** Math.max on two integers. */
  function Max(a: int, b: int): (m: int)
    ensures m >= a && m >= b
    ensures m == a || m == b
  {
    if a >= b then a else b
  }

  /** The integer nearest to n / d, a half rounded upward. */
  function RoundHalfUp(n: int, d: int): (r: int)
    requires d > 0
    ensures 2 * (d * r) - d <= 2 * n < 2 * (d * r) + d
  {
    var q := (2 * n + d) / (2 * d);
    assert 2 * n + d == (2 * d) * q + (2 * n + d) % (2 * d);
    assert (2 * d) * q == 2 * (d * q);
    q
  }

  lemma MulMonotone(d: int, a: int, b: int)
    requires d > 0 && a <= b
    ensures d * a <= d * b
  {
    assert d * b - d * a == d * (b - a);
  }

  /** A multiple of a positive d that stays below d is a multiple by at most 0. */
  lemma BelowOneStep(d: int, x: int)
    requires d > 0 && d * x < d
    ensures x <= 0
  {
    if x >= 1 {
      MulMonotone(d, 1, x);
    }
  }

  /** Only one integer lies within half a step of n / d (halves counted upward). */
  lemma RoundHalfUpUnique(n: int, d: int, r: int)
    requires d > 0
    requires 2 * (d * r) - d <= 2 * n < 2 * (d * r) + d
    ensures RoundHalfUp(n, d) == r
  {
    var q := RoundHalfUp(n, d);
    assert d * (r - q) == d * r - d * q;
    assert d * (q - r) == d * q - d * r;
    BelowOneStep(d, r - q);
    BelowOneStep(d, q - r);
  }

  /** Adding a whole number of steps before rounding adds it after rounding. */
  lemma RoundHalfUpShift(k: int, n: int, d: int)
    requires d > 0
    ensures RoundHalfUp(k * d + n, d) == k + RoundHalfUp(n, d)
  {
    var r := RoundHalfUp(n, d);
    assert d * (k + r) == k * d + d * r;
    RoundHalfUpUnique(k * d + n, d, k + r);
  }

  /**
   * `Number.prototype.toFixed` on the exact value n / d: the magnitude is
   * rounded half-up and the sign put back, so halves go away from zero.
   */
  function RoundHalfAway(n: int, d: int): (r: int)
    requires d > 0
    ensures n >= 0 ==> r == RoundHalfUp(n, d) && r >= 0
    ensures n < 0 ==> r == -RoundHalfUp(-n, d) && r <= 0
    ensures var m, a := (if n < 0 then -n else n), (if r < 0 then -r else r);
      2 * (d * a) - d <= 2 * m < 2 * (d * a) + d
  {
    if n >= 0 then RoundHalfUp(n, d) else -RoundHalfUp(-n, d)
  }
}
