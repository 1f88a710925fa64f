/**
 * Exact money arithmetic. Amounts are Dafny reals; the two roundings the core performs are
 * written out: amounts to cents with halves away from zero, and winner counts to the nearest
 * integer with halves to even.
 */
module Money {

  /** `x` is a whole number of cents. */
  predicate IsCents(x: real) {
    (x * 100.0).Floor as real == x * 100.0
  }

  /**
   * Rounds an amount to two decimals, halves away from zero
   * (`Math.Round(x, 2, MidpointRounding.AwayFromZero)`).
   */
  function RoundCents(x: real): (r: real)
    ensures IsCents(r)
    // a nearest whole cent ...
    ensures -0.005 <= r - x <= 0.005
    // ... and on a tie the one farther from zero
    ensures r - x == 0.005 ==> x > 0.0
    ensures r - x == -0.005 ==> x < 0.0
  {
    if x >= 0.0 then
      var c := (x * 100.0 + 0.5).Floor;
      HalfUp(x * 100.0);
      WholeCents(c);
      c as real / 100.0
    else
      var c := (-x * 100.0 + 0.5).Floor;
      HalfUp(-x * 100.0);
      WholeCents(-c);
      (-c) as real / 100.0
  }

  /** Rounding a non-negative `y` half up moves it by at most one half, and by exactly one half only upwards from above zero. */
  lemma HalfUp(y: real)
    requires y >= 0.0
    ensures var c := (y + 0.5).Floor as real;
      && -0.5 < c - y <= 0.5
      && (c - y == 0.5 ==> y > 0.0)
  {
  }

  /** A whole number of hundredths is a whole number of cents. */
  lemma WholeCents(n: int)
    ensures IsCents(n as real / 100.0)
  {
    assert n as real / 100.0 * 100.0 == n as real;
  }

  /** The three properties above determine the rounded amount: any amount meeting them is `RoundCents(x)`. */
  lemma RoundCentsUnique(x: real, r: real)
    requires IsCents(r)
    requires -0.005 <= r - x <= 0.005
    requires r - x == 0.005 ==> x > 0.0
    requires r - x == -0.005 ==> x < 0.0
    ensures r == RoundCents(x)
  {
    var q := RoundCents(x);
    var m, n := (r * 100.0).Floor, (q * 100.0).Floor;
    assert -1.0 <= (m - n) as real <= 1.0;
    if m != n {
      assert false;
    }
  }

  /**
   * `n / d` rounded to the nearest integer, halves to the even neighbour
   * (`Math.Round` on a double in its default mode), for a non-negative `n`.
   */
  function RoundHalfEven(n: nat, d: nat): (r: nat)
    requires d > 0
    // a nearest integer: |r - n/d| <= 1/2
    ensures -(d as int) <= 2 * (r * d - n) <= d
    // on a tie, the even one
    ensures 2 * (r * d - n) == d || 2 * (r * d - n) == -(d as int) ==> r % 2 == 0
  {
    var q, m := n / d, n % d;
    assert q * d == n - m;
    MulSucc(q, d);
    if 2 * m < d || (2 * m == d && q % 2 == 0) then q else q + 1
  }

  /** One more of `d`, on integers. */
  lemma MulSucc(q: int, d: int)
    ensures (q + 1) * d == q * d + d
  {
  }

  /** Multiplying back by the divisor undoes the division. */
  lemma DivCancels(m: real, x: real)
    requires m > 0.0
    ensures m * (x / m) == x
  {
  }

  lemma MulNonNegative(a: real, b: real)
    requires a >= 0.0 && b >= 0.0
    ensures a * b >= 0.0
  {
  }

  /** A multiple `x = p * q` of a positive `p` lies at or above `f * p` when `f <= q`. */
  lemma ScaledAbove(x: real, p: real, f: real, q: real)
    requires x == p * q && f <= q && p > 0.0
    ensures f * p <= x
  {
    MulNonNegative(q - f, p);
  }

  /** A multiple `x = p * q` of a positive `p` lies below `g * p` when `q < g`. */
  lemma ScaledBelow(x: real, p: real, g: real, q: real)
    requires x == p * q && q < g && p > 0.0
    ensures x < g * p
  {
    MulNonNegative(g - q, p);
    assert (g - q) * p != 0.0;
  }

  /** One more of `p`. */
  lemma AddOneTimes(f: real, p: real)
    ensures (f + 1.0) * p == f * p + p
  {
  }
}
