/** PHP's `round`, `min` and `max` over reals. */
module Numeric {

  function Pow10(d: nat): (p: nat)
    ensures p >= 1
  {
    if d == 0 then 1 else 10 * Pow10(d - 1)
  }

  /** The nearest integer, halves rounded away from zero. */
  function RoundHalfAway(y: real): int {
    if y >= 0.0 then (y + 0.5).Floor else -((-y + 0.5).Floor)
  }

  /** The nearest multiple of 1/m. */
  function RoundAt(x: real, m: real): real
    requires m > 0.0
  {
    (RoundHalfAway(x * m) as real) / m
  }

  /** PHP `round(x, d)`: the nearest multiple of 10^-d, halves rounded away from zero. */
  function Round(x: real, d: nat): real {
    RoundAt(x, Pow10(d) as real)
  }

  function Min(a: real, b: real): (r: real)
    ensures r <= a && r <= b && (r == a || r == b)
  {
    if a <= b then a else b
  }

  function Max(a: real, b: real): (r: real)
    ensures r >= a && r >= b && (r == a || r == b)
  {
    if a >= b then a else b
  }

  lemma RoundHalfAwayError(y: real)
    ensures -0.5 <= RoundHalfAway(y) as real - y <= 0.5
  {
  }

  lemma RoundHalfAwayOfInt(k: int)
    ensures RoundHalfAway(k as real) == k
  {
    if k >= 0 {
      assert (k as real + 0.5).Floor == k;
    } else {
      assert (-(k as real) + 0.5).Floor == -k;
    }
  }

  lemma DivideMonotone(a: real, b: real, m: real)
    requires m > 0.0 && a <= b
    ensures a / m <= b / m
  {
    assert b / m - a / m == (b - a) / m;
  }

  lemma RoundAtError(x: real, m: real)
    requires m > 0.0
    ensures -0.5 / m <= RoundAt(x, m) - x <= 0.5 / m
  {
    var y := x * m;
    var k := RoundHalfAway(y);
    RoundHalfAwayError(y);
    var e := k as real - y;
    assert x == y / m;
    assert RoundAt(x, m) - x == e / m;
    DivideMonotone(-0.5, e, m);
    DivideMonotone(e, 0.5, m);
  }

  lemma RoundAtIdempotent(x: real, m: real)
    requires m > 0.0
    ensures RoundAt(RoundAt(x, m), m) == RoundAt(x, m)
  {
    var k := RoundHalfAway(x * m);
    assert RoundAt(x, m) * m == k as real;
    RoundHalfAwayOfInt(k);
  }

  /** Rounding to `d` places moves a value by at most half a unit in the last place. */
  lemma RoundError(x: real, d: nat)
    ensures -0.5 / Pow10(d) as real <= Round(x, d) - x <= 0.5 / Pow10(d) as real
  {
    RoundAtError(x, Pow10(d) as real);
  }

  /** Rounding an already rounded value changes nothing. */
  lemma RoundIdempotent(x: real, d: nat)
    ensures Round(Round(x, d), d) == Round(x, d)
  {
    RoundAtIdempotent(x, Pow10(d) as real);
  }

  /**
   * `Math.floor(x / d)` for an integer x and a positive d: Dafny's division
   * rounds toward negative infinity when the divisor is positive, so it is
   * written as `x / d`.
   */
  lemma FloorDivision(x: int, d: int)
    requires d > 0
    ensures (x / d) * d <= x < (x / d) * d + d
  {
  }

  /** The only q with q * d <= x < q * d + d is x / d. */
  lemma DivisionUnique(x: int, d: int, q: int)
    requires d > 0 && q * d <= x < q * d + d
    ensures x / d == q
  {
    FloorDivision(x, d);
    var p := x / d;
    if p < q {
      MulLe(p + 1, q, d);
    } else if p > q {
      MulLe(q + 1, p, d);
    }
  }

  lemma MulLe(a: int, b: int, d: int)
    requires a <= b && d > 0
    ensures a * d <= b * d
  {
  }
}
