/**
 * The integer rounding rules the converter applies to real values: the
 * ceiling of the decimal bar counters, the truncating `(int)` cast of the
 * delay in milliseconds, and the round-half-away-from-zero rule of .NET's
 * fixed-point number formats.
 */
module Numerics {

  /** `Math.Ceiling`, written as ceil(x) = -floor(-x): the least integer not below `x`. */
  function Ceil(x: real): (r: int)
    ensures r as real - 1.0 < x <= r as real
  {
    -((-x).Floor)
  }

  /** The ceiling is the only integer with the bounds `Ceil` promises. */
  lemma CeilUnique(x: real, n: int)
    requires n as real - 1.0 < x <= n as real
    ensures Ceil(x) == n
  {
  }

  /** The C# cast `(int)x`: truncation toward zero (the 32-bit range is not modelled). */
  function Truncate(x: real): (r: int)
    ensures 0.0 <= x ==> 0 <= r && r as real <= x < r as real + 1.0
    ensures x < 0.0 ==> r <= 0 && r as real - 1.0 < x <= r as real
  {
    if x >= 0.0 then x.Floor else -((-x).Floor)
  }

  /** Ten to the power `d`. */
  function Pow10(d: nat): (r: nat)
    ensures r >= 1
  {
    if d == 0 then 1 else 10 * Pow10(d - 1)
  }

  /** The absolute value of an integer. */
  function Magnitude(i: int): nat
  {
    if i < 0 then -i else i
  }

  /** A negative quotient is the negated quotient of the magnitude. */
  lemma NegatedMagnitudeQuotient(u: int, p: real)
    requires u < 0 && p > 0.0
    ensures -(Magnitude(u) as real / p) == u as real / p
  {
  }

  /** Euclidean division of a natural number by a positive one stays natural. */
  lemma DivModNat(u: nat, p: nat)
    requires p >= 1
    ensures u / p >= 0 && 0 <= u % p < p
  {
  }

  /** Ten to the power `d`, as a real scale factor. */
  function Scale(d: nat): (r: real)
    ensures r >= 1.0
  {
    Pow10(d) as real
  }

  /** Thousandths: `Scale(3)` is 1000. */
  lemma ScaleThousand()
    ensures Scale(3) == 1000.0
  {
    assert Pow10(3) == 1000;
  }

  /**
   * Rounding to the nearest integer with midpoints rounded away from zero.
   * The two half-open intervals determine the result uniquely: 2.5 gives 3
   * and -2.5 gives -3.
   */
  function RoundHalfAway(x: real): (r: int)
    ensures 0.0 <= x ==> 0 <= r && -0.5 < r as real - x <= 0.5
    ensures x < 0.0 ==> r <= 0 && -0.5 <= r as real - x < 0.5
  {
    if x >= 0.0 then (x + 0.5).Floor else -((-x + 0.5).Floor)
  }

  /** `x` rounded to `d` decimal places, as a real. */
  function RoundTo(x: real, d: nat): real
  {
    RoundHalfAway(x * Scale(d)) as real / Scale(d)
  }

  /** Dividing by a positive number keeps an inequality. */
  lemma DivideKeepsOrder(a: real, b: real, p: real)
    requires 0.0 < p && a <= b
    ensures a / p <= b / p
  {
    assert b / p - a / p == (b - a) / p;
  }

  /** Dividing a product by one of its factors gives the other. */
  lemma QuotientOfProduct(x: real, p: real, y: real)
    requires p != 0.0 && x * p == y
    ensures y / p == x
  {
  }

  /** An integer within half a unit of `x * p` is, after division by `p`, within half of `1 / p` of `x`. */
  lemma ScaledError(x: real, p: real, u: real)
    requires 0.0 < p && -0.5 <= u - x * p <= 0.5
    ensures -0.5 / p <= u / p - x <= 0.5 / p
  {
    assert u / p - x == (u - x * p) / p;
    DivideKeepsOrder(-0.5, u - x * p, p);
    DivideKeepsOrder(u - x * p, 0.5, p);
  }

  /** Rounding to `d` decimals moves a value by at most half a unit of the last place. */
  lemma RoundToError(x: real, d: nat)
    ensures -0.5 / Scale(d) <= RoundTo(x, d) - x <= 0.5 / Scale(d)
  {
    assert RoundTo(x, d) == RoundHalfAway(x * Scale(d)) as real / Scale(d);
    RoundedError(x, Scale(d), RoundHalfAway(x * Scale(d)));
  }

  lemma RoundedError(x: real, p: real, r: int)
    requires p > 0.0 && r == RoundHalfAway(x * p)
    ensures -0.5 / p <= r as real / p - x <= 0.5 / p
  {
    ScaledError(x, p, r as real);
  }

  /** A value that already has at most `d` decimals is left unchanged. */
  lemma RoundToExact(x: real, d: nat, n: int)
    requires x * Scale(d) == n as real
    ensures RoundTo(x, d) == x
  {
    assert RoundHalfAway(n as real) == n;
    QuotientOfProduct(x, Scale(d), n as real);
  }
}
