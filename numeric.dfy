/**
 The two integer conversions the backend applies to its decimal arithmetic,
 stated over exact reals: Python's `round` (nearest integer, ties to even) and
 `int` on a number (truncation toward zero).
 */
module Numeric {

  /** Python's `round(x)` with no digits argument. */
  function RoundHalfEven(x: real): (r: int)
    ensures x - 0.5 <= r as real <= x + 0.5
    ensures (r as real == x - 0.5 || r as real == x + 0.5) ==> r % 2 == 0
  {
    var f := x.Floor;
    var d := x - f as real;
    if d < 0.5 then f
    else if d > 0.5 then f + 1
    else if f % 2 == 0 then f else f + 1
  }

  /** The two facts above single out one integer: they are a complete description of `round`. */
  lemma RoundHalfEvenUnique(x: real, n: int)
    requires x - 0.5 <= n as real <= x + 0.5
    requires (n as real == x - 0.5 || n as real == x + 0.5) ==> n % 2 == 0
    ensures n == RoundHalfEven(x)
  {
  }

  /** `round` never decreases when its argument grows. */
  lemma RoundHalfEvenMonotone(x: real, y: real)
    requires x <= y
    ensures RoundHalfEven(x) <= RoundHalfEven(y)
  {
  }

  /** `round` of a whole number is that number. */
  lemma RoundHalfEvenOfInt(n: int)
    ensures RoundHalfEven(n as real) == n
  {
    RoundHalfEvenUnique(n as real, n);
  }

  /** Python's `int(x)` on a number: the fractional part is dropped, toward zero. */
  function TruncToZero(x: real): (r: int)
    ensures 0.0 <= x ==> 0 <= r && r as real <= x < r as real + 1.0
    ensures x < 0.0 ==> r <= 0 && r as real - 1.0 < x <= r as real
  {
    if x >= 0.0 then x.Floor else -((-x).Floor)
  }

  /** On non-negative numbers truncation and floor agree; they differ on negative non-integers. */
  lemma TruncIsFloorWhenNonNegative(x: real)
    ensures 0.0 <= x ==> TruncToZero(x) == x.Floor
    ensures TruncToZero(-0.5) == 0 && (-0.5).Floor == -1
  {
  }
}
