/**
 Rounding of a coordinate to five fractional digits, as `Math.Round(x, 5)`
 does in .NET: the value is scaled by 10^5, rounded to the nearest integer
 with ties going to the even neighbour (MidpointRounding.ToEven, the
 default), and scaled back. Coordinates are exact reals here.
 */
module Rounding {

  /** 10^5: one unit of the grid is 0.00001 degrees. */
  const Scale: real := 100000.0

  /** Half a grid unit, the largest error rounding may introduce. */
  const HalfUnit: real := 0.000005

  /** True when `n` and `y` are exactly half a unit apart. */
  predicate IsTie(n: int, y: real) {
    n as real - y == 0.5 || y - n as real == 0.5
  }

  /** The integer nearest to `y`; of two equally near integers, the even one. */
  function RoundHalfEven(y: real): (n: int)
    ensures -0.5 <= n as real - y <= 0.5
    ensures IsTie(n, y) ==> n % 2 == 0
  {
    var f := y.Floor;
    var d := y - f as real;
    if d < 0.5 then f
    else if d > 0.5 then f + 1
    else if f % 2 == 0 then f
    else f + 1
  }

  /** The two properties above pin the result down: any integer that has
      them is the one RoundHalfEven returns. */
  lemma RoundHalfEvenUnique(y: real, n: int)
    requires -0.5 <= n as real - y <= 0.5
    requires IsTie(n, y) ==> n % 2 == 0
    ensures n == RoundHalfEven(y)
  {
  }

  /** Rounding to the nearest integer never reverses the order of its inputs. */
  lemma RoundHalfEvenMonotone(a: real, b: real)
    requires a <= b
    ensures RoundHalfEven(a) <= RoundHalfEven(b)
  {
  }

  /** An integer is its own rounding. */
  lemma RoundHalfEvenOfInteger(n: int)
    ensures RoundHalfEven(n as real) == n
  {
  }

  /** `x` has at most five fractional digits: it is a whole number of grid units. */
  predicate OnGrid(x: real) {
    (x * Scale).Floor as real == x * Scale
  }

  /** `Math.Round(x, 5)`. */
  function Round5(x: real): (r: real)
    ensures OnGrid(r)
    ensures -HalfUnit <= r - x <= HalfUnit
  {
    var n := RoundHalfEven(x * Scale);
    assert n as real / Scale * Scale == n as real;
    n as real / Scale
  }

  /** A value already on the grid is left unchanged. */
  lemma Round5OnGrid(x: real)
    requires OnGrid(x)
    ensures Round5(x) == x
  {
  }

  /** Rounding twice is rounding once. */
  lemma Round5Idempotent(x: real)
    ensures Round5(Round5(x)) == Round5(x)
  {
  }

  /** Rounding keeps the order of coordinates. */
  lemma Round5Monotone(x: real, y: real)
    requires x <= y
    ensures Round5(x) <= Round5(y)
  {
    RoundHalfEvenMonotone(x * Scale, y * Scale);
  }
}
