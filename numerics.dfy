/**
 * Exact real counterparts of the numeric conversions the engine relies on:
 * Python's `int()` on a float (truncation toward zero), `np.ceil`, and the
 * half-to-even rounding used by `round(x, 2)` and `np.round(x, 1)`.
 */
module Numerics {

  /** Python `int(x)` for a float: drops the fraction, rounding toward zero. */
  function Trunc(x: real): (r: int)
    ensures 0.0 <= x ==> 0 <= r && r as real <= x < r as real + 1.0
    ensures x < 0.0 ==> r <= 0 && r as real - 1.0 < x <= r as real
  {
    if x >= 0.0 then x.Floor else -((-x).Floor)
  }

  /** `np.ceil(x)` converted to an integer. */
  function Ceil(x: real): (r: int)
    ensures r as real - 1.0 < x <= r as real
  {
    -((-x).Floor)
  }

  /** Nearest integer, ties to the even neighbour (the rule of `round` and `np.round`). */
  function RoundHalfEven(x: real): (r: int)
    ensures r as real - x <= 0.5 && x - r as real <= 0.5
    ensures x - x.Floor as real == 0.5 ==> r % 2 == 0
  {
    var f := x.Floor;
    var d := x - f as real;
    if d < 0.5 then f
    else if d > 0.5 then f + 1
    else if f % 2 == 0 then f
    else f + 1
  }

  /** Rounding never crosses an integer: a value at most (at least) n rounds to at most (at least) n. */
  lemma RoundHalfEvenBounded(x: real, n: int)
    ensures x <= n as real ==> RoundHalfEven(x) <= n
    ensures n as real <= x ==> n <= RoundHalfEven(x)
  {
    var f := x.Floor;
    if x <= n as real && f == n {
      assert x - f as real == 0.0;
    }
  }

  /** Truncation of a value between two integers stays between them. */
  lemma TruncBounded(x: real, lo: int, hi: int)
    requires lo as real <= x <= hi as real
    ensures lo <= Trunc(x) <= hi
  {
  }

  /** A real that has at most one decimal digit. */
  predicate IsOneDecimal(x: real) {
    (x * 10.0).Floor as real == x * 10.0
  }

  /** `np.round(x, 1)`: the nearest multiple of 0.1, ties to even tenths. */
  function Round1(x: real): (r: real)
    ensures IsOneDecimal(r)
    ensures -0.05 <= r - x <= 0.05
  {
    var y := x * 10.0;
    var n := RoundHalfEven(y);
    assert n as real / 10.0 * 10.0 == n as real;
    assert n as real / 10.0 - x == (n as real - y) / 10.0;
    n as real / 10.0
  }

  /** Rounding to one decimal leaves a value that already has one decimal unchanged. */
  lemma Round1OfOneDecimal(x: real)
    requires IsOneDecimal(x)
    ensures Round1(x) == x
  {
    var n := (x * 10.0).Floor;
    assert x * 10.0 == n as real;
    assert (x * 10.0) - (x * 10.0).Floor as real == 0.0;
    assert RoundHalfEven(x * 10.0) == n;
  }

  /** Python `round(x, 2)`: the nearest multiple of 0.01, ties to even hundredths. */
  function Round2(x: real): (r: real)
    ensures -0.005 <= r - x <= 0.005
  {
    var y := x * 100.0;
    var n := RoundHalfEven(y);
    assert n as real / 100.0 - x == (n as real - y) / 100.0;
    n as real / 100.0
  }

  /** `round(x, 2)` of a value between two integers stays between them. */
  lemma Round2Bounded(x: real, lo: int, hi: int)
    requires lo as real <= x <= hi as real
    ensures lo as real <= Round2(x) <= hi as real
  {
    RoundHalfEvenBounded(x * 100.0, hi * 100);
    RoundHalfEvenBounded(x * 100.0, lo * 100);
  }
}
