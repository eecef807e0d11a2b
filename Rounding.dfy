/**
 * Rounding to two decimal places, as Python's `round(x, 2)` does on an
 * exact value: to the nearest multiple of 0.01, a tie going to the
 * neighbour whose count of hundredths is even.
 */
module Rounding {

  /** True when `x` is a whole number of hundredths. */
  predicate IsHundredth(x: real)
  {
    (x * 100.0).Floor as real == x * 100.0
  }

  /** The integer nearest to `y`; of two equally near, the even one. */
  function RoundHalfEven(y: real): (n: int)
    ensures -0.5 <= n as real - y <= 0.5
    ensures (n as real - y == 0.5 || y - n as real == 0.5) ==> n % 2 == 0
  {
    var f := y.Floor;
    var frac := y - f as real;
    if frac < 0.5 then f
    else if frac > 0.5 then f + 1
    else if f % 2 == 0 then f
    else f + 1
  }

  /** The two properties of RoundHalfEven's contract pin its result down. */
  lemma RoundHalfEvenUnique(y: real, n: int)
    requires -0.5 <= n as real - y <= 0.5
    requires (n as real - y == 0.5 || y - n as real == 0.5) ==> n % 2 == 0
    ensures RoundHalfEven(y) == n
  {
  }

  /** `x` rounded to the nearest hundredth, ties to even hundredths. */
  function Round2(x: real): (r: real)
    ensures -0.005 <= r - x <= 0.005
    ensures IsHundredth(r)
    ensures (r - x == 0.005 || x - r == 0.005) ==> (r * 100.0).Floor % 2 == 0
  {
    var y := x * 100.0;
    var n := RoundHalfEven(y);
    var r := n as real / 100.0;
    assert r * 100.0 == n as real;
    assert (r * 100.0).Floor == n;
    assert r - x == (n as real - y) / 100.0;
    r
  }

  /** A value that already is a whole number of hundredths is left alone. */
  lemma Round2OfHundredths(k: int)
    ensures Round2(k as real / 100.0) == k as real / 100.0
  {
    RoundHalfEvenUnique(k as real, k);
  }

  /** Rounding twice is rounding once. */
  lemma Round2Idempotent(x: real)
    ensures Round2(Round2(x)) == Round2(x)
  {
    Round2OfHundredths(RoundHalfEven(x * 100.0));
  }

  /** Rounding never reverses the order of two values. */
  lemma Round2Monotone(x: real, y: real)
    requires x <= y
    ensures Round2(x) <= Round2(y)
  {
    var m, n := RoundHalfEven(x * 100.0), RoundHalfEven(y * 100.0);
    if m > n {
      assert m == n + 1;
      assert x == y;
    }
  }

  /**
   * A result above a whole number `t` of units is obtained exactly from
   * the values above `t + 0.005`: a value of exactly `t + 0.005` is a tie
   * that goes to the even count of hundredths `100 * t`.
   */
  lemma Round2AboveWhole(x: real, t: int)
    ensures Round2(x) > t as real <==> x > t as real + 0.005
  {
    var n := RoundHalfEven(x * 100.0);
    if x > t as real + 0.005 {
      assert n as real > 100.0 * t as real;
    } else {
      assert n <= 100 * t + 1;
    }
  }
}
