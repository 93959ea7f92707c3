/**
 * Python's `round(x, 2)`, taken on exact reals: the nearest multiple of 0.01,
 * a tie going to the even number of cents (Python rounds half to even).
 */
module Rounding {

  /** `round(x, 2)` expressed as a whole number of hundredths. */
  function RoundCents(x: real): (c: int)
    ensures -1.0 / 2.0 <= c as real - x * 100.0 <= 1.0 / 2.0
    ensures (x * 100.0).Floor as real == x * 100.0 ==> c as real == x * 100.0
  {
    var y := x * 100.0;
    var f := y.Floor;
    var frac := y - f as real;
    if frac < 1.0 / 2.0 then f
    else if frac > 1.0 / 2.0 then f + 1
    else if f % 2 == 0 then f
    else f + 1
  }

  /** `round(x, 2)` as a real number. */
  function Round2(x: real): (r: real)
    ensures -1.0 / 200.0 <= r - x <= 1.0 / 200.0
    ensures (r * 100.0).Floor as real == r * 100.0
  {
    var c := RoundCents(x);
    HundredthsScale(c, x);
    c as real / 100.0
  }

  /** c / 100 is a whole number of hundredths, and lies within half a hundredth of x when c lies within half a unit of 100 x. */
  lemma HundredthsScale(c: int, x: real)
    requires -1.0 / 2.0 <= c as real - x * 100.0 <= 1.0 / 2.0
    ensures -1.0 / 200.0 <= c as real / 100.0 - x <= 1.0 / 200.0
    ensures ((c as real / 100.0) * 100.0).Floor as real == (c as real / 100.0) * 100.0
  {
    assert (c as real / 100.0) * 100.0 == c as real;
  }

  /** Rounding a value that already is a whole number of hundredths changes nothing. */
  lemma RoundCentsOfHundredths(k: int)
    ensures RoundCents(k as real / 100.0) == k
  {
    assert (k as real / 100.0) * 100.0 == k as real;
  }

  /** Rounding zero gives zero. */
  lemma Round2OfZero()
    ensures Round2(0.0) == 0.0
  {
    RoundCentsOfHundredths(0);
  }

  /**
   * When c - i == a holds exactly, the three rounded values still satisfy it to
   * within one cent: the rounded difference is a whole number of cents smaller
   * than 1.5 cents in size.
   */
  lemma RoundedDifferenceWithinOneCent(c: real, i: real, a: real)
    requires c - i == a
    ensures -1.0 / 100.0 <= Round2(c) - Round2(i) - Round2(a) <= 1.0 / 100.0
  {
    var d := RoundCents(c) - RoundCents(i) - RoundCents(a);
    assert -3.0 / 2.0 <= d as real <= 3.0 / 2.0;
    assert -1 <= d <= 1;
    assert Round2(c) - Round2(i) - Round2(a) == d as real / 100.0;
  }
}
