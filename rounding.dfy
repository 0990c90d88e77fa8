/**
 * `round(x, 2)` as Python applies it to a float: the exact value is rounded
 * to the nearest hundredth, and an exact tie goes to the even hundredth.
 */
module Rounding {

  /** The number of hundredths `round(x, 2)` lands on. */
  function Hundredths(x: real): int {
    var y := x * 100.0;
    var f := y.Floor;
    var frac := y - f as real;
    if frac < 0.5 then f
    else if frac > 0.5 then f + 1
    else if f % 2 == 0 then f
    else f + 1
  }

  function Round2(x: real): (r: real)
    ensures (r * 100.0).Floor as real == r * 100.0
    ensures -0.005 <= r - x <= 0.005
    ensures x * 100.0 - (x * 100.0).Floor as real == 0.5 ==> (r * 100.0).Floor % 2 == 0
  {
    var n := Hundredths(x);
    var r := n as real / 100.0;
    assert r * 100.0 == n as real;
    assert (n as real).Floor == n;
    r
  }

  /** Rounding never reverses an ordering, so it can only merge neighbours into ties. */
  lemma Round2Monotone(x: real, y: real)
    requires x <= y
    ensures Round2(x) <= Round2(y)
  {
    var fx, fy := (x * 100.0).Floor, (y * 100.0).Floor;
    assert fx <= fy;
    if fx < fy {
      assert Hundredths(x) <= fx + 1 <= fy <= Hundredths(y);
    }
  }

  /** A value already on the hundredths grid is left as it is, so rounding twice is rounding once. */
  lemma Round2Idempotent(x: real)
    ensures Round2(Round2(x)) == Round2(x)
  {
    var n := Hundredths(x);
    assert Round2(x) * 100.0 == n as real;
    assert (n as real).Floor == n;
  }
}
