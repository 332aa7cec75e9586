/** The percentage-difference formula shared by every sanity check
    (src/utils/calcs.py, and written out inline in sofiax/merge.py). */
module Calcs {

  function Abs(v: real): (a: real)
    ensures a >= 0.0 && (a == v || a == -v)
  {
    if v < 0.0 then -v else v
  }

  /** |v1 - v2| * 100 / ((|v1| + |v2|) / 2): the difference relative to the
      mean magnitude. The source divides by zero when both values are zero. */
  function PercentageDifference(v1: real, v2: real): (d: real)
    requires Abs(v1) + Abs(v2) != 0.0
    ensures 0.0 <= d <= 200.0
    ensures d == 0.0 <==> v1 == v2
  {
    var spread, mean := Abs(v1 - v2), (Abs(v1) + Abs(v2)) / 2.0;
    assert spread <= 2.0 * mean;
    QuotientBound(spread * 100.0, mean, 200.0);
    spread * 100.0 / mean
  }

  lemma QuotientBound(a: real, m: real, c: real)
    requires m > 0.0 && a <= c * m
    ensures a / m <= c
  {
    var q := a / m;
    assert q * m == a;
    if q > c {
      assert q * m > c * m;
    }
  }

  /** Swapping the two values does not change the difference. */
  lemma PercentageDifferenceSymmetric(v1: real, v2: real)
    requires Abs(v1) + Abs(v2) != 0.0
    ensures PercentageDifference(v1, v2) == PercentageDifference(v2, v1)
  {
    assert Abs(v1 - v2) == Abs(v2 - v1);
  }
}
