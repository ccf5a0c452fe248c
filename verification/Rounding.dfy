/** Two-decimal rounding over exact reals: `math.Round(x*100)/100`, halves away from zero. */
module Rounding {

  // math.Round
  function RoundHalfAway(x: real): int {
    if x >= 0.0 then (x + 0.5).Floor else -(0.5 - x).Floor
  }

  // round2 and roundTo2
  function Round2(x: real): real {
    RoundHalfAway(100.0 * x) as real / 100.0
  }

  // The nearest integer; on a tie, the one farther from zero.  This pins the result down uniquely.
  ghost predicate IsNearestHalfAway(x: real, n: int) {
    && -0.5 <= n as real - x <= 0.5
    && (n as real - x == 0.5 ==> x >= 0.0)
    && (n as real - x == -0.5 ==> x <= 0.0)
  }

  lemma RoundHalfAwayIsNearest(x: real, n: int)
    ensures RoundHalfAway(x) == n <==> IsNearestHalfAway(x, n)
  {
  }

  // Rounding moves a value by at most half a hundredth.
  lemma Round2Error(x: real)
    ensures x - 0.005 <= Round2(x) <= x + 0.005
  {
  }

  // A whole number of hundredths is left alone, so rounding twice is rounding once.
  ghost predicate IsHundredths(x: real) {
    x == (100.0 * x).Floor as real / 100.0
  }

  lemma Round2Fixed(x: real)
    ensures IsHundredths(x) <==> Round2(x) == x
  {
    RoundHalfAwayIsNearest(100.0 * x, RoundHalfAway(100.0 * x));
    if IsHundredths(x) {
      RoundHalfAwayIsNearest(100.0 * x, (100.0 * x).Floor);
    }
  }

  lemma Round2Monotone(x: real, y: real)
    requires x <= y
    ensures Round2(x) <= Round2(y)
  {
    RoundHalfAwayIsNearest(100.0 * x, RoundHalfAway(100.0 * x));
    RoundHalfAwayIsNearest(100.0 * y, RoundHalfAway(100.0 * y));
  }

  lemma Round2Sign(x: real)
    ensures x >= 0.0 ==> Round2(x) >= 0.0
    ensures x <= 0.0 ==> Round2(x) <= 0.0
  {
  }

  // A whole multiple of a whole number of hundredths is again one.
  lemma HundredthsOf(x: real, n: int)
    requires x == n as real / 100.0
    ensures IsHundredths(x)
  {
  }

  // y is x to within the error of rounding to two decimals, for a figure that counts n times.
  predicate Near(x: real, y: real, n: real) {
    -0.005 * n <= x - y <= 0.005 * n
  }
}
