/**
 * The derived estimates of pi computed from a final accumulator.
 */
module Estimates {
  import opened Sums

  /** Leibniz: pi / 4 = sum of the series, so the estimate is four times the accumulated sum. */
  function LeibnizEstimate(summationResult: real): real
  {
    4.0 * summationResult
  }

  /**
   * Monte Carlo: the ratio of points inside the quarter circle to all points
   * approximates pi / 4, so the estimate is 4 * inCircle / samples.  A hit
   * count between 0 and the number of samples gives an estimate in [0, 4].
   */
  function MonteCarloEstimate(pointsInCircle: int, samples: nat): (r: real)
    requires samples > 0
    ensures 0 <= pointsInCircle <= samples ==> 0.0 <= r <= 4.0
  {
    var r := (4 * pointsInCircle) as real / samples as real;
    assert r * samples as real == 4.0 * pointsInCircle as real;
    r
  }

  /**
   * When each of n producers reports a hit count between 0 and its share of
   * the samples, the total gives an estimate between 0 and 4.
   */
  lemma TotalEstimateRange(n: nat, pointsEach: nat, hitsOf: nat -> int)
    requires n > 0 && pointsEach > 0
    requires forall p: nat :: p < n ==> 0 <= hitsOf(p) <= pointsEach
    ensures pointsEach * n > 0
    ensures 0.0 <= MonteCarloEstimate(SumInt(Iota(n), hitsOf), pointsEach * n) <= 4.0
  {
    SumIntBounds(n, hitsOf, pointsEach);
  }

  /**
   * The `realPI` constant of the scripts, as written.  It differs from pi
   * in the 7th decimal place (4 for 6) and in five later places.
   */
  const RealPIAsWritten: real := 3.1415924535897932384646433832795027841971693993873058

  /** Pi to the same 52 decimal places. */
  const RealPI: real := 3.1415926535897932384626433832795028841971693993751058

  /** Pi lies between its 20-decimal truncation and that plus 1e-20. */
  const PiBelow: real := 3.14159265358979323846
  const PiAbove: real := 3.14159265358979323847

  /** `realPI - estimatedPI` as printed, with the constant as written. */
  function DifferenceAsWritten(estimatedPI: real): real
  {
    RealPIAsWritten - estimatedPI
  }

  /** `realPI - estimatedPI` as printed, with pi's own digits. */
  function DifferenceFromRealPI(estimatedPI: real): real
  {
    RealPI - estimatedPI
  }

  /**
   * With the constant as written, an estimate that is pi to 20 decimal
   * places is reported as more than 1e-7 away from pi.
   */
  lemma AsWrittenMisreportsExactEstimate(estimatedPI: real)
    requires PiBelow <= estimatedPI <= PiAbove
    ensures DifferenceAsWritten(estimatedPI) < -0.0000001
  {
  }

  /** With pi's digits, such an estimate is reported within 1e-20 of pi. */
  lemma DifferenceOfExactEstimate(estimatedPI: real)
    requires PiBelow <= estimatedPI <= PiAbove
    ensures -0.00000000000000000001 <= DifferenceFromRealPI(estimatedPI) <= 0.00000000000000000001
  {
  }
}
