/**
 * The recognizer's confidence transform: a raw fit score s in [0, 1] is
 * reported as 1 - (1 - s)^2.
 */
module Confidence {
  import opened RealArith

  /** `getConfidence`: the confidence reported for a raw fit score. */
  function GetConfidence(score: real): real
  {
    1.0 - (1.0 - score) * (1.0 - score)
  }

  lemma ConfidenceFixedPoints()
    ensures GetConfidence(0.0) == 0.0
    ensures GetConfidence(1.0) == 1.0
    ensures GetConfidence(0.5) == 0.75
  {
  }

  /** No score, in range or not, is reported with a confidence above 1. */
  lemma ConfidenceAtMostOne(score: real)
    ensures GetConfidence(score) <= 1.0
  {
    var miss := 1.0 - score;
    SquareNonNegative(miss);
  }

  /** Scores in [0, 1] give confidences in [0, 1]. */
  lemma ConfidenceInUnitInterval(score: real)
    requires 0.0 <= score <= 1.0
    ensures 0.0 <= GetConfidence(score) <= 1.0
  {
    var miss := 1.0 - score;
    MulNonNegative(miss, score);
    SquareNonNegative(miss);
  }

  /** Strictly increasing on [0, 1], hence also non-decreasing there. */
  lemma ConfidenceMonotone(a: real, b: real)
    requires 0.0 <= a <= b <= 1.0
    ensures GetConfidence(a) <= GetConfidence(b)
    ensures a < b ==> GetConfidence(a) < GetConfidence(b)
  {
    // GetConfidence(b) - GetConfidence(a) == (b - a) * (2 - a - b)
    if a < b {
      MulPositive(b - a, 2.0 - a - b);
    }
  }

  /** On [0, 1] only a perfect score yields full confidence. */
  lemma ConfidenceOneOnlyForPerfectScore(score: real)
    requires 0.0 <= score <= 1.0
    ensures GetConfidence(score) == 1.0 <==> score == 1.0
  {
    if score < 1.0 {
      ConfidenceMonotone(score, 1.0);
    }
  }

  /** The transform only ever raises a score in [0, 1], by exactly s * (1 - s). */
  lemma ConfidenceAtLeastScore(score: real)
    requires 0.0 <= score <= 1.0
    ensures score <= GetConfidence(score)
    ensures GetConfidence(score) - score == score * (1.0 - score)
  {
    MulNonNegative(score, 1.0 - score);
  }

  /** Concavity at midpoints: the mean of two confidences is at most the confidence of the mean score. */
  lemma ConfidenceConcave(a: real, b: real)
    ensures GetConfidence(a) + GetConfidence(b) <= 2.0 * GetConfidence((a + b) / 2.0)
  {
    var d := a - b;
    SquareNonNegative(d);
  }
}
