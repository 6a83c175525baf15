/**
 * The violation scorer of `OpenAIAnalyzer`: `_calculate_violation_score` blends the three
 * sub-scores (spam, toxicity, danger, each nominally 0..100) into one composite 0..100, and
 * `analyze_message` compares it with the sensitivity-derived threshold.
 *
 * Scores are exact reals here; Python computes with binary floating point (see README).
 */
module Scoring {

  function Min(a: real, b: real): real { if a <= b then a else b }

  function Max(a: real, b: real): real { if a >= b then a else b }

  /** `min(max(score / 100, 0), 1)`: a percentage scaled to [0, 1] and clamped. */
  function Normalize(score: real): (r: real)
    ensures 0.0 <= r <= 1.0
    ensures 0.0 <= score <= 100.0 ==> r == score / 100.0
  {
    Min(Max(score / 100.0, 0.0), 1.0)
  }

  /** `max(toxic_norm, danger_norm, spam_norm)`. */
  function Max3(a: real, b: real, c: real): (r: real)
    ensures r >= a && r >= b && r >= c
    ensures r == a || r == b || r == c
  {
    Max(Max(a, b), c)
  }

  /**
   * `_calculate_violation_score(spam, toxic, danger)`: the largest normalised sub-score,
   * plus half of the other two, capped at 1 and scaled back to a percentage.
   */
  function CompositeScore(spam: real, toxic: real, danger: real): (r: real)
    ensures 0.0 <= r <= 100.0
  {
    Blend(Normalize(spam), Normalize(toxic), Normalize(danger))
  }

  /** The blend of three normalised sub-scores (the body of `_calculate_violation_score` after normalising). */
  function Blend(spamNorm: real, toxicNorm: real, dangerNorm: real): (r: real)
    requires 0.0 <= spamNorm <= 1.0 && 0.0 <= toxicNorm <= 1.0 && 0.0 <= dangerNorm <= 1.0
    ensures 0.0 <= r <= 100.0
  {
    var baseScore := Max3(toxicNorm, dangerNorm, spamNorm);
    var additionalImpact := 0.5 * (toxicNorm + dangerNorm + spamNorm - baseScore);
    Min(baseScore + additionalImpact, 1.0) * 100.0
  }

  /** The composite never falls below the largest clamped sub-score. */
  lemma CompositeAtLeastMax(spam: real, toxic: real, danger: real)
    ensures CompositeScore(spam, toxic, danger)
              >= 100.0 * Max3(Normalize(spam), Normalize(toxic), Normalize(danger))
  {
  }

  /**
   * An independent closed form: max plus half of the two others is
   * half of (max + sum), so the composite is min(100, 50 * (max + sum)).
   */
  lemma CompositeClosedForm(spam: real, toxic: real, danger: real)
    ensures var s, t, d := Normalize(spam), Normalize(toxic), Normalize(danger);
            CompositeScore(spam, toxic, danger) == Min(100.0, 50.0 * (Max3(s, t, d) + s + t + d))
  {
  }

  /** The clamp of a raw percentage to [0, 100]. */
  function ClampPercent(x: real): (r: real)
    ensures 0.0 <= r <= 100.0
    ensures 0.0 <= x <= 100.0 ==> r == x
  {
    if x < 0.0 then 0.0 else if x > 100.0 then 100.0 else x
  }

  /** Out-of-range classifier output is harmless: below 0 acts as 0, above 100 as 100. */
  lemma {:induction false} CompositeClampsInputs(spam: real, toxic: real, danger: real)
    ensures CompositeScore(spam, toxic, danger)
              == CompositeScore(ClampPercent(spam), ClampPercent(toxic), ClampPercent(danger))
    ensures spam <= 0.0 ==> CompositeScore(spam, toxic, danger) == CompositeScore(0.0, toxic, danger)
    ensures spam >= 100.0 ==> CompositeScore(spam, toxic, danger) == CompositeScore(100.0, toxic, danger)
  {
    NormalizeClamp(spam);
    NormalizeClamp(toxic);
    NormalizeClamp(danger);
    NormalizeClamp(0.0);
    NormalizeClamp(100.0);
  }

  lemma NormalizeClamp(x: real)
    ensures Normalize(x) == Normalize(ClampPercent(x))
    ensures x <= 0.0 ==> Normalize(x) == 0.0
    ensures x >= 100.0 ==> Normalize(x) == 1.0
  {
  }

  /** The blend does not care which sub-score is which. */
  lemma CompositeSymmetric(a: real, b: real, c: real)
    ensures CompositeScore(a, b, c) == CompositeScore(b, a, c)
    ensures CompositeScore(a, b, c) == CompositeScore(a, c, b)
    ensures CompositeScore(a, b, c) == CompositeScore(c, b, a)
    ensures CompositeScore(a, b, c) == CompositeScore(b, c, a)
    ensures CompositeScore(a, b, c) == CompositeScore(c, a, b)
  {
    CompositeClosedForm(a, b, c);
    CompositeClosedForm(b, a, c);
    CompositeClosedForm(a, c, b);
    CompositeClosedForm(c, b, a);
    CompositeClosedForm(b, c, a);
    CompositeClosedForm(c, a, b);
  }

  lemma NormalizeMonotone(x: real, y: real)
    requires x <= y
    ensures Normalize(x) <= Normalize(y)
  {
  }

  /** Raising any one sub-score never lowers the composite. */
  lemma CompositeMonotone(spam: real, toxic: real, danger: real, spam': real, toxic': real, danger': real)
    requires spam <= spam' && toxic <= toxic' && danger <= danger'
    ensures CompositeScore(spam, toxic, danger) <= CompositeScore(spam', toxic', danger')
  {
    NormalizeMonotone(spam, spam');
    NormalizeMonotone(toxic, toxic');
    NormalizeMonotone(danger, danger');
    CompositeClosedForm(spam, toxic, danger);
    CompositeClosedForm(spam', toxic', danger');
  }

  /** A clean message scores 0, and so does one whose sub-scores are all at or below 0. */
  lemma CompositeOfZero(spam: real, toxic: real, danger: real)
    requires spam <= 0.0 && toxic <= 0.0 && danger <= 0.0
    ensures CompositeScore(spam, toxic, danger) == 0.0
  {
    NormalizeClamp(spam);
    NormalizeClamp(toxic);
    NormalizeClamp(danger);
  }

  /** One sub-score at or above 100 saturates the composite at exactly 100. */
  lemma CompositeSaturates(spam: real, toxic: real, danger: real)
    requires spam >= 100.0 || toxic >= 100.0 || danger >= 100.0
    ensures CompositeScore(spam, toxic, danger) == 100.0
  {
    var s, t, d := Normalize(spam), Normalize(toxic), Normalize(danger);
    if spam >= 100.0 {
      NormalizeClamp(spam);
      assert Max3(t, d, s) == 1.0;
    } else if toxic >= 100.0 {
      NormalizeClamp(toxic);
      assert Max3(t, d, s) == 1.0;
    } else {
      NormalizeClamp(danger);
      assert Max3(t, d, s) == 1.0;
    }
  }

  /** The worked example: (spam 10, toxic 20, danger 5) gives 20 + (10 + 5) / 2 = 27.5. */
  lemma CompositeExample()
    ensures CompositeScore(10.0, 20.0, 5.0) == 27.5
  {
  }

  /** `(1.01 - sensitivity / 100) * 100`, the score a message must reach to be a violation. */
  function Threshold(sensitivity: int): (r: real)
    ensures r == (101 - sensitivity) as real
  {
    (1.01 - sensitivity as real / 100.0) * 100.0
  }

  /** `violation_score >= sensitivity_threshold`. */
  predicate IsViolation(score: real, sensitivity: int) {
    score >= Threshold(sensitivity)
  }

  /** For a sensitivity in 1..100 the threshold lies in [1, 100]: 100 gives 1, 1 gives 100. */
  lemma ThresholdBounds(sensitivity: int)
    requires 1 <= sensitivity <= 100
    ensures 1.0 <= Threshold(sensitivity) <= 100.0
    ensures sensitivity == 100 ==> Threshold(sensitivity) == 1.0
    ensures sensitivity == 1 ==> Threshold(sensitivity) == 100.0
  {
  }

  /** A zero composite never violates at any sensitivity up to 100; a full one violates at any sensitivity from 1. */
  lemma VerdictAtExtremes(sensitivity: int)
    ensures sensitivity <= 100 ==> !IsViolation(0.0, sensitivity)
    ensures sensitivity >= 1 ==> IsViolation(100.0, sensitivity)
  {
  }

  /** Raising the sensitivity never turns a violation into a non-violation. */
  lemma StricterSensitivity(score: real, sensitivity: int, sensitivity': int)
    requires sensitivity <= sensitivity'
    requires IsViolation(score, sensitivity)
    ensures IsViolation(score, sensitivity')
  {
  }

  /** A violation verdict survives a higher composite; a non-violation survives a lower one. */
  lemma VerdictMonotoneInScores(spam: real, toxic: real, danger: real, spam': real, toxic': real, danger': real, sensitivity: int)
    requires spam <= spam' && toxic <= toxic' && danger <= danger'
    requires IsViolation(CompositeScore(spam, toxic, danger), sensitivity)
    ensures IsViolation(CompositeScore(spam', toxic', danger'), sensitivity)
  {
    CompositeMonotone(spam, toxic, danger, spam', toxic', danger');
  }

  /** The worked examples: 27.5 stays under the threshold 51 of sensitivity 50; 90 exceeds the 31 of sensitivity 70. */
  lemma VerdictExamples()
    ensures !IsViolation(CompositeScore(10.0, 20.0, 5.0), 50)
    ensures IsViolation(90.0, 70)
    ensures Threshold(70) == 31.0
  {
    CompositeExample();
  }
}
