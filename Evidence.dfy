/**
 * The evidence curves of the hypotheses evaluator: how the latest flatness
 * (convexity) and the latest area, relative to the largest area seen so far,
 * become the probabilities fed to the belief network.
 */
module Evidence {
  import opened RealMath

  /** Flatness evidence: 0 up to 0.8, then the line through (0.8, 0) and (1, 1), not clamped. */
  function FlatnessEvidence(f: real): (e: real)
    ensures f <= 0.8 ==> e == 0.0
    ensures 0.8 < f <= 1.0 ==> 0.0 < e <= 1.0
    ensures f == 1.0 ==> e == 1.0
  {
    if f <= 0.8 then 0.0 else 1.0 - (1.0 - f) / 0.2
  }

  lemma FlatnessEvidenceMonotone(f: real, g: real)
    requires f <= g
    ensures FlatnessEvidence(f) <= FlatnessEvidence(g)
  {
  }

  /** Nothing caps the flatness evidence at 1: a flatness of 1.2 gives 2. */
  lemma FlatnessEvidenceUnclamped()
    ensures FlatnessEvidence(1.2) == 2.0
  {
  }

  /** Area evidence: 0 below a ratio of 0.4, then the line through (0.4, 0) and (1, 1). */
  function AreaEvidence(r: real): (e: real)
    ensures r < 0.4 ==> e == 0.0
    ensures 0.4 <= r <= 1.0 ==> 0.0 <= e <= 1.0
    ensures e == 1.0 <==> r == 1.0
  {
    if r < 0.4 then 0.0 else (r - 0.4) / 0.6
  }

  lemma AreaEvidenceMonotone(r: real, s: real)
    requires r <= s
    ensures AreaEvidence(r) <= AreaEvidence(s)
  {
  }

  /** `*std::max_element(...)`: the largest element of a non-empty sequence. */
  function MaxOf(s: seq<real>): (m: real)
    requires |s| > 0
    ensures m in s
    ensures forall i :: 0 <= i < |s| ==> s[i] <= m
  {
    if |s| == 1 then s[0]
    else
      var rest := MaxOf(s[1..]);
      if s[0] >= rest then s[0] else rest
  }

  /**
   * `current2MaxAreaRatio`: 1 for a single sample, otherwise the latest area
   * over the largest area in the whole history, the latest one included.
   */
  function AreaRatio(areas: seq<real>): (r: real)
    requires |areas| > 0
    requires |areas| > 1 ==> MaxOf(areas) != 0.0
    ensures |areas| == 1 ==> r == 1.0
    ensures |areas| > 1 ==> r * MaxOf(areas) == areas[|areas| - 1]
  {
    if |areas| > 1 then
      var current, maxArea := areas[|areas| - 1], MaxOf(areas);
      QuotientEquals(current, maxArea, current / maxArea);
      current / maxArea
    else 1.0
  }

  /** A single sample gives ratio 1 and therefore area evidence exactly 1. */
  lemma SingleSampleFullEvidence(area: real)
    ensures AreaRatio([area]) == 1.0
    ensures AreaEvidence(AreaRatio([area])) == 1.0
  {
  }

  /**
   * With a positive maximum and a non-negative latest area the ratio is in
   * [0, 1], and the area evidence is 1 exactly when the latest area is the
   * largest seen.
   */
  lemma AreaRatioWithinUnit(areas: seq<real>)
    requires |areas| > 1 && MaxOf(areas) > 0.0
    requires areas[|areas| - 1] >= 0.0
    ensures 0.0 <= AreaRatio(areas) <= 1.0
    ensures AreaEvidence(AreaRatio(areas)) == 1.0 <==> areas[|areas| - 1] == MaxOf(areas)
  {
    var last, max := areas[|areas| - 1], MaxOf(areas);
    QuotientSign(last, max);
    QuotientWithinUnit(last, max);
    QuotientIsOne(last, max);
  }

  /** Areas 10, 20, 15: ratio 0.75, evidence 0.35 / 0.6. */
  lemma AreaHistoryExample()
    ensures MaxOf([10.0, 20.0, 15.0]) == 20.0
    ensures AreaRatio([10.0, 20.0, 15.0]) == 0.75
    ensures AreaEvidence(AreaRatio([10.0, 20.0, 15.0])) == 0.35 / 0.6
  {
    assert [10.0, 20.0, 15.0][1..] == [20.0, 15.0];
    assert [20.0, 15.0][1..] == [15.0];
  }
}
