/**
 * The MS_Blueball_Decide component's step. Its moment and position arithmetic
 * is the same as FeatureExtraction's; it also computes an ellipse area from the
 * moment axes, which it never writes to any output.
 */
module BlueballDecide {
  import opened Wrappers
  import opened RealMath
  import opened BlobGeometry
  import FeatureExtraction

  /** `area = π·a·b`, the area of the ellipse with semi-axes `a` and `b`. */
  function EllipseArea(ax: Axes): (r: real)
    requires 0.0 <= ax.b <= ax.a
    ensures r >= 0.0
    ensures ax.b == 0.0 ==> r == 0.0
  {
    Pi * ax.a * ax.b
  }

  /**
   * The area this component computes from the source's axes is fixed by the
   * central moments: `area² = 4π²·(4·M20·M02 − M11²)`.
   */
  lemma AreaOfWrittenAxes(c: Central, sqrt: real -> real)
    requires IsSqrt(sqrt)
    requires 0.0 <= MinorRadicand(c, WrittenDiscriminant(c), sqrt)
    ensures EllipseArea(AxesAsWritten(c, sqrt)) * EllipseArea(AxesAsWritten(c, sqrt))
         == Pi * Pi * 4.0 * (4.0 * c.mu20 * c.mu02 - c.mu11 * c.mu11)
  {
    var ax := AxesAsWritten(c, sqrt);
    var d := WrittenDiscriminant(c);
    var s, r := c.mu20 + c.mu02, sqrt(d);
    assert r * r == d;
    var aa, bb := ax.a * ax.a, ax.b * ax.b;
    assert aa == 2.0 * (s + r) && bb == 2.0 * (s - r);
    assert aa * bb == 4.0 * (s * s - r * r);
    assert s * s - d == 4.0 * c.mu20 * c.mu02 - c.mu11 * c.mu11;
    var area := EllipseArea(ax);
    assert area * area == Pi * Pi * (aa * bb);
  }

  /**
   * One `onNewImage` step: `imagePosition`, this component's only output. It is
   * written exactly when the source's axes are finite with a non-zero major
   * axis and the image is not empty; its last entry is `wsp_elips`, and its
   * faults are those of the position arithmetic.
   */
  function Step(m: Moments, box: Box, img: ImageSize, sqrt: real -> real): (r: Result<seq<real>, Fault>)
    requires IsSqrt(sqrt)
    ensures r.Success? <==>
      HasWrittenAxes(m, sqrt) && AxesAsWritten(CentralMoments(m), sqrt).a != 0.0 && MaxPixels(img) > 0
    ensures r.Success? ==>
      && |r.value| == 4
      && r.value[3] == Elongation(AxesAsWritten(CentralMoments(m), sqrt))
      && 0.0 <= r.value[3] <= 1.0
    ensures r.Failure? ==> r.error in {ZeroMass, NegativeRadicand, ZeroMajorAxis, EmptyImage}
    ensures r.Failure? && r.error == ZeroMass <==> m.m00 == 0.0
  {
    ImagePosition(m, box, img, sqrt)
  }

  /** Both components write the same image position for the same blob and image. */
  lemma SamePositionAsFeatureExtraction(m: Moments, box: Box, img: ImageSize, sqrt: real -> real)
    requires IsSqrt(sqrt)
    ensures Step(m, box, img, sqrt) == FeatureExtraction.Step(m, box, img, sqrt).position
  {
  }
}
