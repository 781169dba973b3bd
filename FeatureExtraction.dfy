/**
 * The FeatureExtraction component's step: the shape features of the blob's
 * fitted box, which the hypotheses evaluator consumes, and the blob's image
 * position, which it shares with MS_Blueball_Decide.
 */
module FeatureExtraction {
  import opened Wrappers
  import opened RealMath
  import opened BlobGeometry

  /** `_a`: half the box's longer side. */
  function SemiMajor(box: Box): (a: real)
    ensures 2.0 * a >= box.width && 2.0 * a >= box.height
    ensures 2.0 * a == box.width || 2.0 * a == box.height
  {
    Max(box.width, box.height) / 2.0
  }

  /** `_b`: half the box's shorter side. */
  function SemiMinor(box: Box): (b: real)
    ensures 2.0 * b <= box.width && 2.0 * b <= box.height
    ensures 2.0 * b == box.width || 2.0 * b == box.height
  {
    Min(box.width, box.height) / 2.0
  }

  /** The same box with its sides exchanged (the same blob turned by 90 degrees). */
  function Swapped(box: Box): (s: Box)
    ensures s.width == box.height && s.height == box.width
  {
    box.(width := box.height, height := box.width)
  }

  /** `_a >= _b`, and neither depends on which side is the width. */
  lemma SemiAxesOrdered(box: Box)
    ensures SemiMinor(box) <= SemiMajor(box)
    ensures SemiMajor(Swapped(box)) == SemiMajor(box)
    ensures SemiMinor(Swapped(box)) == SemiMinor(box)
  {
  }

  /** `convexity = _b / _a`. */
  function Convexity(box: Box): (k: real)
    requires SemiMajor(box) != 0.0
    ensures k * SemiMajor(box) == SemiMinor(box)
  {
    QuotientEquals(SemiMinor(box), SemiMajor(box), SemiMinor(box) / SemiMajor(box));
    SemiMinor(box) / SemiMajor(box)
  }

  /** For a box with positive sides the convexity is in (0, 1], and 1 exactly for a square. */
  lemma ConvexityRange(box: Box)
    requires 0.0 < box.width && 0.0 < box.height
    ensures 0.0 < Convexity(box) <= 1.0
    ensures Convexity(box) == 1.0 <==> box.width == box.height
  {
    var a, b := SemiMajor(box), SemiMinor(box);
    QuotientSign(b, a);
    QuotientWithinUnit(b, a);
    QuotientIsOne(b, a);
  }

  /** Whichever side is longer, `_a·_b` is a quarter of the box's width times its height. */
  lemma SemiAxesProduct(box: Box)
    ensures SemiMajor(box) * SemiMinor(box) == box.width * box.height / 4.0
  {
    if box.width >= box.height {
      assert SemiMajor(box) == box.width / 2.0 && SemiMinor(box) == box.height / 2.0;
    } else {
      assert SemiMajor(box) == box.height / 2.0 && SemiMinor(box) == box.width / 2.0;
    }
  }

  /** `area = π·4·_a·_b`: the area of the ellipse whose semi-axes are the box's whole width and height. */
  function Area(box: Box): (r: real)
    ensures r == Pi * box.width * box.height
  {
    SemiAxesProduct(box);
    Pi * 4.0 * SemiMajor(box) * SemiMinor(box)
  }

  /** The area is that of the ellipse with semi-axes `width` and `height`, whichever side is longer. */
  lemma AreaOfBox(box: Box)
    requires 0.0 <= box.width && 0.0 <= box.height
    ensures Area(box) >= 0.0
    ensures Area(Swapped(box)) == Area(box)
    ensures Area(box) == Pi * box.width * box.height
  {
    assert box.width * box.height >= 0.0;
    assert Swapped(box).width * Swapped(box).height == box.width * box.height;
  }

  /**
   * The feature vector `[_a, _b, convexity, area]`, or `EmptyBox` when both
   * sides of the box are zero and convexity is 0/0.
   */
  function Features(box: Box): (r: Result<seq<real>, Fault>)
    ensures r.Failure? <==> SemiMajor(box) == 0.0
    ensures r.Failure? ==> r.error == EmptyBox
    ensures r.Success? ==>
      && |r.value| == 4
      && r.value[0] == SemiMajor(box) && r.value[1] == SemiMinor(box)
      && r.value[2] == Convexity(box) && r.value[3] == Area(box)
  {
    if SemiMajor(box) == 0.0 then Failure(EmptyBox)
    else Success([SemiMajor(box), SemiMinor(box), Convexity(box), Area(box)])
  }

  /** What one step writes: the feature vector and the image position. */
  datatype Output = Output(features: Result<seq<real>, Fault>, position: Result<seq<real>, Fault>)

  /**
   * The two outputs of one step: the four features, with the flatness the
   * evaluator reads at index 2 and the area at index 3, and the image
   * position with the source's `wsp_elips`.
   */
  function Step(m: Moments, box: Box, img: ImageSize, sqrt: real -> real): (out: Output)
    requires IsSqrt(sqrt)
    ensures out.features.Success? <==> SemiMajor(box) != 0.0
    ensures out.features.Success? ==>
      |out.features.value| == 4 && out.features.value[2] == Convexity(box) && out.features.value[3] == Area(box)
    ensures out.position == ImagePosition(m, box, img, sqrt)
  {
    Output(Features(box), ImagePosition(m, box, img, sqrt))
  }

  /**
   * For a box with positive sides the two entries the evaluator reads,
   * index 2 as flatness and index 3 as area, are a convexity in (0, 1] and a
   * non-negative area.
   */
  lemma StepFeedsEvaluator(m: Moments, box: Box, img: ImageSize, sqrt: real -> real)
    requires IsSqrt(sqrt)
    requires 0.0 < box.width && 0.0 < box.height
    ensures Step(m, box, img, sqrt).features.Success?
    ensures |Step(m, box, img, sqrt).features.value| == 4
    ensures 0.0 < Step(m, box, img, sqrt).features.value[2] <= 1.0
    ensures Step(m, box, img, sqrt).features.value[3] >= 0.0
  {
    ConvexityRange(box);
    AreaOfBox(box);
  }
}
