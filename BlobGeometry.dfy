/**
 * The per-frame arithmetic that FeatureExtraction and MS_Blueball_Decide share:
 * central moments of the detected blob, the ellipse axes derived from them, the
 * elongation factor `wsp_elips`, the `M7` invariant, and the normalised image
 * position of the blob's fitted box.
 *
 * The blob detector is external: its moments and fitted box are inputs here.
 */
module BlobGeometry {
  import opened Wrappers
  import opened RealMath

  /** The six raw moments of the largest blob (orders 00, 10, 01, 11, 02, 20). */
  datatype Moments = Moments(m00: real, m10: real, m01: real, m11: real, m02: real, m20: real)

  /** Second-order central moments (`M11`, `M02`, `M20` in the source). */
  datatype Central = Central(mu11: real, mu02: real, mu20: real)

  /** The blob's fitted box (`CvBox2D`): centre, size and angle, all floats. */
  datatype Box = Box(cx: real, cy: real, width: real, height: real, angle: real)

  /** The camera image size (`cv::Size`), whose fields are ints. */
  datatype ImageSize = ImageSize(width: int, height: int)

  /** The semi-axes `a` and `b` of the ellipse fitted to the moments. */
  datatype Axes = Axes(a: real, b: real)

  /**
   * The frames on which the source's double arithmetic leaves the finite
   * numbers and writes NaN or an infinity into its output.
   */
  datatype Fault =
    | ZeroMass          // m00 == 0: the central moments divide by zero
    | NegativeRadicand  // the radicand of b is negative: b is NaN
    | ZeroMajorAxis     // a == 0: wsp_elips is 0/0
    | EmptyImage        // the image's larger side is 0: positions divide by zero
    | EmptyBox          // both box sides are 0: convexity is 0/0

  /** One second-order central moment, `r - p·q/n`, from the mass `n` and raw moments `p`, `q`, `r`. */
  function Centred(n: real, p: real, q: real, r: real): (v: real)
    requires n != 0.0
    ensures v == 0.0 <==> p * q == r * n
  {
    QuotientEquals(p * q, n, r);
    r - (p * q) / n
  }

  /**
   * `M11`, `M02`, `M20`. Each vanishes exactly when the raw moments meet the
   * equality case of Cauchy-Schwarz: no spread along x (`M20`), none along y
   * (`M02`), no correlation (`M11`).
   */
  function CentralMoments(m: Moments): (c: Central)
    requires m.m00 != 0.0
    ensures c.mu20 == 0.0 <==> m.m10 * m.m10 == m.m20 * m.m00
    ensures c.mu02 == 0.0 <==> m.m01 * m.m01 == m.m02 * m.m00
    ensures c.mu11 == 0.0 <==> m.m10 * m.m01 == m.m11 * m.m00
  {
    Central(Centred(m.m00, m.m10, m.m01, m.m11),
            Centred(m.m00, m.m01, m.m01, m.m02),
            Centred(m.m00, m.m10, m.m10, m.m20))
  }

  /** The raw moments of the same blob moved by (dx, dy) pixels. */
  function Translate(m: Moments, dx: real, dy: real): (t: Moments)
    ensures t.m00 == m.m00
  {
    Moments(m.m00,
            m.m10 + dx * m.m00,
            m.m01 + dy * m.m00,
            m.m11 + dx * m.m01 + dy * m.m10 + dx * dy * m.m00,
            m.m02 + 2.0 * dy * m.m01 + dy * dy * m.m00,
            m.m20 + 2.0 * dx * m.m10 + dx * dx * m.m00)
  }

  /**
   * One central moment `r - p·q/n` is unchanged when `p` and `q` move by
   * multiples `u·n` and `v·n` of the mass `n` and `r` moves to match.
   */
  lemma ProductShift(n: real, p: real, q: real, r: real, tp: real, tq: real, tr: real, u: real, v: real)
    requires n != 0.0
    requires tp == p + u * n && tq == q + v * n
    requires tr == r + u * q + v * p + u * v * n
    ensures Centred(n, tp, tq, tr) == Centred(n, p, q, r)
  {
    assert tp * tq == p * q + (u * q + v * p + u * v * n) * n;
    assert (tp * tq) / n == (p * q) / n + (u * q + v * p + u * v * n);
  }

  /** Central moments do not depend on where the blob is in the image. */
  lemma CentralMomentsTranslationInvariant(m: Moments, dx: real, dy: real)
    requires m.m00 != 0.0
    ensures CentralMoments(Translate(m, dx, dy)) == CentralMoments(m)
  {
    var t := Translate(m, dx, dy);
    ProductShift(m.m00, m.m10, m.m01, m.m11, t.m10, t.m01, t.m11, dx, dy);
    ProductShift(m.m00, m.m01, m.m01, m.m02, t.m01, t.m01, t.m02, dy, dy);
    ProductShift(m.m00, m.m10, m.m10, m.m20, t.m10, t.m10, t.m20, dx, dx);
  }

  /** The covariance determinant `M20·M02 - M11²` of the central moments. */
  function Determinant(c: Central): real
  {
    c.mu20 * c.mu02 - c.mu11 * c.mu11
  }

  /**
   * `M7 = (M20·M02 - M11²) / m00⁴`, a moment invariant the source computes from
   * the central moments and the mass, and never uses.
   */
  function M7(c: Central, m00: real): (r: real)
    requires m00 != 0.0
    ensures r == 0.0 <==> Determinant(c) == 0.0
    ensures r > 0.0 <==> Determinant(c) > 0.0
  {
    var mass4 := m00 * m00 * m00 * m00;
    FourthPowerPositive(m00, mass4);
    QuotientSign(Determinant(c), mass4);
    Determinant(c) / mass4
  }

  /** `M7` of a blob does not depend on where the blob is in the image. */
  lemma M7TranslationInvariant(m: Moments, dx: real, dy: real)
    requires m.m00 != 0.0
    ensures M7(CentralMoments(Translate(m, dx, dy)), Translate(m, dx, dy).m00)
         == M7(CentralMoments(m), m.m00)
  {
    CentralMomentsTranslationInvariant(m, dx, dy);
  }

  /**
   * The quantity under the inner square root, as the source writes it:
   * `M11² + (M20-M02)²`.
   */
  function WrittenDiscriminant(c: Central): (d: real)
    ensures d >= 0.0
    ensures d == 0.0 <==> c.mu11 == 0.0 && c.mu20 == c.mu02
  {
    SumOfSquaresZero(c.mu11, c.mu20 - c.mu02);
    c.mu11 * c.mu11 + (c.mu20 - c.mu02) * (c.mu20 - c.mu02)
  }

  /**
   * The discriminant of the covariance matrix `[[M20, M11], [M11, M02]]`:
   * `4·M11² + (M20-M02)²`. Its square root is the gap between the two eigenvalues.
   */
  function EigenDiscriminant(c: Central): (d: real)
    ensures d >= 0.0
    ensures d == 0.0 <==> c.mu11 == 0.0 && c.mu20 == c.mu02
    ensures (c.mu20 + c.mu02) * (c.mu20 + c.mu02) - d == 4.0 * Determinant(c)
  {
    SumOfSquaresZero(2.0 * c.mu11, c.mu20 - c.mu02);
    assert (2.0 * c.mu11) * (2.0 * c.mu11) == 4.0 * c.mu11 * c.mu11;
    4.0 * c.mu11 * c.mu11 + (c.mu20 - c.mu02) * (c.mu20 - c.mu02)
  }

  /** The radicand of the major axis, `2·(M20 + M02 + sqrt(d))`. */
  function MajorRadicand(c: Central, d: real, sqrt: real -> real): real
  {
    2.0 * (c.mu20 + c.mu02 + sqrt(d))
  }

  /** The radicand of the minor axis, `2·(M20 + M02 - sqrt(d))`. */
  function MinorRadicand(c: Central, d: real, sqrt: real -> real): real
  {
    2.0 * (c.mu20 + c.mu02 - sqrt(d))
  }

  /**
   * The axes `a = sqrt(major radicand)` and `b = sqrt(minor radicand)` for a
   * discriminant `d`. When the minor radicand is non-negative (so both are),
   * `a >= b >= 0`, and the axes are equal exactly when `d` is zero.
   */
  function AxesFrom(c: Central, d: real, sqrt: real -> real): (ax: Axes)
    requires IsSqrt(sqrt)
    requires 0.0 <= d && 0.0 <= MinorRadicand(c, d, sqrt)
    ensures 0.0 <= ax.b <= ax.a
    ensures ax.a * ax.a == MajorRadicand(c, d, sqrt)
    ensures ax.b * ax.b == MinorRadicand(c, d, sqrt)
    ensures ax.a == ax.b <==> d == 0.0
  {
    var major := MajorRadicand(c, d, sqrt);
    var minor := MinorRadicand(c, d, sqrt);
    SqrtMonotone(sqrt, minor, major);
    SqrtZeroIff(sqrt, d);
    Axes(sqrt(major), sqrt(minor))
  }

  /** `a` and `b` exactly as the source computes them (FeatureExtraction.cpp:129-130). */
  function AxesAsWritten(c: Central, sqrt: real -> real): (ax: Axes)
    requires IsSqrt(sqrt)
    requires 0.0 <= MinorRadicand(c, WrittenDiscriminant(c), sqrt)
    ensures 0.0 <= ax.b <= ax.a
    ensures ax.a == ax.b <==> c.mu11 == 0.0 && c.mu20 == c.mu02
  {
    AxesFrom(c, WrittenDiscriminant(c), sqrt)
  }

  /**
   * `a` and `b` from the eigenvalues of the covariance matrix: `a²/4` and `b²/4`
   * are its two eigenvalues, so their sum is its trace and their product its
   * determinant. This is the corrected form of the source's formula.
   */
  function EigenAxes(c: Central, sqrt: real -> real): (ax: Axes)
    requires IsSqrt(sqrt)
    requires 0.0 <= MinorRadicand(c, EigenDiscriminant(c), sqrt)
    ensures 0.0 <= ax.b <= ax.a
    ensures ax.a == ax.b <==> c.mu11 == 0.0 && c.mu20 == c.mu02
    ensures ax.a * ax.a + ax.b * ax.b == 4.0 * (c.mu20 + c.mu02)
    ensures (ax.a * ax.a) * (ax.b * ax.b) == 16.0 * Determinant(c)
  {
    var d := EigenDiscriminant(c);
    var ax := AxesFrom(c, d, sqrt);
    var s, r := c.mu20 + c.mu02, sqrt(d);
    assert r * r == d;
    assert (2.0 * (s + r)) * (2.0 * (s - r)) == 4.0 * (s * s - r * r);
    ax
  }

  /** A line segment along the x axis: M20 = 2, M02 = M11 = 0. */
  const LevelSegment := Central(0.0, 0.0, 2.0)

  /** The same segment turned by 45 degrees: M20 = M02 = M11 = 1. */
  const TurnedSegment := Central(1.0, 1.0, 1.0)

  lemma LevelSegmentWrittenAxes(sqrt: real -> real)
    requires IsSqrt(sqrt)
    ensures 0.0 <= MinorRadicand(LevelSegment, WrittenDiscriminant(LevelSegment), sqrt)
    ensures AxesAsWritten(LevelSegment, sqrt).b == 0.0
  {
    assert WrittenDiscriminant(LevelSegment) == 2.0 * 2.0;
    SqrtOfSquare(sqrt, 2.0);
    assert MinorRadicand(LevelSegment, WrittenDiscriminant(LevelSegment), sqrt) == 0.0;
    SqrtZeroIff(sqrt, 0.0);
  }

  lemma TurnedSegmentWrittenAxes(sqrt: real -> real)
    requires IsSqrt(sqrt)
    ensures 0.0 <= MinorRadicand(TurnedSegment, WrittenDiscriminant(TurnedSegment), sqrt)
    ensures AxesAsWritten(TurnedSegment, sqrt).b > 0.0
  {
    var d := WrittenDiscriminant(TurnedSegment);
    assert d == 1.0 * 1.0;
    SqrtOfSquare(sqrt, 1.0);
    var minor := MinorRadicand(TurnedSegment, d, sqrt);
    assert minor == 2.0;
    var ax := AxesFrom(TurnedSegment, d, sqrt);
    assert ax.b == sqrt(2.0);
    SqrtZeroIff(sqrt, 2.0);
  }

  lemma TurnedSegmentEigenAxes(sqrt: real -> real)
    requires IsSqrt(sqrt)
    ensures 0.0 <= MinorRadicand(TurnedSegment, EigenDiscriminant(TurnedSegment), sqrt)
    ensures EigenAxes(TurnedSegment, sqrt).b == 0.0
  {
    assert EigenDiscriminant(TurnedSegment) == 2.0 * 2.0;
    SqrtOfSquare(sqrt, 2.0);
    assert MinorRadicand(TurnedSegment, EigenDiscriminant(TurnedSegment), sqrt) == 0.0;
    SqrtZeroIff(sqrt, 0.0);
  }

  /**
   * The source's axes are not the eigen-axes: a line segment and the same
   * segment turned by 45 degrees both have a zero covariance determinant, yet
   * the source gives the first a zero minor axis and the second a positive one.
   * The eigen-axes give both a zero minor axis.
   */
  lemma WrittenAxesDependOnRotation(sqrt: real -> real)
    requires IsSqrt(sqrt)
    ensures 0.0 <= MinorRadicand(LevelSegment, WrittenDiscriminant(LevelSegment), sqrt)
    ensures 0.0 <= MinorRadicand(TurnedSegment, WrittenDiscriminant(TurnedSegment), sqrt)
    ensures AxesAsWritten(LevelSegment, sqrt).b == 0.0 < AxesAsWritten(TurnedSegment, sqrt).b
    ensures 0.0 <= MinorRadicand(TurnedSegment, EigenDiscriminant(TurnedSegment), sqrt)
    ensures EigenAxes(TurnedSegment, sqrt).b == 0.0
  {
    LevelSegmentWrittenAxes(sqrt);
    TurnedSegmentWrittenAxes(sqrt);
    TurnedSegmentEigenAxes(sqrt);
  }

  /** For a blob with the same spread in every direction both axes agree. */
  lemma EigenAxesOfRoundBlob(c: Central, sqrt: real -> real)
    requires IsSqrt(sqrt)
    requires c.mu11 == 0.0 && c.mu20 == c.mu02 && 0.0 <= c.mu20
    ensures 0.0 <= MinorRadicand(c, EigenDiscriminant(c), sqrt)
    ensures EigenAxes(c, sqrt).a == EigenAxes(c, sqrt).b
  {
    SqrtZeroIff(sqrt, EigenDiscriminant(c));
  }

  /**
   * `wsp_elips = b/a`: in [0, 1] and exactly 1 when the two axes agree.
   */
  function Elongation(ax: Axes): (w: real)
    requires 0.0 <= ax.b <= ax.a && 0.0 < ax.a
    ensures 0.0 <= w <= 1.0
    ensures w == 1.0 <==> ax.a == ax.b
  {
    ax.b / ax.a
  }

  /** `std::max(width, height)` of the image, an int. */
  function MaxPixels(img: ImageSize): (r: int)
    ensures r >= img.width && r >= img.height && (r == img.width || r == img.height)
  {
    if img.width < img.height then img.height else img.width
  }

  /** C++ `x / 2` on an int: the quotient truncated toward zero. */
  function HalfOf(x: int): (h: int)
    ensures 0 <= x ==> 0 <= h && 0 <= x - 2 * h <= 1
    ensures x < 0 ==> h <= 0 && -1 <= x - 2 * h <= 0
  {
    if 0 <= x then x / 2 else -((-x) / 2)
  }

  /** A centre coordinate measured from the image's middle, in units of the larger side. */
  function Offset(centre: real, extent: int, maxPixels: int): (r: real)
    requires maxPixels != 0
    ensures r == 0.0 <==> centre == HalfOf(extent) as real
    ensures 0 < maxPixels ==> (r > 0.0 <==> centre > HalfOf(extent) as real)
  {
    QuotientByNonZero(centre - HalfOf(extent) as real, maxPixels as real);
    (centre - HalfOf(extent) as real) / maxPixels as real
  }

  /** A centre inside the image lands in [-1, 1]. */
  lemma OffsetWithinUnit(centre: real, extent: int, maxPixels: int)
    requires 0 <= extent <= maxPixels && 0 < maxPixels
    requires 0.0 <= centre <= extent as real
    ensures -1.0 <= Offset(centre, extent, maxPixels) <= 1.0
  {
    var h := HalfOf(extent) as real;
    var mp := maxPixels as real;
    assert -mp <= centre - h <= mp;
    QuotientWithinUnit(centre - h, mp);
  }

  /** `diameter`: the box's longer side over the image's larger side. */
  function Diameter(box: Box, img: ImageSize): (r: real)
    requires MaxPixels(img) > 0
    ensures r <= 1.0 <==> Max(box.width, box.height) <= MaxPixels(img) as real
  {
    Max(box.width, box.height) / MaxPixels(img) as real
  }

  /**
   * The last steps of the position, once the axes are known: `[x, y,
   * diameter, wsp_elips]`, unless the major axis or the image is empty.
   */
  function PositionFromAxes(box: Box, img: ImageSize, ax: Axes): (r: Result<seq<real>, Fault>)
    requires 0.0 <= ax.b <= ax.a
    ensures r == Failure(ZeroMajorAxis) <==> ax.a == 0.0
    ensures r == Failure(EmptyImage) <==> ax.a != 0.0 && MaxPixels(img) <= 0
    ensures r.Success? <==> ax.a != 0.0 && MaxPixels(img) > 0
    ensures r.Success? ==>
      r.value == [Offset(box.cx, img.width, MaxPixels(img)), Offset(box.cy, img.height, MaxPixels(img)),
                  Diameter(box, img), Elongation(ax)]
  {
    if ax.a == 0.0 then Failure(ZeroMajorAxis)
    else if MaxPixels(img) <= 0 then Failure(EmptyImage)
    else
      var mp := MaxPixels(img);
      Success([Offset(box.cx, img.width, mp), Offset(box.cy, img.height, mp),
               Diameter(box, img), Elongation(ax)])
  }

  /** The source's axes are defined: the mass is not zero and the minor radicand is not negative. */
  predicate HasWrittenAxes(m: Moments, sqrt: real -> real)
  {
    m.m00 != 0.0 && 0.0 <= MinorRadicand(CentralMoments(m), WrittenDiscriminant(CentralMoments(m)), sqrt)
  }

  /** The corrected axes are defined. */
  predicate HasEigenAxes(m: Moments, sqrt: real -> real)
  {
    m.m00 != 0.0 && 0.0 <= MinorRadicand(CentralMoments(m), EigenDiscriminant(CentralMoments(m)), sqrt)
  }

  /**
   * `imagePosition.elements` as the source computes it: `[x, y, diameter,
   * wsp_elips]` with `wsp_elips` from the source's axes, or the reason its
   * arithmetic writes a non-finite value instead.
   */
  function ImagePosition(m: Moments, box: Box, img: ImageSize, sqrt: real -> real): (r: Result<seq<real>, Fault>)
    requires IsSqrt(sqrt)
    ensures r == Failure(ZeroMass) <==> m.m00 == 0.0
    ensures r == Failure(NegativeRadicand) <==> m.m00 != 0.0 && !HasWrittenAxes(m, sqrt)
    ensures r == Failure(ZeroMajorAxis) <==> HasWrittenAxes(m, sqrt) && AxesAsWritten(CentralMoments(m), sqrt).a == 0.0
    ensures r == Failure(EmptyImage) <==>
      HasWrittenAxes(m, sqrt) && AxesAsWritten(CentralMoments(m), sqrt).a != 0.0 && MaxPixels(img) <= 0
    ensures r.Success? <==>
      HasWrittenAxes(m, sqrt) && AxesAsWritten(CentralMoments(m), sqrt).a != 0.0 && MaxPixels(img) > 0
    ensures r.Success? ==>
      && |r.value| == 4
      && r.value[0] == Offset(box.cx, img.width, MaxPixels(img))
      && r.value[1] == Offset(box.cy, img.height, MaxPixels(img))
      && r.value[2] == Diameter(box, img)
      && r.value[3] == Elongation(AxesAsWritten(CentralMoments(m), sqrt))
      && 0.0 <= r.value[3] <= 1.0
  {
    if m.m00 == 0.0 then Failure(ZeroMass)
    else if !HasWrittenAxes(m, sqrt) then Failure(NegativeRadicand)
    else PositionFromAxes(box, img, AxesAsWritten(CentralMoments(m), sqrt))
  }

  /** The image position with `wsp_elips` from the corrected (eigen-) axes. */
  function CorrectedImagePosition(m: Moments, box: Box, img: ImageSize, sqrt: real -> real): (r: Result<seq<real>, Fault>)
    requires IsSqrt(sqrt)
    ensures r == Failure(ZeroMass) <==> m.m00 == 0.0
    ensures r == Failure(NegativeRadicand) <==> m.m00 != 0.0 && !HasEigenAxes(m, sqrt)
    ensures r == Failure(ZeroMajorAxis) <==> HasEigenAxes(m, sqrt) && EigenAxes(CentralMoments(m), sqrt).a == 0.0
    ensures r == Failure(EmptyImage) <==>
      HasEigenAxes(m, sqrt) && EigenAxes(CentralMoments(m), sqrt).a != 0.0 && MaxPixels(img) <= 0
    ensures r.Success? <==>
      HasEigenAxes(m, sqrt) && EigenAxes(CentralMoments(m), sqrt).a != 0.0 && MaxPixels(img) > 0
    ensures r.Success? ==>
      && |r.value| == 4
      && r.value[0] == Offset(box.cx, img.width, MaxPixels(img))
      && r.value[1] == Offset(box.cy, img.height, MaxPixels(img))
      && r.value[2] == Diameter(box, img)
      && r.value[3] == Elongation(EigenAxes(CentralMoments(m), sqrt))
      && 0.0 <= r.value[3] <= 1.0
  {
    if m.m00 == 0.0 then Failure(ZeroMass)
    else if !HasEigenAxes(m, sqrt) then Failure(NegativeRadicand)
    else PositionFromAxes(box, img, EigenAxes(CentralMoments(m), sqrt))
  }

  /** Without correlation (`M11 = 0`) the two discriminants agree, and so do both positions. */
  lemma PositionsAgreeWithoutCorrelation(m: Moments, box: Box, img: ImageSize, sqrt: real -> real)
    requires IsSqrt(sqrt)
    requires m.m00 != 0.0 && CentralMoments(m).mu11 == 0.0
    ensures ImagePosition(m, box, img, sqrt) == CorrectedImagePosition(m, box, img, sqrt)
  {
    var c := CentralMoments(m);
    assert WrittenDiscriminant(c) == EigenDiscriminant(c);
  }

  /**
   * The central moments of a set of pixels: no negative spread, and a
   * correlation bounded by the spreads (Cauchy-Schwarz).
   */
  predicate Realisable(c: Central)
  {
    0.0 <= c.mu20 && 0.0 <= c.mu02 && c.mu11 * c.mu11 <= c.mu20 * c.mu02
  }

  /** For realisable central moments neither formula's minor radicand is negative. */
  lemma RealisableRadicands(c: Central, sqrt: real -> real)
    requires IsSqrt(sqrt) && Realisable(c)
    ensures 0.0 <= MinorRadicand(c, WrittenDiscriminant(c), sqrt)
    ensures 0.0 <= MinorRadicand(c, EigenDiscriminant(c), sqrt)
  {
    var s := c.mu20 + c.mu02;
    var square := s * s;
    assert 0.0 <= c.mu20 * c.mu02;
    assert square - EigenDiscriminant(c) == 4.0 * (c.mu20 * c.mu02 - c.mu11 * c.mu11);
    assert square - WrittenDiscriminant(c) == 4.0 * (c.mu20 * c.mu02) - c.mu11 * c.mu11;
    SqrtMonotone(sqrt, WrittenDiscriminant(c), square);
    SqrtMonotone(sqrt, EigenDiscriminant(c), square);
    SqrtOfSquare(sqrt, s);
  }

  /** A blob with realisable central moments never gets `NegativeRadicand`. */
  lemma RealisableBlobHasAxes(m: Moments, box: Box, img: ImageSize, sqrt: real -> real)
    requires IsSqrt(sqrt)
    requires m.m00 != 0.0 && Realisable(CentralMoments(m))
    ensures ImagePosition(m, box, img, sqrt) != Failure(NegativeRadicand)
    ensures CorrectedImagePosition(m, box, img, sqrt) != Failure(NegativeRadicand)
  {
    RealisableRadicands(CentralMoments(m), sqrt);
  }

  /** A box centred in the middle of the image is at position (0, 0). */
  lemma CentredBoxAtOrigin(m: Moments, box: Box, img: ImageSize, sqrt: real -> real)
    requires IsSqrt(sqrt)
    requires box.cx == HalfOf(img.width) as real && box.cy == HalfOf(img.height) as real
    requires ImagePosition(m, box, img, sqrt).Success?
    ensures ImagePosition(m, box, img, sqrt).value[..2] == [0.0, 0.0]
  {
  }

  /**
   * `wsp_elips` is 1 ("a perfect circle") exactly for a round blob: no
   * correlation and the same spread along both axes. This holds for the
   * source's axes and for the corrected ones.
   */
  lemma ElongationOneExactlyWhenRound(m: Moments, box: Box, img: ImageSize, sqrt: real -> real)
    requires IsSqrt(sqrt)
    ensures ImagePosition(m, box, img, sqrt).Success? ==>
      (ImagePosition(m, box, img, sqrt).value[3] == 1.0 <==>
       CentralMoments(m).mu11 == 0.0 && CentralMoments(m).mu20 == CentralMoments(m).mu02)
    ensures CorrectedImagePosition(m, box, img, sqrt).Success? ==>
      (CorrectedImagePosition(m, box, img, sqrt).value[3] == 1.0 <==>
       CentralMoments(m).mu11 == 0.0 && CentralMoments(m).mu20 == CentralMoments(m).mu02)
  {
  }
}
