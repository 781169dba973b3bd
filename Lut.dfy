/**
 * HSV threshold segmentation: every pixel of an HSV image (three bytes, in the
 * order hue, saturation, value; hue on OpenCV's 0..180 scale) becomes one
 * label byte, 255 for "blue enough, saturated enough and bright enough" and 0
 * otherwise.
 */
module Lut {

  newtype byte = x: int | 0 <= x < 256

  /** `H(x) = x >> 1`: a hue threshold on the 0..360 scale moved to OpenCV's 0..180 scale (floor halving). */
  function H(x: int): (h: int)
    ensures 2 * h <= x < 2 * h + 2
  {
    x / 2
  }

  /** The four threshold properties of the component. */
  datatype Thresholds = Thresholds(hue1: int, hue2: int, sat: int, val: int)

  /** The ranges the component constrains its properties to. */
  predicate InRange(t: Thresholds)
  {
    && 0 <= t.hue1 <= 360 && 0 <= t.hue2 <= 360
    && 0 <= t.sat <= 255 && 0 <= t.val <= 255
  }

  const Defaults := Thresholds(180, 240, 100, 100)

  /** The default properties are in range and select the hue band 90..119 of OpenCV's scale. */
  lemma DefaultsSelectBlue()
    ensures InRange(Defaults)
    ensures H(Defaults.hue1) == 90 && H(Defaults.hue2) == 120
  {
  }

  /**
   * The label of one pixel: 255 exactly when its hue lies in
   * `[H(hue1), H(hue2))` and its saturation and value reach their thresholds.
   */
  function Label(hue: byte, sat: byte, val: byte, t: Thresholds): (mark: byte)
    ensures mark == 0 || mark == 255
    ensures mark == 255 <==> H(t.hue1) <= hue as int < H(t.hue2) && sat as int >= t.sat && val as int >= t.val
  {
    var byHue: byte := if (hue as int) < H(t.hue1) then 0 else if (hue as int) < H(t.hue2) then 255 else 0;
    var bySat: byte := if (sat as int) < t.sat then 0 else byHue;
    if (val as int) < t.val then 0 else bySat
  }

  /** The labels of a buffer of HSV triples, one per triple. */
  function Segmentation(hsv: seq<byte>, t: Thresholds): (labels: seq<byte>)
    requires |hsv| % 3 == 0
    ensures |labels| == |hsv| / 3
    ensures forall k :: 0 <= k < |labels| ==> labels[k] == 0 || labels[k] == 255
  {
    seq(|hsv| / 3, k requires 0 <= k < |hsv| / 3 => Label(hsv[3 * k], hsv[3 * k + 1], hsv[3 * k + 2], t))
  }

  /** Label k depends only on the bytes 3k, 3k+1 and 3k+2 of the input. */
  lemma SegmentationIsLocal(hsv: seq<byte>, other: seq<byte>, t: Thresholds, k: int)
    requires |hsv| % 3 == 0 && |other| == |hsv| && 0 <= k < |hsv| / 3
    requires hsv[3 * k] == other[3 * k] && hsv[3 * k + 1] == other[3 * k + 1] && hsv[3 * k + 2] == other[3 * k + 2]
    ensures Segmentation(hsv, t)[k] == Segmentation(other, t)[k]
  {
  }

  /** An empty hue band (`H(hue1) >= H(hue2)`) labels every pixel 0. */
  lemma EmptyBandLabelsNothing(hsv: seq<byte>, t: Thresholds)
    requires |hsv| % 3 == 0
    requires H(t.hue1) >= H(t.hue2)
    ensures forall k :: 0 <= k < |hsv| / 3 ==> Segmentation(hsv, t)[k] == 0
  {
  }

  /**
   * Segmenting two buffers one after the other gives the segmentation of
   * their concatenation: processing an image row by row and as one long row
   * agree.
   */
  lemma SegmentationOfConcatenation(front: seq<byte>, back: seq<byte>, t: Thresholds)
    requires |front| % 3 == 0 && |back| % 3 == 0
    ensures |front + back| % 3 == 0
    ensures Segmentation(front + back, t) == Segmentation(front, t) + Segmentation(back, t)
  {
    var whole, left, right := Segmentation(front + back, t), Segmentation(front, t), Segmentation(back, t);
    var n := |front| / 3;
    assert |whole| == |left| + |right|;
    forall k | 0 <= k < |whole|
      ensures whole[k] == (left + right)[k]
    {
      if k >= n {
        assert 3 * k - |front| == 3 * (k - n);
        assert (front + back)[3 * k] == back[3 * (k - n)];
        assert (front + back)[3 * k + 1] == back[3 * (k - n) + 1];
        assert (front + back)[3 * k + 2] == back[3 * (k - n) + 2];
      }
    }
  }

  /** The rows of an image laid end to end. */
  function Flatten(rows: seq<seq<byte>>): (flat: seq<byte>)
    ensures |flat| == Total(rows)
  {
    if |rows| == 0 then [] else Flatten(rows[..|rows| - 1]) + rows[|rows| - 1]
  }

  function Total(rows: seq<seq<byte>>): nat
  {
    if |rows| == 0 then 0 else Total(rows[..|rows| - 1]) + |rows[|rows| - 1]|
  }

  /** Every row holds whole HSV triples. */
  predicate WholeTriples(rows: seq<seq<byte>>)
  {
    forall r :: 0 <= r < |rows| ==> |rows[r]| % 3 == 0
  }

  function SegmentRows(rows: seq<seq<byte>>, t: Thresholds): (labels: seq<seq<byte>>)
    requires WholeTriples(rows)
    ensures |labels| == |rows|
    ensures forall r :: 0 <= r < |rows| ==> labels[r] == Segmentation(rows[r], t)
  {
    seq(|rows|, r requires 0 <= r < |rows| => Segmentation(rows[r], t))
  }

  /** Row-by-row segmentation, rows laid end to end, equals segmenting the whole image as one row. */
  lemma {:induction false} RowByRowEqualsContinuous(rows: seq<seq<byte>>, t: Thresholds)
    requires WholeTriples(rows)
    ensures |Flatten(rows)| % 3 == 0
    ensures Flatten(SegmentRows(rows, t)) == Segmentation(Flatten(rows), t)
  {
    if |rows| > 0 {
      var init := rows[..|rows| - 1];
      RowByRowEqualsContinuous(init, t);
      assert SegmentRows(rows, t)[..|rows| - 1] == SegmentRows(init, t);
      SegmentationOfConcatenation(Flatten(init), rows[|rows| - 1], t);
    }
  }

  /** `segments` of an image of `rows * cols` pixels, with both label buffers of that size. */
  class LookupTable {
    var hueThreshold1: int
    var hueThreshold2: int
    var satThreshold: int
    var valThreshold: int
    /** The hue image and the segments image, as `Mat::create` leaves them: `rows` by `cols` single-byte pixels. */
    var hueImg: array<byte>
    var segments: array<byte>
    var rows: nat
    var cols: nat

    function Current(): Thresholds
      reads this
    {
      Thresholds(hueThreshold1, hueThreshold2, satThreshold, valThreshold)
    }

    ghost predicate Valid()
      reads this
    {
      && InRange(Current())
      && hueImg.Length == rows * cols && segments.Length == rows * cols
      && hueImg != segments
    }

    /** The component with its default properties and two empty images. */
    constructor ()
      ensures Valid() && Current() == Defaults
      ensures rows == 0 && cols == 0
      ensures fresh(hueImg) && fresh(segments)
    {
      hueThreshold1, hueThreshold2, satThreshold, valThreshold := 180, 240, 100, 100;
      hueImg := new byte[0];
      segments := new byte[0];
      rows, cols := 0, 0;
    }

    /**
     * `onNewImage` on an HSV image of `height` rows of `width` pixels, stored
     * without row padding. Both label images are (re)created at that size,
     * reusing the old buffers when the size has not changed; then every pixel
     * is labelled, as one long row when `continuous` and row by row
     * otherwise. Only `segments` is written.
     */
    method OnNewImage(hsv: array<byte>, height: nat, width: nat, continuous: bool)
      requires Valid()
      requires hsv.Length == 3 * (height * width)
      requires hsv != segments && hsv != hueImg
      modifies this, segments
      ensures Valid() && rows == height && cols == width && Current() == old(Current())
      ensures segments[..] == Segmentation(hsv[..], Current())
      ensures hsv[..] == old(hsv[..])
      ensures old(rows) == height && old(cols) == width ==>
        segments == old(segments) && hueImg == old(hueImg) && hueImg[..] == old(hueImg[..])
      ensures !(old(rows) == height && old(cols) == width) ==> fresh(segments) && fresh(hueImg)
    {
      var t := Current();
      if rows != height || cols != width {
        hueImg := new byte[height * width];
        segments := new byte[height * width];
        rows, cols := height, width;
      }
      var seg := segments;
      var total := height * width;
      var lines, lineWidth := height, width;
      if continuous {
        lineWidth := lineWidth * lines;
        lines := 1;
      }
      assert lines * lineWidth == total;
      LabelLines(hsv, seg, lines, lineWidth, t);
      assert seg[..] == Segmentation(hsv[..], t);
    }
  }

  /**
   * The outer row loop: label `lines` consecutive rows of `lineWidth` pixels,
   * which together cover the whole of `seg`.
   */
  method LabelLines(hsv: array<byte>, seg: array<byte>, lines: nat, lineWidth: nat, t: Thresholds)
    requires hsv != seg && seg.Length == lines * lineWidth && hsv.Length == 3 * seg.Length
    modifies seg
    ensures forall p :: 0 <= p < seg.Length ==> seg[p] == Label(hsv[3 * p], hsv[3 * p + 1], hsv[3 * p + 2], t)
  {
    var i, done := 0, 0;
    while i < lines
      invariant 0 <= i <= lines && done == i * lineWidth
      invariant forall p :: 0 <= p < done ==> seg[p] == Label(hsv[3 * p], hsv[3 * p + 1], hsv[3 * p + 2], t)
    {
      RowFits(i, lines, lineWidth);
      LabelLine(hsv, seg, done, lineWidth, t);
      done := done + lineWidth;
      i := i + 1;
    }
  }

  /**
   * The inner pixel loop: label the `count` pixels starting at pixel `start`,
   * reading their triples from `hsv` and writing one byte each into `seg`.
   */
  method LabelLine(hsv: array<byte>, seg: array<byte>, start: nat, count: nat, t: Thresholds)
    requires hsv != seg && start + count <= seg.Length && 3 * seg.Length <= hsv.Length
    modifies seg
    ensures forall p :: start <= p < start + count ==> seg[p] == Label(hsv[3 * p], hsv[3 * p + 1], hsv[3 * p + 2], t)
    ensures forall p :: 0 <= p < seg.Length && !(start <= p < start + count) ==> seg[p] == old(seg[p])
  {
    var j, k := 0, 0;
    while j < 3 * count
      invariant 0 <= k <= count && j == 3 * k
      invariant forall p :: start <= p < start + k ==> seg[p] == Label(hsv[3 * p], hsv[3 * p + 1], hsv[3 * p + 2], t)
      invariant forall p :: 0 <= p < seg.Length && !(start <= p < start + k) ==> seg[p] == old(seg[p])
    {
      var hue, sat, val := hsv[3 * start + j], hsv[3 * start + j + 1], hsv[3 * start + j + 2];
      var mark: byte;
      if (hue as int) < H(t.hue1) {
        mark := 0;
      } else if (hue as int) < H(t.hue2) {
        mark := 255;
      } else {
        mark := 0;
      }
      if (sat as int) < t.sat {
        mark := 0;
      }
      if (val as int) < t.val {
        mark := 0;
      }
      seg[start + k] := mark;
      k := k + 1;
      j := j + 3;
    }
  }

  /** Row `i` of `lines` rows of `lineWidth` pixels ends within the image. */
  lemma RowFits(i: int, lines: int, lineWidth: int)
    requires 0 <= i < lines && 0 <= lineWidth
    ensures (i + 1) * lineWidth <= lines * lineWidth
    ensures i * lineWidth + lineWidth == (i + 1) * lineWidth
  {
    assert lines * lineWidth - (i + 1) * lineWidth == (lines - i - 1) * lineWidth;
  }
}
