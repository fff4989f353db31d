/**
 * `yolo2voc` and the mask loop of `CXRDataset.__getitem__` in `cxr_dm_aux.py`. A box is a
 * row of four reals of an N x 4 array: `[xmid, ymid, w, h]` normalised (yolo) or
 * `[x1, y1, x2, y2]` in pixels (voc). Arithmetic is exact; float rounding is not modelled.
 */
module Boxes {

  /** The four columns of one row of a box array. */
  datatype Box = Box(c0: real, c1: real, c2: real, c3: real)

  /** Row `i` of an N x 4 box array. */
  function RowOf(a: array2<real>, i: nat): Box
    requires i < a.Length0 && a.Length1 == 4
    reads a
  {
    Box(a[i, 0], a[i, 1], a[i, 2], a[i, 3])
  }

  /** All rows of an N x 4 box array, in order. */
  function RowsOf(a: array2<real>): (rows: seq<Box>)
    requires a.Length1 == 4
    reads a
    ensures |rows| == a.Length0
    ensures forall i :: 0 <= i < |rows| ==> rows[i] == RowOf(a, i)
  {
    seq(a.Length0, i requires 0 <= i < a.Length0 reads a => RowOf(a, i))
  }

  // The four array statements of `yolo2voc`, each on one row.

  /** `bboxes[..., [0, 2]] = bboxes[..., [0, 2]] * image_width` */
  function ScaleWidth(v: Box, width: real): Box
  {
    Box(v.c0 * width, v.c1, v.c2 * width, v.c3)
  }

  /** `bboxes[..., [1, 3]] = bboxes[..., [1, 3]] * image_height` */
  function ScaleHeight(v: Box, height: real): Box
  {
    Box(v.c0, v.c1 * height, v.c2, v.c3 * height)
  }

  /** `bboxes[..., [0, 1]] = bboxes[..., [0, 1]] - bboxes[..., [2, 3]] / 2` */
  function CentreToCorner(v: Box): Box
  {
    Box(v.c0 - v.c2 / 2.0, v.c1 - v.c3 / 2.0, v.c2, v.c3)
  }

  /** `bboxes[..., [2, 3]] = bboxes[..., [0, 1]] + bboxes[..., [2, 3]]` */
  function SizeToCorner(v: Box): Box
  {
    Box(v.c0, v.c1, v.c0 + v.c2, v.c1 + v.c3)
  }

  /**
   * One row of the result of `yolo2voc(image_height, image_width, bboxes)`. The corner box
   * has the scaled size and the scaled centre of the normalised box.
   */
  function VocRow(height: nat, width: nat, v: Box): (r: Box)
    ensures r.c2 - r.c0 == v.c2 * width as real
    ensures r.c3 - r.c1 == v.c3 * height as real
    ensures (r.c0 + r.c2) / 2.0 == v.c0 * width as real
    ensures (r.c1 + r.c3) / 2.0 == v.c1 * height as real
  {
    SizeToCorner(CentreToCorner(ScaleHeight(ScaleWidth(v, width as real), height as real)))
  }

  /** `yolo2voc` applied row by row. */
  function VocRows(height: nat, width: nat, rows: seq<Box>): (r: seq<Box>)
    ensures |r| == |rows| && forall b :: 0 <= b < |rows| ==> r[b] == VocRow(height, width, rows[b])
  {
    seq(|rows|, b requires 0 <= b < |rows| => VocRow(height, width, rows[b]))
  }

  /** The inverse conversion, corner box in pixels back to a normalised centre box. */
  function YoloRow(height: nat, width: nat, r: Box): Box
    requires height > 0 && width > 0
  {
    Box((r.c0 + r.c2) / 2.0 / width as real, (r.c1 + r.c3) / 2.0 / height as real,
        (r.c2 - r.c0) / width as real, (r.c3 - r.c1) / height as real)
  }

  /** For a non-empty image, converting back recovers the normalised box exactly. */
  lemma VocRowRoundTrip(height: nat, width: nat, v: Box)
    requires height > 0 && width > 0
    ensures YoloRow(height, width, VocRow(height, width, v)) == v
  {
    var r := VocRow(height, width, v);
    var hr, wr := height as real, width as real;
    assert (r.c0 + r.c2) / 2.0 / wr == v.c0;
    assert (r.c1 + r.c3) / 2.0 / hr == v.c1;
    assert (r.c2 - r.c0) / wr == v.c2;
    assert (r.c3 - r.c1) / hr == v.c3;
  }

  /** `bboxes[..., [0, 2]] = bboxes[..., [0, 2]] * image_width` on the array itself. */
  method ScaleWidthColumns(a: array2<real>, width: real)
    requires a.Length1 == 4
    modifies a
    ensures forall k :: 0 <= k < a.Length0 ==> RowOf(a, k) == ScaleWidth(old(RowOf(a, k)), width)
  {
    var i := 0;
    while i < a.Length0
      invariant 0 <= i <= a.Length0
      invariant forall k :: 0 <= k < a.Length0 ==>
        RowOf(a, k) == if k < i then ScaleWidth(old(RowOf(a, k)), width) else old(RowOf(a, k))
    {
      ghost var v := RowOf(a, i);
      a[i, 0] := a[i, 0] * width;
      a[i, 2] := a[i, 2] * width;
      assert RowOf(a, i) == ScaleWidth(v, width);
      i := i + 1;
    }
  }

  /** `bboxes[..., [1, 3]] = bboxes[..., [1, 3]] * image_height` on the array itself. */
  method ScaleHeightColumns(a: array2<real>, height: real)
    requires a.Length1 == 4
    modifies a
    ensures forall k :: 0 <= k < a.Length0 ==> RowOf(a, k) == ScaleHeight(old(RowOf(a, k)), height)
  {
    var i := 0;
    while i < a.Length0
      invariant 0 <= i <= a.Length0
      invariant forall k :: 0 <= k < a.Length0 ==>
        RowOf(a, k) == if k < i then ScaleHeight(old(RowOf(a, k)), height) else old(RowOf(a, k))
    {
      ghost var v := RowOf(a, i);
      a[i, 1] := a[i, 1] * height;
      a[i, 3] := a[i, 3] * height;
      assert RowOf(a, i) == ScaleHeight(v, height);
      i := i + 1;
    }
  }

  /** `bboxes[..., [0, 1]] = bboxes[..., [0, 1]] - bboxes[..., [2, 3]] / 2` on the array itself. */
  method CentreToCornerColumns(a: array2<real>)
    requires a.Length1 == 4
    modifies a
    ensures forall k :: 0 <= k < a.Length0 ==> RowOf(a, k) == CentreToCorner(old(RowOf(a, k)))
  {
    var i := 0;
    while i < a.Length0
      invariant 0 <= i <= a.Length0
      invariant forall k :: 0 <= k < a.Length0 ==>
        RowOf(a, k) == if k < i then CentreToCorner(old(RowOf(a, k))) else old(RowOf(a, k))
    {
      ghost var v := RowOf(a, i);
      a[i, 0] := a[i, 0] - a[i, 2] / 2.0;
      a[i, 1] := a[i, 1] - a[i, 3] / 2.0;
      assert RowOf(a, i) == CentreToCorner(v);
      i := i + 1;
    }
  }

  /** `bboxes[..., [2, 3]] = bboxes[..., [0, 1]] + bboxes[..., [2, 3]]` on the array itself. */
  method SizeToCornerColumns(a: array2<real>)
    requires a.Length1 == 4
    modifies a
    ensures forall k :: 0 <= k < a.Length0 ==> RowOf(a, k) == SizeToCorner(old(RowOf(a, k)))
  {
    var i := 0;
    while i < a.Length0
      invariant 0 <= i <= a.Length0
      invariant forall k :: 0 <= k < a.Length0 ==>
        RowOf(a, k) == if k < i then SizeToCorner(old(RowOf(a, k))) else old(RowOf(a, k))
    {
      ghost var v := RowOf(a, i);
      a[i, 2] := a[i, 0] + a[i, 2];
      a[i, 3] := a[i, 1] + a[i, 3];
      assert RowOf(a, i) == SizeToCorner(v);
      i := i + 1;
    }
  }

  /**
   * `yolo2voc`: copies the caller's array (`bboxes.copy().astype(float)`) and rewrites the
   * copy with the four column statements; the caller's array is left as it was.
   */
  method Yolo2Voc(imageHeight: nat, imageWidth: nat, bboxes: array2<real>) returns (out: array2<real>)
    requires bboxes.Length1 == 4
    ensures fresh(out) && out.Length0 == bboxes.Length0 && out.Length1 == 4
    ensures forall i :: 0 <= i < out.Length0 ==> RowOf(out, i) == VocRow(imageHeight, imageWidth, RowOf(bboxes, i))
  {
    var n := bboxes.Length0;
    out := new real[n, 4]((i, j) reads bboxes => if 0 <= i < n && 0 <= j < 4 then bboxes[i, j] else 0.0);
    assert forall k :: 0 <= k < n ==> RowOf(out, k) == RowOf(bboxes, k);
    ScaleWidthColumns(out, imageWidth as real);
    ScaleHeightColumns(out, imageHeight as real);
    CentreToCornerColumns(out);
    SizeToCornerColumns(out);
  }

  // ---------------------------------------------------------------------------------------
  // Rasterisation

  /** Python's `int(x)` on a float: truncation toward zero. */
  function Trunc(x: real): (n: int)
    ensures 0.0 <= x ==> 0 <= n && n as real <= x < n as real + 1.0
    ensures x < 0.0 ==> n <= 0 && n as real - 1.0 < x <= n as real
  {
    if x >= 0.0 then x.Floor else -((-x).Floor)
  }

  /**
   * How a slice bound `i` of a step-1 slice over an axis of length `len` is resolved, in
   * Python and numpy: a negative bound counts from the end, and the result is clamped to
   * `[0, len]`.
   */
  function SliceIndex(i: int, len: nat): (r: nat)
    ensures r <= len
    ensures 0 <= i <= len ==> r == i
    ensures len < i ==> r == len
    ensures -(len as int) <= i < 0 ==> r == i + len
    ensures i < -(len as int) ==> r == 0
  {
    if i < 0 then (if i + len < 0 then 0 else i + len)
    else if i > len then len
    else i
  }

  /**
   * Cell `(y, x)` of a `height` x `width` mask lies in `mask[y1:y2, x1:x2]` for the voc box
   * `v` after each coordinate went through `int()`.
   */
  predicate InBox(v: Box, height: nat, width: nat, y: int, x: int)
  {
    SliceIndex(Trunc(v.c1), height) <= y < SliceIndex(Trunc(v.c3), height) &&
    SliceIndex(Trunc(v.c0), width) <= x < SliceIndex(Trunc(v.c2), width)
  }

  /** Cell `(y, x)` lies in the region of some box. */
  predicate Covered(boxes: seq<Box>, height: nat, width: nat, y: int, x: int)
  {
    exists k :: 0 <= k < |boxes| && InBox(boxes[k], height, width, y, x)
  }

  /**
   * For a box whose truncated corners are not negative, the slice region is the box
   * clipped to the image.
   */
  lemma InBoxNonNegative(v: Box, height: nat, width: nat, y: int, x: int)
    requires v.c0 >= 0.0 && v.c1 >= 0.0 && v.c2 >= 0.0 && v.c3 >= 0.0
    ensures InBox(v, height, width, y, x) <==>
            Trunc(v.c1) <= y < Trunc(v.c3) && y < height && Trunc(v.c0) <= x < Trunc(v.c2) && x < width
  {
  }

  /**
   * A box reaching past the left border is not clipped: its negative start counts from
   * the right edge, so the box `x1 = -3, x2 = 7` paints nothing in a 100-pixel-wide mask.
   */
  lemma NegativeStartWraps(y: int, x: int)
    ensures !InBox(Box(-3.0, 0.0, 7.0, 10.0), 100, 100, y, x)
  {
    assert Trunc(-3.0) == -3;
    assert SliceIndex(-3, 100) == 97;
    assert Trunc(7.0) == 7;
  }

  /** `mask[r0:r1, c0:c1] = 1.0` with already resolved slice bounds. */
  method PaintRegion(mask: array2<real>, r0: nat, r1: nat, c0: nat, c1: nat)
    requires r1 <= mask.Length0 && c1 <= mask.Length1
    modifies mask
    ensures forall y, x :: 0 <= y < mask.Length0 && 0 <= x < mask.Length1 ==>
              mask[y, x] == if r0 <= y < r1 && c0 <= x < c1 then 1.0 else old(mask[y, x])
  {
    if r0 < r1 && c0 < c1 {
      var y := r0;
      while y < r1
        invariant r0 <= y <= r1
        invariant forall i, j :: 0 <= i < mask.Length0 && 0 <= j < mask.Length1 ==>
                    mask[i, j] == if r0 <= i < y && c0 <= j < c1 then 1.0 else old(mask[i, j])
      {
        var x := c0;
        while x < c1
          invariant c0 <= x <= c1
          invariant forall i, j :: 0 <= i < mask.Length0 && 0 <= j < mask.Length1 ==>
                      mask[i, j] == if (r0 <= i < y && c0 <= j < c1) || (i == y && c0 <= j < x) then 1.0
                                    else old(mask[i, j])
        {
          mask[y, x] := 1.0;
          x := x + 1;
        }
        y := y + 1;
      }
    }
  }

  /**
   * The loop `for bbox in bboxes: x1, y1, x2, y2 = [int(bi) for bi in bbox];
   * mask[y1:y2, x1:x2] = 1.0`: every cell in the region of some box becomes 1 and every
   * other cell keeps its value, so a later box never clears an earlier one.
   */
  method Rasterize(mask: array2<real>, bboxes: array2<real>)
    requires bboxes.Length1 == 4 && mask != bboxes
    modifies mask
    ensures forall y, x :: 0 <= y < mask.Length0 && 0 <= x < mask.Length1 ==>
              mask[y, x] == if Covered(RowsOf(bboxes), mask.Length0, mask.Length1, y, x) then 1.0
                            else old(mask[y, x])
  {
    var height, width := mask.Length0, mask.Length1;
    ghost var boxes := RowsOf(bboxes);
    var k := 0;
    while k < bboxes.Length0
      invariant 0 <= k <= bboxes.Length0
      invariant boxes == RowsOf(bboxes)
      invariant forall y, x :: 0 <= y < height && 0 <= x < width ==>
                  mask[y, x] == if Covered(boxes[..k], height, width, y, x) then 1.0 else old(mask[y, x])
    {
      var x1, y1 := Trunc(bboxes[k, 0]), Trunc(bboxes[k, 1]);
      var x2, y2 := Trunc(bboxes[k, 2]), Trunc(bboxes[k, 3]);
      PaintRegion(mask, SliceIndex(y1, height), SliceIndex(y2, height), SliceIndex(x1, width), SliceIndex(x2, width));
      forall y, x | 0 <= y < height && 0 <= x < width
        ensures Covered(boxes[..k + 1], height, width, y, x) <==>
                Covered(boxes[..k], height, width, y, x) || InBox(boxes[k], height, width, y, x)
      {
        assert boxes[..k + 1][k] == boxes[k];
        assert forall j :: 0 <= j < k ==> boxes[..k + 1][j] == boxes[..k][j];
      }
      k := k + 1;
    }
    assert boxes[..k] == boxes;
  }
}
