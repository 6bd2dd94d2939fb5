/**
  The region-inversion compositor `thatcherizePhoto` (thatcherizer.py:736-776).
  The captured frame is mirrored left-right; then, for each feature rectangle
  in list order, the rectangle is converted to image coordinates, its block
  is cut out, flipped top-to-bottom and pasted back through the alpha mask.
  Both the plain and the inverted image are cropped to the box
  (140, 0, 500, 480) and handed back mirrored again.

  The alpha mask resized to the rectangle's size and the per-pixel blend of
  the paste are parameters: the resampling and the rounding of the blend are
  not modelled. A blend is only required to keep the destination pixel at
  mask value 0 and to take the source pixel at mask value 255.
*/
module Compositor {
  import opened Geometry
  import opened Images

  type Alpha = a: int | 0 <= a < 256

  /** `mask(w, h, col, row)`: value at (col, row) of the mask resized to w x h. */
  type MaskFn = (int, int, int, int) -> Alpha

  /** `blend(dst, src, m)`: the pasted pixel for mask value m. */
  type BlendFn = (Pixel, Pixel, Alpha) -> Pixel

  ghost predicate BlendOk(blend: BlendFn)
  {
    forall d: Pixel, s: Pixel :: blend(d, s, 0) == d && blend(d, s, 255) == s
  }

  // Output crop box around the face (thatcherizer.py:763): 360 wide, 480 tall.
  const OutX1: int := 140
  const OutY1: int := 0
  const OutX2: int := 500
  const OutY2: int := 480
  const OutWidth: nat := 360
  const OutHeight: nat := 480

  /** The row of the block whose pixel lands on `row` when the block of `r` is flipped top-to-bottom. */
  function MirrorRow(r: Rect, row: int): int
  {
    r.y + r.h - 1 - (row - r.y)
  }

  /**
    One region, in image coordinates: the block under `r` is flipped
    top-to-bottom and pasted back through the mask. The cut-out block reads
    black where it leaves the image, and the paste is clipped to the image.
  */
  function InvertRegion(img: Image, r: Rect, mask: MaskFn, blend: BlendFn): (out: Image)
    ensures IsSize(out, Width(img), Height(img))
    ensures forall i, j :: 0 <= i < Height(img) && 0 <= j < Width(img) && !Covers(r, j, i) ==>
      out[i][j] == At(img, i, j)
  {
    Build(Width(img), Height(img), (i, j) =>
      if Covers(r, j, i)
      then blend(At(img, i, j), At(img, MirrorRow(r, i), j), mask(r.w, r.h, j - r.x, i - r.y))
      else At(img, i, j))
  }

  /** Inside the region, mask value 255 shows the mirrored pixel and mask value 0 the original. */
  lemma InvertRegionInside(img: Image, r: Rect, mask: MaskFn, blend: BlendFn, i: int, j: int)
    requires BlendOk(blend)
    requires 0 <= i < Height(img) && 0 <= j < Width(img) && Covers(r, j, i)
    ensures var out := InvertRegion(img, r, mask, blend);
      && (mask(r.w, r.h, j - r.x, i - r.y) == 255 ==> out[i][j] == At(img, MirrorRow(r, i), j))
      && (mask(r.w, r.h, j - r.x, i - r.y) == 0 ==> out[i][j] == At(img, i, j))
  {
  }

  /** A mirrored row stays inside the region, so a fully opaque region is its own block turned over. */
  lemma MirrorRowInRegion(r: Rect, row: int, col: int)
    requires Covers(r, col, row)
    ensures Covers(r, col, MirrorRow(r, row))
    ensures MirrorRow(r, MirrorRow(r, row)) == row
  {
  }

  /** `rects` (screen coordinates) cover image pixel (col, row) once converted. */
  predicate CoveredByAny(rects: seq<Rect>, col: int, row: int)
  {
    exists k :: 0 <= k < |rects| && Covers(ScreenToImage(rects[k]), col, row)
  }

  /** The regions applied one after the other, in list order; each sees the previous ones' result. */
  function ApplyRegions(img: Image, rects: seq<Rect>, mask: MaskFn, blend: BlendFn): Image
    decreases |rects|
  {
    if |rects| == 0 then img
    else ApplyRegions(InvertRegion(img, ScreenToImage(rects[0]), mask, blend), rects[1..], mask, blend)
  }

  /** Applying the regions keeps the size and changes no pixel outside all converted rectangles. */
  lemma {:induction false} ApplyRegionsOutside(img: Image, rects: seq<Rect>, mask: MaskFn, blend: BlendFn, w: nat, h: nat)
    requires IsSize(img, w, h)
    ensures var out := ApplyRegions(img, rects, mask, blend);
      && IsSize(out, w, h)
      && forall i, j :: 0 <= i < h && 0 <= j < w && !CoveredByAny(rects, j, i) ==> out[i][j] == img[i][j]
    decreases |rects|
  {
    if |rects| > 0 {
      var first := InvertRegion(img, ScreenToImage(rects[0]), mask, blend);
      assert IsSize(first, w, h);
      ApplyRegionsOutside(first, rects[1..], mask, blend, w, h);
      var out := ApplyRegions(img, rects, mask, blend);
      forall i, j | 0 <= i < h && 0 <= j < w && !CoveredByAny(rects, j, i)
        ensures out[i][j] == img[i][j]
      {
        assert !Covers(ScreenToImage(rects[0]), j, i);
      }
    }
  }

  /** The full-size inverted image, before the output crop. */
  function Illusion(frame: Image, rects: seq<Rect>, mask: MaskFn, blend: BlendFn): Image
  {
    ApplyRegions(FlipLR(frame), rects, mask, blend)
  }

  function CropOut(img: Image): (out: Image)
    ensures IsSize(out, OutWidth, OutHeight)
  {
    Crop(img, OutX1, OutY1, OutX2, OutY2)
  }

  /** The two images `thatcherizePhoto` returns, and the two it saves. */
  datatype Outputs = Outputs(orig: Image, thatch: Image, savedOrig: Image, savedThatch: Image)

  /** `thatcherizePhoto`, without the file names (see the Numbering module). */
  function Thatcherize(frame: Image, rects: seq<Rect>, mask: MaskFn, blend: BlendFn): (o: Outputs)
    ensures IsSize(o.orig, OutWidth, OutHeight) && IsSize(o.thatch, OutWidth, OutHeight)
    ensures IsSize(o.savedOrig, OutWidth, OutHeight) && IsSize(o.savedThatch, OutWidth, OutHeight)
    // the returned images are the saved ones mirrored back
    ensures o.orig == FlipLR(o.savedOrig) && o.thatch == FlipLR(o.savedThatch)
  {
    var base := FlipLR(frame);
    var savedOrig := CropOut(base);
    var savedThatch := CropOut(Illusion(frame, rects, mask, blend));
    Outputs(FlipLR(savedOrig), FlipLR(savedThatch), savedOrig, savedThatch)
  }

  /** Outside all converted rectangles the full-size inverted image equals the mirrored frame. */
  lemma IllusionAgreesOutside(frame: Image, rects: seq<Rect>, mask: MaskFn, blend: BlendFn, row: int, col: int)
    requires !CoveredByAny(rects, col, row)
    ensures At(Illusion(frame, rects, mask, blend), row, col) == At(FlipLR(frame), row, col)
  {
    var base := FlipLR(frame);
    ApplyRegionsOutside(base, rects, mask, blend, Width(frame), Height(frame));
  }

  /**
    The returned inverted image differs from the returned plain image only at
    pixels that some converted rectangle covers. Returned column j comes from
    column 499 - j of the mirrored frame.
  */
  lemma ThatcherizeChangesOnlyRegions(frame: Image, rects: seq<Rect>, mask: MaskFn, blend: BlendFn)
    ensures var o := Thatcherize(frame, rects, mask, blend);
      forall i, j :: 0 <= i < OutHeight && 0 <= j < OutWidth && !CoveredByAny(rects, OutX2 - 1 - j, i) ==>
        o.thatch[i][j] == o.orig[i][j]
  {
    ThatcherizeShape(frame, rects, mask, blend);
    IllusionOutside(frame, rects, mask, blend);
    CropsAgreeOutside(Illusion(frame, rects, mask, blend), FlipLR(frame), rects);
  }

  lemma ThatcherizeShape(frame: Image, rects: seq<Rect>, mask: MaskFn, blend: BlendFn)
    ensures Thatcherize(frame, rects, mask, blend).thatch == FlipLR(CropOut(Illusion(frame, rects, mask, blend)))
    ensures Thatcherize(frame, rects, mask, blend).orig == FlipLR(CropOut(FlipLR(frame)))
  {
  }

  lemma IllusionOutside(frame: Image, rects: seq<Rect>, mask: MaskFn, blend: BlendFn)
    ensures forall row, col :: !CoveredByAny(rects, col, row) ==>
      At(Illusion(frame, rects, mask, blend), row, col) == At(FlipLR(frame), row, col)
  {
    forall row, col | !CoveredByAny(rects, col, row)
      ensures At(Illusion(frame, rects, mask, blend), row, col) == At(FlipLR(frame), row, col)
    {
      IllusionAgreesOutside(frame, rects, mask, blend, row, col);
    }
  }

  lemma CropsAgreeOutside(ill: Image, base: Image, rects: seq<Rect>)
    requires forall row, col :: !CoveredByAny(rects, col, row) ==> At(ill, row, col) == At(base, row, col)
    ensures forall i, j :: 0 <= i < OutHeight && 0 <= j < OutWidth && !CoveredByAny(rects, OutX2 - 1 - j, i) ==>
      FlipLR(CropOut(ill))[i][j] == FlipLR(CropOut(base))[i][j]
  {
    forall i, j | 0 <= i < OutHeight && 0 <= j < OutWidth && !CoveredByAny(rects, OutX2 - 1 - j, i)
      ensures FlipLR(CropOut(ill))[i][j] == FlipLR(CropOut(base))[i][j]
    {
      SamePixelAfterCrop(ill, base, i, j);
    }
  }

  /** Two images that agree at one pixel of the output box agree at its place in the mirrored crops. */
  lemma SamePixelAfterCrop(a: Image, b: Image, i: int, j: int)
    requires 0 <= i < OutHeight && 0 <= j < OutWidth
    requires At(a, OutY1 + i, OutX2 - 1 - j) == At(b, OutY1 + i, OutX2 - 1 - j)
    ensures FlipLR(CropOut(a))[i][j] == FlipLR(CropOut(b))[i][j]
  {
    var j' := OutWidth - 1 - j;
    FlipLRAt(CropOut(a), OutWidth, OutHeight, i, j);
    FlipLRAt(CropOut(b), OutWidth, OutHeight, i, j);
    CropOutAt(a, i, j');
    CropOutAt(b, i, j');
  }

  lemma CropOutAt(img: Image, i: int, j: int)
    requires 0 <= i < OutHeight && 0 <= j < OutWidth
    ensures CropOut(img)[i][j] == At(img, OutY1 + i, OutX1 + j)
  {
  }

  /** The plain output never depends on the rectangles. */
  lemma OrigIgnoresRegions(frame: Image, r1: seq<Rect>, r2: seq<Rect>, mask: MaskFn, blend: BlendFn)
    ensures Thatcherize(frame, r1, mask, blend).orig == Thatcherize(frame, r2, mask, blend).orig
  {
  }

  /**
    For a 640-pixel-wide frame the two mirrorings cancel: the plain output is
    the frame's own columns 140..499.
  */
  lemma OrigIsPlainCrop(frame: Image, rects: seq<Rect>, mask: MaskFn, blend: BlendFn)
    requires IsSize(frame, CamWidth, CamHeight)
    ensures Thatcherize(frame, rects, mask, blend).orig == Crop(frame, OutX1, OutY1, OutX2, OutY2)
  {
    var o := Thatcherize(frame, rects, mask, blend);
    var want := Crop(frame, OutX1, OutY1, OutX2, OutY2);
    forall i | 0 <= i < OutHeight ensures o.orig[i] == want[i] {
      forall j | 0 <= j < OutWidth ensures o.orig[i][j] == want[i][j] {
        OrigPixel(frame, rects, mask, blend, i, j);
      }
    }
  }

  lemma OrigPixel(frame: Image, rects: seq<Rect>, mask: MaskFn, blend: BlendFn, i: int, j: int)
    requires IsSize(frame, CamWidth, CamHeight) && 0 <= i < OutHeight && 0 <= j < OutWidth
    ensures Thatcherize(frame, rects, mask, blend).orig[i][j] == frame[i][OutX1 + j]
  {
    assert Thatcherize(frame, rects, mask, blend).orig == FlipLR(CropOut(FlipLR(frame)));
    MirroredCropPixel(frame, i, j);
  }

  lemma MirroredCropPixel(frame: Image, i: int, j: int)
    requires IsSize(frame, CamWidth, CamHeight) && 0 <= i < OutHeight && 0 <= j < OutWidth
    ensures FlipLR(CropOut(FlipLR(frame)))[i][j] == frame[i][OutX1 + j]
  {
    var base := FlipLR(frame);
    var so := CropOut(base);
    FlipLRAt(so, OutWidth, OutHeight, i, j);
    FlipLRAt(frame, CamWidth, CamHeight, i, OutX2 - 1 - j);
    assert so[i][OutWidth - 1 - j] == At(base, i, OutX2 - 1 - j);
  }

  lemma FlipLRAt(img: Image, w: nat, h: nat, i: int, j: int)
    requires IsSize(img, w, h) && 0 <= i < h && 0 <= j < w
    ensures IsSize(FlipLR(img), w, h) && FlipLR(img)[i][j] == img[i][w - 1 - j]
  {
    assert |img[0]| == w;
  }

  /** A mask that is fully opaque everywhere. */
  function Opaque(w: int, h: int, col: int, row: int): Alpha
  {
    255
  }

  /** A hard blend: mask 0 keeps the destination, anything else takes the source. */
  function HardBlend(dst: Pixel, src: Pixel, m: Alpha): Pixel
  {
    if m == 0 then dst else src
  }

  /** The pixel of column 0 that row `row` shows after flipping rows `top`..`top`+1 with the opaque mask. */
  lemma FlipTwoRows(img: Image, top: int, row: int)
    requires IsSize(img, 1, 3) && 0 <= top <= 1 && 0 <= row < 3
    ensures InvertRegion(img, Rect(0, top, 1, 2), Opaque, HardBlend)[row][0] ==
      if row == top then img[top + 1][0] else if row == top + 1 then img[top][0] else img[row][0]
  {
  }

  /**
    Regions are applied cumulatively, so with overlapping regions the order
    matters: on a one-pixel-wide column of three distinct pixels, flipping
    rows 0-1 then rows 1-2 differs from the other order.
  */
  lemma RegionOrderMatters(p0: Pixel, p1: Pixel, p2: Pixel)
    requires p1 != p2
    ensures
      var img := [[p0], [p1], [p2]];
      var a := Rect(0, 0, 1, 2);
      var b := Rect(0, 1, 1, 2);
      InvertRegion(InvertRegion(img, a, Opaque, HardBlend), b, Opaque, HardBlend)
        != InvertRegion(InvertRegion(img, b, Opaque, HardBlend), a, Opaque, HardBlend)
  {
    var img := [[p0], [p1], [p2]];
    var a1 := InvertRegion(img, Rect(0, 0, 1, 2), Opaque, HardBlend);
    var b1 := InvertRegion(img, Rect(0, 1, 1, 2), Opaque, HardBlend);
    FlipTwoRows(img, 0, 0);
    FlipTwoRows(img, 1, 1);
    assert IsSize(a1, 1, 3) && IsSize(b1, 1, 3);
    FlipTwoRows(a1, 1, 0);
    FlipTwoRows(b1, 0, 0);
  }
}
