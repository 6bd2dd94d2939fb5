/**
  The crop, rotate and paste geometry of `assembleCompositeImage`
  (thatcherizer.py:778-811). Both returned images are mirrored back, scaled
  to the print resolution, cropped to the box (40, 52, 680, 908) and pasted
  into the print template: the plain one at (58, 172), the inverted one
  turned by 180 degrees at (1102, 172). The scaling and the template image
  are parameters.
*/
module PrintLayout {
  import opened Images

  // Crop box of the scaled images (thatcherizer.py:795): 640 wide, 856 tall.
  const BoxX1: int := 40
  const BoxY1: int := 52
  const BoxX2: int := 680
  const BoxY2: int := 908
  const PrintW: nat := 640
  const PrintH: nat := 856

  // Paste anchors in the template (thatcherizer.py:804-805).
  const OrigX: int := 58
  const ThatchX: int := 1102
  const AnchorY: int := 172

  /** An image mirrored back, scaled, and cropped to the print box. */
  function PrintCrop(img: Image, scale: Image -> Image): (out: Image)
    ensures IsSize(out, PrintW, PrintH)
  {
    Crop(scale(FlipLR(img)), BoxX1, BoxY1, BoxX2, BoxY2)
  }

  /** `assembleCompositeImage` without the file I/O. */
  function AssembleComposite(orig: Image, thatch: Image, scale: Image -> Image, template: Image): (c: Image)
    ensures IsSize(c, Width(template), Height(template))
  {
    var o := PrintCrop(orig, scale);
    var t := Rotate180(PrintCrop(thatch, scale));
    Paste(Paste(template, o, OrigX, AnchorY), t, ThatchX, AnchorY)
  }

  /** The template's pixel (row, col) is covered by neither pasted image. */
  predicate OutsidePastes(row: int, col: int)
  {
    !(AnchorY <= row < AnchorY + PrintH && OrigX <= col < OrigX + PrintW)
    && !(AnchorY <= row < AnchorY + PrintH && ThatchX <= col < ThatchX + PrintW)
  }

  /** The plain crop lands upright with its corner at (58, 172). */
  lemma CompositeShowsOrig(orig: Image, thatch: Image, scale: Image -> Image, template: Image, w: nat, h: nat)
    requires IsSize(template, w, h) && w >= ThatchX + PrintW && h >= AnchorY + PrintH
    ensures var c := AssembleComposite(orig, thatch, scale, template);
      forall row, col :: AnchorY <= row < AnchorY + PrintH && OrigX <= col < OrigX + PrintW ==>
        c[row][col] == At(scale(FlipLR(orig)), BoxY1 + (row - AnchorY), BoxX1 + (col - OrigX))
  {
    var o := PrintCrop(orig, scale);
    var mid := Paste(template, o, OrigX, AnchorY);
    var c := AssembleComposite(orig, thatch, scale, template);
    assert Width(template) == w && Width(mid) == w;
    forall row, col | AnchorY <= row < AnchorY + PrintH && OrigX <= col < OrigX + PrintW
      ensures c[row][col] == At(scale(FlipLR(orig)), BoxY1 + (row - AnchorY), BoxX1 + (col - OrigX))
    {
      assert c[row][col] == At(mid, row, col);
      assert mid[row][col] == At(o, row - AnchorY, col - OrigX);
    }
  }

  /** The inverted crop lands turned by 180 degrees with its corner at (1102, 172). */
  lemma CompositeShowsThatchTurned(orig: Image, thatch: Image, scale: Image -> Image, template: Image, w: nat, h: nat)
    requires IsSize(template, w, h) && w >= ThatchX + PrintW && h >= AnchorY + PrintH
    ensures var c := AssembleComposite(orig, thatch, scale, template);
      forall row, col :: AnchorY <= row < AnchorY + PrintH && ThatchX <= col < ThatchX + PrintW ==>
        c[row][col] == At(scale(FlipLR(thatch)), BoxY2 - 1 - (row - AnchorY), BoxX2 - 1 - (col - ThatchX))
  {
    forall row, col | AnchorY <= row < AnchorY + PrintH && ThatchX <= col < ThatchX + PrintW
      ensures AssembleComposite(orig, thatch, scale, template)[row][col] ==
        At(scale(FlipLR(thatch)), BoxY2 - 1 - (row - AnchorY), BoxX2 - 1 - (col - ThatchX))
    {
      ThatchPixel(orig, thatch, scale, template, w, h, row, col);
    }
  }

  lemma ThatchPixel(orig: Image, thatch: Image, scale: Image -> Image, template: Image, w: nat, h: nat, row: int, col: int)
    requires IsSize(template, w, h) && w >= ThatchX + PrintW && h >= AnchorY + PrintH
    requires AnchorY <= row < AnchorY + PrintH && ThatchX <= col < ThatchX + PrintW
    ensures AssembleComposite(orig, thatch, scale, template)[row][col] ==
      At(scale(FlipLR(thatch)), BoxY2 - 1 - (row - AnchorY), BoxX2 - 1 - (col - ThatchX))
  {
    var t := Rotate180(PrintCrop(thatch, scale));
    var mid := Paste(template, PrintCrop(orig, scale), OrigX, AnchorY);
    var c := AssembleComposite(orig, thatch, scale, template);
    assert Width(template) == w && Width(mid) == w && Width(t) == PrintW;
    var i, j := row - AnchorY, col - ThatchX;
    assert c[row][col] == At(t, i, j);
    TurnedPixel(thatch, scale, i, j);
  }

  lemma TurnedPixel(thatch: Image, scale: Image -> Image, i: int, j: int)
    requires 0 <= i < PrintH && 0 <= j < PrintW
    ensures At(Rotate180(PrintCrop(thatch, scale)), i, j) == At(scale(FlipLR(thatch)), BoxY2 - 1 - i, BoxX2 - 1 - j)
  {
    var pc := PrintCrop(thatch, scale);
    var t := Rotate180(pc);
    assert Width(pc) == PrintW && Height(pc) == PrintH;
    assert t[i][j] == At(pc, PrintH - 1 - i, PrintW - 1 - j);
    assert pc[PrintH - 1 - i][PrintW - 1 - j] == At(scale(FlipLR(thatch)), BoxY1 + (PrintH - 1 - i), BoxX1 + (PrintW - 1 - j));
  }

  /** Outside the two pasted areas the template shows through unchanged. */
  lemma CompositeKeepsTemplate(orig: Image, thatch: Image, scale: Image -> Image, template: Image, w: nat, h: nat)
    requires IsSize(template, w, h)
    ensures var c := AssembleComposite(orig, thatch, scale, template);
      forall row, col :: 0 <= row < h && 0 <= col < w && OutsidePastes(row, col) ==> c[row][col] == template[row][col]
  {
    var mid := Paste(template, PrintCrop(orig, scale), OrigX, AnchorY);
    var c := AssembleComposite(orig, thatch, scale, template);
    assert h > 0 ==> Width(template) == w && Width(mid) == w;
    forall row, col | 0 <= row < h && 0 <= col < w && OutsidePastes(row, col)
      ensures c[row][col] == template[row][col]
    {
      assert c[row][col] == At(mid, row, col);
    }
  }
}
