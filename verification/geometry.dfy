/**
  Integer geometry of the kiosk: points, (x, y, w, h) rectangles, the fixed
  screen and camera sizes, the translation between screen space and image
  space, and the centred crop window of the live view.
*/
module Geometry {

  datatype Point = Point(x: int, y: int)

  /** A rectangle as the program stores it: top-left corner, width, height. */
  datatype Rect = Rect(x: int, y: int, w: int, h: int)

  // Display surface (thatcherizer.py:30, 33).
  const ScreenWidth: int := 800
  const ScreenHeight: int := 480
  const ScreenCenterX: int := ScreenWidth / 2
  const ScreenCenterY: int := ScreenHeight / 2

  // Viewer window centred on the screen (thatcherizer.py:34).
  const ViewerWidth: int := 400
  const ViewerHeight: int := 400

  // Camera resolution and its centre (thatcherizer.py:44-45).
  const CamWidth: int := 640
  const CamHeight: int := 480
  const ImageCenterX: int := CamWidth / 2
  const ImageCenterY: int := CamHeight / 2

  /** True when pixel (col, row) lies in `r` (half-open on the far edges). */
  predicate Covers(r: Rect, col: int, row: int)
  {
    r.x <= col < r.x + r.w && r.y <= row < r.y + r.h
  }

  /** Screen coordinates to image coordinates: a pure translation. */
  function ScreenToImage(r: Rect): (c: Rect)
    ensures c.x == r.x - 80 && c.y == r.y
    ensures c.w == r.w && c.h == r.h
  {
    Rect(ImageCenterX - (ScreenCenterX - r.x), ImageCenterY - (ScreenCenterY - r.y), r.w, r.h)
  }

  /** Image coordinates to screen coordinates. */
  function ImageToScreen(r: Rect): (c: Rect)
    ensures c.x == r.x + 80 && c.y == r.y
    ensures c.w == r.w && c.h == r.h
  {
    Rect(r.x + (ScreenCenterX - ImageCenterX), r.y + (ScreenCenterY - ImageCenterY), r.w, r.h)
  }

  /** The two conversions are inverse to each other, in both orders. */
  lemma ConversionRoundTrip(r: Rect)
    ensures ScreenToImage(ImageToScreen(r)) == r
    ensures ImageToScreen(ScreenToImage(r)) == r
  {
  }

  /** A screen pixel is covered by `r` exactly when its image pixel is covered by the converted rect. */
  lemma CoversAfterConversion(r: Rect, col: int, row: int)
    ensures Covers(r, col, row) <==> Covers(ScreenToImage(r), col - 80, row)
  {
  }

  /**
    The window of `winW` x `winH` centred on an image of `imgW` x `imgH`,
    with the image's centre taken as pygame does (floor of half the size).
  */
  function CropWindow(imgW: nat, imgH: nat, winW: nat, winH: nat): (r: Rect)
    ensures r.w == winW && r.h == winH
    ensures r.x + winW / 2 == imgW / 2 && r.y + winH / 2 == imgH / 2
  {
    Rect(imgW / 2 - winW / 2, imgH / 2 - winH / 2, winW, winH)
  }

  /** The window fits inside the image exactly when it is no larger on either axis. */
  lemma CropWindowInsideIff(imgW: nat, imgH: nat, winW: nat, winH: nat)
    ensures var r := CropWindow(imgW, imgH, winW, winH);
      (0 <= r.x && r.x + r.w <= imgW && 0 <= r.y && r.y + r.h <= imgH)
      <==> (winW <= imgW && winH <= imgH)
  {
    var r := CropWindow(imgW, imgH, winW, winH);
    AxisInsideIff(imgW, winW);
    AxisInsideIff(imgH, winH);
  }

  lemma AxisInsideIff(n: nat, m: nat)
    ensures (0 <= n / 2 - m / 2 && n / 2 - m / 2 + m <= n) <==> m <= n
  {
    if m <= n {
      assert m / 2 <= n / 2;
      assert m - m / 2 <= n - n / 2;
    } else {
      assert n / 2 - m / 2 + m > n || n / 2 - m / 2 < 0;
    }
  }

  /** The live view on the 640 x 480 camera is the window (120, 40, 400, 400). */
  lemma LiveViewWindow()
    ensures CropWindow(CamWidth, CamHeight, ViewerWidth, ViewerHeight) == Rect(120, 40, 400, 400)
  {
  }
}
