/**
  Images as rows of pixels, and the pixel-level operations the compositor
  and the print layout use: mirror left-right, crop (padding with black
  outside the source, as the imaging library does), rotate by 180 degrees and
  paste. An image is `seq<seq<Pixel>>` indexed [row][column].
*/
module Images {

  type Channel = c: int | 0 <= c < 256

  datatype Pixel = Pixel(r: Channel, g: Channel, b: Channel)

  const Black: Pixel := Pixel(0, 0, 0)

  type Image = seq<seq<Pixel>>

  function Height(img: Image): nat
  {
    |img|
  }

  /** The width of an image is the length of its first row. */
  function Width(img: Image): nat
  {
    if |img| == 0 then 0 else |img[0]|
  }

  /** Every row has `w` pixels and there are `h` rows. */
  predicate IsSize(img: Image, w: nat, h: nat)
  {
    |img| == h && forall i :: 0 <= i < h ==> |img[i]| == w
  }

  /** The pixel at (row, col), or black outside the image. */
  function At(img: Image, row: int, col: int): Pixel
  {
    if 0 <= row < |img| && 0 <= col < |img[row]| then img[row][col] else Black
  }

  /** Builds a `w` x `h` image from a pixel function. */
  function Build(w: nat, h: nat, f: (int, int) -> Pixel): (img: Image)
    ensures IsSize(img, w, h)
    ensures forall i, j :: 0 <= i < h && 0 <= j < w ==> img[i][j] == f(i, j)
  {
    seq(h, i => seq(w, j => f(i, j)))
  }

  /** `numpy.fliplr`: column j becomes column w-1-j. */
  function FlipLR(img: Image): (out: Image)
    ensures IsSize(out, Width(img), Height(img))
    ensures forall i, j :: 0 <= i < Height(img) && 0 <= j < Width(img) ==>
      out[i][j] == At(img, i, Width(img) - 1 - j)
  {
    var w := Width(img);
    Build(w, |img|, (i, j) => At(img, i, w - 1 - j))
  }

  /** Crop to the box (x1, y1, x2, y2); pixels outside the source are black. */
  function Crop(img: Image, x1: int, y1: int, x2: int, y2: int): (out: Image)
    requires x1 <= x2 && y1 <= y2
    ensures IsSize(out, x2 - x1, y2 - y1)
    ensures forall i, j :: 0 <= i < y2 - y1 && 0 <= j < x2 - x1 ==> out[i][j] == At(img, y1 + i, x1 + j)
  {
    Build(x2 - x1, y2 - y1, (i, j) => At(img, y1 + i, x1 + j))
  }

  /** Rotation by 180 degrees about the centre. */
  function Rotate180(img: Image): (out: Image)
    ensures IsSize(out, Width(img), Height(img))
    ensures forall i, j :: 0 <= i < Height(img) && 0 <= j < Width(img) ==>
      out[i][j] == At(img, Height(img) - 1 - i, Width(img) - 1 - j)
  {
    var w := Width(img);
    var h := |img|;
    Build(w, h, (i, j) => At(img, h - 1 - i, w - 1 - j))
  }

  /** Paste `src` onto `dst` with its top-left corner at (x, y), clipped to `dst`. */
  function Paste(dst: Image, src: Image, x: int, y: int): (out: Image)
    ensures IsSize(out, Width(dst), Height(dst))
    ensures forall i, j :: 0 <= i < Height(dst) && 0 <= j < Width(dst) ==>
      out[i][j] == (if y <= i < y + Height(src) && x <= j < x + Width(src)
                    then At(src, i - y, j - x) else At(dst, i, j))
  {
    var sw := Width(src);
    var sh := |src|;
    Build(Width(dst), |dst|, (i, j) =>
      if y <= i < y + sh && x <= j < x + sw then At(src, i - y, j - x) else At(dst, i, j))
  }

  /** Mirroring twice gives back a well-formed image unchanged. */
  lemma FlipLRInvolution(img: Image, w: nat, h: nat)
    requires IsSize(img, w, h)
    ensures FlipLR(FlipLR(img)) == img
  {
    var once := FlipLR(img);
    var twice := FlipLR(once);
    if h > 0 {
      assert Width(once) == w;
      forall i | 0 <= i < h ensures twice[i] == img[i] {
        forall j | 0 <= j < w ensures twice[i][j] == img[i][j] {
          assert twice[i][j] == At(once, i, w - 1 - j);
        }
      }
    }
  }

  /** Rotating twice by 180 degrees gives back a well-formed image unchanged. */
  lemma Rotate180Involution(img: Image, w: nat, h: nat)
    requires IsSize(img, w, h)
    ensures Rotate180(Rotate180(img)) == img
  {
    var once := Rotate180(img);
    var twice := Rotate180(once);
    if h > 0 {
      assert Width(once) == w;
      forall i | 0 <= i < h ensures twice[i] == img[i] {
        forall j | 0 <= j < w ensures twice[i][j] == img[i][j] {
          assert twice[i][j] == At(once, h - 1 - i, w - 1 - j);
        }
      }
    }
  }
}
