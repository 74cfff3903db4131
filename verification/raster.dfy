/** Images as rows of RGBA pixels, and the three image-library primitives the
    engine relies on: a blank canvas, a rectangular crop and a paste. */
module Raster {
  import opened Geometry

  newtype Channel = c: int | 0 <= c < 256

  datatype Pixel = Rgba(r: Channel, g: Channel, b: Channel, a: Channel)

  /** The background of a canvas created with no colour: every channel zero. */
  const Transparent: Pixel := Rgba(0, 0, 0, 0)

  const White: Pixel := Rgba(255, 255, 255, 255)

  /** `g[y][x]` is the pixel in row y, column x. */
  type Grid = seq<seq<Pixel>>

  /** The number of columns, read off the first row. */
  function Cols(g: Grid): nat {
    if |g| == 0 then 0 else |g[0]|
  }

  predicate IsGrid(g: Grid, w: int, h: int) {
    |g| == h && forall y :: 0 <= y < |g| ==> |g[y]| == w
  }

  /** Every row has the same length. */
  predicate Rectangular(g: Grid) {
    IsGrid(g, Cols(g), |g|)
  }

  /** The box lies within the image, so cropping it reads only real pixels. */
  predicate InGrid(g: Grid, b: Rect) {
    Rectangular(g) && b.Inside(Cols(g), |g|)
  }

  /** A new w x h canvas filled with the background colour. */
  function NewCanvas(w: nat, h: nat, background: Pixel): (g: Grid)
    ensures IsGrid(g, w, h) && Rectangular(g)
    ensures forall y, x :: 0 <= y < h && 0 <= x < w ==> g[y][x] == background
  {
    seq(h, _ => seq(w, _ => background))
  }

  /** The sub-image under the box, re-anchored at (0, 0). */
  function Crop(g: Grid, b: Rect): (c: Grid)
    requires InGrid(g, b)
    ensures IsGrid(c, b.Width(), b.Height())
    ensures forall y, x :: 0 <= y < b.Height() && 0 <= x < b.Width() ==> c[y][x] == g[b.y0 + y][b.x0 + x]
  {
    seq(b.Height(), i requires 0 <= i < b.Height() =>
      seq(b.Width(), j requires 0 <= j < b.Width() => g[b.y0 + i][b.x0 + j]))
  }

  /** Overwrites the canvas pixels under the box with the clip, which must have
      the box's size; box pixels outside the canvas are dropped. */
  function Paste(canvas: Grid, clip: Grid, b: Rect): (r: Grid)
    requires Rectangular(canvas)
    requires IsGrid(clip, b.Width(), b.Height())
    ensures IsGrid(r, Cols(canvas), |canvas|) && Cols(r) == Cols(canvas)
    ensures forall y, x :: 0 <= y < |canvas| && 0 <= x < Cols(canvas) && b.Contains(x, y) ==>
              r[y][x] == clip[y - b.y0][x - b.x0]
    ensures forall y, x :: 0 <= y < |canvas| && 0 <= x < Cols(canvas) && !b.Contains(x, y) ==>
              r[y][x] == canvas[y][x]
  {
    seq(|canvas|, y requires 0 <= y < |canvas| =>
      seq(Cols(canvas), x requires 0 <= x < Cols(canvas) =>
        if b.Contains(x, y) then clip[y - b.y0][x - b.x0] else canvas[y][x]))
  }

  /** Cropping the box just pasted gives back the clip. */
  lemma CropAfterPaste(canvas: Grid, clip: Grid, b: Rect)
    requires InGrid(canvas, b)
    requires IsGrid(clip, b.Width(), b.Height())
    ensures Crop(Paste(canvas, clip, b), b) == clip
  {
    var r := Paste(canvas, clip, b);
    var c := Crop(r, b);
    forall y | 0 <= y < b.Height()
      ensures c[y] == clip[y]
    {
      assert forall x :: 0 <= x < b.Width() ==> c[y][x] == clip[y][x];
    }
  }

  /** Pasting a crop back where it came from changes nothing. */
  lemma PasteOwnCrop(g: Grid, b: Rect)
    requires InGrid(g, b)
    ensures Paste(g, Crop(g, b), b) == g
  {
    var r := Paste(g, Crop(g, b), b);
    forall y | 0 <= y < |g|
      ensures r[y] == g[y]
    {
      assert forall x :: 0 <= x < Cols(g) ==> r[y][x] == g[y][x];
    }
  }
}
