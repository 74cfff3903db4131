/** The generic crop-and-paste engine: a batch of copy instructions applied,
    in order, onto a fresh canvas. */
module Compositor {
  import opened Geometry
  import opened Raster

  /** One mapping entry, keyed by part name: take the width x height block of
      `src` whose top-left corner is `from` and put it with its top-left
      corner at `to`. */
  datatype Instruction = Instruction(name: string, src: Grid, width: int, height: int, from: Point, to: Point)
  {
    function SourceBox(): Rect { RectAt(from, width, height) }

    function DestBox(): Rect { RectAt(to, width, height) }

    /** The crop reads only pixels of the source image. */
    predicate Fits() { InGrid(src, SourceBox()) }
  }

  predicate AllFit(m: seq<Instruction>) {
    forall k :: 0 <= k < |m| ==> m[k].Fits()
  }

  /** Instructions j and k of the mapping write disjoint canvas boxes. */
  predicate DestsApart(m: seq<Instruction>, j: int, k: int) {
    0 <= j < |m| && 0 <= k < |m| && Disjoint(m[j].DestBox(), m[k].DestBox())
  }

  /** No two instructions write the same canvas pixel. */
  predicate DestsDisjoint(m: seq<Instruction>) {
    forall j, k :: 0 <= j < k < |m| ==> DestsApart(m, j, k)
  }

  /** The source pixel an instruction carries to canvas pixel (x, y). */
  function SourcePixel(c: Instruction, x: int, y: int): Pixel
    requires c.Fits() && c.DestBox().Contains(x, y)
  {
    c.src[c.from.y + (y - c.to.y)][c.from.x + (x - c.to.x)]
  }

  /** Crop the instruction's source box and paste it over its destination box. */
  function Apply(canvas: Grid, c: Instruction): (r: Grid)
    requires Rectangular(canvas) && c.Fits()
    ensures IsGrid(r, Cols(canvas), |canvas|) && Cols(r) == Cols(canvas)
    ensures forall y, x :: 0 <= y < |canvas| && 0 <= x < Cols(canvas) ==>
              r[y][x] == if c.DestBox().Contains(x, y) then SourcePixel(c, x, y) else canvas[y][x]
  {
    Paste(canvas, Crop(c.src, c.SourceBox()), c.DestBox())
  }

  /** A w x h canvas filled with the background, with every instruction of the
      mapping applied in order (a later instruction overwrites an earlier one). */
  function TransformImage(w: nat, h: nat, background: Pixel, m: seq<Instruction>): (img: Grid)
    requires AllFit(m)
    ensures IsGrid(img, w, h) && Rectangular(img)
    decreases |m|
  {
    if |m| == 0 then NewCanvas(w, h, background)
    else Apply(TransformImage(w, h, background, m[..|m| - 1]), m[|m| - 1])
  }

  /** A pixel that the k-th instruction covers and no later one does shows the
      k-th instruction's source pixel. */
  lemma {:induction false} LastCoverWins(w: nat, h: nat, background: Pixel, m: seq<Instruction>, k: int, x: int, y: int)
    requires AllFit(m) && 0 <= k < |m|
    requires 0 <= x < w && 0 <= y < h
    requires m[k].DestBox().Contains(x, y)
    requires forall j :: k < j < |m| ==> !m[j].DestBox().Contains(x, y)
    ensures TransformImage(w, h, background, m)[y][x] == SourcePixel(m[k], x, y)
    decreases |m|
  {
    var n := |m| - 1;
    var prev := TransformImage(w, h, background, m[..n]);
    assert Cols(prev) == w by {
      assert |prev[0]| == w;
    }
    if k < n {
      LastCoverWins(w, h, background, m[..n], k, x, y);
    }
  }

  /** A pixel that no instruction covers keeps the background. */
  lemma {:induction false} UncoveredKeepsBackground(w: nat, h: nat, background: Pixel, m: seq<Instruction>, x: int, y: int)
    requires AllFit(m)
    requires 0 <= x < w && 0 <= y < h
    requires forall j :: 0 <= j < |m| ==> !m[j].DestBox().Contains(x, y)
    ensures TransformImage(w, h, background, m)[y][x] == background
    decreases |m|
  {
    if |m| > 0 {
      var n := |m| - 1;
      var prev := TransformImage(w, h, background, m[..n]);
      assert Cols(prev) == w by {
        assert |prev[0]| == w;
      }
      UncoveredKeepsBackground(w, h, background, m[..n], x, y);
    }
  }

  /** With disjoint destinations, every covered pixel shows the source pixel
      of the one instruction covering it. */
  lemma CoveredPixel(w: nat, h: nat, background: Pixel, m: seq<Instruction>, k: int, x: int, y: int)
    requires AllFit(m) && DestsDisjoint(m) && 0 <= k < |m|
    requires 0 <= x < w && 0 <= y < h
    requires m[k].DestBox().Contains(x, y)
    ensures TransformImage(w, h, background, m)[y][x] == SourcePixel(m[k], x, y)
  {
    forall j | k < j < |m|
      ensures !m[j].DestBox().Contains(x, y)
    {
      assert DestsApart(m, k, j);
    }
    LastCoverWins(w, h, background, m, k, x, y);
  }

  /** With disjoint destinations the order of the mapping does not matter:
      any two mappings holding the same instructions give the same image. */
  lemma OrderIndependent(w: nat, h: nat, background: Pixel, m1: seq<Instruction>, m2: seq<Instruction>)
    requires AllFit(m1) && DestsDisjoint(m1)
    requires AllFit(m2) && DestsDisjoint(m2)
    requires forall c :: c in m1 <==> c in m2
    ensures TransformImage(w, h, background, m1) == TransformImage(w, h, background, m2)
  {
    var a := TransformImage(w, h, background, m1);
    var b := TransformImage(w, h, background, m2);
    forall y | 0 <= y < h
      ensures a[y] == b[y]
    {
      forall x | 0 <= x < w
        ensures a[y][x] == b[y][x]
      {
        if k1 :| 0 <= k1 < |m1| && m1[k1].DestBox().Contains(x, y) {
          assert m1[k1] in m2;
          var k2 :| 0 <= k2 < |m2| && m2[k2] == m1[k1];
          CoveredPixel(w, h, background, m1, k1, x, y);
          CoveredPixel(w, h, background, m2, k2, x, y);
        } else {
          UncoveredKeepsBackground(w, h, background, m1, x, y);
          forall j | 0 <= j < |m2|
            ensures !m2[j].DestBox().Contains(x, y)
          {
            assert m2[j] in m1;
          }
          UncoveredKeepsBackground(w, h, background, m2, x, y);
        }
      }
    }
  }
}
