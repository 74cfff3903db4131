/** Integer points and half-open rectangles: the coordinate vocabulary shared
    by the part table, the mapping builders and the compositor. */
module Geometry {

  /** An (x, y) pair in some pixel space (photo, atlas or canvas). */
  datatype Point = Point(x: int, y: int)

  /** The pixels x0 <= x < x1, y0 <= y < y1, given as the (left, upper,
      right, lower) box the image library's crop and paste take. */
  datatype Rect = Rect(x0: int, y0: int, x1: int, y1: int)
  {
    function Width(): int { x1 - x0 }

    function Height(): int { y1 - y0 }

    function TopLeft(): Point { Point(x0, y0) }

    predicate Contains(x: int, y: int) {
      x0 <= x < x1 && y0 <= y < y1
    }

    predicate NonEmpty() {
      x0 < x1 && y0 < y1
    }

    /** The rectangle lies inside a w x h grid anchored at the origin. */
    predicate Inside(w: int, h: int) {
      0 <= x0 <= x1 <= w && 0 <= y0 <= y1 <= h
    }

    function Translate(dx: int, dy: int): (r: Rect)
      ensures r.Width() == Width() && r.Height() == Height()
      ensures forall x, y :: r.Contains(x, y) <==> Contains(x - dx, y - dy)
    {
      Rect(x0 + dx, y0 + dy, x1 + dx, y1 + dy)
    }
  }

  /** The rectangle of the given size whose top-left corner is `at`. */
  function RectAt(at: Point, width: int, height: int): (r: Rect)
    ensures r.TopLeft() == at && r.Width() == width && r.Height() == height
  {
    Rect(at.x, at.y, at.x + width, at.y + height)
  }

  /** Separated along one axis, so that no pixel lies in both. */
  predicate Disjoint(a: Rect, b: Rect) {
    a.x1 <= b.x0 || b.x1 <= a.x0 || a.y1 <= b.y0 || b.y1 <= a.y0
  }

  /** For non-empty rectangles, axis separation is exactly "no shared pixel". */
  lemma DisjointIffNoSharedPixel(a: Rect, b: Rect)
    requires a.NonEmpty() && b.NonEmpty()
    ensures Disjoint(a, b) <==> forall x, y :: !(a.Contains(x, y) && b.Contains(x, y))
  {
    if !Disjoint(a, b) {
      var x := if a.x0 < b.x0 then b.x0 else a.x0;
      var y := if a.y0 < b.y0 then b.y0 else a.y0;
      assert a.Contains(x, y) && b.Contains(x, y);
    }
  }

  /** Shifting both rectangles by the same amount keeps them apart. */
  lemma TranslateKeepsDisjoint(a: Rect, b: Rect, dx: int, dy: int)
    requires Disjoint(a, b)
    ensures Disjoint(a.Translate(dx, dy), b.Translate(dx, dy))
  {
  }
}
