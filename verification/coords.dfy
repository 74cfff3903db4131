/** Where a part is read from and written to: the photo corner shifted by the
    caller's offset (or nothing, for a part absent from the photo) and the
    atlas corner. */
module Coords {
  import opened Geometry
  import opened Layout

  datatype Option<T> = None | Some(value: T)

  /** The part's corner in the photo after applying the offset, or None when
      the table marks the part as absent from the photo. */
  function GetPhotoCoords(p: Part, offsetX: int, offsetY: int): (r: Option<Point>)
    ensures r.None? <==> p.photo.x == NotInPhoto
    ensures r.Some? ==> r.value == Point(p.photo.x + offsetX, p.photo.y + offsetY)
  {
    if p.photo.x == NotInPhoto then None
    else Some(Point(p.photo.x + offsetX, p.photo.y + offsetY))
  }

  /** The part's top-left corner in the skin; every part has one. */
  function GetSkinCoords(p: Part): (r: Point)
    ensures p.atlas.Contains(r.x, r.y) <==> p.atlas.NonEmpty()
    ensures r == p.atlas.TopLeft()
  {
    Point(p.atlas.x0, p.atlas.y0)
  }

  /** Over the whole table exactly the sixteen rows listed in PhotoRows
      resolve to a photo corner, whatever the offset. */
  lemma ResolvedRows(offsetX: int, offsetY: int)
    ensures forall i :: 0 <= i < |Parts()| ==>
              (GetPhotoCoords(Parts()[i], offsetX, offsetY).Some? <==> i in PhotoRows)
  {
    SixteenPhotoBacked();
    assert forall i :: 0 <= i < |Parts()| ==> (PhotoBacked(Parts()[i]) <==> i in PhotoBackedIndices(Parts()));
  }

  /** Resolving with one offset and then shifting by another is resolving
      with their sum. */
  lemma ShiftAfterResolve(p: Part, firstX: int, firstY: int, thenX: int, thenY: int)
    requires PhotoBacked(p)
    ensures GetPhotoCoords(p, firstX + thenX, firstY + thenY).Some?
    ensures GetPhotoCoords(p, firstX + thenX, firstY + thenY).value ==
              Point(GetPhotoCoords(p, firstX, firstY).value.x + thenX, GetPhotoCoords(p, firstX, firstY).value.y + thenY)
  {
  }
}
