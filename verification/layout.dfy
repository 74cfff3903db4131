/** The static layout table: every body part of a 64 x 64 skin, with its
    rectangle in the skin atlas and, when the part has a block in the photo,
    the top-left corner of that block. */
module Layout {
  import opened Geometry

  const SkinWidth: int := 64
  const SkinHeight: int := 64

  /** The photo x coordinate that marks a part absent from the photo. */
  const NotInPhoto: int := -1

  /** One row of the table: skin top-left/bottom-right corners, then the photo
      top-left corner, or (-1, -1) when the part must be painted instead. */
  datatype Part = Part(name: string, atlas: Rect, photo: Point)

  /** The part has a block in the photo; only the x coordinate is consulted. */
  predicate PhotoBacked(p: Part) {
    p.photo.x != NotInPhoto
  }

  /** The part's block in the unshifted photo: the atlas extent placed at the
      stored photo corner. */
  function PhotoRect(p: Part): Rect {
    Rect(p.photo.x, p.photo.y, p.photo.x + p.atlas.x1 - p.atlas.x0, p.photo.y + p.atlas.y1 - p.atlas.y0)
  }

  /** The positions of the parts that have a block in the photo. */
  function PhotoBackedIndices(table: seq<Part>): set<int> {
    set i | 0 <= i < |table| && PhotoBacked(table[i])
  }

  /** Row i of the table, in the order of photo2skin.py's `parts` dict (a
      Python dict keeps insertion order); the last row also answers out-of-range positions. */
  function Row(i: int): Part {
    match i
      case 0 => Part("headTop", Rect(8, 0, 16, 8), Point(24, 0))
      case 1 => Part("headBottom", Rect(16, 0, 24, 8), Point(-1, -1))
      case 2 => Part("headRight", Rect(0, 8, 8, 16), Point(16, 8))
      case 3 => Part("headFront", Rect(8, 8, 16, 16), Point(24, 8))
      case 4 => Part("headLeft", Rect(16, 8, 24, 16), Point(32, 8))
      case 5 => Part("headBack", Rect(24, 8, 32, 16), Point(8, 8))
      case 6 => Part("rightLegTop", Rect(4, 16, 8, 20), Point(-1, -1))
      case 7 => Part("rightLegBottom", Rect(8, 16, 12, 20), Point(-1, -1))
      case 8 => Part("rightLegRight", Rect(0, 20, 4, 32), Point(20, 28))
      case 9 => Part("rightLegFront", Rect(4, 20, 8, 32), Point(24, 28))
      case 10 => Part("rightLegLeft", Rect(8, 20, 12, 32), Point(-1, -1))
      case 11 => Part("rightLegBack", Rect(12, 20, 16, 32), Point(-1, -1))
      case 12 => Part("torsoTop", Rect(20, 16, 28, 20), Point(-1, -1))
      case 13 => Part("torsoBottom", Rect(28, 16, 36, 20), Point(-1, -1))
      case 14 => Part("torsoRight", Rect(16, 20, 20, 32), Point(-1, -1))
      case 15 => Part("torsoFront", Rect(20, 20, 28, 32), Point(24, 16))
      case 16 => Part("torsoLeft", Rect(28, 20, 32, 32), Point(-1, -1))
      case 17 => Part("torsoBack", Rect(32, 20, 40, 32), Point(-1, -1))
      case 18 => Part("rightArmTop", Rect(44, 16, 48, 20), Point(-1, -1))
      case 19 => Part("rightArmBottom", Rect(48, 16, 52, 20), Point(-1, -1))
      case 20 => Part("rightArmRight", Rect(40, 20, 44, 32), Point(16, 16))
      case 21 => Part("rightArmFront", Rect(44, 20, 48, 32), Point(20, 16))
      case 22 => Part("rightArmLeft", Rect(48, 20, 52, 32), Point(-1, -1))
      case 23 => Part("rightArmBack", Rect(52, 20, 56, 32), Point(12, 16))
      case 24 => Part("leftLegTop", Rect(20, 48, 24, 52), Point(-1, -1))
      case 25 => Part("leftLegBottom", Rect(24, 48, 28, 52), Point(-1, -1))
      case 26 => Part("leftLegRight", Rect(16, 52, 20, 64), Point(-1, -1))
      case 27 => Part("leftLegFront", Rect(20, 52, 24, 64), Point(28, 28))
      case 28 => Part("leftLegLeft", Rect(24, 52, 28, 64), Point(32, 28))
      case 29 => Part("leftLegBack", Rect(28, 52, 32, 64), Point(-1, -1))
      case 30 => Part("leftArmTop", Rect(36, 48, 40, 52), Point(-1, -1))
      case 31 => Part("leftArmBottom", Rect(40, 48, 44, 52), Point(-1, -1))
      case 32 => Part("leftArmRight", Rect(32, 52, 36, 64), Point(-1, -1))
      case 33 => Part("leftArmFront", Rect(36, 52, 40, 64), Point(32, 16))
      case 34 => Part("leftArmLeft", Rect(40, 52, 44, 64), Point(36, 16))
      case _ => Part("leftArmBack", Rect(44, 52, 48, 64), Point(40, 16))
  }

  /** The whole table: one row per entry of the `parts` dict, in its order. */
  function Parts(): (t: seq<Part>)
    ensures |t| == 36
  {
    seq(36, Row)
  }

  /** Rows i and j of the table carry different part names. */
  predicate NamesApart(t: seq<Part>, i: int, j: int) {
    0 <= i < |t| && 0 <= j < |t| && t[i].name != t[j].name
  }

  /** No part name appears twice: the table's rows are the dict's keys, so a
      sequence in table order stands for the dict without losing entries. */
  lemma NamesDistinct()
    ensures forall i, j :: 0 <= i < j < |Parts()| ==> NamesApart(Parts(), i, j)
  {
    forall i, j | 0 <= i < j < |Parts()|
      ensures NamesApart(Parts(), i, j)
    {
      assert IsRow(i) && IsRow(j);
    }
  }

  /** The row numbers of the table, written out so that a proof about every
      row can go through them one by one. */
  predicate IsRow(i: int) {
    i == 0 || i == 1 || i == 2 || i == 3 || i == 4 || i == 5 || i == 6 || i == 7 || i == 8 ||
    i == 9 || i == 10 || i == 11 || i == 12 || i == 13 || i == 14 || i == 15 || i == 16 || i == 17 ||
    i == 18 || i == 19 || i == 20 || i == 21 || i == 22 || i == 23 || i == 24 || i == 25 || i == 26 ||
    i == 27 || i == 28 || i == 29 || i == 30 || i == 31 || i == 32 || i == 33 || i == 34 || i == 35
  }

  /** Every atlas rectangle is a non-empty block inside the 64 x 64 skin. */
  lemma AtlasRectsInsideSkin()
    ensures |Parts()| == 36
    ensures forall i :: 0 <= i < |Parts()| ==>
              Parts()[i].atlas.Width() > 0 && Parts()[i].atlas.Height() > 0 &&
              Parts()[i].atlas.Inside(SkinWidth, SkinHeight)
  {
    forall i | 0 <= i < |Parts()|
      ensures Parts()[i].atlas.Width() > 0 && Parts()[i].atlas.Height() > 0
      ensures Parts()[i].atlas.Inside(SkinWidth, SkinHeight)
    {
      assert IsRow(i);
    }
  }

  /** No two parts share a pixel of the skin. */
  lemma AtlasRectsDisjoint()
    ensures forall i, j :: 0 <= i < j < |Parts()| ==> Disjoint(Parts()[i].atlas, Parts()[j].atlas)
  {
    forall i, j | 0 <= i < j < |Parts()|
      ensures Disjoint(Parts()[i].atlas, Parts()[j].atlas)
    {
      assert IsRow(i);
      assert IsRow(j);
    }
  }

  /** The atlas rectangles do not cover the whole skin: the corner pixel
      (0, 0) lies in none of them. */
  lemma CornerInNoPart()
    ensures forall i :: 0 <= i < |Parts()| ==> !Parts()[i].atlas.Contains(0, 0)
  {
    forall i | 0 <= i < |Parts()|
      ensures !Parts()[i].atlas.Contains(0, 0)
    {
      assert IsRow(i);
    }
  }

  /** The sentinel is always the full pair (-1, -1), and a stored photo corner
      is never negative. */
  lemma SentinelIsPair()
    ensures forall i :: 0 <= i < |Parts()| ==>
              if PhotoBacked(Parts()[i]) then Parts()[i].photo.x >= 0 && Parts()[i].photo.y >= 0
              else Parts()[i].photo == Point(NotInPhoto, NotInPhoto)
  {
    forall i | 0 <= i < |Parts()|
      ensures if PhotoBacked(Parts()[i]) then Parts()[i].photo.x >= 0 && Parts()[i].photo.y >= 0
              else Parts()[i].photo == Point(NotInPhoto, NotInPhoto)
    {
      assert IsRow(i);
    }
  }

  /** The rows that have a block in the photo: five head faces, the torso
      front, and some faces of the limbs. */
  const PhotoRowList: seq<int> := [0, 2, 3, 4, 5, 8, 9, 15, 20, 21, 23, 27, 28, 33, 34, 35]

  const PhotoRows: set<int> := set i | i in PhotoRowList

  /** Exactly sixteen parts have a block in the photo. */
  lemma SixteenPhotoBacked()
    ensures PhotoBackedIndices(Parts()) == PhotoRows
    ensures |PhotoBackedIndices(Parts())| == 16
  {
    ListedRowsArePhotoBacked();
    PhotoBackedRowsAreListed();
    assert PhotoBackedIndices(Parts()) == PhotoRows;
    PhotoRowsCount();
  }

  lemma ListedRowsArePhotoBacked()
    ensures forall i :: i in PhotoRows ==> 0 <= i < |Parts()| && PhotoBacked(Parts()[i])
  {
    forall k | 0 <= k < |PhotoRowList|
      ensures 0 <= PhotoRowList[k] < |Parts()| && PhotoBacked(Parts()[PhotoRowList[k]])
    {
      assert IsRow(k);
    }
  }

  lemma PhotoBackedRowsAreListed()
    ensures forall i :: 0 <= i < |Parts()| && PhotoBacked(Parts()[i]) ==> i in PhotoRows
  {
    forall i | 0 <= i < |Parts()| && PhotoBacked(Parts()[i])
      ensures i in PhotoRows
    {
      assert IsRow(i);
    }
  }

  /** Cardinality of the row set, kept apart from the table reasoning. */
  lemma PhotoRowsCount()
    ensures |PhotoRows| == 16
  {
    AscendingElementsCount(PhotoRowList);
  }

  predicate Ascending(s: seq<int>) {
    forall j :: 0 < j < |s| ==> s[j - 1] < s[j]
  }

  lemma {:induction false} AscendingBelowLast(s: seq<int>, i: int)
    requires Ascending(s) && 0 <= i < |s| - 1
    ensures s[i] < s[|s| - 1]
    decreases |s| - i
  {
    if i < |s| - 2 {
      AscendingBelowLast(s, i + 1);
    }
  }

  /** A strictly ascending sequence has as many distinct elements as entries. */
  lemma {:induction false} AscendingElementsCount(s: seq<int>)
    requires Ascending(s)
    ensures |set x | x in s| == |s|
    decreases |s|
  {
    if |s| > 0 {
      var n := |s| - 1;
      var prefix := s[..n];
      assert Ascending(prefix) by {
        forall j | 0 < j < |prefix|
          ensures prefix[j - 1] < prefix[j]
        {
          assert prefix[j - 1] == s[j - 1] && prefix[j] == s[j];
        }
      }
      AscendingElementsCount(prefix);
      forall i | 0 <= i < n
        ensures s[i] != s[n]
      {
        AscendingBelowLast(s, i);
      }
      assert (set x | x in s) == (set x | x in prefix) + {s[n]};
    }
  }

  /** The photo blocks of different parts do not overlap either, so the
      preview can be composed in any order. */
  lemma PhotoRectsDisjoint()
    ensures forall i, j :: 0 <= i < j < |Parts()| && PhotoBacked(Parts()[i]) && PhotoBacked(Parts()[j]) ==>
              Disjoint(PhotoRect(Parts()[i]), PhotoRect(Parts()[j]))
  {
    forall i, j | 0 <= i < j < |Parts()| && PhotoBacked(Parts()[i]) && PhotoBacked(Parts()[j])
      ensures Disjoint(PhotoRect(Parts()[i]), PhotoRect(Parts()[j]))
    {
      assert IsRow(i);
      assert IsRow(j);
    }
  }

  /** Every atlas rectangle of the table lies inside a w x h image. */
  predicate AtlasWithin(table: seq<Part>, w: int, h: int) {
    forall i :: 0 <= i < |table| ==> table[i].atlas.Inside(w, h)
  }

  /** Parts i and j of the table have disjoint atlas rectangles. */
  predicate AtlasApart(table: seq<Part>, i: int, j: int) {
    0 <= i < |table| && 0 <= j < |table| && Disjoint(table[i].atlas, table[j].atlas)
  }

  /** Parts i and j of the table, when both are photo-backed, have disjoint
      photo blocks. */
  predicate PhotoApart(table: seq<Part>, i: int, j: int) {
    && 0 <= i < |table| && 0 <= j < |table|
    && (PhotoBacked(table[i]) && PhotoBacked(table[j]) ==> Disjoint(PhotoRect(table[i]), PhotoRect(table[j])))
  }

  /** The facts about a part table that the skin and preview builders rely on:
      the atlas rectangles fit the skin and no two parts share a pixel, in the
      skin or in the photo. */
  predicate ValidLayout(table: seq<Part>) {
    && AtlasWithin(table, SkinWidth, SkinHeight)
    && (forall i, j :: 0 <= i < j < |table| ==> AtlasApart(table, i, j))
    && (forall i, j :: 0 <= i < j < |table| ==> PhotoApart(table, i, j))
  }

  lemma PartsAreValidLayout()
    ensures ValidLayout(Parts())
  {
    AtlasRectsInsideSkin();
    AtlasRectsDisjoint();
    PhotoRectsDisjoint();
    forall i, j | 0 <= i < j < |Parts()|
      ensures AtlasApart(Parts(), i, j) && PhotoApart(Parts(), i, j)
    {
    }
  }
}
