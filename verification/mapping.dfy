/** The two mapping builders: photo to skin (every part, painting the parts
    the photo lacks) and skin back to photo (only the parts the photo has). */
module Mapping {
  import opened Geometry
  import opened Raster
  import opened Compositor
  import opened Layout
  import opened Coords
  import opened Fallback

  /** The forward entry for one part, as the loop body of the skin builder
      computes it: the photo corner is resolved with the offset and then
      shifted by the offset once more; a part absent from the photo is
      painted from the reference image its name selects, read from (0, 0). */
  function ForwardInstruction(p: Part, photo: Grid, palette: Palette, offsetX: int, offsetY: int): (c: Instruction)
    ensures c.name == p.name
    ensures c.to == p.atlas.TopLeft() && c.DestBox() == p.atlas
    ensures c.width == p.atlas.Width() && c.height == p.atlas.Height()
    ensures PhotoBacked(p) ==>
              c.src == photo && c.from == Point(p.photo.x + 2 * offsetX, p.photo.y + 2 * offsetY)
    ensures !PhotoBacked(p) ==>
              c.src == palette.Image(FallbackColour(p.name)) && c.from == Point(0, 0)
  {
    var width := p.atlas.x1 - p.atlas.x0;
    var height := p.atlas.y1 - p.atlas.y0;
    match GetPhotoCoords(p, offsetX, offsetY)
    case None =>
      Instruction(p.name, palette.Image(FallbackColour(p.name)), width, height, Point(0, 0), GetSkinCoords(p))
    case Some(fromCoords) =>
      Instruction(p.name, photo, width, height, Point(fromCoords.x + offsetX, fromCoords.y + offsetY), GetSkinCoords(p))
  }

  /** The forward entry with the offset applied once, inside the resolver only. */
  function ForwardInstructionOnce(p: Part, photo: Grid, palette: Palette, offsetX: int, offsetY: int): (c: Instruction)
    ensures c.name == p.name
    ensures c.to == p.atlas.TopLeft() && c.DestBox() == p.atlas
    ensures c.width == p.atlas.Width() && c.height == p.atlas.Height()
    ensures PhotoBacked(p) ==>
              c.src == photo && c.from == Point(p.photo.x + offsetX, p.photo.y + offsetY)
    ensures PhotoBacked(p) ==> c.SourceBox() == PhotoRect(p).Translate(offsetX, offsetY)
    ensures !PhotoBacked(p) ==>
              c.src == palette.Image(FallbackColour(p.name)) && c.from == Point(0, 0)
  {
    var width := p.atlas.x1 - p.atlas.x0;
    var height := p.atlas.y1 - p.atlas.y0;
    match GetPhotoCoords(p, offsetX, offsetY)
    case None =>
      Instruction(p.name, palette.Image(FallbackColour(p.name)), width, height, Point(0, 0), GetSkinCoords(p))
    case Some(fromCoords) =>
      Instruction(p.name, photo, width, height, fromCoords, GetSkinCoords(p))
  }

  /** One entry per part, in table order: the `for part in parts` loop. */
  function MapParts(table: seq<Part>, entry: Part -> Instruction): (m: seq<Instruction>)
    ensures |m| == |table|
    ensures forall i :: 0 <= i < |table| ==> m[i] == entry(table[i])
    decreases |table|
  {
    if |table| == 0 then []
    else MapParts(table[..|table| - 1], entry) + [entry(table[|table| - 1])]
  }

  /** The photo-to-skin mapping as build_skin fills it, offset added twice. */
  function BuildForward(table: seq<Part>, photo: Grid, palette: Palette, offsetX: int, offsetY: int): (m: seq<Instruction>)
    ensures |m| == |table|
    ensures forall i :: 0 <= i < |table| ==> m[i] == ForwardInstruction(table[i], photo, palette, offsetX, offsetY)
    ensures forall i :: 0 <= i < |table| ==> m[i].name == table[i].name && m[i].DestBox() == table[i].atlas
  {
    MapParts(table, p => ForwardInstruction(p, photo, palette, offsetX, offsetY))
  }

  /** The photo-to-skin mapping with the offset applied once. */
  function BuildForwardOnce(table: seq<Part>, photo: Grid, palette: Palette, offsetX: int, offsetY: int): (m: seq<Instruction>)
    ensures |m| == |table|
    ensures forall i :: 0 <= i < |table| ==> m[i] == ForwardInstructionOnce(table[i], photo, palette, offsetX, offsetY)
    ensures forall i :: 0 <= i < |table| ==> m[i].name == table[i].name && m[i].DestBox() == table[i].atlas
  {
    MapParts(table, p => ForwardInstructionOnce(p, photo, palette, offsetX, offsetY))
  }

  /** The reverse entry for one part, or None when the part is skipped: the
      block is read from the skin at the atlas corner and written at the
      photo corner shifted by the offset once. */
  function ReverseStep(p: Part, skin: Grid, offsetX: int, offsetY: int): (r: Option<Instruction>)
    ensures r.None? <==> !PhotoBacked(p)
    ensures r.Some? ==>
              && r.value.name == p.name
              && r.value.src == skin
              && r.value.from == p.atlas.TopLeft()
              && r.value.SourceBox() == p.atlas
              && r.value.to == Point(p.photo.x + offsetX, p.photo.y + offsetY)
              && r.value.DestBox() == PhotoRect(p).Translate(offsetX, offsetY)
  {
    match GetPhotoCoords(p, offsetX, offsetY)
    case None => None
    case Some(toCoords) =>
      Some(Instruction(p.name, skin, p.atlas.x1 - p.atlas.x0, p.atlas.y1 - p.atlas.y0, GetSkinCoords(p), toCoords))
  }

  /** The positions of photo-backed parts grow by one exactly when the next
      part is photo-backed. */
  lemma PhotoBackedIndicesStep(table: seq<Part>)
    requires |table| > 0
    ensures var n := |table| - 1;
            PhotoBackedIndices(table) ==
              PhotoBackedIndices(table[..n]) + (if PhotoBacked(table[n]) then {n} else {})
    ensures |table| - 1 !in PhotoBackedIndices(table[..|table| - 1])
  {
  }

  /** The skin-to-photo mapping: photo-backed parts only, in table order. */
  function BuildReverse(table: seq<Part>, skin: Grid, offsetX: int, offsetY: int): (m: seq<Instruction>)
    ensures |m| == |PhotoBackedIndices(table)|
    decreases |table|
  {
    if |table| == 0 then []
    else
      var n := |table| - 1;
      PhotoBackedIndicesStep(table);
      var prev := BuildReverse(table[..n], skin, offsetX, offsetY);
      match ReverseStep(table[n], skin, offsetX, offsetY)
      case None => prev
      case Some(c) => prev + [c]
  }

  /** `c` is the reverse entry of some photo-backed part of the table. */
  ghost predicate ReverseEntryOf(table: seq<Part>, skin: Grid, offsetX: int, offsetY: int, c: Instruction)
  {
    exists i :: 0 <= i < |table| && PhotoBacked(table[i]) && ReverseStep(table[i], skin, offsetX, offsetY) == Some(c)
  }

  /** Every reverse entry comes from a photo-backed part. */
  lemma {:induction false} ReverseEntriesFromTable(table: seq<Part>, skin: Grid, offsetX: int, offsetY: int)
    ensures forall k :: 0 <= k < |BuildReverse(table, skin, offsetX, offsetY)| ==>
              ReverseEntryOf(table, skin, offsetX, offsetY, BuildReverse(table, skin, offsetX, offsetY)[k])
    decreases |table|
  {
    if |table| > 0 {
      var n := |table| - 1;
      var prefix := table[..n];
      ReverseEntriesFromTable(prefix, skin, offsetX, offsetY);
      var prev := BuildReverse(prefix, skin, offsetX, offsetY);
      var m := BuildReverse(table, skin, offsetX, offsetY);
      forall k | 0 <= k < |m|
        ensures ReverseEntryOf(table, skin, offsetX, offsetY, m[k])
      {
        if k < |prev| {
          assert m[k] == prev[k];
          assert ReverseEntryOf(prefix, skin, offsetX, offsetY, prev[k]);
          var i :| 0 <= i < n && PhotoBacked(prefix[i]) &&
                   ReverseStep(prefix[i], skin, offsetX, offsetY) == Some(prev[k]);
          assert prefix[i] == table[i];
        } else {
          assert ReverseStep(table[n], skin, offsetX, offsetY) == Some(m[k]);
        }
      }
    }
  }

  /** Every photo-backed part contributes its entry to the reverse mapping. */
  lemma {:induction false} ReverseEntriesCoverTable(table: seq<Part>, skin: Grid, offsetX: int, offsetY: int)
    ensures forall i :: 0 <= i < |table| && PhotoBacked(table[i]) ==>
              ReverseStep(table[i], skin, offsetX, offsetY).value in BuildReverse(table, skin, offsetX, offsetY)
    decreases |table|
  {
    if |table| > 0 {
      var n := |table| - 1;
      var prefix := table[..n];
      ReverseEntriesCoverTable(prefix, skin, offsetX, offsetY);
      var prev := BuildReverse(prefix, skin, offsetX, offsetY);
      var m := BuildReverse(table, skin, offsetX, offsetY);
      assert forall c :: c in prev ==> c in m;
      forall i | 0 <= i < |table| && PhotoBacked(table[i])
        ensures ReverseStep(table[i], skin, offsetX, offsetY).value in m
      {
        if i < n {
          assert prefix[i] == table[i];
        }
      }
    }
  }

  /** The position of a photo-backed part's entry in the reverse mapping. */
  lemma ReverseEntryPosition(table: seq<Part>, skin: Grid, offsetX: int, offsetY: int, i: int) returns (k: int)
    requires 0 <= i < |table| && PhotoBacked(table[i])
    ensures 0 <= k < |BuildReverse(table, skin, offsetX, offsetY)|
    ensures BuildReverse(table, skin, offsetX, offsetY)[k] == ReverseStep(table[i], skin, offsetX, offsetY).value
  {
    ReverseEntriesCoverTable(table, skin, offsetX, offsetY);
    var m := BuildReverse(table, skin, offsetX, offsetY);
    k :| 0 <= k < |m| && m[k] == ReverseStep(table[i], skin, offsetX, offsetY).value;
  }

  /** Forward destinations are the atlas rectangles, so they are disjoint
      whenever the table's are. */
  lemma ForwardDestsDisjoint(table: seq<Part>, photo: Grid, palette: Palette, offsetX: int, offsetY: int)
    requires forall i, j :: 0 <= i < j < |table| ==> AtlasApart(table, i, j)
    ensures DestsDisjoint(BuildForward(table, photo, palette, offsetX, offsetY))
    ensures DestsDisjoint(BuildForwardOnce(table, photo, palette, offsetX, offsetY))
  {
    forall j, k | 0 <= j < k < |table|
      ensures DestsApart(BuildForward(table, photo, palette, offsetX, offsetY), j, k)
      ensures DestsApart(BuildForwardOnce(table, photo, palette, offsetX, offsetY), j, k)
    {
      assert AtlasApart(table, j, k);
    }
  }

  /** Reverse destinations are the photo blocks shifted by one common offset,
      so they are disjoint whenever the photo blocks are. */
  lemma {:induction false} ReverseDestsDisjoint(table: seq<Part>, skin: Grid, offsetX: int, offsetY: int)
    requires forall i, j :: 0 <= i < j < |table| ==> PhotoApart(table, i, j)
    ensures DestsDisjoint(BuildReverse(table, skin, offsetX, offsetY))
    decreases |table|
  {
    if |table| > 0 {
      var n := |table| - 1;
      var prefix := table[..n];
      forall i, j | 0 <= i < j < n
        ensures PhotoApart(prefix, i, j)
      {
        assert PhotoApart(table, i, j);
      }
      ReverseDestsDisjoint(prefix, skin, offsetX, offsetY);
      var prev := BuildReverse(prefix, skin, offsetX, offsetY);
      var step := ReverseStep(table[n], skin, offsetX, offsetY);
      if step.Some? {
        var m := prev + [step.value];
        forall j, k | 0 <= j < k < |m|
          ensures DestsApart(m, j, k)
        {
          if k == |prev| {
            ReverseEntriesFromTable(prefix, skin, offsetX, offsetY);
            assert ReverseEntryOf(prefix, skin, offsetX, offsetY, prev[j]);
            var i :| 0 <= i < n && PhotoBacked(prefix[i]) &&
                     ReverseStep(prefix[i], skin, offsetX, offsetY) == Some(prev[j]);
            assert PhotoApart(table, i, n);
            TranslateKeepsDisjoint(PhotoRect(table[i]), PhotoRect(table[n]), offsetX, offsetY);
          } else {
            assert DestsApart(prev, j, k);
          }
        }
      }
    }
  }

  /** Reading from the corner resolved with the offset and shifting again is
      reading from the corner resolved with twice the offset. */
  lemma ForwardReadsAtDoubleOffset(p: Part, photo: Grid, palette: Palette, offsetX: int, offsetY: int)
    ensures PhotoBacked(p) ==>
              ForwardInstruction(p, photo, palette, offsetX, offsetY).from ==
              GetPhotoCoords(p, 2 * offsetX, 2 * offsetY).value
    ensures ForwardInstruction(p, photo, palette, offsetX, offsetY) ==
              ForwardInstructionOnce(p, photo, palette, 2 * offsetX, 2 * offsetY)
  {
  }

  /** The as-written forward mapping is the single-offset mapping taken at
      twice the offset. */
  lemma ForwardIsOnceWithDoubledOffset(table: seq<Part>, photo: Grid, palette: Palette, offsetX: int, offsetY: int)
    ensures BuildForward(table, photo, palette, offsetX, offsetY) ==
              BuildForwardOnce(table, photo, palette, 2 * offsetX, 2 * offsetY)
  {
    var m := BuildForward(table, photo, palette, offsetX, offsetY);
    var n := BuildForwardOnce(table, photo, palette, 2 * offsetX, 2 * offsetY);
    forall i | 0 <= i < |table|
      ensures m[i] == n[i]
    {
      ForwardReadsAtDoubleOffset(table[i], photo, palette, offsetX, offsetY);
    }
  }

  /** The reverse mapping of the 36-part table has one entry per photo-backed
      part: sixteen. */
  lemma ReverseHasSixteenEntries(skin: Grid, offsetX: int, offsetY: int)
    ensures |BuildReverse(Parts(), skin, offsetX, offsetY)| == 16
  {
    SixteenPhotoBacked();
  }
}
