/** The two top-level builders: the skin from the resized photo, and the
    preview that unfolds the skin back onto a photo-shaped canvas. Both take
    the part table as a parameter; build_skin and build_thumbnail read the
    module-level `parts` dict. */
module Skin {
  import opened Geometry
  import opened Raster
  import opened Compositor
  import opened Layout
  import opened Fallback
  import opened Mapping

  /** The skin as build_skin makes it: every part, onto a transparent 64 x 64
      canvas (transform_image's `None` background is fully transparent). */
  function BuildSkin(table: seq<Part>, photo: Grid, palette: Palette, offsetX: int, offsetY: int): (skin: Grid)
    requires AllFit(BuildForward(table, photo, palette, offsetX, offsetY))
    ensures IsGrid(skin, SkinWidth, SkinHeight) && Rectangular(skin)
  {
    TransformImage(SkinWidth, SkinHeight, Transparent, BuildForward(table, photo, palette, offsetX, offsetY))
  }

  /** The skin built with the offset applied once. */
  function BuildSkinOnce(table: seq<Part>, photo: Grid, palette: Palette, offsetX: int, offsetY: int): (skin: Grid)
    requires AllFit(BuildForwardOnce(table, photo, palette, offsetX, offsetY))
    ensures IsGrid(skin, SkinWidth, SkinHeight) && Rectangular(skin)
  {
    TransformImage(SkinWidth, SkinHeight, Transparent, BuildForwardOnce(table, photo, palette, offsetX, offsetY))
  }

  /** Every crop of the reverse mapping stays inside a skin that holds every
      atlas rectangle. */
  lemma ReverseFits(table: seq<Part>, skin: Grid, offsetX: int, offsetY: int)
    requires Rectangular(skin) && AtlasWithin(table, Cols(skin), |skin|)
    ensures AllFit(BuildReverse(table, skin, offsetX, offsetY))
  {
    ReverseEntriesFromTable(table, skin, offsetX, offsetY);
    var m := BuildReverse(table, skin, offsetX, offsetY);
    forall k | 0 <= k < |m|
      ensures m[k].Fits()
    {
      assert ReverseEntryOf(table, skin, offsetX, offsetY, m[k]);
    }
  }

  /** The preview: the photo-backed parts of the skin, each at its photo
      block shifted by the offset, on a white canvas the size of the skin. */
  function BuildThumbnail(table: seq<Part>, skin: Grid, offsetX: int, offsetY: int): (thumb: Grid)
    requires Rectangular(skin) && AtlasWithin(table, Cols(skin), |skin|)
    ensures IsGrid(thumb, Cols(skin), |skin|) && Rectangular(thumb)
  {
    ReverseFits(table, skin, offsetX, offsetY);
    TransformImage(Cols(skin), |skin|, White, BuildReverse(table, skin, offsetX, offsetY))
  }

  /** What a single-offset skin shows at a pixel of part p: the photo block
      at the stored corner shifted by the offset, or the reference image that
      the part's name selects, read from its top-left corner. */
  function PartPixel(p: Part, photo: Grid, palette: Palette, offsetX: int, offsetY: int, x: int, y: int): Pixel
    requires ForwardInstructionOnce(p, photo, palette, offsetX, offsetY).Fits()
    requires p.atlas.Contains(x, y)
  {
    var dx := x - p.atlas.x0;
    var dy := y - p.atlas.y0;
    if PhotoBacked(p) then photo[p.photo.y + offsetY + dy][p.photo.x + offsetX + dx]
    else palette.Image(FallbackColour(p.name))[dy][dx]
  }

  lemma PartPixelIsSourcePixel(p: Part, photo: Grid, palette: Palette, offsetX: int, offsetY: int, x: int, y: int)
    requires ForwardInstructionOnce(p, photo, palette, offsetX, offsetY).Fits()
    requires p.atlas.Contains(x, y)
    ensures SourcePixel(ForwardInstructionOnce(p, photo, palette, offsetX, offsetY), x, y) ==
              PartPixel(p, photo, palette, offsetX, offsetY, x, y)
  {
  }

  /** Every pixel of a part's atlas rectangle shows that part's pixel. */
  lemma SkinPixel(table: seq<Part>, photo: Grid, palette: Palette, offsetX: int, offsetY: int, i: int, x: int, y: int)
    requires ValidLayout(table)
    requires AllFit(BuildForwardOnce(table, photo, palette, offsetX, offsetY))
    requires 0 <= i < |table| && table[i].atlas.Contains(x, y)
    ensures 0 <= x < SkinWidth && 0 <= y < SkinHeight
    ensures BuildSkinOnce(table, photo, palette, offsetX, offsetY)[y][x] ==
              PartPixel(table[i], photo, palette, offsetX, offsetY, x, y)
  {
    var m := BuildForwardOnce(table, photo, palette, offsetX, offsetY);
    ForwardDestsDisjoint(table, photo, palette, offsetX, offsetY);
    CoveredPixel(SkinWidth, SkinHeight, Transparent, m, i, x, y);
    PartPixelIsSourcePixel(table[i], photo, palette, offsetX, offsetY, x, y);
  }

  /** A skin pixel outside every atlas rectangle stays transparent. */
  lemma SkinUncovered(table: seq<Part>, photo: Grid, palette: Palette, offsetX: int, offsetY: int, x: int, y: int)
    requires AllFit(BuildForward(table, photo, palette, offsetX, offsetY))
    requires 0 <= x < SkinWidth && 0 <= y < SkinHeight
    requires forall i :: 0 <= i < |table| ==> !table[i].atlas.Contains(x, y)
    ensures BuildSkin(table, photo, palette, offsetX, offsetY)[y][x] == Transparent
  {
    UncoveredKeepsBackground(SkinWidth, SkinHeight, Transparent, BuildForward(table, photo, palette, offsetX, offsetY), x, y);
  }

  /** The part table leaves gaps in the skin: its corner pixel stays
      transparent whatever the photo and offset. */
  lemma SkinCornerIsTransparent(photo: Grid, palette: Palette, offsetX: int, offsetY: int)
    requires AllFit(BuildForward(Parts(), photo, palette, offsetX, offsetY))
    ensures BuildSkin(Parts(), photo, palette, offsetX, offsetY)[0][0] == Transparent
  {
    CornerInNoPart();
    SkinUncovered(Parts(), photo, palette, offsetX, offsetY, 0, 0);
  }

  /** A preview pixel inside a photo-backed part's shifted photo block shows
      the matching pixel of the part's atlas rectangle in the skin. */
  lemma ThumbnailPixel(table: seq<Part>, skin: Grid, offsetX: int, offsetY: int, i: int, x: int, y: int)
    requires ValidLayout(table)
    requires Rectangular(skin) && AtlasWithin(table, Cols(skin), |skin|)
    requires 0 <= i < |table| && PhotoBacked(table[i])
    requires PhotoRect(table[i]).Translate(offsetX, offsetY).Contains(x, y)
    requires 0 <= x < Cols(skin) && 0 <= y < |skin|
    ensures table[i].atlas.Contains(table[i].atlas.x0 + (x - table[i].photo.x - offsetX),
                                    table[i].atlas.y0 + (y - table[i].photo.y - offsetY))
    ensures BuildThumbnail(table, skin, offsetX, offsetY)[y][x] ==
              skin[table[i].atlas.y0 + (y - table[i].photo.y - offsetY)][table[i].atlas.x0 + (x - table[i].photo.x - offsetX)]
  {
    ReverseFits(table, skin, offsetX, offsetY);
    ThumbnailShowsEntry(table, skin, offsetX, offsetY, i, x, y);
    SkinBlockIsSourcePixel(table[i], skin, offsetX, offsetY, x, y);
  }

  /** The preview pixel is the source pixel of the covering part's entry. */
  lemma ThumbnailShowsEntry(table: seq<Part>, skin: Grid, offsetX: int, offsetY: int, i: int, x: int, y: int)
    requires ValidLayout(table)
    requires Rectangular(skin) && AtlasWithin(table, Cols(skin), |skin|)
    requires 0 <= i < |table| && PhotoBacked(table[i])
    requires PhotoRect(table[i]).Translate(offsetX, offsetY).Contains(x, y)
    requires 0 <= x < Cols(skin) && 0 <= y < |skin|
    requires ReverseStep(table[i], skin, offsetX, offsetY).value.Fits()
    ensures BuildThumbnail(table, skin, offsetX, offsetY)[y][x] ==
              SourcePixel(ReverseStep(table[i], skin, offsetX, offsetY).value, x, y)
  {
    ReverseFits(table, skin, offsetX, offsetY);
    ReverseDestsDisjoint(table, skin, offsetX, offsetY);
    var m := BuildReverse(table, skin, offsetX, offsetY);
    var k := ReverseEntryPosition(table, skin, offsetX, offsetY, i);
    CoveredPixel(Cols(skin), |skin|, White, m, k, x, y);
  }

  lemma SkinBlockIsSourcePixel(p: Part, skin: Grid, offsetX: int, offsetY: int, x: int, y: int)
    requires PhotoBacked(p)
    requires ReverseStep(p, skin, offsetX, offsetY).value.Fits()
    requires PhotoRect(p).Translate(offsetX, offsetY).Contains(x, y)
    ensures p.atlas.Contains(p.atlas.x0 + (x - p.photo.x - offsetX), p.atlas.y0 + (y - p.photo.y - offsetY))
    ensures SourcePixel(ReverseStep(p, skin, offsetX, offsetY).value, x, y) ==
              skin[p.atlas.y0 + (y - p.photo.y - offsetY)][p.atlas.x0 + (x - p.photo.x - offsetX)]
  {
  }

  /** A preview pixel outside every shifted photo block stays white. */
  lemma ThumbnailUncovered(table: seq<Part>, skin: Grid, offsetX: int, offsetY: int, x: int, y: int)
    requires Rectangular(skin) && AtlasWithin(table, Cols(skin), |skin|)
    requires 0 <= x < Cols(skin) && 0 <= y < |skin|
    requires forall i :: 0 <= i < |table| && PhotoBacked(table[i]) ==>
               !PhotoRect(table[i]).Translate(offsetX, offsetY).Contains(x, y)
    ensures BuildThumbnail(table, skin, offsetX, offsetY)[y][x] == White
  {
    ReverseFits(table, skin, offsetX, offsetY);
    ReverseEntriesFromTable(table, skin, offsetX, offsetY);
    var m := BuildReverse(table, skin, offsetX, offsetY);
    forall j | 0 <= j < |m|
      ensures !m[j].DestBox().Contains(x, y)
    {
      assert ReverseEntryOf(table, skin, offsetX, offsetY, m[j]);
    }
    UncoveredKeepsBackground(Cols(skin), |skin|, White, m, x, y);
  }

  /** Inside part i's atlas rectangle, the skin shows the photo block that
      starts at the part's photo corner shifted by the offset. */
  ghost predicate ShowsPhotoBlock(table: seq<Part>, skin: Grid, photo: Grid, offsetX: int, offsetY: int, i: int)
    requires 0 <= i < |table|
  {
    forall ax, ay :: table[i].atlas.Contains(ax, ay) ==>
      && 0 <= ay < |skin| && 0 <= ax < |skin[ay]|
      && 0 <= table[i].photo.y + offsetY + (ay - table[i].atlas.y0) < |photo|
      && 0 <= table[i].photo.x + offsetX + (ax - table[i].atlas.x0) < |photo[table[i].photo.y + offsetY + (ay - table[i].atlas.y0)]|
      && skin[ay][ax] == photo[table[i].photo.y + offsetY + (ay - table[i].atlas.y0)][table[i].photo.x + offsetX + (ax - table[i].atlas.x0)]
  }

  /** The single-offset skin shows every photo-backed part's photo block. */
  lemma SkinShowsPhotoBlock(table: seq<Part>, photo: Grid, palette: Palette, offsetX: int, offsetY: int, i: int)
    requires ValidLayout(table)
    requires AllFit(BuildForwardOnce(table, photo, palette, offsetX, offsetY))
    requires 0 <= i < |table| && PhotoBacked(table[i])
    ensures ShowsPhotoBlock(table, BuildSkinOnce(table, photo, palette, offsetX, offsetY), photo, offsetX, offsetY, i)
  {
    forall ax, ay | table[i].atlas.Contains(ax, ay)
      ensures 0 <= ax < SkinWidth && 0 <= ay < SkinHeight
      ensures 0 <= table[i].photo.y + offsetY + (ay - table[i].atlas.y0) < |photo|
      ensures 0 <= table[i].photo.x + offsetX + (ax - table[i].atlas.x0) < |photo[table[i].photo.y + offsetY + (ay - table[i].atlas.y0)]|
      ensures BuildSkinOnce(table, photo, palette, offsetX, offsetY)[ay][ax] ==
                photo[table[i].photo.y + offsetY + (ay - table[i].atlas.y0)][table[i].photo.x + offsetX + (ax - table[i].atlas.x0)]
    {
      SkinPhotoPixel(table, photo, palette, offsetX, offsetY, i, ax, ay);
    }
  }

  /** A preview of any skin that shows part i's photo block taken with one
      offset, made with another offset, shows the photo moved by the
      difference of the two inside that part's shifted block. */
  lemma PreviewOfPhotoBlock(table: seq<Part>, skin: Grid, photo: Grid, forwardX: int, forwardY: int,
                            reverseX: int, reverseY: int, i: int, x: int, y: int)
    requires ValidLayout(table)
    requires Rectangular(skin) && AtlasWithin(table, Cols(skin), |skin|)
    requires 0 <= i < |table| && PhotoBacked(table[i])
    requires ShowsPhotoBlock(table, skin, photo, forwardX, forwardY, i)
    requires PhotoRect(table[i]).Translate(reverseX, reverseY).Contains(x, y)
    requires 0 <= x < Cols(skin) && 0 <= y < |skin|
    ensures 0 <= y + forwardY - reverseY < |photo| && 0 <= x + forwardX - reverseX < |photo[y + forwardY - reverseY]|
    ensures BuildThumbnail(table, skin, reverseX, reverseY)[y][x] == photo[y + forwardY - reverseY][x + forwardX - reverseX]
  {
    ThumbnailPixel(table, skin, reverseX, reverseY, i, x, y);
    var ax := table[i].atlas.x0 + (x - table[i].photo.x - reverseX);
    var ay := table[i].atlas.y0 + (y - table[i].photo.y - reverseY);
    assert table[i].atlas.Contains(ax, ay);
  }

  /** Building the skin with one offset and the preview with another shows
      the photo moved by the difference of the two. */
  lemma RoundTrip(table: seq<Part>, photo: Grid, palette: Palette, forwardX: int, forwardY: int,
                  reverseX: int, reverseY: int, i: int, x: int, y: int)
    requires ValidLayout(table)
    requires AllFit(BuildForwardOnce(table, photo, palette, forwardX, forwardY))
    requires 0 <= i < |table| && PhotoBacked(table[i])
    requires PhotoRect(table[i]).Translate(reverseX, reverseY).Contains(x, y)
    requires 0 <= x < SkinWidth && 0 <= y < SkinHeight
    ensures 0 <= y + forwardY - reverseY < |photo| && 0 <= x + forwardX - reverseX < |photo[y + forwardY - reverseY]|
    ensures BuildThumbnail(table, BuildSkinOnce(table, photo, palette, forwardX, forwardY), reverseX, reverseY)[y][x] ==
              photo[y + forwardY - reverseY][x + forwardX - reverseX]
  {
    SkinShowsPhotoBlock(table, photo, palette, forwardX, forwardY, i);
    PreviewOfPhotoBlock(table, BuildSkinOnce(table, photo, palette, forwardX, forwardY), photo,
                        forwardX, forwardY, reverseX, reverseY, i, x, y);
  }

  /** Inside a photo-backed part, the single-offset skin shows the photo pixel
      at the same position relative to the part's shifted photo block. */
  lemma SkinPhotoPixel(table: seq<Part>, photo: Grid, palette: Palette, offsetX: int, offsetY: int, i: int, x: int, y: int)
    requires ValidLayout(table)
    requires AllFit(BuildForwardOnce(table, photo, palette, offsetX, offsetY))
    requires 0 <= i < |table| && PhotoBacked(table[i]) && table[i].atlas.Contains(x, y)
    ensures 0 <= x < SkinWidth && 0 <= y < SkinHeight
    ensures 0 <= table[i].photo.y + offsetY + (y - table[i].atlas.y0) < |photo|
    ensures 0 <= table[i].photo.x + offsetX + (x - table[i].atlas.x0) < |photo[table[i].photo.y + offsetY + (y - table[i].atlas.y0)]|
    ensures BuildSkinOnce(table, photo, palette, offsetX, offsetY)[y][x] ==
              photo[table[i].photo.y + offsetY + (y - table[i].atlas.y0)][table[i].photo.x + offsetX + (x - table[i].atlas.x0)]
  {
    SkinPixel(table, photo, palette, offsetX, offsetY, i, x, y);
    assert BuildForwardOnce(table, photo, palette, offsetX, offsetY)[i].Fits();
    PhotoPartPixel(table[i], photo, palette, offsetX, offsetY, x, y);
  }

  /** Inside a photo-backed part, the part's pixel is the photo pixel at the
      same position relative to the part's shifted photo block. */
  lemma PhotoPartPixel(p: Part, photo: Grid, palette: Palette, offsetX: int, offsetY: int, x: int, y: int)
    requires PhotoBacked(p)
    requires ForwardInstructionOnce(p, photo, palette, offsetX, offsetY).Fits()
    requires p.atlas.Contains(x, y)
    ensures 0 <= p.photo.y + offsetY + (y - p.atlas.y0) < |photo|
    ensures 0 <= p.photo.x + offsetX + (x - p.atlas.x0) < |photo[p.photo.y + offsetY + (y - p.atlas.y0)]|
    ensures PartPixel(p, photo, palette, offsetX, offsetY, x, y) ==
              photo[p.photo.y + offsetY + (y - p.atlas.y0)][p.photo.x + offsetX + (x - p.atlas.x0)]
  {
  }

  /** With the offset applied once on both sides, the preview shows the photo
      itself inside every photo-backed block. */
  lemma PreviewReproducesPhoto(table: seq<Part>, photo: Grid, palette: Palette, offsetX: int, offsetY: int,
                               i: int, x: int, y: int)
    requires ValidLayout(table)
    requires AllFit(BuildForwardOnce(table, photo, palette, offsetX, offsetY))
    requires 0 <= i < |table| && PhotoBacked(table[i])
    requires PhotoRect(table[i]).Translate(offsetX, offsetY).Contains(x, y)
    requires 0 <= x < SkinWidth && 0 <= y < SkinHeight
    ensures 0 <= y < |photo| && 0 <= x < |photo[y]|
    ensures BuildThumbnail(table, BuildSkinOnce(table, photo, palette, offsetX, offsetY), offsetX, offsetY)[y][x] ==
              photo[y][x]
  {
    RoundTrip(table, photo, palette, offsetX, offsetY, offsetX, offsetY, i, x, y);
  }
}
