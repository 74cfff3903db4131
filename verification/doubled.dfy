/** What build_skin as written produces. It adds the offset a second time
    after get_photo_coords has applied it, so it reads every photo block at
    the stored corner plus twice the offset, while build_thumbnail writes the
    block back at the corner plus the offset once. */
module DoubledOffset {
  import opened Geometry
  import opened Raster
  import opened Compositor
  import opened Layout
  import opened Fallback
  import opened Mapping
  import opened Skin

  /** The as-written skin is the single-offset skin taken at twice the offset. */
  lemma BuildSkinDoublesOffset(table: seq<Part>, photo: Grid, palette: Palette, offsetX: int, offsetY: int)
    requires AllFit(BuildForward(table, photo, palette, offsetX, offsetY))
    ensures AllFit(BuildForwardOnce(table, photo, palette, 2 * offsetX, 2 * offsetY))
    ensures BuildSkin(table, photo, palette, offsetX, offsetY) ==
              BuildSkinOnce(table, photo, palette, 2 * offsetX, 2 * offsetY)
  {
    ForwardIsOnceWithDoubledOffset(table, photo, palette, offsetX, offsetY);
  }

  /** As written, the preview shows the photo moved by the offset: pixel (x, y)
      of a photo-backed block shows photo pixel (x + offsetX, y + offsetY). */
  lemma PreviewShowsShiftedPhoto(table: seq<Part>, photo: Grid, palette: Palette, offsetX: int, offsetY: int,
                                 i: int, x: int, y: int)
    requires ValidLayout(table)
    requires AllFit(BuildForward(table, photo, palette, offsetX, offsetY))
    requires 0 <= i < |table| && PhotoBacked(table[i])
    requires PhotoRect(table[i]).Translate(offsetX, offsetY).Contains(x, y)
    requires 0 <= x < SkinWidth && 0 <= y < SkinHeight
    ensures 0 <= y + offsetY < |photo| && 0 <= x + offsetX < |photo[y + offsetY]|
    ensures BuildThumbnail(table, BuildSkin(table, photo, palette, offsetX, offsetY), offsetX, offsetY)[y][x] ==
              photo[y + offsetY][x + offsetX]
  {
    BuildSkinDoublesOffset(table, photo, palette, offsetX, offsetY);
    SkinShowsPhotoBlock(table, photo, palette, 2 * offsetX, 2 * offsetY, i);
    PreviewAtSameOffset(table, BuildSkin(table, photo, palette, offsetX, offsetY), photo, offsetX, offsetY, i, x, y);
  }

  /** PreviewOfTwiceShiftedBlock with the same offset on both sides, with the
      photo indices simplified; kept apart so that the arithmetic runs over an
      abstract skin rather than next to the built one. */
  lemma PreviewAtSameOffset(table: seq<Part>, skin: Grid, photo: Grid, offsetX: int, offsetY: int, i: int, x: int, y: int)
    requires ValidLayout(table)
    requires Rectangular(skin) && AtlasWithin(table, Cols(skin), |skin|)
    requires 0 <= i < |table| && PhotoBacked(table[i])
    requires ShowsPhotoBlock(table, skin, photo, 2 * offsetX, 2 * offsetY, i)
    requires PhotoRect(table[i]).Translate(offsetX, offsetY).Contains(x, y)
    requires 0 <= x < Cols(skin) && 0 <= y < |skin|
    ensures 0 <= y + offsetY < |photo| && 0 <= x + offsetX < |photo[y + offsetY]|
    ensures BuildThumbnail(table, skin, offsetX, offsetY)[y][x] == photo[y + offsetY][x + offsetX]
  {
    PreviewOfTwiceShiftedBlock(table, skin, photo, offsetX, offsetY, offsetX, offsetY, i, x, y);
    assert y + 2 * offsetY - offsetY == y + offsetY && x + 2 * offsetX - offsetX == x + offsetX;
  }

  /** Every pixel of a part's atlas rectangle in the skin as build_skin makes
      it shows that part's pixel with the offset counted twice: the photo
      block at the stored corner plus twice the offset, or the part's
      reference image. */
  lemma SkinPixelAsWritten(table: seq<Part>, photo: Grid, palette: Palette, offsetX: int, offsetY: int, i: int, x: int, y: int)
    requires ValidLayout(table)
    requires AllFit(BuildForward(table, photo, palette, offsetX, offsetY))
    requires 0 <= i < |table| && table[i].atlas.Contains(x, y)
    ensures 0 <= x < SkinWidth && 0 <= y < SkinHeight
    ensures ForwardInstructionOnce(table[i], photo, palette, 2 * offsetX, 2 * offsetY).Fits()
    ensures BuildSkin(table, photo, palette, offsetX, offsetY)[y][x] ==
              PartPixel(table[i], photo, palette, 2 * offsetX, 2 * offsetY, x, y)
  {
    BuildSkinDoublesOffset(table, photo, palette, offsetX, offsetY);
    SkinPixel(table, photo, palette, 2 * offsetX, 2 * offsetY, i, x, y);
  }

  /** Skin as build_skin makes it with one offset, preview with another: the
      preview shows the photo moved by twice the first offset less the second. */
  lemma RoundTripAsWritten(table: seq<Part>, photo: Grid, palette: Palette, forwardX: int, forwardY: int,
                           reverseX: int, reverseY: int, i: int, x: int, y: int)
    requires ValidLayout(table)
    requires AllFit(BuildForward(table, photo, palette, forwardX, forwardY))
    requires 0 <= i < |table| && PhotoBacked(table[i])
    requires PhotoRect(table[i]).Translate(reverseX, reverseY).Contains(x, y)
    requires 0 <= x < SkinWidth && 0 <= y < SkinHeight
    ensures 0 <= y + 2 * forwardY - reverseY < |photo| && 0 <= x + 2 * forwardX - reverseX < |photo[y + 2 * forwardY - reverseY]|
    ensures BuildThumbnail(table, BuildSkin(table, photo, palette, forwardX, forwardY), reverseX, reverseY)[y][x] ==
              photo[y + 2 * forwardY - reverseY][x + 2 * forwardX - reverseX]
  {
    BuildSkinDoublesOffset(table, photo, palette, forwardX, forwardY);
    SkinShowsPhotoBlock(table, photo, palette, 2 * forwardX, 2 * forwardY, i);
    PreviewOfTwiceShiftedBlock(table, BuildSkin(table, photo, palette, forwardX, forwardY), photo,
                               forwardX, forwardY, reverseX, reverseY, i, x, y);
  }

  /** A preview, with one offset, of any skin that shows part i's photo block
      taken at twice another offset. */
  lemma PreviewOfTwiceShiftedBlock(table: seq<Part>, skin: Grid, photo: Grid, forwardX: int, forwardY: int,
                                   reverseX: int, reverseY: int, i: int, x: int, y: int)
    requires ValidLayout(table)
    requires Rectangular(skin) && AtlasWithin(table, Cols(skin), |skin|)
    requires 0 <= i < |table| && PhotoBacked(table[i])
    requires ShowsPhotoBlock(table, skin, photo, 2 * forwardX, 2 * forwardY, i)
    requires PhotoRect(table[i]).Translate(reverseX, reverseY).Contains(x, y)
    requires 0 <= x < Cols(skin) && 0 <= y < |skin|
    ensures 0 <= y + 2 * forwardY - reverseY < |photo| && 0 <= x + 2 * forwardX - reverseX < |photo[y + 2 * forwardY - reverseY]|
    ensures BuildThumbnail(table, skin, reverseX, reverseY)[y][x] == photo[y + 2 * forwardY - reverseY][x + 2 * forwardX - reverseX]
  {
    PreviewOfPhotoBlock(table, skin, photo, 2 * forwardX, 2 * forwardY, reverseX, reverseY, i, x, y);
  }
}
