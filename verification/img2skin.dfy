/** The older command-line script: the same conversion written at module
    level, with its own copy of the part table and the offset held in two
    globals read by its coordinate helper. */
module Img2Skin {
  import opened Geometry
  import opened Raster
  import opened Compositor
  import opened Layout
  import opened Fallback
  import opened Mapping
  import opened Skin
  import opened DoubledOffset

  /** Row i of the script's own table, in its order. */
  function LegacyRow(i: int): Part {
    match i
      case 0 => Part("headTop", Rect(8, 0, 16, 8), Point(24, 0))
      case 1 => Part("headBottom", Rect(16, 0, 24, 8), Point(-1, -1))
      case 2 => Part("headRight", Rect(0, 8, 8, 16), Point(16, 8))
      case 3 => Part("headFront", Rect(8, 8, 16, 16), Point(24, 8))
      case 4 => Part("headLeft", Rect(16, 8, 24, 16), Point(32, 8))
      case 5 => Part("headBack", Rect(24, 8, 32, 16), Point(8, 8))
      case 6 => Part("rightLegTop", Rect(4, 16, 8, 20), Point(-1, -1))
      case 7 => Part("rightLegBottom", Rect(8, 16, 12, 20), Point(-1, -1))
      case 8 => Part("rightLegRight", Rect(0, 20, 4, 32), Point(20, 28))
      case 9 => Part("rightLegFront", Rect(4, 20, 8, 32), Point(24, 28))
      case 10 => Part("rightLegLeft", Rect(8, 20, 12, 32), Point(-1, -1))
      case 11 => Part("rightLegBack", Rect(12, 20, 16, 32), Point(-1, -1))
      case 12 => Part("torsoTop", Rect(20, 16, 28, 20), Point(-1, -1))
      case 13 => Part("torsoBottom", Rect(28, 16, 36, 20), Point(-1, -1))
      case 14 => Part("torsoRight", Rect(16, 20, 20, 32), Point(-1, -1))
      case 15 => Part("torsoFront", Rect(20, 20, 28, 32), Point(24, 16))
      case 16 => Part("torsoLeft", Rect(28, 20, 32, 32), Point(-1, -1))
      case 17 => Part("torsoBack", Rect(32, 20, 40, 32), Point(-1, -1))
      case 18 => Part("rightArmTop", Rect(44, 16, 48, 20), Point(-1, -1))
      case 19 => Part("rightArmBottom", Rect(48, 16, 52, 20), Point(-1, -1))
      case 20 => Part("rightArmRight", Rect(40, 20, 44, 32), Point(16, 16))
      case 21 => Part("rightArmFront", Rect(44, 20, 48, 32), Point(20, 16))
      case 22 => Part("rightArmLeft", Rect(48, 20, 52, 32), Point(-1, -1))
      case 23 => Part("rightArmBack", Rect(52, 20, 56, 32), Point(12, 16))
      case 24 => Part("leftLegTop", Rect(20, 48, 24, 52), Point(-1, -1))
      case 25 => Part("leftLegBottom", Rect(24, 48, 28, 52), Point(-1, -1))
      case 26 => Part("leftLegRight", Rect(16, 52, 20, 64), Point(-1, -1))
      case 27 => Part("leftLegFront", Rect(20, 52, 24, 64), Point(28, 28))
      case 28 => Part("leftLegLeft", Rect(24, 52, 28, 64), Point(32, 28))
      case 29 => Part("leftLegBack", Rect(28, 52, 32, 64), Point(-1, -1))
      case 30 => Part("leftArmTop", Rect(36, 48, 40, 52), Point(-1, -1))
      case 31 => Part("leftArmBottom", Rect(40, 48, 44, 52), Point(-1, -1))
      case 32 => Part("leftArmRight", Rect(32, 52, 36, 64), Point(-1, -1))
      case 33 => Part("leftArmFront", Rect(36, 52, 40, 64), Point(32, 16))
      case 34 => Part("leftArmLeft", Rect(40, 52, 44, 64), Point(36, 16))
      case _ => Part("leftArmBack", Rect(44, 52, 48, 64), Point(40, 16))
  }

  /** The script's whole table: one row per entry of its `parts` dict. */
  function LegacyParts(): (t: seq<Part>)
    ensures |t| == 36
  {
    seq(36, LegacyRow)
  }

  /** The script's table is row for row the table of the library module. */
  lemma SameTableAsLibrary()
    ensures LegacyParts() == Parts()
  {
    forall i | 0 <= i < 36
      ensures LegacyParts()[i] == Parts()[i]
    {
      assert IsRow(i);
    }
  }

  /** The two images the script writes: the skin and its preview. */
  datatype Outputs = Outputs(skin: Grid, preview: Grid)

  /** The script's main block after the photo is loaded and resized: the
      forward mapping from its own table, the skin on a transparent 64 x 64
      canvas, then the reverse mapping onto a white canvas the size of the
      skin. The offsets are the two globals parsed from the command line. */
  function Convert(photo: Grid, palette: Palette, photoOffsetX: int, photoOffsetY: int): (out: Outputs)
    requires AllFit(BuildForward(LegacyParts(), photo, palette, photoOffsetX, photoOffsetY))
    ensures IsGrid(out.skin, SkinWidth, SkinHeight) && Cols(out.skin) == SkinWidth
    ensures IsGrid(out.preview, SkinWidth, SkinHeight)
    ensures LegacyParts() == Parts() && ValidLayout(Parts())
    ensures out.skin == BuildSkin(Parts(), photo, palette, photoOffsetX, photoOffsetY)
    ensures out.preview == BuildThumbnail(Parts(), out.skin, photoOffsetX, photoOffsetY)
  {
    SameTableAsLibrary();
    PartsAreValidLayout();
    var skin := BuildSkin(LegacyParts(), photo, palette, photoOffsetX, photoOffsetY);
    assert Cols(skin) == SkinWidth by {
      assert |skin[0]| == SkinWidth;
    }
    Outputs(skin, BuildThumbnail(LegacyParts(), skin, photoOffsetX, photoOffsetY))
  }

  /** The script's preview shows, inside every photo-backed block, the photo
      moved by the offset, just as the library's does. */
  lemma ConvertShowsShiftedPhoto(photo: Grid, palette: Palette, photoOffsetX: int, photoOffsetY: int, i: int, x: int, y: int)
    requires AllFit(BuildForward(LegacyParts(), photo, palette, photoOffsetX, photoOffsetY))
    requires 0 <= i < |LegacyParts()| && PhotoBacked(LegacyParts()[i])
    requires PhotoRect(LegacyParts()[i]).Translate(photoOffsetX, photoOffsetY).Contains(x, y)
    requires 0 <= x < SkinWidth && 0 <= y < SkinHeight
    ensures 0 <= y + photoOffsetY < |photo| && 0 <= x + photoOffsetX < |photo[y + photoOffsetY]|
    ensures Convert(photo, palette, photoOffsetX, photoOffsetY).preview[y][x] == photo[y + photoOffsetY][x + photoOffsetX]
  {
    SameTableAsLibrary();
    PartsAreValidLayout();
    PreviewShowsShiftedPhoto(Parts(), photo, palette, photoOffsetX, photoOffsetY, i, x, y);
  }
}
