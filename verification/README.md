# Minecraft skin generator: the region-mapping engine in Dafny

The skin generator turns a photo of a person into a 64 x 64 Minecraft skin.
It also builds a preview that unfolds the skin back onto a photo-shaped
canvas. Both directions are one engine:

- a static table of 36 body parts, each with a rectangle in the skin atlas
  and, when the part has a block in the photo, the top-left corner of that
  block (`(-1, -1)` when it has none);
- a coordinate resolver that applies the user's offset to a photo corner;
- a fallback rule that picks a flat reference colour, by part name, for the
  parts the photo lacks;
- two mapping builders: photo to skin, for every part, and skin to photo, for
  the photo-backed parts only;
- a compositor that crops each mapping entry's source block and pastes it
  over a fresh canvas, in order.

The model covers `photo2skin.py` (the library module) and `img2skin.py`
(the older script). The script carries its own copy of the table and holds
the offset in two globals. Its `getPhotoCoords`, `getSkinCoords` and
`transformImage` (img2skin.py:76-116) are the same operations as the library's
`get_photo_coords`, `get_skin_coords` and `transform_image`, with the offset
passed in. `Coords.GetPhotoCoords`, `Coords.GetSkinCoords` and
`Compositor.TransformImage` model both copies. `Img2Skin` proves that the
script's table equals the library's. The script's two loops
(img2skin.py:167-212) and its `transformImage` are the library's code with
the two offset globals turned into parameters, so the model reuses the
library's builders for them rather than writing them out a second time.

Modules, one per component:

| file | module | component |
|---|---|---|
| geometry.dfy | Geometry | points and half-open rectangles (the image library's `(left, upper, right, lower)` boxes) |
| raster.dfy | Raster | RGBA pixels, row-major grids, the blank-canvas / crop / paste primitives |
| compositor.dfy | Compositor | copy instructions and `transform_image` |
| layout.dfy | Layout | the 36-part table and its static facts |
| coords.dfy | Coords | `get_photo_coords` and `get_skin_coords` |
| fallback.dfy | Fallback | the reference colours and the name-based choice among them |
| mapping.dfy | Mapping | the forward and reverse loops of `build_skin` and `build_thumbnail` |
| skin.dfy | Skin | the two images, and what each of their pixels shows with the offset applied once |
| doubled.dfy | DoubledOffset | what `build_skin` as written produces, with the offset applied twice |
| img2skin.dfy | Img2Skin | the script's table and main block |

The builders take the part table as a parameter, where `build_skin` and
`build_thumbnail` read the module-level `parts` dict. The per-pixel lemmas
hold for any table with the `Layout.ValidLayout` property, and
`Layout.PartsAreValidLayout` proves the real table has it.

Three facts about the code shape the model:

- The preview canvas is as large as the skin (`skin.width x skin.height`,
  photo2skin.py:216).
- `paste` is called without a mask (photo2skin.py:101). It overwrites, and a
  transparent source pixel replaces the canvas pixel. There is no alpha
  compositing.
- The atlas rectangles leave gaps in the 64 x 64 skin. They are pairwise
  disjoint, but pixel (0, 0) lies in none of them and stays transparent
  (`Layout.CornerInNoPart`, `Skin.SkinCornerIsTransparent`).

## Model

| member | source | states |
|---|---|---|
| Raster.NewCanvas | photo2skin.py:91 | the new canvas has the requested width and height, and every pixel is the background colour |
| Raster.Crop | photo2skin.py:100 | the crop has the box's size, and its pixel (x, y) is the source pixel at the box corner plus (x, y) |
| Raster.Paste | photo2skin.py:101 | paste keeps the canvas size; pixels inside the box take the clip's pixel and pixels outside keep the canvas pixel (no mask, no blending) |
| Raster.CropAfterPaste | photo2skin.py:100-101 | cropping the box just pasted gives back exactly the clip |
| Raster.PasteOwnCrop | photo2skin.py:100-101 | pasting a crop back where it came from leaves the image unchanged |
| Compositor.Apply | photo2skin.py:95-101 | one mapping entry changes exactly the pixels of its destination box, each to the source pixel at the same offset inside the source box |
| Compositor.TransformImage | photo2skin.py:91-103 | the result is a rectangular image of the requested width and height, whatever the mapping |
| Compositor.LastCoverWins | photo2skin.py:93-101 | a pixel covered by entry k and by no later entry shows entry k's source pixel: later entries overwrite earlier ones |
| Compositor.UncoveredKeepsBackground | photo2skin.py:91-101 | a pixel no entry covers keeps the background colour |
| Compositor.CoveredPixel | photo2skin.py:93-101 | with pairwise disjoint destinations, a covered pixel shows the source pixel of the one entry covering it |
| Compositor.OrderIndependent | photo2skin.py:93-101 | with disjoint destinations, two mappings holding the same entries in any order produce the same image |
| Layout.Parts | photo2skin.py:37-74 | the table has 36 rows, one per entry of the `parts` dict, in the dict's order, each with its atlas box and photo corner |
| Layout.NamesDistinct | photo2skin.py:37-74 | no two rows share a part name, so the rows are exactly the dict's keys and a sequence in table order loses no entry |
| Layout.AtlasRectsInsideSkin | photo2skin.py:37-74 | the table has 36 rows, and every atlas rectangle is non-empty and lies inside the 64 x 64 skin |
| Layout.AtlasRectsDisjoint | photo2skin.py:37-74 | no two atlas rectangles share a pixel |
| Layout.CornerInNoPart | photo2skin.py:37-74 | the atlas rectangles leave gaps: pixel (0, 0) lies in none of them |
| Layout.SentinelIsPair | photo2skin.py:36-74 | a part is absent from the photo exactly when its photo corner is the pair (-1, -1); otherwise both coordinates are non-negative |
| Layout.SixteenPhotoBacked | photo2skin.py:37-74 | exactly the sixteen listed rows have a photo block |
| Layout.PhotoRectsDisjoint | photo2skin.py:37-74 | no two photo-backed parts' photo blocks overlap |
| Layout.PartsAreValidLayout | photo2skin.py:37-74 | the table satisfies every layout fact the pixel lemmas rely on |
| Coords.GetPhotoCoords | photo2skin.py:106-121 | the result is None exactly when the stored photo x is -1; otherwise it is the stored corner shifted by the offset |
| Coords.GetSkinCoords | photo2skin.py:124-130 | the result is the atlas rectangle's top-left corner, which lies in the rectangle exactly when the rectangle is non-empty |
| Coords.ResolvedRows | photo2skin.py:116-121 | over the whole table, the resolver returns a corner exactly for the sixteen photo-backed rows, whatever the offset |
| Coords.ShiftAfterResolve | photo2skin.py:121 | resolving with one offset and then shifting by a second is the same as resolving with their sum |
| Fallback.MissingCharMeansNoOccurrence | photo2skin.py:171-175 | a name lacking one of the letters of a word does not contain the word (Python `in` on strings) |
| Fallback.FallbackColour | photo2skin.py:170-176 | the colour is never light grey or black; it is dark grey iff the name contains "Bottom"; blue iff it contains "Leg" but neither "Bottom" nor "Arm"; green otherwise |
| Fallback.BottomWinsOverLeg | photo2skin.py:175-176 | "leftLegBottom" is painted dark grey: the bottom test overrides the leg test |
| Fallback.LegFaceIsBlue | photo2skin.py:170-172 | "rightLegTop" is painted blue |
| Fallback.ArmFaceIsGreen | photo2skin.py:170-174 | "rightArmTop" is painted green |
| Mapping.ForwardInstruction | photo2skin.py:166-188 | the forward entry keeps the part's name, writes the atlas rectangle, and has its size; a photo-backed part reads the photo at its corner plus TWICE the offset; any other part reads its fallback image from (0, 0) |
| Mapping.ForwardInstructionOnce | photo2skin.py:166-188 | the corrected entry: the same, except that a photo-backed part reads the photo block at its corner plus the offset once |
| Mapping.MapParts | photo2skin.py:165 | one entry per part, in table order, each built from its own part |
| Mapping.BuildForward | photo2skin.py:164-189 | the forward mapping has one entry per part, entry i is part i's forward entry, and its name and destination are part i's |
| Mapping.BuildForwardOnce | photo2skin.py:164-189 | the same for the corrected single-offset entries |
| Mapping.ReverseStep | photo2skin.py:204-213 | a part is skipped exactly when it has no photo block; otherwise its entry reads the skin's atlas rectangle and writes the photo block shifted by the offset once |
| Mapping.BuildReverse | photo2skin.py:203-214 | the reverse mapping has one entry per photo-backed part |
| Mapping.ReverseEntriesFromTable | photo2skin.py:203-214 | every reverse entry is the reverse entry of some photo-backed part |
| Mapping.ReverseEntriesCoverTable | photo2skin.py:203-214 | every photo-backed part's reverse entry is in the reverse mapping |
| Mapping.ReverseEntryPosition | photo2skin.py:203-214 | each photo-backed part's entry sits at some position of the reverse mapping |
| Mapping.ReverseHasSixteenEntries | photo2skin.py:203-214 | for the real table the reverse mapping has sixteen entries |
| Mapping.ForwardDestsDisjoint | photo2skin.py:186-188 | forward entries write pairwise disjoint boxes whenever the atlas rectangles are disjoint |
| Mapping.ReverseDestsDisjoint | photo2skin.py:205-213 | reverse entries write pairwise disjoint boxes whenever the photo blocks are disjoint |
| Mapping.ForwardReadsAtDoubleOffset | photo2skin.py:166-183 | the as-written entry reads where the resolver with twice the offset points, and equals the corrected entry at twice the offset |
| Mapping.ForwardIsOnceWithDoubledOffset | photo2skin.py:164-189 | the as-written forward mapping equals the corrected mapping at twice the offset |
| Skin.BuildSkin | photo2skin.py:191-192 | the skin is a rectangular 64 x 64 image |
| Skin.BuildSkinOnce | photo2skin.py:191-192 | the corrected skin is a rectangular 64 x 64 image |
| DoubledOffset.BuildSkinDoublesOffset | photo2skin.py:164-192 | the as-written skin is the corrected skin built with twice the offset |
| Skin.ReverseFits | photo2skin.py:211-216 | every crop of the reverse mapping lies inside the skin |
| Skin.BuildThumbnail | photo2skin.py:216 | the preview is rectangular and as large as the skin |
| Skin.SkinPixel | photo2skin.py:164-192 | in the corrected skin, every pixel of a part's atlas rectangle shows that part's pixel: its photo block at the corner plus the offset once, or its fallback image |
| DoubledOffset.SkinPixelAsWritten | photo2skin.py:164-192 | in the skin as `build_skin` makes it, every pixel of a part's atlas rectangle shows that part's pixel: its photo block at the corner plus TWICE the offset, or its fallback image |
| Skin.SkinUncovered | photo2skin.py:191-192 | a skin pixel outside every atlas rectangle stays transparent |
| Skin.SkinCornerIsTransparent | photo2skin.py:191-192 | the skin's corner pixel (0, 0) is transparent, whatever the photo and offset |
| Skin.SkinPhotoPixel | photo2skin.py:182-192 | inside a photo-backed part, the corrected skin shows the photo pixel at the same position in the part's shifted photo block |
| Skin.SkinShowsPhotoBlock | photo2skin.py:182-192 | the corrected skin shows a photo-backed part's whole shifted photo block inside its atlas rectangle |
| Skin.ThumbnailPixel | photo2skin.py:203-216 | a preview pixel inside a photo-backed part's shifted block shows the matching pixel of the part's atlas rectangle |
| Skin.ThumbnailUncovered | photo2skin.py:216 | a preview pixel outside every shifted photo block stays white |
| Skin.PreviewOfPhotoBlock | photo2skin.py:198-216 | a preview, taken with one offset, of a skin holding a block read with another offset shows the photo moved by the difference |
| Skin.RoundTrip | photo2skin.py:133-216 | corrected skin with one offset, then preview with another: inside every photo-backed block the preview shows the photo moved by the difference of the offsets |
| DoubledOffset.RoundTripAsWritten | photo2skin.py:133-216 | skin as `build_skin` makes it with one offset, then preview with another: inside every photo-backed block the preview shows the photo moved by twice the first offset less the second |
| Skin.PreviewReproducesPhoto | photo2skin.py:133-216 | with the corrected skin and the same offset on both sides, the preview shows the photo itself inside every photo-backed block |
| DoubledOffset.PreviewShowsShiftedPhoto | photo2skin.py:164-216 | as written, preview pixel (x, y) inside a photo-backed block shows photo pixel (x + offsetX, y + offsetY) |
| Img2Skin.LegacyParts | img2skin.py:36-73 | the script's table has 36 rows, one per entry of its `parts` dict, in the dict's order, each with its atlas box and photo corner |
| Img2Skin.SameTableAsLibrary | img2skin.py:36-73 | the script's table equals the library's table, row for row |
| Img2Skin.Convert | img2skin.py:167-214 | the script's skin and preview are 64 x 64 and equal the library's `build_skin` and `build_thumbnail` results for the same photo and offset |
| Img2Skin.ConvertShowsShiftedPhoto | img2skin.py:186 | the script's preview shows the photo moved by the offset too, because it also adds the offset twice |

## Left out

- Opening, saving and closing files; the command line; logging; and the
  helpers in `mylib.py`. The photo and the five reference images are
  parameters (`photo`, `palette`).
- The resize to a 64-pixel short side (photo2skin.py:148-155 and img2skin.py:152-158). It uses
  floating-point scaling and the image library's resampling. The model starts
  from the resized photo.
- The contents of the five reference images and the golden test images.
  The model proves what each output pixel is in terms of the inputs; it does
  not compare against stored files.
- Raster.Crop: requires the box to lie inside the image. The image library
  pads an out-of-range crop with zero pixels; that padding is not modelled,
  so every crop of the model must fit (`Compositor.AllFit`).
- The RGBA mode conversion of non-RGBA sources on paste is not modelled.
  Pixels are RGBA throughout.
- Compositor.TransformImage: its contract states only the image size. What
  each pixel shows is stated by `Compositor.LastCoverWins`,
  `Compositor.UncoveredKeepsBackground` and `Compositor.CoveredPixel`.
- Mapping dictionaries are modelled as sequences in table order. Part names
  are unique, so the dictionary holds one entry per part, in insertion order.
- The root-level `test_photo2skin.py` and the pixel-exact comparisons in
  `tests/test_photo2skin.py`. They compare against image files, which are not
  part of this model.
- The `__main__` block of photo2skin.py (photo2skin.py:221-243) only parses
  arguments and saves the two images that `Skin.BuildSkin` and
  `Skin.BuildThumbnail` produce.

## Findings

| source | as written | input that shows it | evidently intended | confidence | as-written member | corrected member |
|---|---|---|---|---|---|---|
| photo2skin.py:183 (and img2skin.py:186) | `get_photo_coords` already adds the offset (photo2skin.py:121), and the forward loop adds it a second time, so the skin reads each photo block at corner + 2 * offset, while the preview writes it at corner + offset | any nonzero offset, e.g. (6, 5) as in the package's own thumbnail test, with a photo that is not constant: the preview pixel (x, y) inside a photo block shows photo pixel (x + 6, y + 5) instead of (x, y) | apply the offset once, in the resolver, so that the preview reproduces the photo inside every photo-backed block | medium, not executed (the tests' golden images presumably come from the as-written code, so they would not reveal it) | DoubledOffset.PreviewShowsShiftedPhoto | Skin.PreviewReproducesPhoto |
