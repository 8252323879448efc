# Sliggy and Slippry: a Dafny model of two SDL element libraries

The repository ships two small C libraries that draw user-interface elements
with SDL. This project models the integer logic of both and proves properties
of it.

**Sliggy** (`Sliggy.c`) is the library the demo program uses:

- **Element registry.** Elements are created from a builder and kept in a
  string-keyed open-addressing hash map. An element keeps its own text
  objects in a second map of the same kind.
- **Font atlas.** The atlas is read from the lines of a bitmap-font
  description: `info`, `common`, `chars` and `char` records.
- **Text objects.** Each one holds its glyphs, its scale and the width of
  each word.
- **Drawing.** An element is drawn as a nine-slice skin: 16 vertices and a
  fixed table of 54 indices. Each text object becomes one quad per glyph,
  with a look-ahead word wrap after every space.

**Slippry** (`Slippry.c`) is the older variant. Its element is a rounded
rectangle:

- three filled rectangles;
- four corner arcs, made by the midpoint circle algorithm into growable
  point buffers that drop a repeated point;
- a straight border;
- the arc points that lie on the outline;
- a welded test mesh of the arc points, six indices per point, with shared
  vertices.

## Modules

- **`Wrappers`**: `Option`.
- **`CTypes`**: the C integer behaviour the code relies on:
  - signed `char`, `unsigned char` and `int` conversions;
  - truncating `/` and `%`;
  - truncation of a product with a fraction;
  - `atoi`.
- **`Sdl`**: points, rectangles, vertices and textures, as plain values.
- **`Registry`** and **`RegistryProperties`**: `hashName`, and the
  probe-to-insert and probe-to-find functions. `Table` is the map class: an
  array of `Option` slots, a `count` and a `limit`.
- **`FontAtlas`** and **`FontAtlasProperties`**: the font state and the
  `Atlas` class, whose `ProcessLine` applies one tokenized line.
- **`TextLayout`**: `CreateTextObject`.
- **`Mesh`** and **`MeshProperties`**: the nine-slice grid, the index table,
  and the glyph-quad mesh with its word wrap.
- **`Elements`** and **`ElementsProperties`**:
  - the builder class and its setters;
  - the element class;
  - the library context class (`SL_Init`'s globals and the element map);
  - `SL_CreateElement`, `SL_DrawElement`, and the activation flags.
- **`Slippry`** and **`SlippryProperties`**: the whole Slippry core.

Each stateful operation is a method on a class, proved against a function of
the old state. The properties are lemmas about those functions.

For the following undefined behaviours in C, the model returns an explicit
fault rather than assuming them away: an out-of-range slot or glyph index, a
division by zero, a write through the NULL glyph array, and a seventeenth
`SL_BuilderAddTextObject`, which writes past the builder's 16-entry buffer
(Sliggy.c:189) and is reported as a failed add. The memory errors and
indeterminate fields listed under "## Left out" are different: there the
model gives the intended contents (or a fixed value) instead of a fault.

### Details of the code the model follows

- **Hash modulus.** `hashName` reduces modulo `UINT32_MAX`, which is
  2^32 − 1, not 2^32. It then reduces modulo the global `mapLimit`, even for
  an element's text-object map.
- **Text draw calls.** `SL_DrawElement` issues one geometry call per text
  object (Sliggy.c:670).
- **Where a line wraps.** The advance of the space itself is added before
  the wrap test (Sliggy.c:658-666). A line breaks after a space exactly when
  the pen is then past the element's right edge, or the next word's stored
  width would take it there (`WrapCondition`). So "ab cd ef" with advance 10
  in a 25-pixel element breaks after "ab " and again after "cd "
  (`WrapExample`).

### Behaviour kept as written

The model keeps these behaviours exactly as the code does them, and states
each with a lemma:

- **No rehash on growth.** `addItemToMap` doubles `limit` when `count`
  reaches it, but keeps the old array and does not rehash. So after growth,
  every probe that passes the old end faults (`InsertAfterGrowth`,
  `LookupAfterGrowth`). A name stored before the growth can become
  unreachable (`GrowthLosesStoredName`).
- **Text maps hashed with the global limit.** A text map of 32 slots hashed
  with a global limit of 64 is probed past its end
  (`TextTableProbedPastEnd`).
- **Negative hash results.** A long enough name makes the `int` cast
  negative, and so does the slot index (`LongNameHashesNegative`).
- **First glyph id 0.** When the first glyph has id 0, `font_start` stays
  unset, and the next glyph overwrites slot 0 (`ZeroIdGlyphOverwritten`).
- **Last word width.** The last word's width is never stored and stays 0
  (`TextLayout.StoredWidths`).

## Model

| member | source | states |
|---|---|---|
| CTypes.SChar | Sliggy.c:464 | a `char` byte read as signed: the byte itself below 128, otherwise the byte minus 256 |
| CTypes.ToSChar | Sliggy.c:315-319 | the `char` that an `int` is stored into: in [-128, 128), congruent to the value modulo 256, and unchanged when it already fits |
| CTypes.ToUChar | Sliggy.c:321-322 | the `unsigned char` that an `int` is stored into: in [0, 256), congruent modulo 256, and unchanged when it fits |
| CTypes.ToInt32 | Sliggy.c:468 | the `(int)` cast of an unsigned value: in the 32-bit range, congruent modulo 2^32, and negative exactly when the value is at least 2^31 |
| CTypes.CDiv | Sliggy.c:410-411 | C division truncates toward zero: the quotient times the divisor lies between zero and the dividend, within one divisor of it |
| CTypes.CRem | Sliggy.c:468 | C `%` takes the sign of the dividend, its magnitude is below the divisor, and dividend = quotient × divisor + remainder |
| CTypes.Scaled | Sliggy.c:397-400 | `(int)(v * f)` for a fraction f: the product truncated toward zero |
| CTypes.Decimal | Sliggy.c:297 | the decimal text of an integer: nonempty, with a leading '-' exactly for negatives |
| CTypes.AtoiDecimal | Sliggy.c:297 | `atoi` reads back every integer from its decimal text |
| Registry.HashFold | Sliggy.c:460-467 | the folded hash `hash = (hash + c) << 1` over the name's signed bytes stays in the unsigned 64-bit range |
| Registry.HashCast | Sliggy.c:468 | `(int)(hash % UINT32_MAX)` lies in the 32-bit signed range |
| Registry.HashName | Sliggy.c:459-469 | the slot index lies in [0, mapLimit) when the cast hash is non-negative, and in (-mapLimit, 0] otherwise |
| Registry.InsertProbe | Sliggy.c:490-494 | a probe that ends on a slot ends on an empty slot inside the array |
| Registry.LookupProbe | Sliggy.c:525-558 | a probe that finds something finds an occupied slot holding that name |
| Registry.Table.constructor | Sliggy.c:355-359 | a table of n empty slots, count 0 and limit n |
| Registry.Table.AddItem | Sliggy.c:489-519 | the probe's result. On a free slot, only that slot changes, and it now holds the entry; count grows by one; limit doubles when count reaches it. A fault changes nothing; the probe never runs forever |
| Registry.Table.FindFree | Sliggy.c:490-494 | the probe loop returns what InsertProbe predicts, and never loops forever on a valid table |
| Registry.Table.Fill | Sliggy.c:495-517 | the write of the entry, the count increment and the limit doubling; no other slot changes |
| Registry.Table.GetItem | Sliggy.c:525-558 | the do-while probe returns what LookupProbe predicts |
| Registry.FullAfterGrowth | Sliggy.c:499-503 | when count equals the array size, every slot is occupied |
| Registry.InsertNeverEndless | Sliggy.c:492-494 | the insert probe ends when a free slot exists or the limit has doubled |
| RegistryProperties.LookupCorrect | Sliggy.c:525-558 | on a full-size limit the lookup never faults; it finds the name exactly when some slot holds it; it returns the first such slot on the probe path |
| RegistryProperties.InsertLandsOnFirstEmpty | Sliggy.c:489-495 | the insert lands on the first empty slot of the probe path; every slot before it is occupied |
| RegistryProperties.InsertThenLookup | Sliggy.c:489-558 | after an insert, looking the name up finds it at or before the new slot. An earlier hit is an older duplicate; with no duplicate, the hit is the new slot |
| RegistryProperties.InsertAfterGrowth | Sliggy.c:500-503 | once the limit has doubled over a full array, every insert probe runs off the array's end |
| RegistryProperties.LookupAfterGrowth | Sliggy.c:525-556 | after growth, a lookup never reports "absent". It finds a slot at or after the hash, or faults when none there holds the name |
| RegistryProperties.MomHashes | Sliggy.c:459-469 | the name "Mom?" hashes to 26 with limit 32 and to 58 with limit 64 |
| RegistryProperties.GrowthLosesStoredName | Sliggy.c:500-556 | a name stored at slot 26 of a 32-slot map is found before growth; after the limit doubles to 64, looking it up faults |
| RegistryProperties.TextTableProbedPastEnd | Sliggy.c:418-421 | a 32-slot text map hashed with a global limit of 64 starts probing at 50, past its end |
| RegistryProperties.HashFoldRepeat | Sliggy.c:460-467 | n copies of byte c fold to c × (2^(n+1) − 2) |
| RegistryProperties.LongNameHashesNegative | Sliggy.c:468 | twenty-four '~' characters hash to slot −28 with limit 32, so inserting that name faults |
| FontAtlas.KeyIndex | Sliggy.c:296-323 | the `strcmp` chain over the keys: the first key equal to the token, or past the end exactly when the token is no key |
| FontAtlas.Atlas.constructor | Sliggy.c:95-101 | the atlas before any line: no glyph array, start 0 |
| FontAtlas.Atlas.ProcessLine | Sliggy.c:241-336 | one line's dispatch on its tag; the new state is the pure `Apply` of the old one, and a fault is reported |
| FontAtlas.Atlas.ReadInfo | Sliggy.c:253-263 | an `info` line sets only the font size |
| FontAtlas.Atlas.ReadCommon | Sliggy.c:264-279 | a `common` line sets only the texture width, texture height and line height |
| FontAtlas.Atlas.ReadChar | Sliggy.c:280-335 | a `char` line scans its fields, then stores the glyph, as `Apply` predicts |
| FontAtlas.Atlas.ScanChar | Sliggy.c:291-324 | the key/value loop: the fields and font_start it computes are those of `ScanFrom` and `StartFrom`; nothing else changes |
| FontAtlas.Atlas.Store | Sliggy.c:325-334 | the glyph built from the fields is stored at `id − font_start`, or the store faults |
| FontAtlas.Atlas.LoadFont | Sliggy.c:236-343 | every line applied in order; the final state is `ApplyAll` of the lines |
| FontAtlasProperties.ScanFaults | Sliggy.c:291-324 | the scan faults exactly when a known key is the line's last token, so its value would be NULL |
| FontAtlasProperties.ScanUntouched | Sliggy.c:291-324 | a field whose key does not appear keeps its previous value |
| FontAtlasProperties.ScanLastWins | Sliggy.c:291-324 | a field takes the `atoi` of the value after its last occurrence |
| FontAtlasProperties.FontStartSetOnce | Sliggy.c:299-301 | once font_start is nonzero, no line changes it |
| FontAtlasProperties.FirstIdSetsStart | Sliggy.c:296-301 | a leading nonzero id sets font_start when it was 0 |
| FontAtlasProperties.CharLineFields | Sliggy.c:291-324 | a well-formed `char` line fills all eight fields with its values |
| FontAtlasProperties.StoreFields | Sliggy.c:325-334 | the store writes exactly index `id − start`, or faults when that is out of range |
| FontAtlasProperties.CharLineStoresGlyph | Sliggy.c:296-334 | a well-formed `char` line stores its glyph at `id − font_start`, with font_start taken from this id when it was 0 |
| FontAtlasProperties.CharLineStart | Sliggy.c:299-301 | the font_start after a well-formed `char` line |
| FontAtlasProperties.ConsecutiveGlyphs | Sliggy.c:244-334 | `chars count=2` followed by glyphs with ids n and n+1 (n ≠ 0) yields both glyphs in order, with start n |
| FontAtlasProperties.ZeroIdGlyphOverwritten | Sliggy.c:299-334 | a first glyph with id 0 leaves font_start at 0, and the next glyph overwrites slot 0 |
| FontAtlasProperties.ApplyKeepsGlyphCount | Sliggy.c:253-335 | an `info`, `common` or `char` line, or an unknown one, keeps the number of glyphs; a `char` line replaces one slot |
| FontAtlasProperties.ApplyAllKeepsGlyphCount | Sliggy.c:241-336 | lines without a `chars` record, applied in order, keep the number of glyphs |
| FontAtlasProperties.ApplyAllAppend | Sliggy.c:241-336 | reading a + b is reading a, then b from the font a left |
| FontAtlasProperties.DeclaredGlyphCount | Sliggy.c:244-336 | a file whose last `chars` record declares n glyphs ends, if it loads, with exactly n glyphs |
| FontAtlasProperties.IdWhileStartZero | Sliggy.c:291-301 | when a `char` record's pair loop leaves font_start 0, the last id it read is 0 or absent |
| FontAtlasProperties.ApplyKeepsSlotIds | Sliggy.c:244-335 | every line keeps each glyph slot j holding char 0 or the char of font_start + j |
| FontAtlasProperties.LoadedSlotsHoldIds | Sliggy.c:241-336 | a whole file keeps that slot invariant, from globals that have it |
| FontAtlasProperties.VRangeFlipped | Sliggy.c:329-332 | for positive sizes, v_max < v_min and u_min < u_max |
| TextLayout.Split | Sliggy.c:684-689 | a text splits into one more word than it has spaces, and no word contains a space |
| TextLayoutProperties.JoinSplit | Sliggy.c:684-689 | joining the words with spaces gives back the text |
| TextLayout.ScaleOf | Sliggy.c:680 | the scale is desired size / font size as an exact fraction |
| TextLayout.WordWidthsOf | Sliggy.c:692-703 | one running width per word |
| TextLayout.StoredWidths | Sliggy.c:690-703 | the stored widths: one per word, the last left at 0 |
| TextLayout.WidthsAfterSpace | Sliggy.c:696-698 | a space closes the current word and opens one of width 0 |
| TextLayout.WidthsAfterLetter | Sliggy.c:700-702 | a letter adds its truncated scaled advance to the current word only |
| TextLayout.GlyphsOf | Sliggy.c:695 | one glyph per character |
| TextLayout.PlaceGlyph | Sliggy.c:694-703 | one round of the glyph loop: glyph i is copied; a space stores the running width of the word it ends and opens a new word; other bytes add their truncated scaled advance |
| TextLayout.CountWords | Sliggy.c:684-689 | the counting loop: length is the number of bytes before the NUL; num_words is the number of spaces plus one |
| TextLayout.CreateTextObject | Sliggy.c:674-705 | the text object `TextObjectOf` describes: glyphs in text order; stored widths; scale; start; or a fault on a missing glyph or zero font size |
| Mesh.NineSlice | Sliggy.c:570-599 | 16 vertices; vertex 4y+x is the grid point (x, y) with offsets {0, step, size−step, size} and UV (x/3, y/3) |
| MeshProperties.TableRows | Sliggy.c:131-143 | the index table has 54 entries, six per cell, in the fixed cell pattern |
| MeshProperties.IndicesSplitCells | Sliggy.c:131-143 | each six-entry row splits its grid cell into two triangles that share the cell's diagonal |
| MeshProperties.IndicesInRange | Sliggy.c:131-143 | every index in the table is in [0, 16) |
| MeshProperties.StepsOrdered | Sliggy.c:570-585 | the grid offsets are non-decreasing exactly when 0 ≤ step and 2·step ≤ size |
| MeshProperties.SliceCorners | Sliggy.c:586-597 | the first vertex is the rect's top-left corner with UV (0,0); the last is its bottom-right with UV (1,1) |
| Mesh.QuadIndices | Sliggy.c:618-626 | six indices per glyph |
| Mesh.QuadIndicesOf | Sliggy.c:624-626 | the inner index loop writes glyph i's six indices and nothing past them |
| MeshProperties.QuadIndicesInRange | Sliggy.c:618-626 | glyph i's indices lie in [4i, 4i+4), and every index is below 4 × length |
| Mesh.DrawText | Sliggy.c:602-671 | the glyph loop with its x/y/word cursor yields the mesh `TextMeshOf` predicts, or faults on an out-of-range word width |
| MeshProperties.QuadsCopyGlyphs | Sliggy.c:628-657 | one quad per glyph; quad k carries glyph k and the text scale; the first quad sits at the start cursor |
| MeshProperties.WrapOnlyAfterSpace | Sliggy.c:658-666 | after a non-space glyph the cursor moves by the scaled advance; after a space it either does that or wraps to the line start one scaled line height down |
| MeshProperties.WrapCondition | Sliggy.c:658-666 | for a positive scaled line height: the pen changes line exactly after a space whose advance takes it past the limit, or when the next word's width would; a new line starts at home one line lower, otherwise the pen moves by the advance |
| MeshProperties.WrapExample | Sliggy.c:602-667 | "ab cd ef", advance 10, stored widths 20, 20, 0, element width 25: the pens are (0,0), (10,0), (20,0), then (0,12), (10,12), (20,12), then (0,24), (10,24) |
| MeshProperties.NoFaultWithinWords | Sliggy.c:660-662 | the mesh never faults while the word counter plus the spaces still ahead stays below the number of word widths |
| MeshProperties.SpaceGlyphsOfText | Sliggy.c:695-696 | when the font maps spaces (and only spaces) to the space glyph, the text's glyphs contain as many space glyphs as the text has spaces |
| MeshProperties.OnlySpaceIsSpaceGlyph | Sliggy.c:455-457 | in a font whose slots hold their ids, a byte whose glyph carries the space character is a space |
| MeshProperties.SpaceGlyphsAtMost | Sliggy.c:694-696 | in such a font a text's glyphs hold no more space glyphs than the text has spaces |
| MeshProperties.CreatedTextLaysOut | Sliggy.c:674-705 | a text object created from a font whose slots hold their ids lays out without an out-of-range word-width read |
| MeshProperties.LoadedTextLaysOut | Sliggy.c:641-705 | every text object created from a font read by `SL_BuilderSetFont` into the zeroed globals lays out without an out-of-range word-width read |
| Elements.Activated | Sliggy.c:719-722 | the ACTIVE bit is set; every other bit is kept |
| Elements.Deactivated | Sliggy.c:724-727 | the ACTIVE bit is cleared; every other bit is kept |
| Elements.Narrow | Sliggy.c:402 | the builder's int flags stored into the element's narrower flags field keep their low 16 bits |
| Elements.RectOf | Sliggy.c:390-401 | with ABSOLUTE set, the absolute rect verbatim; otherwise each fraction times the screen size, truncated |
| Elements.Builder.constructor | Sliggy.c:147-172 | a builder with zero dimensions, only the ACTIVE flag, the given skin and no text objects |
| Elements.Builder.AddTextObject | Sliggy.c:174-190 | appends a text spec whose id is the text when none is given; an add to a full builder, which C performs as a write past the buffer, is a fault that changes nothing |
| Elements.Builder.SetDimensionsAbsolute | Sliggy.c:192-202 | each given coordinate replaces its absolute value; the ABSOLUTE flag is added |
| Elements.Builder.SetDimensionsRelative | Sliggy.c:204-213 | each given fraction replaces its relative value |
| Elements.Builder.SetName | Sliggy.c:215-217 | only the name changes |
| Elements.Builder.SetTexture | Sliggy.c:219-221 | only the skin changes |
| Elements.Builder.SetActive | Sliggy.c:223-230 | a nonzero argument sets ACTIVE and zero clears it; no other bit changes |
| Elements.Builder.SetFont | Sliggy.c:236-343 | the atlas becomes `ApplyAll` of the font lines; the builder's font texture is set |
| Elements.EmptySlots | Sliggy.c:414-416 | a fresh text map: MAP_INIT empty slots |
| Elements.InsertTexts | Sliggy.c:418-431 | the text-object loop keeps the map size and records one slot per spec |
| ElementsProperties.InsertTextsPlaces | Sliggy.c:418-431 | spec k is stored, under its id, at a slot that was empty; the iterator records that slot at position k; no slot is used twice; every other slot is unchanged |
| Elements.Element.constructor | Sliggy.c:378-416 | an element with the builder's name, skin, steps, rect, flags and font, and an empty text map |
| Elements.Element.FillTexts | Sliggy.c:418-431 | the text map and iterator become what `InsertTexts` predicts |
| Elements.Element.PlaceText | Sliggy.c:420-429 | one round of the loop: the entry is stored and its slot recorded at position i, so the prefix of the iterator and the rest of `InsertTexts` account for the same result as before; a fault makes the whole loop a fault |
| Elements.Element.Populate | Sliggy.c:378-431 | the element's state becomes `ElementOf` of the builder, or a fault is reported |
| Elements.ClaimedSlot | Sliggy.c:382-387 | in managed mode the element goes to an empty slot of the element map |
| Elements.Context.Init | Sliggy.c:348-361 | the globals are stored; in managed mode a map of MAP_INIT empty slots with count 0 and limit MAP_INIT exists |
| Elements.Context.CreateElement | Sliggy.c:378-440 | in managed mode the element claims a slot of the map; the created element is `ElementOf` of the builder with the global limit |
| Elements.Context.Claim | Sliggy.c:382-387 | the element map's insert with the new element |
| Elements.Context.GetElement | Sliggy.c:521-523 | the lookup of the global map; a hit returns the element stored under that name; no map gives a fault |
| ElementsProperties.CreatedElementHoldsTexts | Sliggy.c:378-431 | the created element carries the builder's name, skin, font, flags and rect; text k sits at iterator slot k under its id; the other slots stay empty |
| ElementsProperties.CreatedElementFound | Sliggy.c:382-558 | a new name placed by CreateElement without growth is found by getElementFromMap at the slot it was placed in |
| Elements.NineSliceIsSkin | Sliggy.c:570-600 | the nine-slice loop's vertices are the skin vertices of the draw call |
| Elements.TextMeshes | Sliggy.c:602-671 | the text loop walks the iterator in order and yields one mesh per text object |
| Elements.DrawElement | Sliggy.c:560-672 | a NULL element draws nothing; otherwise the calls are `DrawCallsOf` the element's state |
| ElementsProperties.MeshesOfEach | Sliggy.c:602-671 | the text meshes exist exactly when each text object lays out; mesh k is that of text object k |
| ElementsProperties.DrawCallsShape | Sliggy.c:560-672 | an inactive element draws nothing. An active one draws the skin with the index table, then one text call per iterator entry with that text's mesh |
| ElementsProperties.CreatedElementDrawsInBuilderOrder | Sliggy.c:418-431 | for a created element, draw call 1+k is text spec k's mesh, in the order the builder added them |
| Elements.ElementIsActive | Sliggy.c:714-717 | 0 or 1, and 1 exactly for a non-NULL element with ACTIVE set |
| Elements.ActivateElement | Sliggy.c:719-722 | NULL is left alone; otherwise only ACTIVE is set; the element then reports active |
| Elements.DeactivateElement | Sliggy.c:724-727 | NULL is left alone; otherwise only ACTIVE is cleared; the element then reports inactive |
| Slippry.PointBuffer.constructor | Slippry.c:210 | an empty buffer with capacity INIT_ARRAY_SIZE |
| Slippry.PointBuffer.Add | Slippry.c:447-461 | the stored points become `Pushed` of the old ones (a repeat of the last point is dropped); capacity doubles when count reaches it |
| SlippryProperties.PushedKeeps | Slippry.c:452-456 | an add keeps the stored points and ends with the offered point; the count is unchanged exactly when that point repeats the last |
| SlippryProperties.PushAllNoRepeats | Slippry.c:447-461 | a buffer never holds two equal neighbouring points |
| SlippryProperties.PushAllMembers | Slippry.c:452-456 | a point is stored after the adds exactly when it was stored before or offered |
| Slippry.Next | Slippry.c:432-441 | each round raises y, lowers x, or both, so x − y strictly decreases and the loop ends |
| Slippry.Center | Slippry.c:386-408 | the arc centre lies one radius from the corner point on each axis, towards the element: left for the right column (corner % 2 == 1), up for the bottom row (corner / 2 == 1); any other corner number is treated as the upper-left default |
| Slippry.GenerateCircle | Slippry.c:376-443 | the buffer ends holding `Arc`, the points of the midpoint loop offered eight per round |
| Slippry.AddRound | Slippry.c:412-430 | the eight mirrored points of one round are offered in the code's order |
| SlippryProperties.ArcNoRepeats | Slippry.c:410-442 | no arc holds two equal neighbouring points |
| SlippryProperties.StartTracks | Slippry.c:380-384 | the loop's starting values satisfy the midpoint invariant: err = x² + y² − r², with dx and dy tied to x and y |
| SlippryProperties.NextTracks | Slippry.c:432-441 | one round keeps the midpoint invariant |
| SlippryProperties.TrackedNear | Slippry.c:410-441 | while x ≥ y, (r−1)² ≤ x² + y² < (r+1)² |
| SlippryProperties.OfferedNearCircle | Slippry.c:410-430 | every point offered lies within one pixel of the circle of radius r about the centre |
| SlippryProperties.ArcNearCircle | Slippry.c:376-442 | every arc point lies within one pixel of its corner's circle |
| SlippryProperties.ArcInsideCorner | Slippry.c:386-430 | every arc point lies strictly inside the 2r square at its corner, on the element's side |
| Slippry.SidesOf | Slippry.c:219-237 | left strip: x+1, width r, from y+r with height h−2r. Right strip: same rows, width r−2, ending one pixel inside the right edge. Centre: from x+r to x+w−r+2, rows y+1 to y+h−1 |
| Slippry.OutlineOf | Slippry.c:239-257 | the eight outline points p1..p8 |
| SlippryProperties.BorderIsStraightSides | Slippry.c:239-257 | the border segments (0,1), (2,3), (4,5), (6,7) are the top and bottom of the centre, and the outer sides of the strips, one pixel inside the rect |
| Slippry.Kept | Slippry.c:259-264 | a corner's filter keeps at most the points it is given |
| SlippryProperties.KeptMembers | Slippry.c:259-264 | a point is kept exactly when it is on the edge and passes its corner's test |
| SlippryProperties.OutlineCurvesMembers | Slippry.c:259-316 | a point is an outline curve point exactly when some corner's edge holds it and it passes that corner's test |
| Slippry.CountKept | Slippry.c:259-283 | a counting loop adds the number of points its filter keeps |
| Slippry.CopyKept | Slippry.c:292-316 | a copying loop writes exactly the kept points from `next` on; it stops at `next` plus their number and leaves the earlier entries alone |
| Slippry.FilterCurves | Slippry.c:259-316 | the counting passes size the array exactly; the copying passes fill it with the kept points of corners 0, 2, 1, 3 in that order |
| Slippry.CornerOffset | Slippry.c:491-497 | the six corner offsets (0,0), (0,1), (1,1), (1,0), (0,0), (2,1) |
| Slippry.FirstAt | Slippry.c:501-507 | the first index holding the position, or absent exactly when no vertex has it |
| Slippry.Search | Slippry.c:500-507 | the search loop returns that first index, or −1 |
| Slippry.WeldCorners | Slippry.c:486-531 | k corners add k indices and at most k vertices |
| Slippry.Welded | Slippry.c:484-556 | six indices per point, and never more vertices than indices |
| Slippry.WeldPoint | Slippry.c:486-555 | the inner loop adds the six corners of one point |
| Slippry.ConvertPointArrayToVertices | Slippry.c:469-559 | the vertex and index arrays are `Welded` of the points |
| SlippryProperties.WeldedInRange | Slippry.c:508-531 | every stored index names an existing vertex |
| SlippryProperties.CornersAtProbes | Slippry.c:486-531 | when a new vertex is stored at the searched position, each corner's index names a vertex at that corner; no vertex appears twice |
| SlippryProperties.WeldedAtProbes | Slippry.c:484-531 | with the searched position stored, the vertices are distinct, and index 6j+k names the vertex at corner k of point j |
| SlippryProperties.WeldedAsWrittenAtPoints | Slippry.c:514-531 | as written, every vertex is one of the input points |
| SlippryProperties.AsWrittenQuadCollapses | Slippry.c:514-531 | as written, a single point's quad collapses: all six indices name a vertex at p, so corners 1, 2, 3 and 5 miss their positions |
| Slippry.BoolFlags | Slippry.c:188-201 | bit 0b1 exactly when is_active is nonzero, 0b10 for border, 0b100 for anti_alias; no other bit |
| Slippry.CornerOrigin | Slippry.c:207-209 | corner i's origin is the rect corner at column i % 2 and row i / 2 |
| Slippry.Edges | Slippry.c:207-217 | four curved edges, one per corner |
| Slippry.GenerateEdges | Slippry.c:207-217 | the corner loop fills each edge with the arc of its corner |
| Slippry.Element.constructor | Slippry.c:179-201 | an element with the builder's name, colour, truncated rect, layer and flags, and no geometry yet |
| Slippry.CreateElement | Slippry.c:176-323 | the element's whole state is `ElementOf` the builder: rects, edges, outline, filtered curves, and the mesh welded as written (a new vertex at the arc point) |
| SlippryProperties.CreatedElementMesh | Slippry.c:287-318 | a created element's mesh has six indices per arc point, each naming a stored vertex, and every vertex is an arc point of some corner |
| Slippry.ElementIsActive | Slippry.c:364-366 | 0 or 1, and 1 exactly when ACTIVE is set |
| Slippry.ActivateElement | Slippry.c:368-370 | sets ACTIVE; no other bit or field changes |
| Slippry.DeactivateElement | Slippry.c:372-374 | clears ACTIVE; no other bit or field changes |
| Slippry.DrawElement | Slippry.c:332-357 | the renderer calls are `DrawCallsOf` the element's state |
| SlippryProperties.DrawCallsShape | Slippry.c:332-357 | white, the three rects, one polyline per curved edge; then black and the four border lines exactly when BORDER is set; blue last |
| SlippryProperties.CreatedElementDraws | Slippry.c:332-357 | for a created element: 12 calls with a border, 7 without. The rects are the centre and strips, each polyline is its corner's arc, and the border is the four straight sides |

## Left out

- **Time, I/O and SDL.**
  - The demo program (`main.c`) and the headers are not part of this model.
  - File reading in `SL_BuilderSetFont` (`fopen` and `fgets` into a 128-byte buffer) is replaced by already-tokenized lines. Splitting on `" ="` is assumed done.
  - Every SDL call is an output value or a parameter. This covers geometry and fill calls, texture queries and scale modes. The skin texture's size arrives as its slice steps.
- **Floating point.**
  - Relative rect fractions, the text scale, the curve and the glyph UVs are exact fractions.
  - `(int)` casts of products are truncations of exact products, so rounding in `float` is not modelled.
  - Glyph vertex positions are modelled as the pen position plus the glyph. Their float coordinates are not computed.
  - `atof` in the `info` and `common` records reads only an integer part.
- **Memory management.**
  - `malloc`, `calloc`, `realloc` and `free` are left out, apart from the fields they leave indeterminate listed below. So are the ownership of the builder and `SL_FreeElement`, `DestroyTextObject` and `SL_Quit`, which only release memory.
  - Slot emptiness (a zero first machine word) is an `Option`.
- **Registry.Table.AddItem:** the `realloc` of a grown map is not modelled; the model keeps the old array and only doubles `limit`. In C the new block is stored only in the local `map_` (Sliggy.c:515-516), so the global map still names the old block, which `realloc` may have freed. The slot pointer computed before the `realloc` (Sliggy.c:495) may then dangle, and `SL_CreateElement` writes through it (Sliggy.c:388, Sliggy.c:423). That use after free is not modelled.
- **TextLayout.CreateTextObject:** the text object's own `id` is never set by the code (Sliggy.c:674-705); the model keys text slots by the builder's id instead. `itemAtAddressExists` tests a slot's first word, which is that unset `id` (Sliggy.c:733-735), so in C whether a filled text slot counts as occupied is indeterminate. The model treats every filled slot as occupied.
- **TextLayout.CreateTextObject:** a zero font size faults even for all-space text, whose infinite scale C would never cast.
- **Elements.TextSpec:** the desired text size is a `float` in the builder (Sliggy.c:74); the model takes integer sizes, so the scale is an integer over the font size.
- **Elements.Context.CreateElement:** in unmanaged mode the element is `malloc`'d (Sliggy.c:386), and its skin texture and slice steps are set only when the builder has a skin (Sliggy.c:404-412). A skin-less unmanaged element therefore has an indeterminate texture pointer and steps in C. The nine-slice grid reads those steps (Sliggy.c:574-583), and `SDL_RenderGeometry` gets the texture (Sliggy.c:600). The model gives such an element steps 0 and no texture (`None`), which is what the `calloc`'d slot of managed mode holds (Sliggy.c:356). It does not fault.
- **Elements.Builder.constructor:** `SL_CreateBuilder` never sets the builder's `name` or `font` (Sliggy.c:147-172), so they are indeterminate until a setter runs. The model starts them as `None`. An element built without `SL_BuilderSetFont` therefore carries no font texture, where C passes an indeterminate pointer to `SDL_SetTextureScaleMode` (Sliggy.c:434) and `SDL_RenderGeometry` (Sliggy.c:670).
- **Integer widths:** the `short` and `int` widths of counts, rect fields and coordinates are not modelled; arithmetic on them is unbounded.
- **Slippry.PointBuffer.Add:** the `short` count is unbounded.
- **Slippry.GenerateCircle:** the final shrinking `realloc` is not modelled, so the capacity is not reduced to the count.
- **Slippry builder setters.** `SL_CreateBuilder`, the eight `SL_BuilderSet*` functions and `SL_Init` only store their arguments. The builder is a value with those fields, and the screen size is a parameter.
- **Slippry.ConvertPointArrayToVertices:** the vertex and index arrays are sequences. Two things are not modelled:
  - their doubling `realloc`, including the stale `vert_arr_ptr` that later writes go through;
  - the `printf` on allocation failure.
- **Slippry.CreateElement:** the welding input is the concatenation of the four curved edges. The code passes `&curved_edges` as one array of `pts` points, which reads past the first edge's buffer. That memory error is not modelled.

## Findings

| source | as written | input that shows it | evidently intended | confidence | as-written member | corrected member |
|---|---|---|---|---|---|---|
| Slippry.c:514-531 | a vertex that was not found is stored at the quad's unshifted point p, not at the searched position p + offset | a single point p: all six indices name a vertex at p, so the quad collapses to a point | store the searched position, so that index 6j+k names the vertex at corner k of point j | not executed | SlippryProperties.AsWrittenQuadCollapses | SlippryProperties.WeldedAtProbes |

`Slippry.ConvertPointArrayToVertices` takes the store mode as a parameter:
`AtPoint` is the code as written and `AtProbe` the corrected store.
`Slippry.CreateElement` uses `AtPoint`, so the created element's mesh is the
one the code builds (`SlippryProperties.CreatedElementMesh`).
