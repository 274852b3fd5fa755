# GL_Sandbox tile map display, modelled in Dafny

This project models the tile-map core of the GL_Sandbox `Display` canvas.

The map is a grid of `mapW` by `mapH` tiles. Each tile has three 16-bit words:
- a layer-1 word (sprite and orientation);
- a layer-2 word;
- a solidity word.

The map is split into square chunks of `chunkSize` tiles. When the view changes, `_updateChunks` works out which chunks the viewport touches. It keeps them as three corner chunks `tlc`, `blc` and `trc`. It then streams their tiles into the instanced tile-property buffer, in three layer-major ranges: `[0, nt)`, `[nt, 2*nt)` and `[2*nt, 3*nt)`.

Along each axis the last chunk may overhang the map by a slack. The copy loop clips at the map's edge, and the counts subtract the slack. The mouse wheel steps the zoom by a quarter and switches the chunk size between 16 and 8 at zoom 5.

Beside the streaming, the model covers:
- `_fillMap`, which fills the layers;
- `_orientTiles`, which rewrites the orientation bytes;
- the pixel loops of `_loadTilesheet`, which cut a decoded image into vertically flipped, colour-keyed tiles;
- the value types of `Utilstructs.cpp`.

Modules:
- `Arith`: arithmetic facts about division and products that the proofs use.
- `Bytes`: 8-, 16- and 32-bit values and their little-endian byte views. The source reads and writes them through `uint8_t*` aliases.
- `Utilstructs`: `uvec2` arithmetic and order, the `vec4`/`mat4` component selectors, and the `SpriteData`/`TexData` records.
- `Chunks`: chunk geometry as pure functions. It covers:
  - slack and last chunk;
  - the viewport test and the corner chunks;
  - tile counts, both as the source computes them and as corrected;
  - the order in which the copy loop visits tiles;
  - the zoom rule.
- `Display`: the `Display` object as a class. Its fields are updated by its methods, its layers are arrays, and the GPU tile-property buffer is an array `tileProps`. The copy, fill and orient loops are methods with loop invariants.
- `Tilesheet`: the repacking loops of `_loadTilesheet` over a fresh texel array, and the two constant tiles.

Zoom and translation are floats in the source. They only ever take multiples of 0.25:
- the zoom starts at 1.0 and steps by 0.25;
- a pan adds whole pixels;
- re-anchoring after a zoom sets `-int * zoom + int`.

The model therefore keeps both in exact quarter units: `viewZoomQ` is the zoom times 4, and `viewTransQX`/`viewTransQY` are the translation times 4. The `(int)` conversions in `_OnMousewheel` become division truncating toward zero, `Display.TruncDiv`.

## Model

| member | source | states |
|---|---|---|
| Bytes.Value | Display.cpp:401-411 | the number a `uint16_t` holds has the word's byte 0 as its low byte and byte 1 as its high byte |
| Bytes.ValueRoundTrip | Display.cpp:401-415 | a word's two bytes and its 16-bit value determine each other, both ways round |
| Bytes.WithHigh | Display.cpp:615-618 | writing byte 1 through the alias sets the high byte and keeps the low byte |
| Bytes.Pack4 | Display.cpp:335-341 | the 32-bit texel built through a byte alias has exactly the four given bytes, in memory order |
| Utilstructs.Add | Utilstructs.cpp:114-118 | each component of the sum is congruent to the sum of the components modulo 2^32 |
| Utilstructs.Sub | Utilstructs.cpp:120-124 | each component of the difference is congruent to the difference modulo 2^32 |
| Utilstructs.SubAfterAdd | Utilstructs.cpp:114-124 | `(l + r) - r == l` for all pairs, wrap-around included |
| Utilstructs.AddAfterSub | Utilstructs.cpp:114-124 | `(l - r) + r == l` for all pairs |
| Utilstructs.Eq | Utilstructs.cpp:126-128 | `==` holds exactly when the two pairs are equal |
| Utilstructs.Ne | Utilstructs.cpp:130-132 | `!=` is exactly the negation of `==` |
| Utilstructs.Less | Utilstructs.cpp:134-138 | `<` is lexicographic order, x first: it agrees with the order of the key `x * 2^32 + y` |
| Utilstructs.KeyInjective | Utilstructs.cpp:134-138 | distinct pairs have distinct keys, so the order is total on pairs |
| Utilstructs.LessIrreflexive | Utilstructs.cpp:134-138 | no pair is below itself |
| Utilstructs.LessTransitive | Utilstructs.cpp:134-138 | `<` is transitive |
| Utilstructs.LessTrichotomy | Utilstructs.cpp:126-138 | exactly one of `l < r`, `l == r`, `r < l` holds |
| Utilstructs.Slot | Utilstructs.cpp:3-17 | index 1, 2 or 3 selects y, z or w; 0 and every index from 4 on select x |
| Utilstructs.At | Utilstructs.cpp:3-65 | reading `v[n]` (const or not, `vec4` or `mat4`) yields the component `Slot(n)` selects |
| Utilstructs.Put | Utilstructs.cpp:3-17 | writing through the returned reference changes exactly the selected component |
| Utilstructs.PutEntry | Utilstructs.cpp:35-49 | `m[col][row] = c` changes exactly the one entry `(Slot(col), Slot(row))` of the matrix |
| Utilstructs.AtAfterPut | Utilstructs.cpp:3-33 | after `v[n] = c`, `v[m]` reads `c` when `m` selects the same component and the old value otherwise |
| Utilstructs.SpriteData.Default | Utilstructs.cpp:67 | the default constructor leaves the path empty and every number zero |
| Utilstructs.SpriteData.FromFile | Utilstructs.cpp:68 | only the path is set; all other fields are zero |
| Utilstructs.SpriteData.WithFrames | Utilstructs.cpp:69 | path and frame size are set; image size, texture id, binding and offset are zero |
| Utilstructs.SpriteData.Copy | Utilstructs.cpp:70 | the copy has all eight fields of the original |
| Utilstructs.SpriteData.Assign | Utilstructs.cpp:71-81 | every field takes the value the source object had, also on self-assignment; a distinct source is unchanged |
| Utilstructs.TexData.Default | Utilstructs.cpp:83 | all five fields are zero |
| Utilstructs.TexData.constructor | Utilstructs.cpp:84 | each field takes its argument |
| Utilstructs.TexData.Copy | Utilstructs.cpp:85 | the copy has all five fields of the original |
| Utilstructs.TexData.Assign | Utilstructs.cpp:86-92 | every field takes the value the source object had, also on self-assignment; a distinct source is unchanged |
| Chunks.Slack | Display.cpp:19-20 | the slack of an axis is below the chunk size |
| Chunks.LastChunkCoversAxis | Display.cpp:19-22 | `(maxChunk + 1) * chunkSize == n + slack`, and the last chunk starts inside the axis |
| Chunks.ComputeCorners | Display.cpp:529-535 | for a view that meets the map, the corners have the stored shape (`trc.y == tlc.y`, `blc.x == tlc.x`), end at or before the last chunk, and start at most at the map's far edge (inside it unless the map ends exactly at the screen edge) and at most one chunk past their end |
| Chunks.AxisBounds | Display.cpp:530-535 | along one axis, the near chunk starts at most at the map's far edge (inside it unless the map ends exactly at the screen edge), the far chunk is at most the last chunk, and near is at most far + 1 |
| Chunks.CornersCoverScreen | Display.cpp:522-535 | every map tile whose screen box meets the viewport lies in the chunks between the corners |
| Chunks.AxisWidth | Display.cpp:552-575 | the chunk width less the slack at the last chunk is the clipped span `[a*cs, min(n, (b+1)*cs))` the loop walks |
| Chunks.RowWidthMatches | Display.cpp:552-575 | the source's `tw` equals the copied row width, and the same rule for the height equals the copied row count |
| Chunks.TileCountExact | Display.cpp:551-582 | the corrected count is the number of tiles the loop copies, and at most the map's tile count |
| Chunks.SourceCountCoversCopied | Display.cpp:551-561 | the source's `nt` is at least the number of tiles copied, and equals it when neither axis has slack |
| Chunks.SourceCountOvershoots | Display.cpp:554-561 | on a 100 x 100 map in chunks of 16 seen whole, the source's `nt` is 12376, while 10000 tiles are copied and the map holds 10000 |
| Chunks.SourceCountOvershootsLastChunk | Display.cpp:529-561 | a 100 x 100 map at zoom 1 scrolled so a 100-pixel viewport sees only the last chunk (6, 6): the source's `nt` is 232, within the buffer's `3 * nTiles` words, while 16 tiles are copied |
| Chunks.ShippedCountExact | Display.cpp:14 | on the shipped 512 x 512 map, after any wheel notches the chunk size divides the map, no axis has slack, and the source's count equals the corrected one and the copied tiles |
| Chunks.WholeDefaultMap | Display.cpp:529-561 | the default 512 x 512 map, chunks of 16, seen whole: corners (0,0), (0,31), (31,0), `nt` = 262144 in both counts, row width 512 |
| Chunks.SlackTrimsRowWidth | Display.cpp:553-558 | a 100-tile-wide map in chunks of 16 has rows 100 tiles wide, not 112 |
| Chunks.MapIndex | Display.cpp:576 | `y * mapW + x` is below `mapW * mapH`, and it gives back `x` as remainder and `y` as quotient |
| Chunks.RegionRowsLength | Display.cpp:574-582 | a region of `rows` rows of `tw` tiles streams `rows * tw` words |
| Chunks.RegionRowsAt | Display.cpp:574-581 | word `j * tw + i` of the streamed region is the layer word `j` map rows below and `i` tiles right of the first tile |
| Chunks.RegionFits | Display.cpp:567-576 | the region of a well-placed rectangle lies inside the map, so every map index the loop reads is in range |
| Chunks.RegionWordsAt | Display.cpp:567-581 | the words streamed for a rectangle are as many as its tiles; word `j * tw + i` is the word of tile `(x0 + i, y0 + j)`, which lies in the map and in the rectangle's chunks |
| Chunks.NextZoom | Display.cpp:141-149 | one notch leaves the zoom in [0.25, 10]; it rises a quarter exactly when the rotation is positive and the zoom is at most 9.75, falls a quarter exactly when the rotation is negative and the zoom is at least 0.5, and otherwise stays |
| Chunks.ZoomStaysInRange | Display.cpp:141-152 | over any sequence of wheel notches from a zoom in [0.25, 10], the zoom stays a quarter multiple in [0.25, 10], and the chunk size the rule picks for it is 8 or 16 |
| Display.TileWordRanges | Display.cpp:405-411 | a filled tile has a layer-1 sprite in 0..6 other than 3 with an orientation in 0..7, a layer-2 sprite 3 or 7 with orientation 0, and solidity 0 or 1 |
| Display.TruncDiv | Display.cpp:138-139 | the quotient truncates toward zero: for a non-negative numerator it is the floor, for a negative one the negated floor of the negation |
| Display.CopyRow | Display.cpp:575-581 | one row's tiles of the three layers go to the next slots of the three sub-ranges, advancing all three indices by the row width; every other word is kept |
| Display.CopyRegionRow | Display.cpp:574-582 | one pass of the row loop extends the copied prefix of each region by the row `y` |
| Display.CopyRegion | Display.cpp:566-582 | `props[0, nt)`, `[nt, 2nt)`, `[2nt, 3nt)` become the region's layer-1, layer-2 and solidity words in row-major order; words from `3 * nt` on are kept |
| Display.FillRow | Display.cpp:399-416 | tile `x` of the row gets the words its four random draws give, extending the filled prefix by a row |
| Display.FillLayers | Display.cpp:398-417 | every tile `i` holds the words of draws `4i .. 4i + 3` |
| Display.OrientColumn | Display.cpp:611-622 | in column `x` every layer-1 and layer-2 high byte becomes `orient`; low bytes and all other columns are kept |
| Display.OrientLayers | Display.cpp:610-623 | every layer-1 and layer-2 word gets `orient` as its high byte and keeps its low byte |
| Display.RegionCounts | Display.cpp:551-573 | `tw` and `th` are the copied width and height, `nt == tw * th <= mapW * mapH`, and the pixel offsets are those of the first tile |
| Display.StreamRegion | Display.cpp:565-582 | the first `3 * nt` words of the buffer hold the rectangle's three layers, layer-major, and the rest is kept |
| Display.Display.constructor | Display.cpp:9-62 | the state after the initialisation list and `_setup`: zoom 1, no translation, tiles of 32, chunks of 16, the slack identity on both axes, every tile filled from its random draws, the chunk size matching the zoom, and the corners of the initial view stored, counted, streamed and published |
| Display.Display.Setup | Display.cpp:443-474 | after `_fillMap` and the `_updateChunks` of `_setView`, every tile holds its draws' words, the view at the origin meets the map, and its corners are stored and published |
| Display.Display.SetChunkSize | Display.cpp:598-607 | the new size with the slack identity `(maxChunk + 1) * chunkSize == n + slack` on both axes, and the sentinel stored |
| Display.Display.UpdateChunks | Display.cpp:513-596 | a view that misses the map stores the sentinel, renders 0 tiles and writes nothing; unchanged corners change no field and no buffer word; new corners are stored and their tiles streamed and published; afterwards the stored corners match the view |
| Display.Display.Rewrite | Display.cpp:543-593 | the new corners are stored, counted, streamed and published |
| Display.Display.Publish | Display.cpp:551-593 | `nTilesRendered` and the uniform words are the region's count, width and offsets, and the buffer holds the region |
| Display.Display.FillMap | Display.cpp:393-419 | every tile of the three layers holds the words its random draws give |
| Display.Display.OrientTiles | Display.cpp:609-630 | every layer-1 and layer-2 word gets the new orientation byte with its sprite byte kept, solids are untouched, and the two layers are uploaded to the start of the buffer |
| Display.Display.OnMousewheel | Display.cpp:132-162 | the zoom takes the next quarter step and the chunk size follows it; after a zoom change the truncated map point under the mouse (`wPos`, lines 138-139) is put back under it and the view is re-streamed from the corners `_setChunkSize` left (the sentinel on a size switch); with no zoom change the translation, the count, the uniform words and the buffer are kept, and the corners are kept or cleared to the sentinel; the viewport size never changes |
| Display.Display.Rezoom | Display.cpp:151-160 | the chunk size follows the zoom; if the zoom moved, the translation puts the given map point under the mouse and the view is re-streamed, otherwise only a size switch touches the corners |
| Display.Display.Refocus | Display.cpp:154-157 | the translation puts the recorded map point under the mouse at the new zoom, and the view is re-streamed: a view that misses the map clears the corners and renders 0 tiles, unchanged corners keep count, uniforms and buffer, new corners are stored, streamed and published with the buffer kept past `3 * nt` |
| Display.Display.StepZoom | Display.cpp:141-149 | the zoom takes the next quarter step, and the flag says whether it moved |
| Display.Display.FollowZoom | Display.cpp:151-152 | the chunk size becomes 8 from zoom 5 on and 16 below; a switch writes the sentinel over the stored corners, no switch keeps them |
| Display.Display.Pan | Display.cpp:119-127 | the translation moves by the mouse delta and the view is re-streamed with the same three outcomes as `UpdateChunks`, starting from the corners, count, uniforms and buffer before the move |
| Display.Display.Resize | Display.cpp:174-181 | the viewport takes the new size and the view is re-streamed with the same three outcomes as `UpdateChunks`, starting from the state before the resize |
| Tilesheet.Texel | Display.cpp:335-341 | a texel has the pixel's red, green and blue bytes; alpha is 0 exactly for the colour key (255, 0, 255) and 255 otherwise |
| Tilesheet.TileInImage | Display.cpp:325-337 | every pixel a tile reads, at column `xoff + i` and flipped row `yoff + td - 1 - j`, lies in the image |
| Tilesheet.SheetFitsImage | Display.cpp:316-319 | the whole tiles hold at most `imW * imH` texels, so the buffer has room for all of them |
| Tilesheet.SlotOf | Display.cpp:333-343 | the index `n*td*td + (y-yoff)*td + (x-xoff)` lies in the sheet, and the sheet's texel there is the pixel at column `x` and flipped row `yoff + td - 1 - (y - yoff)` |
| Tilesheet.RepackRow | Display.cpp:332-344 | one tile row's `td` texels extend the correctly repacked prefix of the buffer |
| Tilesheet.RepackTile | Display.cpp:325-345 | one tile's `td * td` texels extend the correctly repacked prefix |
| Tilesheet.RepackTilesheet | Display.cpp:314-346 | a fresh buffer of `imW * imH` texels, `nTiles` whole tiles, and every texel of the sheet is the flipped, colour-keyed pixel of its tile |
| Tilesheet.ConstantTexels | Display.cpp:369-379 | the solid texel has bytes (255, 0, 255, 255), unlike a keyed magenta pixel; the transparent texel has alpha 0 |
| Tilesheet.ConstantTiles | Display.cpp:366-383 | two fresh, distinct buffers of `td * td` texels, one all transparent and one all solid |

## Left out

- OpenGL calls are not modelled: buffer mapping and unmapping, `glBufferSubData`, texture storage and sub-image uploads (Display.cpp:348-364, 384-387), VAO setup, `render` and `_performanceTest`. The model keeps only the contents the buffers receive: `tileProps` for the tile-property buffer, the `MapProps` record for the four uniform words `_updateChunks` writes.
- `GL_MAP_INVALIDATE_BUFFER_BIT` lets the driver discard the rest of the tile-property buffer on each rewrite. The model keeps those words.
- Image decoding through CImg is not modelled. The decoded pixels are the `Image` parameter.
- `rand()` is not modelled. Its successive results are the parameter `rolls`, four per tile.
- The window system is not modelled: wxWidgets events, `MainWin`, `App`, and the `panning`/`lastPos` bookkeeping of `_OnMouseMove` (lines 115-118, 122). `Pan` takes the mouse delta, and `Resize` takes the size the window reports.
- `Clock` timing and `Debug` logging are not modelled.
- `_setView`, `_setProjection` and `_setViewProj` are not modelled. They build float matrices; the model keeps only their call to `_updateChunks`. `vec2` arithmetic (Utilstructs.cpp:94-112) and `mat4 operator*` (Utilstructs.cpp:140-160) are float numerics and are not modelled either.
- Float zoom and translation are modelled in exact quarter units, so IEEE rounding in the corner formulas and the zoom anchor is not modelled.
- Display.Display.constructor: the source fixes the map at 512 x 512 tiles; here the map size is a parameter, and so is the canvas size the window reports. The GL context, shader, buffer and texture creation of `_setup`, `_loadTilesheet` (line 456) and the float matrices of `_setView` are left out as above.
- The derived fields `ntChunk`, `ppChunk`, `mapWPix` and `mapHPix` are not stored. They are recomputed where they are used.
- The `unsigned` and `int` products of the index and pixel computations are unbounded integers: the model assumes no 32-bit wrap-around anywhere. The map size is bounded per axis only, so large enough maps would wrap in the source (`mapW * tileDims` at `mapW = 2^27`, `ncw * nch * ntChunk` at `mapH = 2^29`); the shipped 512 x 512 map with 32-pixel tiles stays far below (`mapWPix = 16384`, `3 * nTiles = 786432`).
- Display.RegionCounts: `nt` is the corrected count `tw * th`, not the source's count (see Findings). The source's count is `Chunks.SourceTileCount`.
- Tilesheet.RepackTilesheet: the texels past the sheet are left uninitialised by the source, and the model says nothing about them.
- The header that declares `SpriteData` and `TexData` is not part of this model. The widths of `imgW`, `imgH`, `texID`, `binding` and `texOff` are therefore not known, and the model makes them unbounded naturals; the fields set from `uint16_t` or `unsigned` parameters keep those widths.

## Findings

| source | as written | input that shows it | evidently intended | confidence | as-written member | corrected member |
|---|---|---|---|---|---|---|
| Display.cpp:554-561 | `nt = ncw * nch * ntChunk`, less `cxSlack * nch` and `cySlack * ncw` when the rectangle reaches the last chunk: the slack is taken once per chunk instead of once per tile row or column | a 100 x 100 map in chunks of 16 seen whole (slack 12 on both axes): `nt` is 12376 while 10000 tiles are copied, so the `3 * nt` words asked of `glMapBufferRange` (lines 562-563) exceed the buffer's `3 * nTiles` words (line 445); the mapping fails and the copy loop writes through the null pointer it returns. Latent with the shipped 512 x 512 map, where chunks of 16 and 8 leave no slack (`Chunks.ShippedCountExact`); other map sizes expose it | `nt = tw * th`, the number of tiles the copy loop visits | not executed | Chunks.SourceCountOvershoots (on Chunks.SourceTileCount) | Chunks.TileCountExact (on Chunks.TileCount, used by Display.RegionCounts) |
| Display.cpp:554-561 | the same count, for a rectangle whose over-count still fits the buffer | a 100 x 100 map at zoom 1 whose 100 x 100 pixel viewport sees only the last chunk (6, 6): `nt` is 256 - 12 - 12 = 232 and the mapping succeeds, but only 16 tiles are copied, so `nTilesRendered` makes the instanced draws take 216 tiles per layer that were never copied. Latent with the shipped 512 x 512 map, as above | `nt = tw * th` | not executed | Chunks.SourceCountOvershootsLastChunk (on Chunks.SourceTileCount) | Chunks.TileCountExact (on Chunks.TileCount, used by Display.RegionCounts) |
