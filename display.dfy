/**
 * The tile-streaming state of the `Display` canvas (Display.cpp, fields at
 * Display.h:86-94): three per-tile map layers, the active chunk rectangle
 * kept in the corners `tlc`, `blc`, `trc`, and the instanced tile-property
 * buffer that `_updateChunks` refills when that rectangle changes.
 *
 * The GPU side is modelled by its contents: `tileProps` is the buffer
 * `TILE_PROPS_BUFFER` (3 * nTiles 16-bit words, Display.cpp:445), and the
 * field `uniforms` holds the four words `_updateChunks` writes into the
 * map-properties uniform block.
 */
module Display {
  import opened Arith
  import opened Bytes
  import opened Utilstructs
  import opened Chunks

  /** Layer-1 word of a tile: sprite `rand() % 7` with 3 replaced by 4, orientation `rand() % 8`. */
  function Layer1Word(sprite: nat, orient: nat): Word
  {
    var v := sprite % 7;
    Word(if v == 3 then 4 else v, orient % 8)
  }

  /** Layer-2 word of a tile: sprite 3 or 7 by a coin `rand() % 2`, orientation 0. */
  function Layer2Word(coin: nat): Word
  {
    Word(if coin % 2 != 0 then 3 else 7, 0)
  }

  /** Solidity word of a tile: `rand() % 2` in the low byte, 0 in the high byte. */
  function SolidWord(coin: nat): Word
  {
    Word(coin % 2, 0)
  }

  /**
   * The words `_fillMap` can produce: a layer-1 sprite in 0..6 other than 3
   * with an orientation in 0..7; a layer-2 sprite 3 or 7, unoriented; a
   * solidity flag 0 or 1.
   */
  lemma TileWordRanges(sprite: nat, orient: nat, coin: nat)
    ensures Layer1Word(sprite, orient).lo < 7 && Layer1Word(sprite, orient).lo != 3
    ensures Layer1Word(sprite, orient).hi < 8
    ensures Layer2Word(coin).lo in {3, 7} && Layer2Word(coin).hi == 0
    ensures Value(SolidWord(coin)) < 2
  {
  }

  /** `(int)(a / b)` for a positive `b`: division truncating toward zero. */
  function TruncDiv(a: int, b: nat): (q: int)
    requires 0 < b
    ensures 0 <= a ==> 0 <= q && q * b <= a < (q + 1) * b
    ensures a < 0 ==> q <= 0 && (-q) * b <= -a < (-q + 1) * b
  {
    if a >= 0 then
      InQuotientBlock(a, b);
      a / b
    else
      InQuotientBlock(-a, b);
      -((-a) / b)
  }

  /**
   * What the copy loop has written once `done` tiles of each layer are
   * copied: the first `done` words of each layer's region in its sub-range
   * of `props`, and the words of `before` everywhere else.
   */
  ghost predicate CopiedSoFar(props: array<Word>, before: seq<Word>, nt: nat, done: nat,
                              all1: seq<Word>, all2: seq<Word>, all3: seq<Word>)
    reads props
  {
    && done <= nt && |before| == props.Length && 3 * nt <= props.Length
    && |all1| == nt && |all2| == nt && |all3| == nt
    && forall k :: 0 <= k < props.Length ==>
         props[k] == (if k < done then all1[k]
                      else if nt <= k < nt + done then all2[k - nt]
                      else if 2 * nt <= k < 2 * nt + done then all3[k - 2 * nt]
                      else before[k])
  }

  /**
   * The inner loop of the copy (Display.cpp:575-581) for the row whose
   * first map index is `rowBase` (`y * mapW`): tiles x = x0, x0 + 1, ...
   * while `x < w && x < xLim`, each layer's word going to the next slot of
   * its own sub-range of `props` (`lay1Idx`, `nt + lay1Idx`, `2 * nt + lay1Idx`).
   * When the row's words are the next words of the three regions `all1`,
   * `all2`, `all3`, the copy extends by the row what `props` already holds.
   */
  method CopyRow(layer1: array<Word>, layer2: array<Word>, solids: array<Word>, props: array<Word>,
                 rowBase: nat, x0: nat, xLim: nat, w: nat, lay1Idx: nat, lay2Idx: nat, lay3Idx: nat,
                 ghost nt: nat, ghost before: seq<Word>, ghost all1: seq<Word>, ghost all2: seq<Word>, ghost all3: seq<Word>)
    returns (next1: nat, next2: nat, next3: nat)
    requires props != layer1 && props != layer2 && props != solids
    requires rowBase + x0 + Span(x0, Min(w, xLim)) <= layer1.Length
    requires rowBase + x0 + Span(x0, Min(w, xLim)) <= layer2.Length
    requires rowBase + x0 + Span(x0, Min(w, xLim)) <= solids.Length
    requires lay2Idx == nt + lay1Idx && lay3Idx == 2 * nt + lay1Idx && lay1Idx + Span(x0, Min(w, xLim)) <= nt
    requires CopiedSoFar(props, before, nt, lay1Idx, all1, all2, all3)
    requires forall k :: lay1Idx <= k < lay1Idx + Span(x0, Min(w, xLim)) ==> all1[k] == layer1[rowBase + x0 + (k - lay1Idx)]
    requires forall k :: lay1Idx <= k < lay1Idx + Span(x0, Min(w, xLim)) ==> all2[k] == layer2[rowBase + x0 + (k - lay1Idx)]
    requires forall k :: lay1Idx <= k < lay1Idx + Span(x0, Min(w, xLim)) ==> all3[k] == solids[rowBase + x0 + (k - lay1Idx)]
    modifies props
    ensures next1 == lay1Idx + Span(x0, Min(w, xLim)) && next2 == nt + next1 && next3 == 2 * nt + next1
    ensures CopiedSoFar(props, before, nt, next1, all1, all2, all3)
  {
    ghost var n := Span(x0, Min(w, xLim));
    next1, next2, next3 := lay1Idx, lay2Idx, lay3Idx;
    var x := x0;
    while x < w && x < xLim
      invariant x0 <= x <= x0 + n
      invariant next1 == lay1Idx + (x - x0) && next2 == nt + next1 && next3 == 2 * nt + next1
      invariant CopiedSoFar(props, before, nt, next1, all1, all2, all3)
    {
      var mapIdx := rowBase + x;
      props[next1] := layer1[mapIdx];
      props[next2] := layer2[mapIdx];
      props[next3] := solids[mapIdx];
      next1, next2, next3 := next1 + 1, next2 + 1, next3 + 1;
      x := x + 1;
    }
  }

  /** Once all `nt` tiles are copied, the three sub-ranges hold the regions and the rest is kept. */
  lemma CopiedAll(props: array<Word>, before: seq<Word>, nt: nat, all1: seq<Word>, all2: seq<Word>, all3: seq<Word>)
    requires CopiedSoFar(props, before, nt, nt, all1, all2, all3)
    ensures props[..nt] == all1 && props[nt..2 * nt] == all2 && props[2 * nt..3 * nt] == all3
    ensures props[3 * nt..] == before[3 * nt..]
  {
    assert props[..nt] == all1;
    assert props[nt..2 * nt] == all2;
    assert props[2 * nt..3 * nt] == all3;
  }

  /**
   * One pass of the outer copy loop (Display.cpp:567-582): row `y` of the
   * region, whose tiles follow the `(y - y0) * tw` already copied.
   */
  method CopyRegionRow(layer1: array<Word>, layer2: array<Word>, solids: array<Word>, props: array<Word>,
                       w: nat, h: nat, x0: nat, y0: nat, xLim: nat, tw: nat, th: nat, nt: nat, y: nat,
                       lay1Idx: nat, ghost s0: nat, ghost before: seq<Word>)
    returns (next1: nat, next2: nat, next3: nat)
    requires props != layer1 && props != layer2 && props != solids
    requires layer1.Length == w * h && layer2.Length == w * h && solids.Length == w * h
    requires x0 <= w && tw == Span(x0, Min(w, xLim)) && y0 + th <= h && y0 <= y < y0 + th
    requires s0 == y0 * w + x0 && RowsFit(w * h, w, s0, tw, th) && nt == tw * th
    requires lay1Idx == (y - y0) * tw
    requires CopiedSoFar(props, before, nt, lay1Idx, RegionRows(layer1[..], w, s0, tw, th),
                         RegionRows(layer2[..], w, s0, tw, th), RegionRows(solids[..], w, s0, tw, th))
    modifies props
    ensures next1 == (y + 1 - y0) * tw && next2 == nt + next1 && next3 == 2 * nt + next1
    ensures CopiedSoFar(props, before, nt, next1, RegionRows(layer1[..], w, s0, tw, th),
                        RegionRows(layer2[..], w, s0, tw, th), RegionRows(solids[..], w, s0, tw, th))
  {
    RegionRowOf(layer1[..], w, h, x0, y0, tw, th, s0, y);
    RegionRowOf(layer2[..], w, h, x0, y0, tw, th, s0, y);
    RegionRowOf(solids[..], w, h, x0, y0, tw, th, s0, y);
    NextRow(y - y0, tw);
    next1, next2, next3 := CopyRow(layer1, layer2, solids, props, y * w, x0, xLim, w, lay1Idx, nt + lay1Idx, 2 * nt + lay1Idx,
                                   nt, before, RegionRows(layer1[..], w, s0, tw, th),
                                   RegionRows(layer2[..], w, s0, tw, th), RegionRows(solids[..], w, s0, tw, th));
  }

  /**
   * The copy loop of `_updateChunks` (Display.cpp:566-582): walk the rows
   * y = y0, y0 + 1, ... while `y < h && y < yLim`, and copy each row's tiles
   * of the three layers into the sub-ranges at 0, nt and 2 * nt of `props`,
   * where `nt = tw * th` is the number of tiles the walk visits.
   */
  method CopyRegion(layer1: array<Word>, layer2: array<Word>, solids: array<Word>, props: array<Word>,
                    w: nat, h: nat, x0: nat, y0: nat, xLim: nat, yLim: nat, tw: nat, th: nat, nt: nat)
    requires props != layer1 && props != layer2 && props != solids
    requires layer1.Length == w * h && layer2.Length == w * h && solids.Length == w * h
    requires x0 <= w && y0 <= h && tw == Span(x0, Min(w, xLim)) && th == Span(y0, Min(h, yLim))
    requires nt == tw * th && 3 * nt <= props.Length
    modifies props
    ensures (RowsFitInMap(w, h, x0, y0, tw, th);
             && props[..nt] == RegionRows(layer1[..], w, y0 * w + x0, tw, th)
             && props[nt..2 * nt] == RegionRows(layer2[..], w, y0 * w + x0, tw, th)
             && props[2 * nt..3 * nt] == RegionRows(solids[..], w, y0 * w + x0, tw, th)
             && props[3 * nt..] == old(props[3 * nt..]))
  {
    RowsFitInMap(w, h, x0, y0, tw, th);
    ghost var s0: nat := y0 * w + x0;
    ghost var all1 := RegionRows(layer1[..], w, s0, tw, th);
    ghost var all2 := RegionRows(layer2[..], w, s0, tw, th);
    ghost var all3 := RegionRows(solids[..], w, s0, tw, th);
    RegionRowsLength(layer1[..], w, s0, tw, th);
    RegionRowsLength(layer2[..], w, s0, tw, th);
    RegionRowsLength(solids[..], w, s0, tw, th);
    ghost var before := props[..];
    var lay1Idx, lay2Idx, lay3Idx := 0, nt, 2 * nt;
    var y := y0;
    while y < h && y < yLim
      invariant y0 <= y <= y0 + th
      invariant lay1Idx == (y - y0) * tw && lay2Idx == nt + lay1Idx && lay3Idx == 2 * nt + lay1Idx
      invariant CopiedSoFar(props, before, nt, lay1Idx, all1, all2, all3)
    {
      lay1Idx, lay2Idx, lay3Idx := CopyRegionRow(layer1, layer2, solids, props, w, h, x0, y0, xLim,
                                                 tw, th, nt, y, lay1Idx, s0, before);
      y := y + 1;
    }
    CopiedAll(props, before, nt, all1, all2, all3);
  }

  /** Tile `i` holds the words the rolls `rolls[4*i .. 4*i+3]` give it. */
  ghost predicate TileFilled(layer1: array<Word>, layer2: array<Word>, solids: array<Word>, rolls: seq<nat>, i: nat)
    reads layer1, layer2, solids
    requires i < layer1.Length && i < layer2.Length && i < solids.Length && 4 * i + 3 < |rolls|
  {
    && layer1[i] == Layer1Word(rolls[4 * i], rolls[4 * i + 1])
    && layer2[i] == Layer2Word(rolls[4 * i + 2])
    && solids[i] == SolidWord(rolls[4 * i + 3])
  }

  /** The first `k` tiles hold the words their rolls give them. */
  ghost predicate FilledUpTo(layer1: array<Word>, layer2: array<Word>, solids: array<Word>, rolls: seq<nat>, k: nat)
    reads layer1, layer2, solids
    requires layer2.Length == layer1.Length && solids.Length == layer1.Length && |rolls| == 4 * layer1.Length
    requires k <= layer1.Length
  {
    forall i :: 0 <= i < k ==>
      && layer1[i] == Layer1Word(rolls[4 * i], rolls[4 * i + 1])
      && layer2[i] == Layer2Word(rolls[4 * i + 2])
      && solids[i] == SolidWord(rolls[4 * i + 3])
  }

  /**
   * The inner loop of `_fillMap` (Display.cpp:400-414) for the row whose
   * first map index is `rowBase` (`y * mapW`): tile `i` of the row gets the
   * words that the four rolls `rolls[4*i .. 4*i+3]` give.
   */
  method FillRow(layer1: array<Word>, layer2: array<Word>, solids: array<Word>, rowBase: nat, w: nat, rolls: seq<nat>)
    requires layer1 != layer2 && layer1 != solids && layer2 != solids
    requires layer2.Length == layer1.Length && solids.Length == layer1.Length
    requires rowBase + w <= layer1.Length && |rolls| == 4 * layer1.Length
    requires FilledUpTo(layer1, layer2, solids, rolls, rowBase)
    modifies layer1, layer2, solids
    ensures FilledUpTo(layer1, layer2, solids, rolls, rowBase + w)
  {
    var x := 0;
    while x < w
      invariant 0 <= x <= w
      invariant FilledUpTo(layer1, layer2, solids, rolls, rowBase + x)
    {
      var idx := rowBase + x;
      layer1[idx] := Layer1Word(rolls[4 * idx], rolls[4 * idx + 1]);
      layer2[idx] := Layer2Word(rolls[4 * idx + 2]);
      solids[idx] := SolidWord(rolls[4 * idx + 3]);
      x := x + 1;
    }
  }

  /**
   * The loops of `_fillMap` (Display.cpp:398-415): tile by tile in row-major
   * order, four successive `rand()` results `rolls[4*i .. 4*i+3]` give the
   * words of tile `i`.
   */
  method FillLayers(layer1: array<Word>, layer2: array<Word>, solids: array<Word>, w: nat, h: nat, rolls: seq<nat>)
    requires layer1 != layer2 && layer1 != solids && layer2 != solids
    requires layer1.Length == w * h && layer2.Length == w * h && solids.Length == w * h
    requires |rolls| == 4 * (w * h)
    modifies layer1, layer2, solids
    ensures forall i :: 0 <= i < w * h ==> TileFilled(layer1, layer2, solids, rolls, i)
  {
    var y := 0;
    ghost var n := layer1.Length;
    while y < h
      invariant 0 <= y <= h
      invariant y * w <= n
      invariant FilledUpTo(layer1, layer2, solids, rolls, y * w)
    {
      RowEndsInMap(w, h, 0, y, w);
      MulSplit(y, 1, w);
      FillRow(layer1, layer2, solids, y * w, w, rolls);
      y := y + 1;
    }
    assert FilledUpTo(layer1, layer2, solids, rolls, n);
  }

  /**
   * The inner loop of `_orientTiles` (Display.cpp:612-620) for column `x`:
   * the high byte of every layer-1 and layer-2 word in the column becomes
   * `orient`; low bytes are kept, and so is every other column.
   */
  method OrientColumn(layer1: array<Word>, layer2: array<Word>, w: nat, h: nat, x: nat, orient: u8)
    requires layer1 != layer2 && layer1.Length == w * h && layer2.Length == w * h && x < w
    modifies layer1, layer2
    ensures forall i :: 0 <= i < w * h ==> layer1[i].lo == old(layer1[i]).lo && layer2[i].lo == old(layer2[i]).lo
    ensures forall i :: 0 <= i < w * h && i % w != x ==> layer1[i] == old(layer1[i]) && layer2[i] == old(layer2[i])
    ensures forall i :: 0 <= i < w * h && i % w == x ==> layer1[i].hi == orient && layer2[i].hi == orient
  {
    var y := 0;
    while y < h
      invariant 0 <= y <= h
      invariant forall i :: 0 <= i < w * h ==> layer1[i].lo == old(layer1[i]).lo && layer2[i].lo == old(layer2[i]).lo
      invariant forall i :: 0 <= i < w * h && i % w != x ==> layer1[i] == old(layer1[i]) && layer2[i] == old(layer2[i])
      invariant forall yy :: 0 <= yy < y ==> layer1[MapIndex(w, h, x, yy)].hi == orient && layer2[MapIndex(w, h, x, yy)].hi == orient
    {
      var idx := MapIndex(w, h, x, y);
      assert idx % w == x;
      var val, val2 := layer1[idx], layer2[idx];
      val := WithHigh(val, orient);
      val2 := WithHigh(val2, orient);
      layer1[idx] := val;
      layer2[idx] := val2;
      y := y + 1;
    }
    forall i | 0 <= i < w * h && i % w == x
      ensures layer1[i].hi == orient && layer2[i].hi == orient
    {
      InColumn(w, h, x, i);
    }
  }

  /** A map index in column `x` is that column's index for row `i / w`. */
  lemma InColumn(w: nat, h: nat, x: nat, i: nat)
    requires x < w && i < w * h && i % w == x
    ensures i / w < h && i == MapIndex(w, h, x, i / w)
  {
    QuotientBelow(i, h, w);
    assert i == (i / w) * w + i % w;
  }

  /**
   * The loops of `_orientTiles` (Display.cpp:611-621): column by column,
   * set the high byte of every layer-1 and layer-2 word to `orient`.
   */
  method OrientLayers(layer1: array<Word>, layer2: array<Word>, w: nat, h: nat, orient: u8)
    requires layer1 != layer2 && layer1.Length == w * h && layer2.Length == w * h
    modifies layer1, layer2
    ensures forall i :: 0 <= i < w * h ==>
      layer1[i] == WithHigh(old(layer1[i]), orient) && layer2[i] == WithHigh(old(layer2[i]), orient)
  {
    var x := 0;
    while x < w
      invariant 0 <= x <= w
      invariant forall i :: 0 <= i < w * h ==> layer1[i].lo == old(layer1[i]).lo && layer2[i].lo == old(layer2[i]).lo
      invariant forall i :: 0 <= i < w * h && i % w < x ==> layer1[i].hi == orient && layer2[i].hi == orient
    {
      OrientColumn(layer1, layer2, w, h, x, orient);
      x := x + 1;
    }
    forall i | 0 <= i < w * h
      ensures layer1[i] == WithHigh(old(layer1[i]), orient) && layer2[i] == WithHigh(old(layer2[i]), orient)
    {
      assert w != 0;
    }
  }

  /**
   * The first `3 * n` words of `props` hold the three layers `l1`, `l2`, `l3`
   * of region `r`, layer-major, where `n` is the region's tile count.
   */
  ghost predicate HoldsRegion(props: seq<Word>, l1: seq<Word>, l2: seq<Word>, l3: seq<Word>, g: Layout, r: ChunkRect)
    requires g.Valid() && WellPlaced(g, r)
    requires |l1| == g.mapW * g.mapH && |l2| == g.mapW * g.mapH && |l3| == g.mapW * g.mapH
    requires |props| == 3 * (g.mapW * g.mapH)
  {
    RegionWithin(g, r);
    var n := RowWidth(g, r) * RowCount(g, r);
    && props[..n] == RegionWords(l1, g, r)
    && props[n..2 * n] == RegionWords(l2, g, r)
    && props[2 * n..3 * n] == RegionWords(l3, g, r)
  }

  /**
   * Lines 551-560 and 569-572 of `_updateChunks` for the stored rectangle
   * `r`: the region's width `tw` with the right-edge slack taken off, its
   * height `th` by the same rule, its tile count `nt` and the pixel offsets
   * of its top-left tile. `maxChunkX`, `maxChunkY`, `cxSlack` and `cySlack`
   * are the fields the source reads. `nt` is the corrected count `tw * th`
   * (see `Chunks.TileCountExact`), not the source's over-count.
   */
  method RegionCounts(g: Layout, r: ChunkRect, maxChunkX: nat, maxChunkY: nat, cxSlack: nat, cySlack: nat)
    returns (nt: nat, tw: nat, th: nat, xoff: nat, yoff: nat)
    requires g.Valid() && WellPlaced(g, r)
    requires maxChunkX == MaxChunk(g.mapW, g.chunkSize) && maxChunkY == MaxChunk(g.mapH, g.chunkSize)
    requires cxSlack == Slack(g.mapW, g.chunkSize) && cySlack == Slack(g.mapH, g.chunkSize)
    ensures tw == RowWidth(g, r) && th == RowCount(g, r) && nt == tw * th && nt <= g.mapW * g.mapH
    ensures xoff == r.tlc.x * g.chunkSize * g.tileDims && yoff == r.tlc.y * g.chunkSize * g.tileDims
  {
    var nch: int := r.blc.y - r.tlc.y + 1;
    var ncw: int := r.trc.x - r.tlc.x + 1;
    var w: int := ncw * g.chunkSize;
    var hgt: int := nch * g.chunkSize;
    if r.trc.x == maxChunkX {
      w := w - cxSlack;
    }
    if r.blc.y == maxChunkY {
      hgt := hgt - cySlack;
    }
    RowWidthMatches(g, r);
    RegionFits(g, r);
    tw, th := w, hgt;
    MulNonneg(tw, th);
    nt := tw * th;
    MulNonneg(r.tlc.x, g.chunkSize);
    MulNonneg(r.tlc.y, g.chunkSize);
    MulNonneg(r.tlc.x * g.chunkSize, g.tileDims);
    MulNonneg(r.tlc.y * g.chunkSize, g.tileDims);
    xoff, yoff := r.tlc.x * g.chunkSize * g.tileDims, r.tlc.y * g.chunkSize * g.tileDims;
  }

  /**
   * The copy loops of `_updateChunks` (Display.cpp:565-581) for the stored
   * rectangle `r`, whose region is `tw` by `th` tiles: the first `3 * nt`
   * words of `props` become the region's three layers and the rest is kept.
   */
  method StreamRegion(layer1: array<Word>, layer2: array<Word>, solids: array<Word>, props: array<Word>,
                      g: Layout, r: ChunkRect, tw: nat, th: nat, nt: nat)
    requires g.Valid() && WellPlaced(g, r)
    requires tw == RowWidth(g, r) && th == RowCount(g, r) && nt == tw * th
    requires layer1.Length == g.mapW * g.mapH && layer2.Length == g.mapW * g.mapH && solids.Length == g.mapW * g.mapH
    requires props.Length == 3 * (g.mapW * g.mapH)
    requires props != layer1 && props != layer2 && props != solids
    modifies props
    ensures HoldsRegion(props[..], layer1[..], layer2[..], solids[..], g, r)
    ensures (RegionWithin(g, r); props[3 * nt..] == old(props[3 * nt..]))
  {
    var cs := g.chunkSize;
    RegionFits(g, r);
    MulNonneg(r.tlc.x, cs);
    MulNonneg(r.tlc.y, cs);
    MulSplit(r.trc.x, 1, cs);
    MulSplit(r.blc.y, 1, cs);
    var x0: nat, y0: nat := r.tlc.x * cs, r.tlc.y * cs;
    CopyRegion(layer1, layer2, solids, props, g.mapW, g.mapH, x0, y0, r.trc.x * cs + cs, r.blc.y * cs + cs, tw, th, nt);
  }

  /**
   * The words `_updateChunks` writes into the map-properties uniform block
   * (Display.cpp:588-592): tile count at byte 192, region width at 204 and
   * the region's pixel offsets at 208 and 212.
   */
  datatype MapProps = MapProps(nt: nat, tw: nat, xoff: nat, yoff: nat)

  /** The corners `r` with the sentinel `tlc.x = 2; trc.x = 1` written over them. */
  function Cleared(r: ChunkRect): ChunkRect
  {
    ChunkRect(r.tlc.(x := 2), r.blc, r.trc.(x := 1))
  }

  /**
   * The corners `r` after lines 151-152 of `_OnMousewheel` for chunk size
   * `cs` and zoom `zoomQ`: cleared to the sentinel when the size switches.
   */
  function Followed(r: ChunkRect, cs: nat, zoomQ: nat): ChunkRect
  {
    if cs == ChunkSizeFor(zoomQ) then r else Cleared(r)
  }

  /**
   * A view with no translation sees the map's top-left corner, and its
   * corners differ from any rectangle whose bottom-left and top-left
   * chunks lie in different columns.
   */
  lemma OriginInView(g: Layout, v: View, prev: ChunkRect)
    requires g.Valid() && v.Valid() && v.transX == 0 && v.transY == 0
    requires prev.blc.x != prev.tlc.x
    ensures Visible(g, v) && ComputeCorners(g, v) != prev
  {
    MulNonneg(g.mapW, TileQ(g, v));
    MulNonneg(g.mapH, TileQ(g, v));
  }

  class Display {
    const tileDims: nat
    const mapW: nat
    const mapH: nat
    const nTiles: nat

    var chunkSize: nat
    var cxSlack: nat
    var cySlack: nat
    var maxChunkX: nat
    var maxChunkY: nat
    var nTilesRendered: nat
    var tlc: UVec2
    var blc: UVec2
    var trc: UVec2

    /** `viewTrans` times 4 (quarter pixels). */
    var viewTransQX: int
    var viewTransQY: int
    /** `viewZoom` times 4. */
    var viewZoomQ: nat
    var disW: int
    var disH: int

    const layer1: array<Word>
    const layer2: array<Word>
    const solids: array<Word>
    const tileProps: array<Word>
    var uniforms: MapProps

    function Geometry(): Layout
      reads this`chunkSize
    {
      Layout(mapW, mapH, tileDims, chunkSize)
    }

    function CurrentView(): View
      reads this`viewTransQX, this`viewTransQY, this`viewZoomQ, this`disW, this`disH
    {
      View(viewTransQX, viewTransQY, viewZoomQ, disW, disH)
    }

    function Stored(): ChunkRect
      reads this`tlc, this`blc, this`trc
    {
      ChunkRect(tlc, blc, trc)
    }

    /** `tlc.x = 2; trc.x = 1`: the marker for "nothing streamed". */
    predicate IsSentinel()
      reads this`tlc, this`trc
    {
      tlc.x == 2 && trc.x == 1
    }

    /** The map layers and the tile-property buffer: sizes and distinctness. */
    ghost predicate MapValid()
    {
      && 1 <= mapW < U32 && 1 <= mapH < U32 && nTiles == mapW * mapH
      && layer1.Length == nTiles && layer2.Length == nTiles && solids.Length == nTiles
      && tileProps.Length == 3 * nTiles
      && layer1 != layer2 && layer1 != solids && layer2 != solids
      && tileProps != layer1 && tileProps != layer2 && tileProps != solids
    }

    ghost predicate Valid()
      reads this`chunkSize, this`viewTransQX, this`viewTransQY, this`viewZoomQ, this`disW, this`disH
      reads this`cxSlack, this`cySlack, this`maxChunkX, this`maxChunkY, this`tlc, this`blc, this`trc
    {
      && MapValid()
      && Geometry().Valid() && CurrentView().Valid() && viewZoomQ <= 40
      && cxSlack == Slack(mapW, chunkSize) && cySlack == Slack(mapH, chunkSize)
      && maxChunkX == MaxChunk(mapW, chunkSize) && maxChunkY == MaxChunk(mapH, chunkSize)
      && (IsSentinel() || WellPlaced(Geometry(), Stored()))
    }

    /** The chunk size follows the zoom rule of `_OnMousewheel`. */
    ghost predicate ZoomConsistent()
      reads this`chunkSize, this`viewZoomQ
    {
      chunkSize == ChunkSizeFor(viewZoomQ)
    }

    /** The stored rectangle is the one the current view calls for. */
    ghost predicate InSync()
      reads this`chunkSize, this`viewTransQX, this`viewTransQY, this`viewZoomQ, this`disW, this`disH
      reads this`cxSlack, this`cySlack, this`maxChunkX, this`maxChunkY, this`tlc, this`blc, this`trc, this`nTilesRendered
      requires Valid()
    {
      if Visible(Geometry(), CurrentView()) then Stored() == ComputeCorners(Geometry(), CurrentView())
      else IsSentinel() && nTilesRendered == 0
    }

    /** The first `3 * n` words of `tileProps` hold the three layers of region `r`, layer-major. */
    ghost predicate Streams(r: ChunkRect)
      reads this`chunkSize, this`viewTransQX, this`viewTransQY, this`viewZoomQ, this`disW, this`disH
      reads this`cxSlack, this`cySlack, this`maxChunkX, this`maxChunkY, this`tlc, this`blc, this`trc
      reads tileProps, layer1, layer2, solids
      requires Valid() && WellPlaced(Geometry(), r)
    {
      HoldsRegion(tileProps[..], layer1[..], layer2[..], solids[..], Geometry(), r)
    }

    /**
     * The published state of region `r`: stored as the corners, its tile
     * count rendered, its count, width and pixel offsets in the uniform
     * block, and its tiles in the buffer.
     */
    ghost predicate Published(r: ChunkRect)
      reads this`chunkSize, this`viewTransQX, this`viewTransQY, this`viewZoomQ, this`disW, this`disH
      reads this`cxSlack, this`cySlack, this`maxChunkX, this`maxChunkY, this`tlc, this`blc, this`trc
      reads this`nTilesRendered, this`uniforms
      reads tileProps, layer1, layer2, solids
      requires Valid() && WellPlaced(Geometry(), r)
    {
      MulNonneg(RowWidth(Geometry(), r), RowCount(Geometry(), r));
      MulNonneg(r.tlc.x, chunkSize);
      MulNonneg(r.tlc.y, chunkSize);
      MulNonneg(r.tlc.x * chunkSize, tileDims);
      MulNonneg(r.tlc.y * chunkSize, tileDims);
      var n := RowWidth(Geometry(), r) * RowCount(Geometry(), r);
      && Stored() == r
      && nTilesRendered == n
      && uniforms == MapProps(n, RowWidth(Geometry(), r), r.tlc.x * chunkSize * tileDims, r.tlc.y * chunkSize * tileDims)
      && Streams(r)
    }

    /** What a rewrite for region `r` leaves behind, from `tileProps` contents `before`. */
    ghost predicate Rewritten(r: ChunkRect, before: seq<Word>)
      reads this`chunkSize, this`viewTransQX, this`viewTransQY, this`viewZoomQ, this`disW, this`disH
      reads this`cxSlack, this`cySlack, this`maxChunkX, this`maxChunkY, this`tlc, this`blc, this`trc
      reads this`nTilesRendered, this`uniforms
      reads tileProps, layer1, layer2, solids
      requires Valid() && WellPlaced(Geometry(), r)
    {
      MulNonneg(RowWidth(Geometry(), r), RowCount(Geometry(), r));
      var n := RowWidth(Geometry(), r) * RowCount(Geometry(), r);
      RegionWithin(Geometry(), r);
      && Published(r)
      && |before| == tileProps.Length && tileProps[3 * n..] == before[3 * n..]
    }

    /**
     * The outcome of `_updateChunks` for the current view, from the stored
     * corners `prev`, buffer contents `before`, tile count `rendered` and
     * uniform words `props` it started from: a view that misses the map
     * stores the sentinel, renders no tile and writes nothing; corners equal
     * to `prev` keep everything; other corners are stored and published.
     */
    ghost predicate Restreamed(prev: ChunkRect, before: seq<Word>, rendered: nat, props: MapProps)
      reads this`chunkSize, this`viewTransQX, this`viewTransQY, this`viewZoomQ, this`disW, this`disH
      reads this`cxSlack, this`cySlack, this`maxChunkX, this`maxChunkY, this`tlc, this`blc, this`trc
      reads this`nTilesRendered, this`uniforms
      reads tileProps, layer1, layer2, solids
      requires Valid()
    {
      if !Visible(Geometry(), CurrentView()) then
        && Stored() == Cleared(prev) && nTilesRendered == 0
        && tileProps[..] == before && uniforms == props
      else if ComputeCorners(Geometry(), CurrentView()) == prev then
        && Stored() == prev && nTilesRendered == rendered
        && tileProps[..] == before && uniforms == props
      else
        Rewritten(ComputeCorners(Geometry(), CurrentView()), before)
    }

    /** Every tile of the map holds the words the rolls `rolls` give it. */
    ghost predicate FilledFrom(rolls: seq<nat>)
      reads layer1, layer2, solids
    {
      && layer1.Length == nTiles && layer2.Length == nTiles && solids.Length == nTiles && |rolls| == 4 * nTiles
      && forall i :: 0 <= i < nTiles ==> TileFilled(layer1, layer2, solids, rolls, i)
    }

    /**
     * The constructor (Display.cpp:9-62) as far as the map goes: the
     * initialisation list and slack setup (lines 9-23), the canvas size
     * (40-41), and the parts of `_setup` that touch the map: `_fillMap` on
     * freshly allocated layers (443, 394-396), the tile-property buffer
     * (445), the initial uniform words (461-471) and `_setView`, whose
     * `_updateChunks` streams the chunks of the initial view (474, 299).
     * The source fixes the map at 512 x 512 tiles; here the size is a
     * parameter, as are the canvas size the window reports and the results
     * `rolls` of `rand()`.
     */
    constructor (w: nat, h: nat, dw: int, dh: int, rolls: seq<nat>)
      requires 1 <= w < U32 && 1 <= h < U32 && 0 <= dw && 0 <= dh && |rolls| == 4 * (w * h)
      ensures Valid() && ZoomConsistent() && InSync()
      ensures mapW == w && mapH == h && tileDims == 32 && chunkSize == 16
      ensures viewZoomQ == 4 && viewTransQX == 0 && viewTransQY == 0 && disW == dw && disH == dh
      ensures cxSlack < chunkSize && (maxChunkX + 1) * chunkSize == mapW + cxSlack
      ensures cySlack < chunkSize && (maxChunkY + 1) * chunkSize == mapH + cySlack
      ensures FilledFrom(rolls)
      ensures Visible(Geometry(), CurrentView()) && Published(ComputeCorners(Geometry(), CurrentView()))
      ensures fresh(layer1) && fresh(layer2) && fresh(solids) && fresh(tileProps)
    {
      MulPositive(w, h);
      var n := w * h;
      tileDims, chunkSize := 32, 16;
      mapW, mapH := w, h;
      nTiles := n;
      nTilesRendered := 1;
      viewTransQX, viewTransQY, viewZoomQ := 0, 0, 4;
      disW, disH := dw, dh;
      cxSlack, cySlack := Slack(w, 16), Slack(h, 16);
      maxChunkX, maxChunkY := MaxChunk(w, 16), MaxChunk(h, 16);
      tlc, blc, trc := UVec2(2, 0), UVec2(0, 0), UVec2(1, 0);
      layer1 := new Word[n];
      layer2 := new Word[n];
      solids := new Word[n];
      tileProps := new Word[3 * n];
      uniforms := MapProps(1, 1, 0, 0);
      new;
      LastChunkCoversAxis(w, 16);
      LastChunkCoversAxis(h, 16);
      Setup(rolls);
    }

    /**
     * The rest of `_setup` once the initialisation list has run
     * (Display.cpp:443, 474): `_fillMap` fills the layers from the rolls,
     * then `_setView` streams the chunks of the view at the origin. The
     * initial corners are not a placement any view computes, so the
     * stream always happens.
     */
    method Setup(rolls: seq<nat>)
      requires Valid() && |rolls| == 4 * nTiles
      requires tlc == UVec2(2, 0) && blc == UVec2(0, 0) && trc == UVec2(1, 0)
      requires viewTransQX == 0 && viewTransQY == 0 && 0 <= disW && 0 <= disH
      modifies this`tlc, this`blc, this`trc, this`nTilesRendered, this`uniforms, tileProps, layer1, layer2, solids
      ensures Valid() && InSync() && FilledFrom(rolls)
      ensures Visible(Geometry(), CurrentView()) && Published(ComputeCorners(Geometry(), CurrentView()))
    {
      FillMap(rolls);
      OriginInView(Geometry(), CurrentView(), Stored());
      ghost var prev, before, rendered, props := Stored(), tileProps[..], nTilesRendered, uniforms;
      UpdateChunks();
      NewCornersPublished(prev, before, rendered, props);
    }

    /** After an update from corners `prev` other than the view's, the view's corners are published. */
    lemma NewCornersPublished(prev: ChunkRect, before: seq<Word>, rendered: nat, props: MapProps)
      requires Valid() && Restreamed(prev, before, rendered, props)
      requires Visible(Geometry(), CurrentView()) && ComputeCorners(Geometry(), CurrentView()) != prev
      ensures Published(ComputeCorners(Geometry(), CurrentView()))
    {
    }

    /**
     * `_setChunkSize` (Display.cpp:598-607): the per-chunk constants, slack and
     * last chunk for the new size, and the sentinel so that the next update
     * streams again.
     */
    method SetChunkSize(sz: nat)
      requires Valid() && 1 <= sz
      modifies this`chunkSize, this`cxSlack, this`cySlack
      modifies this`maxChunkX, this`maxChunkY, this`tlc, this`trc
      ensures Valid() && chunkSize == sz && IsSentinel() && Stored() == Cleared(old(Stored()))
      ensures cxSlack < chunkSize && (maxChunkX + 1) * chunkSize == mapW + cxSlack
      ensures cySlack < chunkSize && (maxChunkY + 1) * chunkSize == mapH + cySlack
    {
      LastChunkCoversAxis(mapW, sz);
      LastChunkCoversAxis(mapH, sz);
      chunkSize, cxSlack, cySlack := sz, Slack(mapW, sz), Slack(mapH, sz);
      maxChunkX, maxChunkY := MaxChunk(mapW, sz), MaxChunk(mapH, sz);
      tlc, trc := tlc.(x := 2), trc.(x := 1);
    }

    /**
     * `_updateChunks` (Display.cpp:513-596). A view whose map box misses the
     * viewport stores the sentinel and renders no tiles; a view whose corner
     * chunks equal the stored ones changes nothing; any other view stores its
     * corners and streams their tiles.
     */
    method UpdateChunks()
      requires Valid()
      modifies this`tlc, this`blc, this`trc, this`nTilesRendered
      modifies this`uniforms, tileProps
      ensures Valid() && InSync()
      ensures Restreamed(old(Stored()), old(tileProps[..]), old(nTilesRendered), old(uniforms))
    {
      var g, v := Geometry(), CurrentView();
      if !Visible(g, v) {
        tlc := tlc.(x := 2);
        trc := trc.(x := 1);
        nTilesRendered := 0;
        return;
      }
      var r := ComputeCorners(g, v);
      if Eq(r.tlc, tlc) && Eq(r.blc, blc) && Eq(r.trc, trc) {
        return;
      }
      Rewrite(r);
    }

    /** Lines 543-593: store the corners `r`, count their tiles, copy them, publish the counts. */
    method Rewrite(r: ChunkRect)
      requires Valid() && WellPlaced(Geometry(), r)
      modifies this`tlc, this`blc, this`trc, this`nTilesRendered
      modifies this`uniforms, tileProps
      ensures Valid() && Rewritten(r, old(tileProps[..]))
    {
      tlc, blc, trc := r.tlc, r.blc, r.trc;
      Publish(r);
    }

    /** Lines 551-593 once the corners `r` are stored: count, copy and publish. */
    method Publish(r: ChunkRect)
      requires Valid() && Stored() == r && WellPlaced(Geometry(), r)
      modifies this`nTilesRendered, this`uniforms, tileProps
      ensures Valid() && Rewritten(r, old(tileProps[..]))
    {
      var nt, tw, th, xoff, yoff := RegionCounts(Geometry(), r, maxChunkX, maxChunkY, cxSlack, cySlack);
      nTilesRendered := nt;
      uniforms := MapProps(nt, tw, xoff, yoff);
      StreamRegion(layer1, layer2, solids, tileProps, Geometry(), r, tw, th, nt);
    }

    /** `_fillMap` (Display.cpp:393-419) on the layers the constructor allocated. */
    method FillMap(rolls: seq<nat>)
      requires MapValid() && |rolls| == 4 * nTiles
      modifies layer1, layer2, solids
      ensures FilledFrom(rolls)
    {
      FillLayers(layer1, layer2, solids, mapW, mapH, rolls);
    }

    /**
     * `_orientTiles` (Display.cpp:609-630): orient every layer-1 and layer-2
     * tile, then upload the two whole layers to the start of the
     * tile-property buffer.
     */
    method OrientTiles(orient: u8)
      requires MapValid()
      modifies layer1, layer2, tileProps
      ensures forall i :: 0 <= i < nTiles ==>
        layer1[i] == WithHigh(old(layer1[i]), orient) && layer2[i] == WithHigh(old(layer2[i]), orient)
      ensures unchanged(solids)
      ensures tileProps[..nTiles] == layer1[..] && tileProps[nTiles..2 * nTiles] == layer2[..]
      ensures tileProps[2 * nTiles..] == old(tileProps[2 * nTiles..])
    {
      OrientLayers(layer1, layer2, mapW, mapH, orient);
      forall i | 0 <= i < nTiles {
        tileProps[i] := layer1[i];
      }
      forall i | 0 <= i < nTiles {
        tileProps[nTiles + i] := layer2[i];
      }
    }

    /**
     * The zoom and chunk-size rule of `_OnMousewheel` (Display.cpp:132-162):
     * record the map point under the mouse (truncated toward zero), step
     * the zoom, pick the chunk size for it, and, when the zoom moved, put
     * that point back under the mouse and re-stream.
     */
    method OnMousewheel(rotation: int, mouseX: int, mouseY: int)
      requires Valid()
      modifies this`viewZoomQ, this`chunkSize, this`cxSlack, this`cySlack, this`maxChunkX, this`maxChunkY
      modifies this`viewTransQX, this`viewTransQY, this`tlc, this`blc, this`trc, this`nTilesRendered
      modifies this`uniforms, tileProps
      ensures Valid() && ZoomConsistent()
      ensures viewZoomQ == NextZoom(old(viewZoomQ), rotation)
      ensures viewZoomQ != old(viewZoomQ) ==>
        && InSync()
        && viewTransQX == -TruncDiv(4 * mouseX - old(viewTransQX), old(viewZoomQ)) * viewZoomQ + 4 * mouseX
        && viewTransQY == -TruncDiv(4 * mouseY - old(viewTransQY), old(viewZoomQ)) * viewZoomQ + 4 * mouseY
      ensures viewZoomQ != old(viewZoomQ) ==>
        Restreamed(Followed(old(Stored()), old(chunkSize), viewZoomQ), old(tileProps[..]), old(nTilesRendered), old(uniforms))
      ensures viewZoomQ == old(viewZoomQ) ==>
        && viewTransQX == old(viewTransQX) && viewTransQY == old(viewTransQY)
        && Stored() == Followed(old(Stored()), old(chunkSize), viewZoomQ)
        && nTilesRendered == old(nTilesRendered) && uniforms == old(uniforms) && unchanged(tileProps)
      ensures disW == old(disW) && disH == old(disH)
    {
      var wPosX := TruncDiv(4 * mouseX - viewTransQX, viewZoomQ);
      var wPosY := TruncDiv(4 * mouseY - viewTransQY, viewZoomQ);
      var z := StepZoom(rotation);
      Rezoom(z, wPosX, wPosY, mouseX, mouseY);
    }

    /**
     * Lines 151-160 of `_OnMousewheel`, once the zoom has stepped (`z` says
     * whether it moved): pick the chunk size for the zoom, then, if the zoom
     * moved, put map point (`wPosX`, `wPosY`) back under the mouse and
     * re-stream.
     */
    method Rezoom(z: bool, wPosX: int, wPosY: int, mouseX: int, mouseY: int)
      requires Valid()
      modifies this`chunkSize, this`cxSlack, this`cySlack, this`maxChunkX, this`maxChunkY
      modifies this`viewTransQX, this`viewTransQY, this`tlc, this`blc, this`trc, this`nTilesRendered
      modifies this`uniforms, tileProps
      ensures Valid() && ZoomConsistent()
      ensures z ==>
        && InSync()
        && viewTransQX == -wPosX * viewZoomQ + 4 * mouseX && viewTransQY == -wPosY * viewZoomQ + 4 * mouseY
        && Restreamed(Followed(old(Stored()), old(chunkSize), viewZoomQ), old(tileProps[..]), old(nTilesRendered), old(uniforms))
      ensures !z ==>
        && viewTransQX == old(viewTransQX) && viewTransQY == old(viewTransQY)
        && Stored() == Followed(old(Stored()), old(chunkSize), viewZoomQ)
        && nTilesRendered == old(nTilesRendered) && uniforms == old(uniforms) && unchanged(tileProps)
    {
      FollowZoom();
      if z {
        Refocus(wPosX, wPosY, mouseX, mouseY);
      }
    }

    /**
     * Lines 154-157 of `_OnMousewheel`: translate so that map point
     * (`wPosX`, `wPosY`) sits under the mouse at the new zoom, and re-stream.
     */
    method Refocus(wPosX: int, wPosY: int, mouseX: int, mouseY: int)
      requires Valid()
      modifies this`viewTransQX, this`viewTransQY, this`tlc, this`blc, this`trc, this`nTilesRendered
      modifies this`uniforms, tileProps
      ensures Valid() && InSync()
      ensures viewTransQX == -wPosX * viewZoomQ + 4 * mouseX && viewTransQY == -wPosY * viewZoomQ + 4 * mouseY
      ensures Restreamed(old(Stored()), old(tileProps[..]), old(nTilesRendered), old(uniforms))
    {
      viewTransQX := -wPosX * viewZoomQ + 4 * mouseX;
      viewTransQY := -wPosY * viewZoomQ + 4 * mouseY;
      UpdateChunks();
    }

    /** Lines 141-149 of `_OnMousewheel`: a notch moves the zoom a quarter, within [0.25, 10]. */
    method StepZoom(rotation: int) returns (z: bool)
      requires Valid()
      modifies this`viewZoomQ
      ensures Valid() && viewZoomQ == NextZoom(old(viewZoomQ), rotation)
      ensures z <==> viewZoomQ != old(viewZoomQ)
    {
      z := false;
      if rotation > 0 && viewZoomQ <= 39 {
        z := true;
        viewZoomQ := viewZoomQ + 1;
      } else if rotation < 0 && viewZoomQ >= 2 {
        z := true;
        viewZoomQ := viewZoomQ - 1;
      }
    }

    /** Lines 151-152 of `_OnMousewheel`: switch to the chunk size the zoom calls for, if it differs. */
    method FollowZoom()
      requires Valid()
      modifies this`chunkSize, this`cxSlack, this`cySlack, this`maxChunkX, this`maxChunkY, this`tlc, this`trc
      ensures Valid() && ZoomConsistent()
      ensures old(chunkSize) == ChunkSizeFor(viewZoomQ) ==> chunkSize == old(chunkSize)
      ensures old(chunkSize) != ChunkSizeFor(viewZoomQ) ==> IsSentinel()
      ensures Stored() == Followed(old(Stored()), old(chunkSize), viewZoomQ)
    {
      if viewZoomQ >= 20 && chunkSize != 8 {
        SetChunkSize(8);
      } else if viewZoomQ < 20 && viewZoomQ >= 1 && chunkSize != 16 {
        SetChunkSize(16);
      }
    }

    /**
     * A drag step of `_OnMouseMove` (Display.cpp:119-127) while panning: the
     * translation moves by the mouse delta and `_setView` re-streams.
     */
    method Pan(dx: int, dy: int)
      requires Valid()
      modifies this`viewTransQX, this`viewTransQY, this`tlc, this`blc, this`trc, this`nTilesRendered
      modifies this`uniforms, tileProps
      ensures Valid() && InSync()
      ensures viewTransQX == old(viewTransQX) + 4 * dx && viewTransQY == old(viewTransQY) + 4 * dy
      ensures Restreamed(old(Stored()), old(tileProps[..]), old(nTilesRendered), old(uniforms))
    {
      viewTransQX := viewTransQX + 4 * dx;
      viewTransQY := viewTransQY + 4 * dy;
      UpdateChunks();
    }

    /** `resize` (Display.cpp:174-181): the new canvas size, then a re-stream. */
    method Resize(w: int, h: int)
      requires Valid() && 0 <= w && 0 <= h
      modifies this`disW, this`disH, this`tlc, this`blc, this`trc, this`nTilesRendered
      modifies this`uniforms, tileProps
      ensures Valid() && InSync()
      ensures disW == w && disH == h
      ensures Restreamed(old(Stored()), old(tileProps[..]), old(nTilesRendered), old(uniforms))
    {
      disW, disH := w, h;
      UpdateChunks();
    }
  }
}
