/**
 * Chunk geometry of the tile-streaming engine in Display.cpp: per-axis
 * slack and last chunk, the viewport test, the three corner chunks of the
 * active rectangle, its tile counts, and the order in which its tiles are
 * copied.
 *
 * The view transform is kept in exact quarter units. The zoom factor only
 * moves in steps of 0.25 from 1.0, and the translation only moves by whole
 * pixels or to `-int * zoom + int`, so both are multiples of 0.25: `zoom`
 * below is the zoom factor times 4 and `transX`, `transY` are the
 * translation in quarter pixels. Every floating-point expression of the
 * source then becomes an integer one; IEEE rounding is not modelled.
 */
module Chunks {
  import opened Arith
  import opened Bytes
  import opened Utilstructs

  /** Map size in tiles, tile size in pixels and chunk size in tiles. */
  datatype Layout = Layout(mapW: nat, mapH: nat, tileDims: nat, chunkSize: nat) {
    predicate Valid() {
      1 <= mapW < U32 && 1 <= mapH < U32 && 1 <= tileDims && 1 <= chunkSize
    }
  }

  /** The view transform in quarter units, and the viewport size in pixels. */
  datatype View = View(transX: int, transY: int, zoom: nat, disW: int, disH: int) {
    predicate Valid() {
      1 <= zoom && 0 <= disW && 0 <= disH
    }
  }

  /** The stored corners: top-left, bottom-left and top-right chunk. */
  datatype ChunkRect = ChunkRect(tlc: UVec2, blc: UVec2, trc: UVec2)

  // ---------------------------------------------------------------- slack

  /** How many tiles the last chunk along an axis of `n` tiles overhangs the map. */
  function Slack(n: nat, cs: nat): (s: nat)
    requires 1 <= cs
    ensures s < cs
  {
    if n % cs > 0 then cs - n % cs else 0
  }

  /** The index of the last chunk along an axis of `n` tiles. */
  function MaxChunk(n: nat, cs: nat): nat
    requires 1 <= n && 1 <= cs
  {
    (n - 1) / cs
  }

  /** The chunks up to the last one cover exactly the axis plus its slack. */
  lemma {:induction false} LastChunkCoversAxis(n: nat, cs: nat)
    requires 1 <= n && 1 <= cs
    ensures (MaxChunk(n, cs) + 1) * cs == n + Slack(n, cs)
    ensures MaxChunk(n, cs) * cs < n
  {
    var q, r := n / cs, n % cs;
    assert n == q * cs + r;
    if r > 0 {
      DivModOf(q, r - 1, cs);
      assert n - 1 == q * cs + (r - 1);
    } else {
      assert q >= 1;
      assert n - 1 == (q - 1) * cs + (cs - 1);
      DivModOf(q - 1, cs - 1, cs);
    }
  }

  // ---------------------------------------------------------------- viewport test and corners

  /** Quarter pixels one tile spans on screen (`tileDims * viewZoom`, times 4). */
  function TileQ(g: Layout, v: View): nat { v.zoom * g.tileDims }

  /** Quarter pixels one chunk spans on screen (`ppChunk * viewZoom`, times 4). */
  function ChunkQ(g: Layout, v: View): nat { g.chunkSize * TileQ(g, v) }

  /** The screen x of the map's right edge (`tr.x`), in quarter pixels. */
  function MapRightQ(g: Layout, v: View): int { g.mapW * TileQ(g, v) + v.transX }

  /** The screen y of the map's bottom edge (`bl.y`), in quarter pixels. */
  function MapBottomQ(g: Layout, v: View): int { g.mapH * TileQ(g, v) + v.transY }

  /** The map's screen box meets the viewport: the negation of the test at line 522. */
  predicate Visible(g: Layout, v: View) {
    !(v.transY > 4 * v.disH || MapBottomQ(g, v) < 0 || v.transX > 4 * v.disW || MapRightQ(g, v) < 0)
  }

  /**
   * The first chunk on screen along one axis of `n` tiles, each `u` quarter
   * pixels wide, in chunks of `cs`, translated by `t`: 0 when the map's near
   * edge is on screen, else the chunk under screen coordinate 0.
   */
  function NearChunk(cs: nat, u: nat, t: int): nat
    requires 1 <= cs && 1 <= u
  {
    if t >= 0 then 0 else (-t) / (cs * u)
  }

  /**
   * The last chunk on screen along that axis, for a viewport of `dis`
   * pixels: the map's last chunk when its far edge is on screen, else the
   * chunk under screen coordinate `dis`.
   */
  function FarChunk(n: nat, cs: nat, u: nat, t: int, dis: int): nat
    requires 1 <= n && 1 <= cs && 1 <= u && t <= 4 * dis
  {
    if n * u + t <= 4 * dis then MaxChunk(n, cs) else (4 * dis - t) / (cs * u)
  }

  /** `tlChunk.x` (line 530). */
  function LeftChunk(g: Layout, v: View): nat
    requires g.Valid() && v.Valid()
  {
    NearChunk(g.chunkSize, TileQ(g, v), v.transX)
  }

  /** `tlChunk.y` (line 531). */
  function TopChunk(g: Layout, v: View): nat
    requires g.Valid() && v.Valid()
  {
    NearChunk(g.chunkSize, TileQ(g, v), v.transY)
  }

  /** `trChunk.x` (line 532). */
  function RightChunk(g: Layout, v: View): nat
    requires g.Valid() && v.Valid() && Visible(g, v)
  {
    FarChunk(g.mapW, g.chunkSize, TileQ(g, v), v.transX, v.disW)
  }

  /** `blChunk.y` (line 535). */
  function BottomChunk(g: Layout, v: View): nat
    requires g.Valid() && v.Valid() && Visible(g, v)
  {
    FarChunk(g.mapH, g.chunkSize, TileQ(g, v), v.transY, v.disH)
  }

  /**
   * The corners of the active rectangle. A well-placed rectangle has the
   * stored shape (`trc.y == tlc.y`, `blc.x == tlc.x`), ends at or before the
   * last chunk, and starts at most one chunk past its end, never past the
   * map's edge.
   */
  predicate WellPlaced(g: Layout, r: ChunkRect)
    requires g.Valid()
  {
    && r.trc.y == r.tlc.y && r.blc.x == r.tlc.x
    && r.trc.x <= MaxChunk(g.mapW, g.chunkSize) && r.tlc.x <= r.trc.x + 1 && r.tlc.x * g.chunkSize <= g.mapW
    && r.blc.y <= MaxChunk(g.mapH, g.chunkSize) && r.tlc.y <= r.blc.y + 1 && r.tlc.y * g.chunkSize <= g.mapH
  }

  /** Lines 530-535: the corner chunks for a view whose map box meets the viewport. */
  function ComputeCorners(g: Layout, v: View): (r: ChunkRect)
    requires g.Valid() && v.Valid() && Visible(g, v)
    ensures WellPlaced(g, r)
  {
    AxisBounds(g.mapW, g.chunkSize, TileQ(g, v), v.transX, v.disW);
    AxisBounds(g.mapH, g.chunkSize, TileQ(g, v), v.transY, v.disH);
    var left, top := LeftChunk(g, v), TopChunk(g, v);
    var right, bottom := RightChunk(g, v), BottomChunk(g, v);
    ChunkRect(UVec2(left, top), UVec2(left, bottom), UVec2(right, top))
  }

  /** The bounds of one axis whose map span meets the viewport. */
  lemma AxisBounds(n: nat, cs: nat, u: nat, t: int, dis: int)
    requires 1 <= n && 1 <= cs && 1 <= u && 0 <= dis
    requires t <= 4 * dis && 0 <= n * u + t
    ensures NearChunk(cs, u, t) <= n / cs && NearChunk(cs, u, t) * cs <= n
    ensures FarChunk(n, cs, u, t, dis) <= MaxChunk(n, cs)
    ensures NearChunk(cs, u, t) <= FarChunk(n, cs, u, t, dis) + 1
  {
    NearBound(n, cs, u, t);
    FarBound(n, cs, u, t, dis);
    NearFar(n, cs, u, t, dis);
  }

  lemma NearBound(n: nat, cs: nat, u: nat, t: int)
    requires 1 <= n && 1 <= cs && 1 <= u && 0 <= n * u + t
    ensures NearChunk(cs, u, t) <= n / cs && NearChunk(cs, u, t) * cs <= n
  {
    var lo := NearChunk(cs, u, t);
    if t < 0 {
      ScaledQuotientAtMost(-t, n, cs, u);
    }
    assert (n / cs) * cs <= n by { assert n == (n / cs) * cs + n % cs; }
    MulMonotone(lo, n / cs, cs);
  }

  lemma FarBound(n: nat, cs: nat, u: nat, t: int, dis: int)
    requires 1 <= n && 1 <= cs && 1 <= u && t <= 4 * dis
    ensures FarChunk(n, cs, u, t, dis) <= MaxChunk(n, cs)
  {
    if n * u + t > 4 * dis {
      ScaledQuotientBelow(4 * dis - t, n, cs, u);
    }
  }

  lemma NearFar(n: nat, cs: nat, u: nat, t: int, dis: int)
    requires 1 <= n && 1 <= cs && 1 <= u && 0 <= dis && t <= 4 * dis && 0 <= n * u + t
    ensures NearChunk(cs, u, t) <= FarChunk(n, cs, u, t, dis) + 1
  {
    if n * u + t > 4 * dis {
      if t < 0 {
        DivMonotone(-t, 4 * dis - t, cs * u);
      }
    } else {
      NearBound(n, cs, u, t);
      DivSucc(n - 1, cs);
    }
  }

  // ---------------------------------------------------------------- coverage

  /** Tile (x, y) lies in the chunks of `r`. */
  predicate InRect(g: Layout, r: ChunkRect, x: nat, y: nat) {
    && r.tlc.x * g.chunkSize <= x < (r.trc.x + 1) * g.chunkSize
    && r.tlc.y * g.chunkSize <= y < (r.blc.y + 1) * g.chunkSize
  }

  /** Tile (x, y)'s screen box meets the viewport. */
  predicate TileOnScreen(g: Layout, v: View, x: nat, y: nat) {
    && v.transX + (x + 1) * TileQ(g, v) > 0 && v.transX + x * TileQ(g, v) <= 4 * v.disW
    && v.transY + (y + 1) * TileQ(g, v) > 0 && v.transY + y * TileQ(g, v) <= 4 * v.disH
  }

  /** The corner chunks never under-cover: every map tile on screen is in the rectangle. */
  lemma {:induction false} CornersCoverScreen(g: Layout, v: View, x: nat, y: nat)
    requires g.Valid() && v.Valid() && Visible(g, v)
    requires x < g.mapW && y < g.mapH && TileOnScreen(g, v, x, y)
    ensures InRect(g, ComputeCorners(g, v), x, y)
  {
    NearCovers(g.chunkSize, TileQ(g, v), v.transX, x);
    NearCovers(g.chunkSize, TileQ(g, v), v.transY, y);
    FarCovers(g.mapW, g.chunkSize, TileQ(g, v), v.transX, v.disW, x);
    FarCovers(g.mapH, g.chunkSize, TileQ(g, v), v.transY, v.disH, y);
  }

  /** A tile whose far side is past screen coordinate 0 is not before the near chunk. */
  lemma NearCovers(cs: nat, u: nat, t: int, x: nat)
    requires 1 <= cs && 1 <= u && t + (x + 1) * u > 0
    ensures NearChunk(cs, u, t) * cs <= x
  {
    if t < 0 {
      var lo := NearChunk(cs, u, t);
      assert lo * (cs * u) <= -t by { assert -t == lo * (cs * u) + (-t) % (cs * u); }
      assert (lo * cs) * u < (x + 1) * u;
      MulCancelLess(lo * cs, x + 1, u);
    }
  }

  /** A map tile whose near side is not past the viewport's far edge is not after the far chunk. */
  lemma FarCovers(n: nat, cs: nat, u: nat, t: int, dis: int, x: nat)
    requires 1 <= n && 1 <= cs && 1 <= u && t <= 4 * dis && x < n
    requires t + x * u <= 4 * dis
    ensures x < (FarChunk(n, cs, u, t, dis) + 1) * cs
  {
    if n * u + t <= 4 * dis {
      InQuotientBlock(x, cs);
      LastChunkCoversAxis(n, cs);
    } else {
      BeforeScreenEdge(cs, u, 4 * dis - t, x);
    }
  }

  /** A tile whose near side is at most `a` quarter pixels in lies before chunk `a / (cs * u)` ends. */
  lemma BeforeScreenEdge(cs: nat, u: nat, a: nat, x: nat)
    requires 1 <= cs && 1 <= u && x * u <= a
    ensures x < (a / (cs * u) + 1) * cs
  {
    var q := x / cs;
    InQuotientBlock(x, cs);
    MulNonneg(q, cs);
    MulMonotone(q * cs, x, u);
    assert (q * cs) * u == q * (cs * u);
    QuotientAtLeast(q, cs * u, a);
    MulMonotone(q + 1, a / (cs * u) + 1, cs);
  }

  // ---------------------------------------------------------------- tile counts

  /** The length of `[lo, hi)`, or 0 when it is empty. */
  function Span(lo: int, hi: int): nat {
    if lo < hi then hi - lo else 0
  }

  /** Width of the copied region: x runs over `[tlc.x*cs, min(mapW, (trc.x+1)*cs))` (lines 568, 575). */
  function RowWidth(g: Layout, r: ChunkRect): nat {
    Span(r.tlc.x * g.chunkSize, Min(g.mapW, (r.trc.x + 1) * g.chunkSize))
  }

  /** Height of the copied region: y runs over `[tlc.y*cs, min(mapH, (blc.y+1)*cs))` (lines 567, 574). */
  function RowCount(g: Layout, r: ChunkRect): nat {
    Span(r.tlc.y * g.chunkSize, Min(g.mapH, (r.blc.y + 1) * g.chunkSize))
  }

  /** `ncw`, the rectangle's width in chunks (line 552). */
  function ChunksWide(r: ChunkRect): int { r.trc.x - r.tlc.x + 1 }

  /** `nch`, the rectangle's height in chunks (line 551). */
  function ChunksHigh(r: ChunkRect): int { r.blc.y - r.tlc.y + 1 }

  /** `tw` as lines 553 and 557 compute it: the chunk width, less the slack at the map's right edge. */
  function SourceRowWidth(g: Layout, r: ChunkRect): int
    requires g.Valid()
  {
    ChunksWide(r) * g.chunkSize
      - (if r.trc.x == MaxChunk(g.mapW, g.chunkSize) then Slack(g.mapW, g.chunkSize) else 0)
  }

  /** The same rule for the height, which the source does not compute on its own. */
  function SourceRowCount(g: Layout, r: ChunkRect): int
    requires g.Valid()
  {
    ChunksHigh(r) * g.chunkSize
      - (if r.blc.y == MaxChunk(g.mapH, g.chunkSize) then Slack(g.mapH, g.chunkSize) else 0)
  }

  /** `nt` as lines 554-561 compute it: the slack is taken once per chunk row or column. */
  function SourceTileCount(g: Layout, r: ChunkRect): int
    requires g.Valid()
  {
    ChunksWide(r) * ChunksHigh(r) * (g.chunkSize * g.chunkSize)
      - (if r.trc.x == MaxChunk(g.mapW, g.chunkSize) then Slack(g.mapW, g.chunkSize) * ChunksHigh(r) else 0)
      - (if r.blc.y == MaxChunk(g.mapH, g.chunkSize) then Slack(g.mapH, g.chunkSize) * ChunksWide(r) else 0)
  }

  /** The tile count the model streams: region width times region height. */
  function TileCount(g: Layout, r: ChunkRect): int
    requires g.Valid()
  {
    SourceRowWidth(g, r) * SourceRowCount(g, r)
  }

  /** The slack rule on one axis gives exactly the clipped span the copy loop walks. */
  lemma AxisWidth(n: nat, cs: nat, a: nat, b: nat)
    requires 1 <= n && 1 <= cs
    requires b <= MaxChunk(n, cs) && a <= b + 1 && a * cs <= n
    ensures (b - a + 1) * cs - (if b == MaxChunk(n, cs) then Slack(n, cs) else 0)
         == Span(a * cs, Min(n, (b + 1) * cs))
  {
    LastChunkCoversAxis(n, cs);
    MulSpan(b, a, cs);
    MulMonotone(a, b + 1, cs);
    if b < MaxChunk(n, cs) {
      MulMonotone(b + 1, MaxChunk(n, cs), cs);
    }
    ClippedSpan(n, a * cs, (b + 1) * cs, (b - a + 1) * cs, Slack(n, cs), b == MaxChunk(n, cs));
  }

  /**
   * The clipping step of `AxisWidth` on the tile offsets alone: a span
   * `[lo, hi)` of `d` tiles that ends `slack` tiles past the axis when it
   * reaches the last chunk, and before the axis otherwise.
   */
  lemma ClippedSpan(n: nat, lo: int, hi: int, d: int, slack: nat, atLast: bool)
    requires lo <= hi && lo <= n && d == hi - lo
    requires atLast ==> hi == n + slack
    requires !atLast ==> hi < n
    ensures d - (if atLast then slack else 0) == Span(lo, Min(n, hi))
  {
  }

  /** `tw` equals the copied row width, and the height rule the copied row count. */
  lemma {:induction false} RowWidthMatches(g: Layout, r: ChunkRect)
    requires g.Valid() && WellPlaced(g, r)
    ensures SourceRowWidth(g, r) == RowWidth(g, r)
    ensures SourceRowCount(g, r) == RowCount(g, r)
  {
    AxisWidth(g.mapW, g.chunkSize, r.tlc.x, r.trc.x);
    AxisWidth(g.mapH, g.chunkSize, r.tlc.y, r.blc.y);
  }

  /** The streamed count is the number of tiles copied, and at most the map's tile count. */
  lemma {:induction false} TileCountExact(g: Layout, r: ChunkRect)
    requires g.Valid() && WellPlaced(g, r)
    ensures TileCount(g, r) == RowWidth(g, r) * RowCount(g, r)
    ensures RowWidth(g, r) <= g.mapW && RowCount(g, r) <= g.mapH
    ensures 0 <= TileCount(g, r) <= g.mapW * g.mapH
  {
    RowWidthMatches(g, r);
    MulMonotone(RowWidth(g, r), g.mapW, RowCount(g, r));
    MulMonotone(RowCount(g, r), g.mapH, g.mapW);
  }

  /** The source's count is never below the copied count, and equals it when neither axis has slack. */
  lemma {:induction false} SourceCountCoversCopied(g: Layout, r: ChunkRect)
    requires g.Valid() && WellPlaced(g, r)
    ensures SourceTileCount(g, r) >= RowWidth(g, r) * RowCount(g, r)
    ensures Slack(g.mapW, g.chunkSize) == 0 && Slack(g.mapH, g.chunkSize) == 0 ==>
              SourceTileCount(g, r) == RowWidth(g, r) * RowCount(g, r)
  {
    RowWidthMatches(g, r);
    var cs := g.chunkSize;
    var sx := if r.trc.x == MaxChunk(g.mapW, cs) then Slack(g.mapW, cs) else 0;
    var sy := if r.blc.y == MaxChunk(g.mapH, cs) then Slack(g.mapH, cs) else 0;
    CountAlgebra(ChunksWide(r), ChunksHigh(r), cs, sx, sy);
  }

  /** The algebra behind `SourceCountCoversCopied`, on plain numbers. */
  lemma CountAlgebra(a: int, b: int, c: nat, sx: nat, sy: nat)
    requires 1 <= c && sx < c && sy < c
    requires 0 <= a * c - sx && 0 <= b * c - sy && 0 <= a && 0 <= b
    ensures a * b * (c * c) - sx * b - sy * a >= (a * c - sx) * (b * c - sy)
    ensures sx == 0 && sy == 0 ==> a * b * (c * c) - sx * b - sy * a == (a * c - sx) * (b * c - sy)
  {
    var p, q := a * c, b * c;
    Expand(p, q, sx, sy);
    Regroup(a, b, c);
    Distrib(sx, q, b);
    Distrib(sy, p, a);
    // the source's count exceeds the copied one by sx*(q - b) + sy*(p - a) - sx*sy
    Surplus(a, b, c, sx, sy);
  }

  lemma Expand(p: int, q: int, s: int, t: int)
    ensures (p - s) * (q - t) == p * q - s * q - t * p + s * t
  {
  }

  lemma Regroup(a: int, b: int, c: int)
    ensures a * b * (c * c) == (a * c) * (b * c)
  {
  }

  lemma Distrib(s: int, p: int, a: int)
    ensures s * (p - a) == s * p - s * a
  {
  }

  lemma Surplus(a: nat, b: nat, c: nat, sx: nat, sy: nat)
    requires 1 <= c && sy < c && sy <= b * c
    ensures sx * (b * c - b) + sy * (a * c - a) >= sx * sy
  {
    Distrib(b, c, 1);
    Distrib(a, c, 1);
    MulNonneg(a, c - 1);
    MulNonneg(sy, a * (c - 1));
    if sx > 0 && sy > 0 {
      MulMonotone(1, b, c - 1);
      MulMonotone(sy, b * (c - 1), sx);
      assert sy * sx == sx * sy && b * (c - 1) * sx == sx * (b * (c - 1));
    } else {
      MulNonneg(sx, b * (c - 1));
      assert sx * sy == 0;
    }
  }

  // ---------------------------------------------------------------- copy order

  /** The index `y * w + x` of tile (x, y) in a `w` x `h` map array, and its inverse. */
  function MapIndex(w: nat, h: nat, x: nat, y: nat): (i: nat)
    requires x < w && y < h
    ensures i < w * h && i % w == x && i / w == y
  {
    MulMonotone(y + 1, h, w);
    DivModOf(y, x, w);
    y * w + x
  }

  /**
   * `rows` rows of `tw` words, the first starting at index `s` and each next
   * one `w` further, lie inside a layer of `n` words.
   */
  predicate RowsFit(n: int, w: nat, s: nat, tw: nat, rows: nat)
    decreases rows
  {
    rows == 0 || (s + tw <= n && RowsFit(n, w, s + w, tw, rows - 1))
  }

  /**
   * The words the copy loop streams from one map layer `w` tiles wide, for
   * `rows` rows of `tw` tiles whose first tile has map index `s`: top row
   * first, each row from the left.
   */
  function RegionRows<W>(layer: seq<W>, w: nat, s: nat, tw: nat, rows: nat): seq<W>
    requires RowsFit(|layer|, w, s, tw, rows)
    decreases rows
  {
    if rows == 0 then [] else layer[s .. s + tw] + RegionRows(layer, w, s + w, tw, rows - 1)
  }

  lemma NextRow(j: nat, w: nat)
    ensures j * w + w == (j + 1) * w
  {
  }

  /** A region of `rows` rows of `tw` words streams `rows * tw` words. */
  lemma {:induction false} RegionRowsLength<W>(layer: seq<W>, w: nat, s: nat, tw: nat, rows: nat)
    requires RowsFit(|layer|, w, s, tw, rows)
    ensures |RegionRows(layer, w, s, tw, rows)| == rows * tw
    decreases rows
  {
    if rows > 0 {
      RegionRowsLength(layer, w, s + w, tw, rows - 1);
      NextRow(rows - 1, tw);
    }
  }

  /**
   * Word `j * tw + i` of the streamed region is the layer's word `j` rows
   * below and `i` tiles right of the region's first tile.
   */
  lemma {:induction false} RegionRowsAt<W>(layer: seq<W>, w: nat, s: nat, tw: nat, rows: nat, j: nat, i: nat)
    requires RowsFit(|layer|, w, s, tw, rows)
    requires j < rows && i < tw
    ensures j * tw + i < rows * tw == |RegionRows(layer, w, s, tw, rows)|
    ensures s + j * w + i < |layer|
    ensures RegionRows(layer, w, s, tw, rows)[j * tw + i] == layer[s + j * w + i]
  {
    RegionRowsLength(layer, w, s, tw, rows);
    NextRow(j, tw);
    MulMonotone(j + 1, rows, tw);
    TimesIsMul(j, tw);
    TimesIsMul(j, w);
    RegionRowsElement(layer, w, s, tw, rows, j, i, j * tw + i, s + j * w + i);
  }

  /**
   * `RegionRowsAt` with the row offsets written as repeated sums: word `idx`
   * of the region is the layer's word `src`. By induction on the row.
   */
  lemma {:induction false} RegionRowsElement<W>(layer: seq<W>, w: nat, s: nat, tw: nat, rows: nat, j: nat, i: nat, idx: nat, src: nat)
    requires RowsFit(|layer|, w, s, tw, rows)
    requires j < rows && i < tw
    requires idx == Times(j, tw) + i && src == s + Times(j, w) + i
    ensures idx < |RegionRows(layer, w, s, tw, rows)| && src < |layer|
    ensures RegionRows(layer, w, s, tw, rows)[idx] == layer[src]
    decreases j
  {
    if j == 0 {
      RegionRowsHead(layer, w, s, tw, rows, idx, src);
    } else {
      var k := idx - tw;
      RegionRowsElement(layer, w, s + w, tw, rows - 1, j - 1, i, k, src);
      RegionRowsTail(layer, w, s, tw, rows, k, idx);
    }
  }

  /** The first row of the region is the first `tw` words from `s`. */
  lemma RegionRowsHead<W>(layer: seq<W>, w: nat, s: nat, tw: nat, rows: nat, i: nat, src: nat)
    requires RowsFit(|layer|, w, s, tw, rows)
    requires 0 < rows && i < tw && src == s + i
    ensures src < |layer|
    ensures i < |RegionRows(layer, w, s, tw, rows)|
    ensures RegionRows(layer, w, s, tw, rows)[i] == layer[src]
  {
    assert RegionRows(layer, w, s, tw, rows)[i] == layer[s..s + tw][i];
  }

  /** Past the first row, the region continues with the region one map row down. */
  lemma RegionRowsTail<W>(layer: seq<W>, w: nat, s: nat, tw: nat, rows: nat, k: nat, idx: nat)
    requires RowsFit(|layer|, w, s, tw, rows)
    requires 0 < rows && k < |RegionRows(layer, w, s + w, tw, rows - 1)| && idx == tw + k
    ensures idx < |RegionRows(layer, w, s, tw, rows)|
    ensures RegionRows(layer, w, s, tw, rows)[idx] == RegionRows(layer, w, s + w, tw, rows - 1)[k]
  {
    var rest := RegionRows(layer, w, s + w, tw, rows - 1);
    assert RegionRows(layer, w, s, tw, rows) == layer[s..s + tw] + rest;
  }

  /** A row of `tw` tiles from tile (x0, y) ends inside a `w` x `h` map. */
  lemma RowEndsInMap(w: nat, h: nat, x0: nat, y: nat, tw: nat)
    requires x0 + tw <= w && y < h
    ensures y * w + x0 + tw <= w * h
  {
    NextRow(y, w);
    MulMonotone(y + 1, h, w);
  }

  /** The rows of a region of `tw` x `rows` tiles from tile (x0, y0) fit in a `w` x `h` map. */
  lemma {:induction false} RowsFitInMap(w: nat, h: nat, x0: nat, y0: nat, tw: nat, rows: nat)
    requires x0 + tw <= w && y0 + rows <= h
    ensures 0 <= y0 * w
    ensures RowsFit(w * h, w, y0 * w + x0, tw, rows)
    decreases rows
  {
    MulMonotone(0, y0, w);
    if rows > 0 {
      RowEndsInMap(w, h, x0, y0, tw);
      NextRow(y0, w);
      RowsFitInMap(w, h, x0, y0 + 1, tw, rows - 1);
    }
  }

  /**
   * Row `y` of a region of `th` rows of `tw` tiles from tile (x0, y0) of a
   * `w` x `h` map: its words follow the `(y - y0) * tw` words of the rows
   * above it, and they are the map's words from tile (x0, y) on.
   */
  lemma {:induction false} RegionRowOf<W>(layer: seq<W>, w: nat, h: nat, x0: nat, y0: nat, tw: nat, th: nat, s: nat, y: nat)
    requires |layer| == w * h && x0 + tw <= w && y0 + th <= h && y0 <= y < y0 + th && s == y0 * w + x0
    ensures 0 <= y * w && 0 <= (y - y0) * tw
    ensures RowsFit(|layer|, w, s, tw, th)
    ensures |RegionRows(layer, w, s, tw, th)| == th * tw
    ensures y * w + x0 + tw <= |layer|
    ensures (y - y0) * tw + tw <= tw * th
    ensures forall k :: (y - y0) * tw <= k < (y - y0) * tw + tw ==>
      RegionRows(layer, w, s, tw, th)[k] == layer[y * w + x0 + (k - (y - y0) * tw)]
  {
    var j := y - y0;
    MulSplit(y0, j, w);
    MulSplit(j, 1, tw);
    RowsFitInMap(w, h, x0, y0, tw, th);
    RegionRowsLength(layer, w, s, tw, th);
    RowEndsInMap(w, h, x0, y, tw);
    MulMonotone(j + 1, th, tw);
    TimesIsMul(j, tw);
    TimesIsMul(j, w);
    forall k | j * tw <= k < j * tw + tw
      ensures RegionRows(layer, w, s, tw, th)[k] == layer[y * w + x0 + (k - j * tw)]
    {
      RegionRowsElement(layer, w, s, tw, th, j, k - j * tw, k, y * w + x0 + (k - j * tw));
    }
  }

  /** The map index of the first tile the copy loop visits for `r`. */
  function RegionStart(g: Layout, r: ChunkRect): nat {
    (r.tlc.y * g.chunkSize) * g.mapW + r.tlc.x * g.chunkSize
  }

  /** The region of `r` lies inside the map. */
  lemma {:induction false} RegionFits(g: Layout, r: ChunkRect)
    requires g.Valid() && WellPlaced(g, r)
    ensures r.tlc.x * g.chunkSize + RowWidth(g, r) <= g.mapW
    ensures r.tlc.y * g.chunkSize + RowCount(g, r) <= g.mapH
    ensures RowsFit(g.mapW * g.mapH, g.mapW, RegionStart(g, r), RowWidth(g, r), RowCount(g, r))
    ensures RowWidth(g, r) * RowCount(g, r) <= g.mapW * g.mapH
  {
    var x0, y0 := r.tlc.x * g.chunkSize, r.tlc.y * g.chunkSize;
    var tw, th := RowWidth(g, r), RowCount(g, r);
    RowsFitInMap(g.mapW, g.mapH, x0, y0, tw, th);
    MulMonotone(th, g.mapH, tw);
    MulMonotone(tw, g.mapW, g.mapH);
  }

  /** The region of `r` has no more tiles than the map. */
  lemma RegionWithin(g: Layout, r: ChunkRect)
    requires g.Valid() && WellPlaced(g, r)
    ensures 0 <= RowWidth(g, r) * RowCount(g, r) <= g.mapW * g.mapH
  {
    RegionFits(g, r);
    MulNonneg(RowWidth(g, r), RowCount(g, r));
  }

  /** The words of one map layer that the copy loop streams for `r`, in copy order. */
  function RegionWords<W>(layer: seq<W>, g: Layout, r: ChunkRect): seq<W>
    requires g.Valid() && WellPlaced(g, r) && |layer| == g.mapW * g.mapH
  {
    RegionFits(g, r);
    RegionRows(layer, g.mapW, RegionStart(g, r), RowWidth(g, r), RowCount(g, r))
  }

  /**
   * The words streamed for `r` are as many as its tiles, and word
   * `j * RowWidth + i` is the word of tile (x0 + i, y0 + j), where (x0, y0)
   * is the first tile of the rectangle; that tile lies in the map and in
   * the chunks of `r`.
   */
  lemma {:induction false} RegionWordsAt<W>(layer: seq<W>, g: Layout, r: ChunkRect, j: nat, i: nat)
    requires g.Valid() && WellPlaced(g, r) && |layer| == g.mapW * g.mapH
    requires j < RowCount(g, r) && i < RowWidth(g, r)
    ensures |RegionWords(layer, g, r)| == RowWidth(g, r) * RowCount(g, r)
    ensures 0 <= r.tlc.x * g.chunkSize && 0 <= r.tlc.y * g.chunkSize
    ensures r.tlc.x * g.chunkSize + i < g.mapW && r.tlc.y * g.chunkSize + j < g.mapH
    ensures InRect(g, r, r.tlc.x * g.chunkSize + i, r.tlc.y * g.chunkSize + j)
    ensures && 0 <= j * RowWidth(g, r) + i < |RegionWords(layer, g, r)|
            && RegionWords(layer, g, r)[j * RowWidth(g, r) + i]
               == layer[MapIndex(g.mapW, g.mapH, r.tlc.x * g.chunkSize + i, r.tlc.y * g.chunkSize + j)]
  {
    MulNonneg(r.tlc.x, g.chunkSize);
    MulNonneg(r.tlc.y, g.chunkSize);
    var x0: nat, y0: nat := r.tlc.x * g.chunkSize, r.tlc.y * g.chunkSize;
    var tw, th := RowWidth(g, r), RowCount(g, r);
    RegionFits(g, r);
    RegionRowsLength(layer, g.mapW, RegionStart(g, r), tw, th);
    NextRow(j, tw);
    MulMonotone(j + 1, th, tw);
    TimesIsMul(j, tw);
    TimesIsMul(j, g.mapW);
    MulNonneg(j, tw);
    MulSplit(y0, j, g.mapW);
    RegionRowsElement(layer, g.mapW, RegionStart(g, r), tw, th, j, i, j * tw + i, MapIndex(g.mapW, g.mapH, x0 + i, y0 + j));
  }

  // ---------------------------------------------------------------- worked cases

  /**
   * A 100 x 100 map in chunks of 16 seen whole: the source asks for 12376
   * tiles although 10000 are copied, more than the map (and its buffer) holds.
   */
  lemma SourceCountOvershoots()
    ensures var g := Layout(100, 100, 32, 16);
            var r := ChunkRect(UVec2(0, 0), UVec2(0, 6), UVec2(6, 0));
            && WellPlaced(g, r)
            && SourceTileCount(g, r) == 12376
            && RowWidth(g, r) * RowCount(g, r) == 10000
            && TileCount(g, r) == 10000
            && SourceTileCount(g, r) > g.mapW * g.mapH
  {
    var g := Layout(100, 100, 32, 16);
    var r := ChunkRect(UVec2(0, 0), UVec2(0, 6), UVec2(6, 0));
    assert MaxChunk(100, 16) == 6 && Slack(100, 16) == 12;
    RowWidthMatches(g, r);
  }

  /**
   * A 100 x 100 map at zoom 1, scrolled so that a 100 x 100 pixel viewport
   * sees only the last chunk (6, 6): the source's `nt` is 232 and fits the
   * buffer, but only the 4 x 4 tiles of the map's corner are copied.
   */
  lemma {:induction false} SourceCountOvershootsLastChunk()
    ensures var g := Layout(100, 100, 32, 16);
            var v := View(-12288, -12288, 4, 100, 100);
            && Visible(g, v)
            && ComputeCorners(g, v) == ChunkRect(UVec2(6, 6), UVec2(6, 6), UVec2(6, 6))
            && SourceTileCount(g, ComputeCorners(g, v)) == 232
            && RowWidth(g, ComputeCorners(g, v)) * RowCount(g, ComputeCorners(g, v)) == 16
            && TileCount(g, ComputeCorners(g, v)) == 16
            && 3 * SourceTileCount(g, ComputeCorners(g, v)) <= 3 * (g.mapW * g.mapH)
  {
    var g := Layout(100, 100, 32, 16);
    var v := View(-12288, -12288, 4, 100, 100);
    assert MaxChunk(100, 16) == 6 && Slack(100, 16) == 12;
    assert TileQ(g, v) == 128 && MapRightQ(g, v) == 512 && MapBottomQ(g, v) == 512;
    var r := ComputeCorners(g, v);
    assert r == ChunkRect(UVec2(6, 6), UVec2(6, 6), UVec2(6, 6));
    RowWidthMatches(g, r);
  }

  /**
   * The shipped map is 512 x 512 tiles (Display.cpp:14), and the zoom
   * rule only ever picks chunks of 16 or 8 (lines 151-152), which divide
   * 512: whatever the wheel did, no axis has slack, so the source's count
   * is the number of tiles copied.
   */
  lemma {:induction false} ShippedCountExact(start: nat, notches: seq<int>, r: ChunkRect)
    requires 1 <= start <= 40
    requires WellPlaced(Layout(512, 512, 32, ChunkSizeFor(ZoomAfter(start, notches))), r)
    ensures var g := Layout(512, 512, 32, ChunkSizeFor(ZoomAfter(start, notches)));
            && Slack(512, g.chunkSize) == 0
            && SourceTileCount(g, r) == TileCount(g, r) == RowWidth(g, r) * RowCount(g, r)
  {
    var g := Layout(512, 512, 32, ChunkSizeFor(ZoomAfter(start, notches)));
    ZoomStaysInRange(start, notches);
    assert Slack(512, 8) == 0 && Slack(512, 16) == 0;
    SourceCountCoversCopied(g, r);
    TileCountExact(g, r);
  }

  /** The default 512 x 512 map, chunk 16, at zoom 1 in a 16384-pixel viewport: the whole map streams. */
  lemma {:induction false} WholeDefaultMap()
    ensures var g := Layout(512, 512, 32, 16);
            var v := View(0, 0, 4, 16384, 16384);
            && Visible(g, v)
            && ComputeCorners(g, v) == ChunkRect(UVec2(0, 0), UVec2(0, 31), UVec2(31, 0))
            && TileCount(g, ComputeCorners(g, v)) == 262144
            && SourceTileCount(g, ComputeCorners(g, v)) == 262144
            && RowWidth(g, ComputeCorners(g, v)) == 512
  {
    var g := Layout(512, 512, 32, 16);
    var v := View(0, 0, 4, 16384, 16384);
    assert MaxChunk(512, 16) == 31 && Slack(512, 16) == 0;
    assert MapRightQ(g, v) == 65536;
  }

  /** A 100-tile-wide map in chunks of 16 seen whole: rows are 100 tiles wide, not 112. */
  lemma {:induction false} SlackTrimsRowWidth()
    ensures var g := Layout(100, 100, 32, 16);
            var v := View(0, 0, 4, 3200, 3200);
            && Visible(g, v)
            && SourceRowWidth(g, ComputeCorners(g, v)) == 100
            && RowWidth(g, ComputeCorners(g, v)) == 100
  {
    var g := Layout(100, 100, 32, 16);
    var v := View(0, 0, 4, 3200, 3200);
    assert MaxChunk(100, 16) == 6 && Slack(100, 16) == 12;
    assert MapRightQ(g, v) == 12800;
  }

  // ---------------------------------------------------------------- zoom rule

  /** Lines 142-149: one wheel notch moves the zoom a quarter step, within the guards. */
  function NextZoom(zoom: nat, rotation: int): (z: nat)
    requires 1 <= zoom <= 40
    ensures 1 <= z <= 40
    ensures z == zoom + 1 <==> rotation > 0 && zoom <= 39
    ensures z + 1 == zoom <==> rotation < 0 && zoom >= 2
    ensures z == zoom || z == zoom + 1 || z + 1 == zoom
  {
    if rotation > 0 && zoom <= 39 then zoom + 1
    else if rotation < 0 && zoom >= 2 then zoom - 1
    else zoom
  }

  /** Lines 151-152: chunks of 8 from zoom 5.0 on, of 16 below it. */
  function ChunkSizeFor(zoom: nat): nat {
    if zoom >= 20 then 8 else 16
  }

  /** Zoom stays a quarter multiple in [0.25, 10] over any sequence of notches from 1.0. */
  lemma {:induction false} ZoomStaysInRange(start: nat, notches: seq<int>)
    requires 1 <= start <= 40
    decreases |notches|
    ensures 1 <= ZoomAfter(start, notches) <= 40
    ensures ChunkSizeFor(ZoomAfter(start, notches)) == 8 || ChunkSizeFor(ZoomAfter(start, notches)) == 16
  {
    if notches != [] {
      ZoomStaysInRange(NextZoom(start, notches[0]), notches[1..]);
    }
  }

  /** The zoom after a sequence of wheel notches. */
  function ZoomAfter(start: nat, notches: seq<int>): nat
    requires 1 <= start <= 40
    decreases |notches|
  {
    if notches == [] then start
    else
      var z := NextZoom(start, notches[0]);
      ZoomAfter(z, notches[1..])
  }
}
