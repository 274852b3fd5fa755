/**
 * The pixel loops of `Display::_loadTilesheet` (Display.cpp:322-346 and
 * 367-383). A decoded tilesheet image is cut into `td` x `td` tiles, read
 * left to right and top to bottom; each tile's texels are written one
 * after another into a buffer, each tile flipped vertically, and every
 * texel packed as four bytes red, green, blue, alpha, where the colour key
 * magenta (255, 0, 255) becomes fully transparent. Two constant tiles, a
 * transparent one and an opaque magenta one, are filled beside it.
 */
module Tilesheet {
  import opened Arith
  import opened Bytes
  import Chunks

  /** The first three channels of one image pixel. */
  datatype Rgb = Rgb(r: u8, g: u8, b: u8)

  /** The colour key: pixels of this colour are transparent. */
  const Magenta: Rgb := Rgb(255, 0, 255)

  /** A decoded image, `width` x `height` pixels; pixel (x, y) is `pixels[y * width + x]`. */
  datatype Image = Image(width: nat, height: nat, pixels: seq<Rgb>) {
    ghost predicate Valid() {
      |pixels| == width * height
    }

    /** `image(x, y, 0, c)` for the channels c = 0, 1, 2. */
    function At(x: nat, y: nat): Rgb
      requires Valid() && x < width && y < height
    {
      pixels[Chunks.MapIndex(width, height, x, y)]
    }
  }

  /** Lines 338-341: one pixel as a texel, alpha 0 for the colour key and 255 otherwise. */
  function Texel(p: Rgb): (t: u32)
    ensures ByteOf(t, 0) == p.r && ByteOf(t, 1) == p.g && ByteOf(t, 2) == p.b
    ensures ByteOf(t, 3) == 0 <==> p == Magenta
    ensures ByteOf(t, 3) != 0 ==> ByteOf(t, 3) == 255
  {
    Pack4(p.r, p.g, p.b, if p.r == 255 && p.g == 0 && p.b == 255 then 0 else 255)
  }

  /** `wInTiles` (line 316): whole tiles across the image. */
  function TilesWide(img: Image, td: nat): nat
    requires 0 < td
  {
    img.width / td
  }

  /** `hInTiles` (line 317): whole tiles down the image. */
  function TilesHigh(img: Image, td: nat): nat
    requires 0 < td
  {
    img.height / td
  }

  /** `nTiles` (line 318): the tiles the sheet holds. */
  function SheetTiles(img: Image, td: nat): nat
    requires 0 < td
  {
    TilesWide(img, td) * TilesHigh(img, td)
  }

  /** The texels the buffer receives: `td * td` per tile. */
  function SheetSize(img: Image, td: nat): nat
    requires 0 < td
  {
    MulNonneg(SheetTiles(img, td), td);
    SheetTiles(img, td) * td * td
  }

  /** `xoff` (lines 325, 327): the image column of tile `n`'s left edge. */
  function TileLeft(img: Image, td: nat, n: nat): nat
    requires 0 < td && n < SheetTiles(img, td)
  {
    PositiveFactors(TilesWide(img, td), TilesHigh(img, td));
    MulNonneg(n % TilesWide(img, td), td);
    (n % TilesWide(img, td)) * td
  }

  /** `yoff` (lines 326, 328): the image row of tile `n`'s top edge. */
  function TileTop(img: Image, td: nat, n: nat): nat
    requires 0 < td && n < SheetTiles(img, td)
  {
    PositiveFactors(TilesWide(img, td), TilesHigh(img, td));
    MulNonneg(n / TilesWide(img, td), td);
    (n / TilesWide(img, td)) * td
  }

  /**
   * Texel (i, j) of tile `n` is read at column `xoff + i` and at the
   * flipped row `yoff + td - 1 - j` of the image, and that pixel lies in
   * the image.
   */
  lemma TileInImage(img: Image, td: nat, n: nat, j: nat, i: nat)
    requires 0 < td && n < SheetTiles(img, td) && j < td && i < td
    ensures TileLeft(img, td, n) + i < img.width
    ensures TileTop(img, td, n) + td - 1 - j < img.height
  {
    var wT, hT := TilesWide(img, td), TilesHigh(img, td);
    PositiveFactors(wT, hT);
    InQuotientBlock(img.width, td);
    InQuotientBlock(img.height, td);
    var tx, ty := n % wT, n / wT;
    MulSplit(tx, 1, td);
    MulMonotone(tx + 1, wT, td);
    assert n < hT * wT;
    QuotientBelow(n, hT, wT);
    MulSplit(ty, 1, td);
    MulMonotone(ty + 1, hT, td);
  }

  /**
   * What the repacked buffer holds at index `s`: writing `s` as
   * `(n * td + j) * td + i`, that is `n * td * td + j * td + i`, texel
   * (i, j) of tile `n`, taken from the vertically flipped tile.
   */
  function SheetTexel(img: Image, td: nat, s: nat): u32
    requires img.Valid() && 0 < td && s < SheetSize(img, td)
  {
    var q := s / td;
    var i := s % td;
    var n := q / td;
    var j := q % td;
    QuotientBelow(s, SheetTiles(img, td) * td, td);
    QuotientBelow(q, SheetTiles(img, td), td);
    TileInImage(img, td, n, j, i);
    Texel(img.At(TileLeft(img, td, n) + i, TileTop(img, td, n) + td - 1 - j))
  }

  /** The sheet is at most the image: the buffer of `imW * imH` texels holds it. */
  lemma SheetFitsImage(img: Image, td: nat)
    requires 0 < td
    ensures SheetSize(img, td) <= img.width * img.height
  {
    var wT, hT := TilesWide(img, td), TilesHigh(img, td);
    InQuotientBlock(img.width, td);
    InQuotientBlock(img.height, td);
    assert SheetSize(img, td) == (wT * td) * (hT * td);
    MulMonotone(wT * td, img.width, hT * td);
    MulNonneg(hT, td);
    assert img.width * (hT * td) == (hT * td) * img.width;
    MulMonotone(hT * td, img.height, img.width);
  }

  /**
   * Line 333's index `n * td * td + ((y - yoff) * td + (x - xoff))`, with
   * `j = y - yoff` and `i = x - xoff`, lies in the sheet, and the buffer
   * holds there the texel read at lines 337-341: image column `x = xoff + i`
   * and the flipped row `yoff + td - 1 - j`.
   */
  lemma {:induction false} SlotOf(img: Image, td: nat, n: nat, j: nat, i: nat, s: int, x: nat, y: nat)
    requires img.Valid() && 0 < td && n < SheetTiles(img, td) && j < td && i < td
    requires s == n * td * td + (j * td + i)
    requires x == TileLeft(img, td, n) + i && y == TileTop(img, td, n) + td - 1 - j
    ensures 0 <= s < SheetSize(img, td) && x < img.width && y < img.height
    ensures SheetTexel(img, td, s) == Texel(img.At(x, y))
  {
    var q := n * td + j;
    MulNonneg(n, td);
    MulSplit(n * td, j, td);
    SplitAt(s, i, q, td);
    SplitAt(q, j, n, td);
    SlotInSheet(img, td, n, j, q);
    SlotInSheet(img, td, q, i, s);
    TileInImage(img, td, n, j, i);
  }

  /** Within a block of `td` below `k * td`: `k < m` gives `k * td + r < m * td`. */
  lemma SlotInSheet(img: Image, td: nat, k: nat, r: nat, s: nat)
    requires 0 < td && r < td && s == k * td + r
    ensures k < SheetTiles(img, td) ==> s < SheetTiles(img, td) * td
    ensures k < SheetTiles(img, td) * td ==> s < SheetSize(img, td)
  {
    MulSplit(k, 1, td);
    if k < SheetTiles(img, td) {
      MulMonotone(k + 1, SheetTiles(img, td), td);
    }
    if k < SheetTiles(img, td) * td {
      MulNonneg(SheetTiles(img, td), td);
      MulMonotone(k + 1, SheetTiles(img, td) * td, td);
    }
  }

  /** The first `k` texels of the buffer hold the sheet's first `k` texels. */
  ghost predicate Repacked(buff: array<u32>, img: Image, td: nat, k: int)
    reads buff
  {
    && img.Valid() && 0 < td && k <= SheetSize(img, td) && k <= buff.Length
    && forall s :: 0 <= s < k ==> buff[s] == SheetTexel(img, td, s)
  }

  /**
   * The innermost loop (Display.cpp:332-344): row `y = yoff + j` of tile
   * `n`, whose top-left pixel is (`xoff`, `yoff`), goes to the `td` texels
   * after the `n * td * td + j * td` already written.
   */
  method RepackRow(buff: array<u32>, img: Image, td: nat, n: nat, xoff: nat, yoff: nat, y: nat, ghost j: nat)
    requires img.Valid() && 0 < td && n < SheetTiles(img, td) && buff.Length == img.width * img.height
    requires xoff == TileLeft(img, td, n) && yoff == TileTop(img, td, n)
    requires y - yoff == j && j < td
    requires Repacked(buff, img, td, n * td * td + j * td)
    modifies buff
    ensures Repacked(buff, img, td, n * td * td + (j + 1) * td)
  {
    SheetFitsImage(img, td);
    Chunks.NextRow(j, td);
    var x := xoff;
    ghost var i := 0;
    while x < xoff + td
      invariant x - xoff == i && i <= td
      invariant Repacked(buff, img, td, n * td * td + j * td + i)
    {
      var idx := n * td * td + ((y - yoff) * td + (x - xoff));
      var invY := yoff + td - 1 - (y - yoff);
      SlotOf(img, td, n, j, i, idx, x, invY);
      var pix := Texel(img.At(x, invY));
      buff[idx] := pix;
      x := x + 1;
      i := i + 1;
    }
    assert i == td;
  }

  /** The loop over the rows of tile `n` (Display.cpp:325-345). */
  method RepackTile(buff: array<u32>, img: Image, td: nat, n: nat)
    requires img.Valid() && 0 < td && n < SheetTiles(img, td) && buff.Length == img.width * img.height
    requires Repacked(buff, img, td, n * td * td)
    modifies buff
    ensures Repacked(buff, img, td, (n + 1) * td * td)
  {
    PositiveFactors(TilesWide(img, td), TilesHigh(img, td));
    var tileX := n % TilesWide(img, td);
    var tileY := n / TilesWide(img, td);
    MulNonneg(tileX, td);
    MulNonneg(tileY, td);
    var xoff := tileX * td;
    var yoff := tileY * td;
    var y := yoff;
    ghost var j := 0;
    while y < yoff + td
      invariant y - yoff == j && j <= td
      invariant Repacked(buff, img, td, n * td * td + j * td)
    {
      RepackRow(buff, img, td, n, xoff, yoff, y, j);
      y := y + 1;
      j := j + 1;
    }
    TileEnd(n, td, j);
  }

  /** After the last row of tile `n`, the next tile starts. */
  lemma TileEnd(n: nat, td: nat, j: nat)
    requires j == td
    ensures n * td * td + j * td == (n + 1) * td * td
  {
    MulSplit(n, 1, td);
    MulSplit(n * td, td, td);
  }

  /**
   * The tile loop of `_loadTilesheet` (Display.cpp:314-346): cut the image
   * into `nTiles` whole tiles and write them, tile after tile, into a
   * fresh buffer of `imW * imH` texels. Every texel of the sheet is then
   * `SheetTexel`; the texels past the sheet are not written.
   */
  method RepackTilesheet(img: Image, td: nat) returns (buff: array<u32>, nTiles: nat)
    requires img.Valid() && 0 < td
    ensures fresh(buff) && buff.Length == img.width * img.height
    ensures nTiles == SheetTiles(img, td) && SheetSize(img, td) <= buff.Length
    ensures forall s :: 0 <= s < SheetSize(img, td) ==> buff[s] == SheetTexel(img, td, s)
  {
    var wInTiles := img.width / td;
    var hInTiles := img.height / td;
    MulNonneg(wInTiles, hInTiles);
    nTiles := wInTiles * hInTiles;
    MulNonneg(img.width, img.height);
    buff := new u32[img.width * img.height];
    SheetFitsImage(img, td);
    var n := 0;
    while n < nTiles
      invariant n <= nTiles
      invariant Repacked(buff, img, td, n * td * td)
    {
      RepackTile(buff, img, td, n);
      n := n + 1;
    }
    assert n * td * td == SheetSize(img, td);
  }

  /** Lines 369, 371-374: the texel of the solid tile, opaque magenta. */
  const SolidTexel: u32 := 0xFFFF_00FF

  /** Lines 370, 376-379: the texel of the transparent tile, all four bytes 0. */
  const TransparentTexel: u32 := 0

  /**
   * The solid tile is opaque magenta, unlike a magenta pixel of the sheet,
   * which the colour key makes transparent; the transparent tile has alpha 0.
   */
  lemma ConstantTexels()
    ensures ByteOf(SolidTexel, 0) == 255 && ByteOf(SolidTexel, 1) == 0 && ByteOf(SolidTexel, 2) == 255
    ensures ByteOf(SolidTexel, 3) == 255 && ByteOf(TransparentTexel, 3) == 0
    ensures SolidTexel != Texel(Magenta)
  {
    assert Texel(Magenta) == Pack4(255, 0, 255, 0);
  }

  /** Lines 366-383: the buffers of the transparent tile (layer 255) and the solid tile (layer 256). */
  method ConstantTiles(td: nat) returns (tbuff: array<u32>, sbuff: array<u32>)
    ensures fresh(tbuff) && fresh(sbuff) && tbuff != sbuff
    ensures tbuff.Length == td * td && sbuff.Length == td * td
    ensures forall i :: 0 <= i < td * td ==> tbuff[i] == TransparentTexel && sbuff[i] == SolidTexel
  {
    var size := td * td;
    tbuff := new u32[size];
    sbuff := new u32[size];
    var s := SolidTexel;
    var t := TransparentTexel;
    var i := 0;
    while i < size
      invariant i <= size
      invariant forall k :: 0 <= k < i ==> tbuff[k] == t && sbuff[k] == s
    {
      tbuff[i] := t;
      sbuff[i] := s;
      i := i + 1;
    }
  }
}
