/**
 * Byte views of the 16-bit tile words and the 32-bit texels. The source
 * writes the bytes of a `uint16_t` or a `GLuint` through a `uint8_t*` alias;
 * on the little-endian targets it is built for, byte 0 is the lowest byte.
 */
module Bytes {
  import opened Arith

  const U32: nat := 0x1_0000_0000

  type u8 = x: nat | x < 0x100
  type u16 = x: nat | x < 0x1_0000
  /** A C++ `unsigned` or `GLuint` on the 32-bit-int targets of the source. */
  type u32 = x: nat | x < U32

  /** A `uint16_t` as the two bytes its `uint8_t*` alias sees: `lo` is byte 0, `hi` byte 1. */
  datatype Word = Word(lo: u8, hi: u8)

  /** The number a word holds. */
  function Value(w: Word): (v: u16)
    ensures v % 0x100 == w.lo && v / 0x100 == w.hi
  {
    DivModOf(w.hi, w.lo, 0x100);
    w.lo + 0x100 * w.hi
  }

  /** The bytes of a number. */
  function FromValue(v: u16): (w: Word)
    ensures Value(w) == v
  {
    Word(v % 0x100, v / 0x100)
  }

  /** A word and the number it holds determine each other. */
  lemma {:induction false} ValueRoundTrip(w: Word, v: u16)
    ensures FromValue(Value(w)) == w
    ensures Value(FromValue(v)) == v
    ensures Value(w) == v <==> w == FromValue(v)
  {
  }

  /** Overwrites byte 1 of `w`, as `vals[1] = orient` does. */
  function WithHigh(w: Word, hi: u8): (r: Word)
    ensures r.hi == hi && r.lo == w.lo
  {
    w.(hi := hi)
  }

  /** Byte `k` (0 lowest, 3 highest) of a 32-bit word. */
  function ByteOf(w: u32, k: nat): u8
    requires k < 4
  {
    match k
    case 0 => w % 0x100
    case 1 => w / 0x100 % 0x100
    case 2 => w / 0x1_0000 % 0x100
    case _ => w / 0x100_0000
  }

  /** The 32-bit word whose bytes, in memory order, are `b0`, `b1`, `b2`, `b3`. */
  function Pack4(b0: u8, b1: u8, b2: u8, b3: u8): (w: u32)
    ensures ByteOf(w, 0) == b0 && ByteOf(w, 1) == b1 && ByteOf(w, 2) == b2 && ByteOf(w, 3) == b3
  {
    var lo := Value(Word(b0, b1));
    var hi := Value(Word(b2, b3));
    var w := lo + 0x1_0000 * hi;
    SplitAt(w, b0, b1 + 0x100 * hi, 0x100);
    SplitAt(w / 0x100, b1, hi, 0x100);
    SplitAt(w, lo, hi, 0x1_0000);
    SplitAt(hi, b2, b3, 0x100);
    SplitAt(w, lo + 0x1_0000 * b2, b3, 0x100_0000);
    w
  }
}
