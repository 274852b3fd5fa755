/**
 * Value types of Utilstructs.cpp: the unsigned pair `uvec2` with its
 * comparison and wrap-around arithmetic, the component selectors of
 * `vec4` and `mat4`, and the records `SpriteData` and `TexData`.
 */
module Utilstructs {
  import opened Bytes

  // ---------------------------------------------------------------- uvec2

  datatype UVec2 = UVec2(x: u32, y: u32)

  /** `operator+`: componentwise, each sum wrapping modulo 2^32. */
  function Add(l: UVec2, r: UVec2): (s: UVec2)
    ensures (l.x + r.x - s.x) % U32 == 0 && (l.y + r.y - s.y) % U32 == 0
  {
    UVec2((l.x + r.x) % U32, (l.y + r.y) % U32)
  }

  /** `operator-`: componentwise, each difference wrapping modulo 2^32. */
  function Sub(l: UVec2, r: UVec2): (s: UVec2)
    ensures (s.x + r.x - l.x) % U32 == 0 && (s.y + r.y - l.y) % U32 == 0
  {
    UVec2((l.x - r.x) % U32, (l.y - r.y) % U32)
  }

  /** `operator==` compares both components, which is equality of the pairs. */
  function Eq(l: UVec2, r: UVec2): (b: bool)
    ensures b <==> l == r
  {
    l.x == r.x && l.y == r.y
  }

  /** `operator!=` is exactly the negation of `operator==`. */
  function Ne(l: UVec2, r: UVec2): (b: bool)
    ensures b <==> !Eq(l, r)
  {
    l.x != r.x || l.y != r.y
  }

  /** The position of a pair in lexicographic order (x first, then y). */
  function Key(v: UVec2): nat { v.x * U32 + v.y }

  /** `operator<`: x decides, and y breaks a tie in x. */
  function Less(l: UVec2, r: UVec2): (b: bool)
    ensures b <==> Key(l) < Key(r)
  {
    if l.x < r.x then
      KeyOrderedByX(l, r);
      true
    else if l.x > r.x then
      KeyOrderedByX(r, l);
      false
    else
      l.y < r.y
  }

  lemma KeyOrderedByX(l: UVec2, r: UVec2)
    requires l.x < r.x
    ensures Key(l) < Key(r)
  {
    calc {
      Key(l);
    <
      l.x * U32 + U32;
    ==
      (l.x + 1) * U32;
    <=
      r.x * U32;
    <=
      Key(r);
    }
  }

  /** Distinct pairs have distinct keys, so `Key` is a faithful encoding. */
  lemma {:induction false} KeyInjective(l: UVec2, r: UVec2)
    ensures Key(l) == Key(r) ==> l == r
  {
    if l.x < r.x {
      KeyOrderedByX(l, r);
    } else if r.x < l.x {
      KeyOrderedByX(r, l);
    }
  }

  lemma LessIrreflexive(v: UVec2)
    ensures !Less(v, v)
  {
  }

  lemma LessTransitive(a: UVec2, b: UVec2, c: UVec2)
    requires Less(a, b) && Less(b, c)
    ensures Less(a, c)
  {
  }

  /** Exactly one of `l < r`, `l == r` and `r < l` holds. */
  lemma {:induction false} LessTrichotomy(l: UVec2, r: UVec2)
    ensures Less(l, r) || Eq(l, r) || Less(r, l)
    ensures !(Less(l, r) && Eq(l, r)) && !(Less(r, l) && Eq(l, r)) && !(Less(l, r) && Less(r, l))
  {
    KeyInjective(l, r);
  }

  /** Subtracting what was added gives back the original pair, wrap-around included. */
  lemma {:induction false} SubAfterAdd(l: UVec2, r: UVec2)
    ensures Sub(Add(l, r), r) == l
  {
    WrapCancel(l.x, r.x);
    WrapCancel(l.y, r.y);
  }

  /** Adding back what was subtracted gives back the original pair. */
  lemma {:induction false} AddAfterSub(l: UVec2, r: UVec2)
    ensures Add(Sub(l, r), r) == l
  {
    WrapUncancel(l.x, r.x);
    WrapUncancel(l.y, r.y);
  }

  lemma WrapCancel(a: u32, b: u32)
    ensures ((a + b) % U32 - b) % U32 == a
  {
    if a + b >= U32 {
      assert (a + b) % U32 == a + b - U32;
    }
  }

  lemma WrapUncancel(a: u32, b: u32)
    ensures ((a - b) % U32 + b) % U32 == a
  {
    if a < b {
      assert (a - b) % U32 == a - b + U32;
    }
  }

  // ---------------------------------------------------------------- vec4 and mat4

  /**
   * Four components named x, y, z, w. A `vec4` is a `Vec4<float>`; a `mat4`
   * is four `vec4` columns, so the one selector serves both `operator[]`s.
   */
  datatype Vec4<T> = Vec4(x: T, y: T, z: T, w: T)

  type Mat4<T> = Vec4<Vec4<T>>

  function Components<T>(v: Vec4<T>): seq<T> { [v.x, v.y, v.z, v.w] }

  /** The component `operator[](n)` refers to: 1, 2, 3 pick y, z, w; every other index picks x. */
  function Slot(n: nat): (s: nat)
    ensures s < 4
    ensures 1 <= n < 4 ==> s == n
    ensures n == 0 || 4 <= n ==> s == 0
  {
    match n
    case 1 => 1
    case 2 => 2
    case 3 => 3
    case _ => 0
  }

  /** Reading `v[n]`, through either the const or the non-const `operator[]`. */
  function At<T>(v: Vec4<T>, n: nat): (c: T)
    ensures c == Components(v)[Slot(n)]
  {
    match n
    case 1 => v.y
    case 2 => v.z
    case 3 => v.w
    case _ => v.x
  }

  /** Writing `v[n] = c` through the reference the non-const `operator[]` returns. */
  function Put<T>(v: Vec4<T>, n: nat, c: T): (r: Vec4<T>)
    ensures Components(r) == Components(v)[Slot(n) := c]
  {
    match n
    case 1 => v.(y := c)
    case 2 => v.(z := c)
    case 3 => v.(w := c)
    case _ => v.(x := c)
  }

  /** Writing `m[col][row] = c`: the column reference, then the component reference inside it. */
  function PutEntry<T>(m: Mat4<T>, col: nat, row: nat, c: T): (r: Mat4<T>)
    ensures forall i, j :: 0 <= i < 4 && 0 <= j < 4 ==>
      Components(Components(r)[i])[j] ==
        if i == Slot(col) && j == Slot(row) then c else Components(Components(m)[i])[j]
  {
    Put(m, col, Put(At(m, col), row, c))
  }

  /** After a write, reading the same index gives the written value and every other slot is kept. */
  lemma {:induction false} AtAfterPut<T>(v: Vec4<T>, n: nat, m: nat, c: T)
    ensures At(Put(v, n, c), m) == if Slot(m) == Slot(n) then c else At(v, m)
  {
  }

  // ---------------------------------------------------------------- records

  /** A sprite sheet record. */
  class SpriteData {
    var path: string
    var imgW: nat
    var imgH: nat
    var frW: u16
    var frH: u16
    var texID: nat
    var binding: nat
    var texOff: nat

    /** `SpriteData()`: every field empty or zero. */
    constructor Default()
      ensures path == [] && imgW == 0 && imgH == 0 && frW == 0 && frH == 0
      ensures texID == 0 && binding == 0 && texOff == 0
    {
      path, imgW, imgH, frW, frH := [], 0, 0, 0, 0;
      texID, binding, texOff := 0, 0, 0;
    }

    /** `SpriteData(file)`: only the path is set. */
    constructor FromFile(file: string)
      ensures path == file && imgW == 0 && imgH == 0 && frW == 0 && frH == 0
      ensures texID == 0 && binding == 0 && texOff == 0
    {
      path, imgW, imgH, frW, frH := file, 0, 0, 0, 0;
      texID, binding, texOff := 0, 0, 0;
    }

    /** `SpriteData(file, fw, fh)`: path and frame size set, the rest zero. */
    constructor WithFrames(file: string, fw: u16, fh: u16)
      ensures path == file && frW == fw && frH == fh
      ensures imgW == 0 && imgH == 0 && texID == 0 && binding == 0 && texOff == 0
    {
      path, imgW, imgH, frW, frH := file, 0, 0, fw, fh;
      texID, binding, texOff := 0, 0, 0;
    }

    /** The copy constructor: all eight fields of `sd`. */
    constructor Copy(sd: SpriteData)
      ensures path == sd.path && imgW == sd.imgW && imgH == sd.imgH
      ensures frW == sd.frW && frH == sd.frH
      ensures texID == sd.texID && binding == sd.binding && texOff == sd.texOff
    {
      path, imgW, imgH, frW, frH := sd.path, sd.imgW, sd.imgH, sd.frW, sd.frH;
      texID, binding, texOff := sd.texID, sd.binding, sd.texOff;
    }

    /** `operator=`: every field takes the value `sd` had, also when `sd` is this object. */
    method Assign(sd: SpriteData)
      modifies this
      ensures path == old(sd.path) && imgW == old(sd.imgW) && imgH == old(sd.imgH)
      ensures frW == old(sd.frW) && frH == old(sd.frH)
      ensures texID == old(sd.texID) && binding == old(sd.binding) && texOff == old(sd.texOff)
      ensures sd != this ==> unchanged(sd)
    {
      path := sd.path;
      imgW := sd.imgW;
      imgH := sd.imgH;
      frW := sd.frW;
      frH := sd.frH;
      texID := sd.texID;
      binding := sd.binding;
      texOff := sd.texOff;
    }
  }

  /** A texture record. */
  class TexData {
    var texID: u32
    var w: u16
    var h: u16
    var filled: u16
    var openSlots: u16

    /** `TexData()`: all five fields zero. */
    constructor Default()
      ensures texID == 0 && w == 0 && h == 0 && filled == 0 && openSlots == 0
    {
      texID, w, h, filled, openSlots := 0, 0, 0, 0, 0;
    }

    /** `TexData(id, ww, hh, f, slots)`: each field from its argument. */
    constructor (id: u32, ww: u16, hh: u16, f: u16, slots: u16)
      ensures texID == id && w == ww && h == hh && filled == f && openSlots == slots
    {
      texID, w, h, filled, openSlots := id, ww, hh, f, slots;
    }

    /** The copy constructor. */
    constructor Copy(td: TexData)
      ensures texID == td.texID && w == td.w && h == td.h
      ensures filled == td.filled && openSlots == td.openSlots
    {
      texID, w, h, filled, openSlots := td.texID, td.w, td.h, td.filled, td.openSlots;
    }

    /** `operator=`: every field takes the value `td` had, also when `td` is this object. */
    method Assign(td: TexData)
      modifies this
      ensures texID == old(td.texID) && w == old(td.w) && h == old(td.h)
      ensures filled == old(td.filled) && openSlots == old(td.openSlots)
      ensures td != this ==> unchanged(td)
    {
      texID := td.texID;
      w := td.w;
      h := td.h;
      filled := td.filled;
      openSlots := td.openSlots;
    }
  }
}
