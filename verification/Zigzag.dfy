/** The zigzag code as the source computes it, with shifts and exclusive-ors on 32-bit words (src/util/varint.hpp), is the
    arithmetic one of `Varint`. */
module Zigzag {
  import opened Bytes
  import opened Varint

  /** `(uint32(value) << 1) ^ uint32(value >> 31)`: the second shift copies the sign bit everywhere. */
  function EncodeBits(v: bv32): bv32 { (v << 1) ^ (if v >= 0x8000_0000 then 0xFFFF_FFFF else 0) }

  /** `int32(encoded >> 1) ^ -int32(encoded & 1)`. */
  function DecodeBits(u: bv32): bv32 { (u >> 1) ^ (0 - (u & 1)) }

  // ---- words as numbers ----

  function Num(v: bv32): (n: uint32) { v as int }
  function Half(v: bv32): bv32 { v >> 1 }
  predicate Odd(v: bv32) { v & 1 == 1 }
  function Flip(m: bv32, v: bv32): bv32 { m ^ v }

  /** `m` is a run of ones and `v` has no bit beyond it. */
  predicate Within(m: bv32, v: bv32) { (m + 1) & m == 0 && v & m == v }

  lemma Double(v: bv32)
    requires v < 0x8000_0000
    ensures Num(v << 1) == 2 * Num(v) && Num((v << 1) + 1) == 2 * Num(v) + 1
  {
  }

  lemma Split(v: bv32)
    ensures Half(v) < 0x8000_0000 && v == if Odd(v) then (Half(v) << 1) + 1 else Half(v) << 1
  {
  }

  lemma Halves(v: bv32)
    ensures Num(v) == 2 * Num(Half(v)) + if Odd(v) then 1 else 0
  {
    hide Num, Half, Odd;
    Split(v);
    Double(Half(v));
  }

  lemma FlipStep(m: bv32, v: bv32)
    requires Within(m, v)
    ensures m != 0 ==>
              Within(Half(m), Half(v)) && Half(Flip(m, v)) == Flip(Half(m), Half(v)) && Odd(m) && Odd(Flip(m, v)) == !Odd(v)
    ensures m == 0 ==> v == 0 && Flip(m, v) == 0
  {
  }

  lemma Zero(m: bv32)
    ensures m == 0 <==> Num(m) == 0
  {
  }

  /** Flipping all bits of a run of ones subtracts from it. */
  lemma {:induction false} FlipSubtracts(m: bv32, v: bv32)
    requires Within(m, v)
    ensures Num(Flip(m, v)) == Num(m) - Num(v)
    decreases Num(m)
  {
    hide Num, Half, Odd, Flip, Within;
    FlipStep(m, v);
    Zero(m);
    if m != 0 {
      Halves(m);
      Halves(v);
      Halves(Flip(m, v));
      FlipSubtracts(Half(m), Half(v));
    } else {
      Zero(v);
    }
  }

  lemma AllOnes(v: bv32)
    ensures Within(0xFFFF_FFFF, v) && Num(0xFFFF_FFFF) == 0xFFFF_FFFF
  {
  }

  lemma NotSubtracts(v: bv32)
    ensures Num(Flip(0xFFFF_FFFF, v)) == 0xFFFF_FFFF - Num(v)
  {
    hide Num, Flip, Within;
    AllOnes(v);
    FlipSubtracts(0xFFFF_FFFF, v);
  }

  lemma TopBit(v: bv32)
    ensures v >= 0x8000_0000 <==> Num(v) >= 0x8000_0000
  {
  }

  // ---- the code ----

  lemma EncodeCases(v: bv32)
    ensures v < 0x8000_0000 ==> EncodeBits(v) == v << 1
    ensures v >= 0x8000_0000 ==> Flip(0xFFFF_FFFF, v) < 0x8000_0000 && EncodeBits(v) == (Flip(0xFFFF_FFFF, v) << 1) + 1
  {
  }

  lemma DecodeCases(u: bv32)
    ensures DecodeBits(u) == if Odd(u) then Flip(0xFFFF_FFFF, Half(u)) else Half(u)
  {
    assert u & 1 == 1 ==> 0 - (u & 1) == 0xFFFF_FFFF;
    assert u & 1 == 0 || u & 1 == 1;
    assert u & 1 == 0 ==> (u >> 1) ^ 0 == u >> 1;
    assert u & 1 == 1 ==> (u >> 1) ^ 0xFFFF_FFFF == 0xFFFF_FFFF ^ (u >> 1);
  }

  lemma EncodeNumber(n: uint32)
    ensures ZigzagEncode(ToInt32(n)) == if n < 0x8000_0000 then 2 * n else 2 * (0xFFFF_FFFF - n) + 1
  {
    assert n % TWO_32 == n;
  }

  /** The bits of the encoded word are those of the arithmetic code, for every word read as a signed number. */
  lemma EncodeIsArithmetic(v: bv32)
    ensures Num(EncodeBits(v)) == ZigzagEncode(ToInt32(Num(v)))
  {
    hide Num, EncodeBits, Flip, ZigzagEncode, ToInt32;
    EncodeCases(v);
    TopBit(v);
    EncodeNumber(Num(v));
    if v < 0x8000_0000 {
      Double(v);
    } else {
      NotSubtracts(v);
      Double(Flip(0xFFFF_FFFF, v));
    }
  }

  /** And decoding likewise, for every word. */
  lemma DecodeIsArithmetic(u: bv32)
    ensures ToInt32(Num(DecodeBits(u))) == ZigzagDecode(Num(u))
  {
    hide Num, DecodeBits, Flip, Half, Odd;
    DecodeCases(u);
    Halves(u);
    NotSubtracts(Half(u));
  }

  /** So on words, too, each undoes the other. */
  lemma BitsBijection(v: bv32)
    ensures DecodeBits(EncodeBits(v)) == v && EncodeBits(DecodeBits(v)) == v
  {
    assert EncodeBits(DecodeBits(v)) == v;
    UndoEncode(v);
  }

  lemma UndoEncode(v: bv32)
    ensures DecodeBits(EncodeBits(v)) == v
  {
    hide EncodeBits, DecodeBits, Odd, Half, Flip;
    EncodeCases(v);
    DecodeCases(EncodeBits(v));
    if v < 0x8000_0000 {
      Undouble(v);
    } else {
      Undouble(Flip(0xFFFF_FFFF, v));
      FlipTwice(v);
    }
  }

  lemma Undouble(w: bv32)
    requires w < 0x8000_0000
    ensures !Odd(w << 1) && Half(w << 1) == w && Odd((w << 1) + 1) && Half((w << 1) + 1) == w
  {
  }

  lemma FlipTwice(v: bv32)
    ensures Flip(0xFFFF_FFFF, Flip(0xFFFF_FFFF, v)) == v
  {
  }
}
