/** Bytes, the fixed-width integers of the wire format and their big-endian encoding
    (src/util/endian.hpp). */
module Bytes {

  type byte = b: int | 0 <= b < 256
  type bytes = seq<byte>

  const TWO_7 := 128
  const TWO_28 := 0x1000_0000
  const TWO_31 := 0x8000_0000
  const TWO_32 := 0x1_0000_0000
  const TWO_63 := 0x8000_0000_0000_0000
  const TWO_64 := 0x1_0000_0000_0000_0000

  type int8 = x: int | -128 <= x < 128
  type int16 = x: int | -0x8000 <= x < 0x8000
  type int32 = x: int | -TWO_31 <= x < TWO_31
  type int64 = x: int | -TWO_63 <= x < TWO_63
  type uint32 = x: int | 0 <= x < TWO_32

  datatype Option<+T> = None | Some(value: T) {
    predicate IsFailure() { None? }
    function PropagateFailure<U>(): Option<U> requires None? { None }
    function Extract(): T requires Some? { value }
  }

  /** What a read leaves behind: the value and the bytes after it. */
  type Parsed<+T> = Option<(T, bytes)>

  /** The two's-complement value with the given unsigned image. */
  function Signed(u: int, modulus: int): int
  {
    if 2 * u >= modulus then u - modulus else u
  }

  /** `static_cast<int32_t>` of any integer. */
  function ToInt32(x: int): int32 { Signed(x % TWO_32, TWO_32) }

  /** `static_cast<uint32_t>(n) + 1` on a 64-bit size: the wrapping compact-array count. */
  function Count(n: nat): uint32 { (n % TWO_32 + 1) % TWO_32 }

  function BE16(v: int): (s: bytes)
    ensures |s| == 2
  {
    [v / 0x100 % 256, v % 256]
  }

  function BE32(v: int): (s: bytes)
    ensures |s| == 4
  {
    [v / 0x100_0000 % 256, v / 0x1_0000 % 256, v / 0x100 % 256, v % 256]
  }

  function BE64(v: int): (s: bytes)
    ensures |s| == 8
  {
    BE32(v / TWO_32) + BE32(v)
  }

  function Unsigned16(s: bytes): (u: nat)
    requires |s| == 2
    ensures u < 0x1_0000
  {
    s[0] as int * 0x100 + s[1]
  }

  function Unsigned32(s: bytes): (u: nat)
    requires |s| == 4
    ensures u < TWO_32
  {
    s[0] as int * 0x100_0000 + s[1] as int * 0x1_0000 + s[2] as int * 0x100 + s[3]
  }

  function Decode16(s: bytes): int16
    requires |s| == 2
  {
    Signed(Unsigned16(s), 0x1_0000)
  }

  function Decode32(s: bytes): int32
    requires |s| == 4
  {
    Signed(Unsigned32(s), TWO_32)
  }

  function Decode64(s: bytes): int64
    requires |s| == 8
  {
    Signed(Unsigned32(s[..4]) * TWO_32 + Unsigned32(s[4..]), TWO_64)
  }

  lemma Unsigned32OfBE32(v: int)
    ensures Unsigned32(BE32(v)) == v % TWO_32
  {
    var q1, q2, q3 := v / 0x100, v / 0x1_0000, v / 0x100_0000;
    assert q2 == q1 / 0x100 && q3 == q2 / 0x100;
    var q4 := v / TWO_32;
    assert q4 == q3 / 0x100;
    assert v == q1 * 0x100 + v % 256;
    assert q1 == q2 * 0x100 + q1 % 256;
    assert q2 == q3 * 0x100 + q2 % 256;
    assert q3 == q4 * 0x100 + q3 % 256;
    assert v == q4 * TWO_32 + Unsigned32(BE32(v));
  }

  /** Decoding inverts encoding at every width, for every representable value. */
  lemma DecodeInvertsEncode16(v: int16)
    ensures Decode16(BE16(v)) == v
  {
    assert v == v / 0x100 * 0x100 + v % 256;
  }

  lemma DecodeInvertsEncode32(v: int32)
    ensures Decode32(BE32(v)) == v
  {
    Unsigned32OfBE32(v);
    SignedOfMod(v);
  }

  lemma SignedOfMod(v: int32)
    ensures Signed(v % TWO_32, TWO_32) == v
  {
    assert v % TWO_32 == if v < 0 then v + TWO_32 else v;
  }

  lemma DecodeInvertsEncode64(v: int64)
    ensures Decode64(BE64(v)) == v
  {
    var hi, lo := v / TWO_32, v % TWO_32;
    assert v == hi * TWO_32 + lo && -TWO_31 <= hi < TWO_31;
    assert BE64(v)[..4] == BE32(hi) && BE64(v)[4..] == BE32(v);
    assert Unsigned32(BE64(v)[..4]) == hi % TWO_32 by { Unsigned32OfBE32(hi); }
    assert Unsigned32(BE64(v)[4..]) == lo by { Unsigned32OfBE32(v); }
    SignedHalves(hi, lo);
  }

  lemma SignedHalves(hi: int32, lo: uint32)
    ensures Signed(hi % TWO_32 * TWO_32 + lo, TWO_64) == hi * TWO_32 + lo
  {
    assert hi % TWO_32 == if hi < 0 then hi + TWO_32 else hi;
  }

  /** Bytes read as one number, most significant first. */
  function BigEndian(s: bytes): nat
  {
    if s == [] then 0 else 256 * BigEndian(s[..|s| - 1]) + s[|s| - 1]
  }

  lemma {:induction false} BigEndianAppend(a: bytes, b: bytes)
    requires |b| == 4
    ensures BigEndian(a + b) == BigEndian(a) * TWO_32 + Unsigned32(b)
  {
    var s := a + b;
    assert s[..|a| + 3] == a + b[..3] && (a + b[..3])[..|a| + 2] == a + b[..2] && (a + b[..2])[..|a| + 1] == a + b[..1]
           && (a + b[..1])[..|a|] == a;
    assert BigEndian(a + b[..1]) == 256 * BigEndian(a) + b[0];
    assert BigEndian(a + b[..2]) == 256 * BigEndian(a + b[..1]) + b[1];
    assert BigEndian(a + b[..3]) == 256 * BigEndian(a + b[..2]) + b[2];
  }

  /** Every integer on the wire is big-endian two's complement. */
  lemma DecodeIsBigEndian(s: bytes)
    ensures |s| == 2 ==> Decode16(s) == Signed(BigEndian(s), 0x1_0000)
    ensures |s| == 4 ==> Decode32(s) == Signed(BigEndian(s), TWO_32)
    ensures |s| == 8 ==> Decode64(s) == Signed(BigEndian(s), TWO_64)
  {
    hide Signed;
    if |s| == 2 {
      assert s[..1][..0] == [] && BigEndian(s[..1]) == s[0];
    } else if |s| == 4 {
      BigEndianAppend([], s);
      assert [] + s == s;
    } else if |s| == 8 {
      BigEndianAppend([], s[..4]);
      BigEndianAppend(s[..4], s[4..]);
      assert [] + s[..4] == s[..4] && s[..4] + s[4..] == s;
    }
  }

  /** The concatenation of a list of byte strings. */
  function Concat(parts: seq<bytes>): bytes
  {
    if parts == [] then [] else parts[0] + Concat(parts[1..])
  }

  lemma ConcatNone()
    ensures Concat([]) == []
  {
  }

  lemma {:induction false} ConcatAppend(a: seq<bytes>, b: seq<bytes>)
    ensures Concat(a + b) == Concat(a) + Concat(b)
  {
    if a == [] {
      assert a + b == b;
    } else {
      assert (a + b)[1..] == a[1..] + b;
      ConcatAppend(a[1..], b);
    }
  }
}
