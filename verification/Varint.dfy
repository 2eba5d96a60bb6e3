/** Variable-length integers and zigzag (src/util/varint.hpp).  Bit operations on values whose
    set bits do not overlap are written as arithmetic: `& 0x7F` is `% 128`, `>> 7` is `/ 128`
    and an `|` of disjoint bits is `+`. */
module Varint {
  import opened Bytes

  // ---- specification ----

  /** The number of bytes of the canonical encoding. */
  function VarintSize(v: nat): (n: nat)
    ensures 1 <= n
  {
    if v < 128 then 1 else 1 + VarintSize(v / 128)
  }

  function EncodeVarint(v: nat): (s: bytes)
    ensures |s| == VarintSize(v)
  {
    if v < 128 then [v] else [v % 128 + 128] + EncodeVarint(v / 128)
  }

  /** The value at the front of `s` when `i` bytes of the varint were already examined;
      a fifth byte is never accepted. */
  function DecodeVarint(s: bytes, i: nat): (r: Option<nat>)
  {
    if s == [] || i >= 4 then None
    else if s[0] < 128 then Some(s[0])
    else
      var rest :- DecodeVarint(s[1..], i + 1);
      Some(s[0] % 128 + 128 * rest)
  }

  /** How many bytes DecodeVarint looks at before it stops successfully. */
  function Examined(s: bytes): (n: nat)
    ensures n <= |s|
  {
    if s == [] then 0 else if s[0] < 128 then 1 else 1 + Examined(s[1..])
  }

  /** The readable values with `i` of the four bytes used up. */
  function Limit(i: nat): nat
  {
    if i == 0 then TWO_28 else if i == 1 then 0x20_0000 else if i == 2 then 0x4000 else if i == 3 then 128 else 0
  }

  // ---- laws ----

  /** The canonical length never exceeds the bytes examined, so advancing by it stays in bounds. */
  lemma {:induction false} CanonicalWithinExamined(s: bytes, i: nat)
    ensures DecodeVarint(s, i).Some? ==>
              && DecodeVarint(s, i).value < Limit(i)
              && VarintSize(DecodeVarint(s, i).value) <= Examined(s)
  {
    if DecodeVarint(s, i).Some? && s[0] >= 128 {
      CanonicalWithinExamined(s[1..], i + 1);
    }
  }

  /** Reading what was written gives the value back exactly when it is below 2^28, whatever
      follows; any larger value is refused. */
  lemma {:induction false} VarintRoundTrip(v: nat, rest: bytes, i: nat)
    ensures DecodeVarint(EncodeVarint(v) + rest, i) == if v < Limit(i) then Some(v) else None
    decreases v
  {
    var s := EncodeVarint(v) + rest;
    if v >= 128 {
      assert s[1..] == EncodeVarint(v / 128) + rest;
      VarintRoundTrip(v / 128, rest, i + 1);
      assert (s[0] - 128) + 128 * (v / 128) == v;
    }
  }

  /** Groups of seven bits, least significant first. */
  function Base128(s: bytes): nat
  {
    if s == [] then 0 else s[0] % 128 + 128 * Base128(s[1..])
  }

  /** A varint of at most four bytes, canonical or not, is the number its seven-bit groups spell. */
  lemma {:induction false} VarintIsBase128(s: bytes, n: nat, i: nat)
    requires n < |s| && n + i < 4 && s[n] < 128 && forall j :: 0 <= j < n ==> s[j] >= 128
    ensures DecodeVarint(s, i) == Some(Base128(s[..n + 1]))
    decreases n
  {
    assert s[..n + 1][1..] == s[1..][..n];
    if n > 0 {
      VarintIsBase128(s[1..], n - 1, i + 1);
    }
  }

  /** One that does not end within four bytes is refused. */
  lemma {:induction false} UnendedVarint(s: bytes, i: nat)
    requires forall j :: 0 <= j < |s| && i + j < 4 ==> s[j] >= 128
    ensures DecodeVarint(s, i) == None
    decreases |s|
  {
    if s != [] && i < 4 {
      UnendedVarint(s[1..], i + 1);
    }
  }

  /** Bytes after a complete varint do not change how it is read. */
  lemma {:induction false} VarintExtends(s: bytes, t: bytes, i: nat)
    requires DecodeVarint(s, i).Some?
    ensures DecodeVarint(s + t, i) == DecodeVarint(s, i)
  {
    if s[0] >= 128 {
      assert (s + t)[1..] == s[1..] + t;
      VarintExtends(s[1..], t, i + 1);
    }
  }

  /** The sizes the encoder can produce for 32-bit values. */
  lemma VarintSizeRange(v: nat)
    ensures VarintSize(v) == 1 <==> v < 128
    ensures v < TWO_28 ==> VarintSize(v) <= 4
    ensures v < TWO_32 ==> VarintSize(v) <= 5
  {
    var a, b, c, d := v / 128, v / 128 / 128, v / 128 / 128 / 128, v / 128 / 128 / 128 / 128;
    assert VarintSize(v) == if v < 128 then 1 else 1 + VarintSize(a);
    assert VarintSize(a) == if a < 128 then 1 else 1 + VarintSize(b);
    assert VarintSize(b) == if b < 128 then 1 else 1 + VarintSize(c);
    assert VarintSize(c) == if c < 128 then 1 else 1 + VarintSize(d);
    assert v < TWO_28 ==> c < 128;
    assert v < TWO_32 ==> d < 128;
  }

  // ---- the loops of the source ----

  method VarintEncodedSize(v: uint32) returns (size: nat)
    ensures size == VarintSize(v)
  {
    if v == 0 {
      return 1;
    }
    size := 0;
    var value := v;
    while value > 0
      invariant 0 <= value
      invariant VarintSize(v) == if value > 0 then size + VarintSize(value) else size
    {
      value := value / 128;
      size := size + 1;
    }
  }

  /** Writes the canonical encoding at `at` and nothing else. */
  method WriteUnsignedVarint(v: uint32, buf: array<byte>, at: nat) returns (written: nat)
    requires at + VarintSize(v) <= buf.Length
    modifies buf
    ensures written == VarintSize(v)
    ensures forall k :: 0 <= k < buf.Length ==>
              buf[k] == if at <= k < at + written then EncodeVarint(v)[k - at] else old(buf[k])
  {
    written := 0;
    var value := v;
    ghost var all := EncodeVarint(v);
    while value > 127
      invariant 0 <= value && written + VarintSize(value) == |all| == VarintSize(v)
      invariant all[written..] == EncodeVarint(value)
      invariant forall k :: 0 <= k < buf.Length ==>
                  buf[k] == if at <= k < at + written then all[k - at] else old(buf[k])
    {
      buf[at + written] := value % 128 + 128;
      assert all[written] == all[written..][0];
      assert all[written + 1..] == all[written..][1..];
      written := written + 1;
      value := value / 128;
    }
    buf[at + written] := value % 128;
    assert all[written] == all[written..][0];
    written := written + 1;
  }

  method ReadUnsignedVarint(buf: bytes) returns (r: Option<nat>)
    ensures r == DecodeVarint(buf, 0)
  {
    var value, shift, i := 0, 0, 0;
    while i < |buf|
      invariant 0 <= i <= |buf| && i <= 4 && shift == 7 * i && 0 <= value
      invariant DecodeVarint(buf, 0) == Shifted(value, i, DecodeVarint(buf[i..], i))
    {
      var b := buf[i];
      if shift >= 28 {
        return None;
      }
      ShiftedStep(value, i, buf[i..]);
      value := value + Scaled(b % 128, i);
      if b < 128 {
        return Some(value);
      }
      assert buf[i..][1..] == buf[i + 1..];
      i := i + 1;
      shift := shift + 7;
    }
    return None;
  }

  /** `v << 7 * i` for the four shifts that are used. */
  function Scaled(v: nat, i: nat): nat
  {
    if i == 0 then v else if i == 1 then 0x80 * v else if i == 2 then 0x4000 * v else 0x20_0000 * v
  }

  ghost function Shifted(value: nat, i: nat, high: Option<nat>): Option<nat>
  {
    if high.None? then None else Some(value + Scaled(high.value, i))
  }

  lemma ShiftedStep(value: nat, i: nat, s: bytes)
    requires s != [] && i < 4
    ensures Shifted(value, i, DecodeVarint(s, i)) ==
            if s[0] < 128 then Some(value + Scaled(s[0], i))
            else Shifted(value + Scaled(s[0] % 128, i), i + 1, DecodeVarint(s[1..], i + 1))
  {
    if i == 3 {
      assert DecodeVarint(s[1..], 4) == None;
    }
  }

  // ---- zigzag ----

  function ZigzagEncode(v: int32): uint32
  {
    if v >= 0 then 2 * v else -2 * v - 1
  }

  function ZigzagDecode(u: uint32): int32
  {
    if u % 2 == 0 then u / 2 else -(u / 2) - 1
  }

  /** Zigzag is a bijection between int32 and uint32. */
  lemma ZigzagBijection(v: int32, u: uint32)
    ensures ZigzagDecode(ZigzagEncode(v)) == v
    ensures ZigzagEncode(ZigzagDecode(u)) == u
  {
    if v < 0 {
      var u: int := -2 * v - 1;
      assert u % 2 == 1 && u / 2 == -1 - v;
    }
  }
}
