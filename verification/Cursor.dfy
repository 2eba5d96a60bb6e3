/** The two cursors as objects: `ByteReader` over immutable bytes and `ByteWriter` over a buffer
    of fixed size. */
module Cursor {
  import opened Bytes
  import opened Varint
  import W = Wire

  /** A cursor operation did what its specification says: on failure nothing moved. */
  ghost predicate Did<T>(r: Option<T>, spec: Parsed<T>, before: bytes, after: bytes)
  {
    if spec.None? then r.None? && after == before else r == Some(spec.value.0) && after == spec.value.1
  }

  /** A sequence of cursor operations did what its specification says; a failure may leave the cursor anywhere. */
  ghost predicate Yields<T>(r: Option<T>, spec: Parsed<T>, after: bytes)
  {
    if spec.None? then r.None? else r == Some(spec.value.0) && after == spec.value.1
  }

  class ByteReader {
    const data: bytes
    var offset: nat

    ghost predicate Valid()
      reads this
    {
      offset <= |data|
    }

    /** The bytes still ahead. */
    ghost function Rest(): bytes
      requires Valid()
      reads this
    {
      data[offset..]
    }

    constructor (data: bytes)
      ensures Valid() && this.data == data && offset == 0 && Rest() == data
    {
      this.data := data;
      offset := 0;
    }

    method Remaining() returns (n: nat)
      requires Valid()
      ensures n == |Rest()|
    {
      n := |data| - offset;
    }

    method ReadInt8() returns (r: Option<byte>)
      requires Valid()
      modifies this
      ensures Valid() && Did(r, W.ReadInt8(old(Rest())), old(Rest()), Rest())
    {
      if |data| - offset < 1 {
        return None;
      }
      r := Some(data[offset]);
      offset := offset + 1;
    }

    method ReadInt16() returns (r: Option<int16>)
      requires Valid()
      modifies this
      ensures Valid() && Did(r, W.ReadInt16(old(Rest())), old(Rest()), Rest())
    {
      if |data| - offset < 2 {
        return None;
      }
      assert data[offset..offset + 2] == data[offset..][..2];
      r := Some(Decode16(data[offset..offset + 2]));
      offset := offset + 2;
    }

    method ReadInt32() returns (r: Option<int32>)
      requires Valid()
      modifies this
      ensures Valid() && Did(r, W.ReadInt32(old(Rest())), old(Rest()), Rest())
    {
      if |data| - offset < 4 {
        return None;
      }
      assert data[offset..offset + 4] == data[offset..][..4];
      r := Some(Decode32(data[offset..offset + 4]));
      offset := offset + 4;
    }

    method ReadInt64() returns (r: Option<int64>)
      requires Valid()
      modifies this
      ensures Valid() && Did(r, W.ReadInt64(old(Rest())), old(Rest()), Rest())
    {
      if |data| - offset < 8 {
        return None;
      }
      assert data[offset..offset + 8] == data[offset..][..8];
      r := Some(Decode64(data[offset..offset + 8]));
      offset := offset + 8;
    }

    method ReadBytes(n: nat) returns (r: Option<bytes>)
      requires Valid()
      modifies this
      ensures Valid() && Did(r, W.ReadBytes(n, old(Rest())), old(Rest()), Rest())
    {
      if |data| - offset < n {
        return None;
      }
      assert data[offset..offset + n] == data[offset..][..n];
      r := Some(data[offset..offset + n]);
      offset := offset + n;
    }

    method Skip(n: nat) returns (r: Option<()>)
      requires Valid()
      modifies this
      ensures Valid() && Did(r, W.Skip(n, old(Rest())), old(Rest()), Rest())
    {
      if |data| - offset < n {
        return None;
      }
      r := Some(());
      offset := offset + n;
    }

    method ReadVarint() returns (r: Option<uint32>)
      requires Valid()
      modifies this
      ensures Valid() && Did(r, W.ReadVarint(old(Rest())), old(Rest()), Rest())
    {
      CanonicalWithinExamined(data[offset..], 0);
      var v := ReadUnsignedVarint(data[offset..]);
      if v.None? {
        return None;
      }
      var n := VarintEncodedSize(v.value);
      offset := offset + n;
      r := Some(v.value);
    }

    method SkipVarint() returns (r: Option<()>)
      requires Valid()
      modifies this
      ensures Valid() && (r.Some? <==> W.ReadVarint(old(Rest())).Some?)
      ensures Rest() == if r.Some? then W.ReadVarint(old(Rest())).value.1 else old(Rest())
    {
      var v := ReadVarint();
      r := if v.None? then None else Some(());
    }

    method ReadSignedVarint() returns (r: Option<int32>)
      requires Valid()
      modifies this
      ensures Valid() && Did(r, W.ReadSignedVarint(old(Rest())), old(Rest()), Rest())
    {
      CanonicalWithinExamined(data[offset..], 0);
      var v := ReadUnsignedVarint(data[offset..]);
      if v.None? {
        return None;
      }
      ZigzagBijection(0, v.value);
      var n := VarintEncodedSize(ZigzagEncode(ZigzagDecode(v.value)));
      offset := offset + n;
      r := Some(ZigzagDecode(v.value));
    }

    method ReadCompactString() returns (r: Option<bytes>)
      requires Valid()
      modifies this
      ensures Valid() && Did(r, W.ReadCompactString(old(Rest())), old(Rest()), Rest())
    {
      var buf := data[offset..];
      CanonicalWithinExamined(buf, 0);
      var len := ReadUnsignedVarint(buf);
      if buf == [] || len.None? || len.value < 1 {
        return None;
      }
      var strLen := len.value - 1;
      var consumed := VarintEncodedSize(len.value);
      if |buf| < consumed + strLen {
        return None;
      }
      r := Some(buf[consumed..consumed + strLen]);
      assert Count(strLen) == len.value;
      var again := VarintEncodedSize(Count(strLen));
      offset := offset + (again + strLen);
      assert r.value == buf[consumed..][..strLen] && Rest() == buf[consumed..][strLen..];
    }
  }

  class ByteWriter {
    const data: array<byte>
    var offset: nat
    /** What the finished buffer is meant to hold. */
    ghost const goal: bytes

    ghost predicate Valid()
      reads this
    {
      offset <= data.Length
    }

    ghost function Written(): bytes
      requires Valid()
      reads this, data
    {
      data[..offset]
    }

    /** The part of the goal still to be written, as long as everything written agrees with it. */
    ghost function Pending(): (p: Option<bytes>)
      requires Valid()
      reads this, data
      ensures p.Some? ==> |p.value| == data.Length - offset
    {
      if |goal| == data.Length && data[..offset] == goal[..offset] then Some(goal[offset..]) else None
    }

    constructor (data: array<byte>, ghost goal: bytes)
      ensures Valid() && this.data == data && this.goal == goal && offset == 0
      ensures |goal| == data.Length ==> Pending() == Some(goal)
    {
      this.data := data;
      this.goal := goal;
      offset := 0;
    }

    /** Appending `p` brings a goal that continues with `p` that much closer. */
    ghost method Advance(p: bytes, before: bytes, pending: Option<bytes>)
      requires Valid() && Written() == before + p
      requires pending == if |goal| == data.Length && |before| <= |goal| && before == goal[..|before|] then Some(goal[|before|..]) else None
      ensures forall rest {:trigger p + rest} :: pending == Some(p + rest) ==> Pending() == Some(rest)
    {
      forall rest | pending == Some(p + rest)
        ensures Pending() == Some(rest)
      {
        assert goal[|before|..][..|p|] == p && goal[|before|..][|p|..] == rest;
        assert goal[..offset] == goal[..|before|] + p;
        assert goal[offset..] == goal[|before|..][|p|..];
      }
    }

    method WriteInt8(v: int)
      requires Valid() && offset < data.Length
      modifies this`offset, data
      ensures Valid() && Written() == old(Written()) + [v % 256]
      ensures forall rest {:trigger W.PutInt8(v, rest)} :: old(Pending()) == Some(W.PutInt8(v, rest)) ==> Pending() == Some(rest)
    {
      data[offset] := v % 256;
      offset := offset + 1;
      Advance([v % 256], old(Written()), old(Pending()));
    }

    method WriteInt16(v: int16)
      requires Valid() && offset + 2 <= data.Length
      modifies this`offset, data
      ensures Valid() && Written() == old(Written()) + BE16(v)
      ensures forall rest {:trigger W.PutInt16(v, rest)} :: old(Pending()) == Some(W.PutInt16(v, rest)) ==> Pending() == Some(rest)
    {
      data[offset], data[offset + 1] := v / 0x100 % 256, v % 256;
      offset := offset + 2;
      Advance(BE16(v), old(Written()), old(Pending()));
    }

    method WriteInt32(v: int32)
      requires Valid() && offset + 4 <= data.Length
      modifies this`offset, data
      ensures Valid() && Written() == old(Written()) + BE32(v)
      ensures forall rest {:trigger W.PutInt32(v, rest)} :: old(Pending()) == Some(W.PutInt32(v, rest)) ==> Pending() == Some(rest)
    {
      var s := BE32(v);
      data[offset], data[offset + 1], data[offset + 2], data[offset + 3] := s[0], s[1], s[2], s[3];
      offset := offset + 4;
      Advance(BE32(v), old(Written()), old(Pending()));
    }

    method WriteInt64(v: int64)
      requires Valid() && offset + 8 <= data.Length
      modifies this`offset, data
      ensures Valid() && Written() == old(Written()) + BE64(v)
      ensures forall rest {:trigger W.PutInt64(v, rest)} :: old(Pending()) == Some(W.PutInt64(v, rest)) ==> Pending() == Some(rest)
    {
      hide BE64;
      WriteBytes(BE64(v));
      assert forall rest :: W.PutInt64(v, rest) == W.PutBytes(BE64(v), rest);
    }

    method WriteBytes(b: bytes)
      requires Valid() && offset + |b| <= data.Length
      modifies this`offset, data
      ensures Valid() && Written() == old(Written()) + b
      ensures forall rest {:trigger W.PutBytes(b, rest)} :: old(Pending()) == Some(W.PutBytes(b, rest)) ==> Pending() == Some(rest)
    {
      forall i | 0 <= i < |b| {
        data[offset + i] := b[i];
      }
      offset := offset + |b|;
      Advance(b, old(Written()), old(Pending()));
    }

    method WriteVarint(v: uint32)
      requires Valid() && offset + VarintSize(v) <= data.Length
      modifies this`offset, data
      ensures Valid() && Written() == old(Written()) + EncodeVarint(v)
      ensures forall rest {:trigger W.PutVarint(v, rest)} :: old(Pending()) == Some(W.PutVarint(v, rest)) ==> Pending() == Some(rest)
    {
      var n := WriteUnsignedVarint(v, data, offset);
      offset := offset + n;
      Advance(EncodeVarint(v), old(Written()), old(Pending()));
    }

    method WriteCompactString(s: bytes)
      requires Valid() && offset + VarintSize(Count(|s|)) + |s| <= data.Length
      modifies this`offset, data
      ensures Valid() && Written() == old(Written()) + (EncodeVarint(Count(|s|)) + s)
      ensures forall rest {:trigger W.PutCompactString(s, rest)} ::
                old(Pending()) == Some(W.PutCompactString(s, rest)) ==> Pending() == Some(rest)
    {
      hide W.PutVarint, W.PutBytes;
      WriteVarint(Count(|s|));
      WriteBytes(s);
    }
  }
}
