/** The read cursor, as functions from the bytes still ahead to a value and the bytes after it,
    with the two laws every reader obeys: reading inverts writing, and bytes appended to a
    readable input change nothing.  `PutX(v, rest)` is the encoding of `v` in front of `rest`. */
module Wire {
  import opened Bytes
  import opened Varint

  // ---- readers (src/util/byte_reader.hpp) ----

  function ReadInt8(s: bytes): Parsed<byte>
  {
    if |s| < 1 then None else Some((s[0], s[1..]))
  }

  function ReadInt16(s: bytes): Parsed<int16>
  {
    if |s| < 2 then None else Some((Decode16(s[..2]), s[2..]))
  }

  function ReadInt32(s: bytes): Parsed<int32>
  {
    if |s| < 4 then None else Some((Decode32(s[..4]), s[4..]))
  }

  function ReadInt64(s: bytes): Parsed<int64>
  {
    if |s| < 8 then None else Some((Decode64(s[..8]), s[8..]))
  }

  function ReadBytes(n: nat, s: bytes): Parsed<bytes>
  {
    if |s| < n then None else Some((s[..n], s[n..]))
  }

  function Skip(n: nat, s: bytes): Parsed<()>
  {
    if |s| < n then None else Some(((), s[n..]))
  }

  /** The value is advanced over by its canonical length, however it was written. */
  function ReadVarint(s: bytes): Parsed<uint32>
  {
    CanonicalWithinExamined(s, 0);
    var v :- DecodeVarint(s, 0);
    Some((v, s[VarintSize(v)..]))
  }

  function ReadSignedVarint(s: bytes): Parsed<int32>
  {
    var (u, rest) :- ReadVarint(s);
    Some((ZigzagDecode(u), rest))
  }

  function ReadCompactString(s: bytes): Parsed<bytes>
  {
    var (len, rest) :- ReadVarint(s);
    if len < 1 then None else ReadBytes(len - 1, rest)
  }

  /** A compact byte field read as `parse_request` reads it: a length of 0 or 1 is empty. */
  function ReadCompactBytes(s: bytes): Parsed<bytes>
  {
    var (len, rest) :- ReadVarint(s);
    if len > 1 then ReadBytes(len - 1, rest) else Some(([], rest))
  }

  /** A nullable compact string: length 0 stands for the empty string. */
  function ReadNullableString(s: bytes): Parsed<bytes>
  {
    ReadCompactBytes(s)
  }

  function ReadItems<T>(n: nat, item: bytes -> Parsed<T>, s: bytes): Parsed<seq<T>>
  {
    if n == 0 then Some(([], s))
    else
      var (x, s1) :- item(s);
      var (xs, s2) :- ReadItems(n - 1, item, s1);
      Some(([x] + xs, s2))
  }

  /** A compact array: a count plus one, then the items. */
  function ReadArray<T>(item: bytes -> Parsed<T>, s: bytes): Parsed<seq<T>>
  {
    var (count, rest) :- ReadVarint(s);
    ReadItems(if count > 0 then count - 1 else 0, item, rest)
  }

  /** No read moves the cursor back. */
  lemma ReadsShrink()
    ensures forall s {:trigger ReadInt8(s)} :: ReadInt8(s).Some? ==> |ReadInt8(s).value.1| <= |s|
    ensures forall s {:trigger ReadVarint(s)} :: ReadVarint(s).Some? ==> |ReadVarint(s).value.1| <= |s|
    ensures forall s {:trigger ReadSignedVarint(s)} :: ReadSignedVarint(s).Some? ==> |ReadSignedVarint(s).value.1| <= |s|
    ensures forall n: nat, s {:trigger ReadBytes(n, s)} :: ReadBytes(n, s).Some? ==> |ReadBytes(n, s).value.1| <= |s|
    ensures forall n: nat, s {:trigger Skip(n, s)} :: Skip(n, s).Some? ==> |Skip(n, s).value.1| <= |s|
  {
    hide Varint.VarintSize, Varint.DecodeVarint;
    forall s: bytes { Varint.CanonicalWithinExamined(s, 0); }
  }

  /** A loop that has `acc` in hand and the rest of the items ahead. */
  ghost function After<T>(acc: seq<T>, ahead: Parsed<seq<T>>): Parsed<seq<T>>
  {
    if ahead.None? then None else Some((acc + ahead.value.0, ahead.value.1))
  }

  lemma AfterStart<T>(ahead: Parsed<seq<T>>)
    ensures After([], ahead) == ahead
  {
    if ahead.Some? {
      assert [] + ahead.value.0 == ahead.value.0;
    }
  }

  lemma AfterStep<T>(acc: seq<T>, n: nat, item: bytes -> Parsed<T>, s: bytes)
    ensures n == 0 ==> After(acc, ReadItems(n, item, s)) == Some((acc, s))
    ensures n > 0 && item(s).None? ==> After(acc, ReadItems(n, item, s)) == None
    ensures n > 0 && item(s).Some? ==>
              After(acc, ReadItems(n, item, s)) == After(acc + [item(s).value.0], ReadItems(n - 1, item, item(s).value.1))
  {
    if n > 0 && item(s).Some? {
      var rest := ReadItems(n - 1, item, item(s).value.1);
      if rest.Some? {
        assert acc + ([item(s).value.0] + rest.value.0) == acc + [item(s).value.0] + rest.value.0;
      }
    } else if n == 0 {
      assert acc + [] == acc;
    }
  }

  // ---- writers (src/util/byte_writer.hpp) ----

  function PutInt8(v: int, rest: bytes): bytes { [v % 256] + rest }
  /** An empty tagged-field section. */
  function PutTag(rest: bytes): bytes { PutInt8(0, rest) }
  function PutInt16(v: int16, rest: bytes): bytes { BE16(v) + rest }
  function PutInt32(v: int32, rest: bytes): bytes { BE32(v) + rest }
  function PutInt64(v: int64, rest: bytes): bytes { BE64(v) + rest }
  function PutBytes(b: bytes, rest: bytes): bytes { b + rest }
  function PutVarint(v: uint32, rest: bytes): bytes { EncodeVarint(v) + rest }
  function PutSignedVarint(v: int32, rest: bytes): bytes { PutVarint(ZigzagEncode(v), rest) }

  function PutCompactString(s: bytes, rest: bytes): bytes
  {
    PutVarint(Count(|s|), PutBytes(s, rest))
  }

  /** Empty strings are sent as null. */
  function PutNullableString(s: bytes, rest: bytes): bytes
  {
    if s == [] then PutVarint(0, rest) else PutCompactString(s, rest)
  }

  function PutItems<T>(put: (T, bytes) -> bytes, xs: seq<T>, rest: bytes): bytes
  {
    if xs == [] then rest else put(xs[0], PutItems(put, xs[1..], rest))
  }

  function PutArray<T>(put: (T, bytes) -> bytes, xs: seq<T>, rest: bytes): bytes
  {
    PutVarint(Count(|xs|), PutItems(put, xs, rest))
  }

  lemma PutItemsStep<T>(put: (T, bytes) -> bytes, xs: seq<T>, i: nat, rest: bytes)
    requires i < |xs|
    ensures PutItems(put, xs[i..], rest) == put(xs[i], PutItems(put, xs[i + 1..], rest))
  {
    assert xs[i..][1..] == xs[i + 1..];
  }

  lemma PutItemsEnds<T>(put: (T, bytes) -> bytes, xs: seq<T>, rest: bytes)
    ensures PutItems(put, xs[0..], rest) == PutItems(put, xs, rest) && PutItems(put, xs[|xs|..], rest) == rest
  {
    assert xs[0..] == xs;
  }

  // ---- laws ----

  /** How many bytes each writer adds. */
  lemma PutSizes()
    ensures forall v: int, rest: bytes {:trigger PutInt8(v, rest)} :: |PutInt8(v, rest)| == 1 + |rest|
    ensures forall v: int16, rest: bytes {:trigger PutInt16(v, rest)} :: |PutInt16(v, rest)| == 2 + |rest|
    ensures forall v: int32, rest: bytes {:trigger PutInt32(v, rest)} :: |PutInt32(v, rest)| == 4 + |rest|
    ensures forall v: int64, rest: bytes {:trigger PutInt64(v, rest)} :: |PutInt64(v, rest)| == 8 + |rest|
    ensures forall b: bytes, rest: bytes {:trigger PutBytes(b, rest)} :: |PutBytes(b, rest)| == |b| + |rest|
    ensures forall v: uint32, rest: bytes {:trigger PutVarint(v, rest)} :: |PutVarint(v, rest)| == VarintSize(v) + |rest|
    ensures forall s: bytes, rest: bytes {:trigger PutCompactString(s, rest)} ::
              |PutCompactString(s, rest)| == VarintSize(Count(|s|)) + |s| + |rest|
    ensures forall s: bytes, rest: bytes {:trigger PutNullableString(s, rest)} ::
              |PutNullableString(s, rest)| == VarintSize(if s == [] then 0 else Count(|s|)) + |s| + |rest|
    ensures VarintSize(0) == VarintSize(1) == 1 && Count(0) == 1
  {
  }

  /** Items of one size take that size each. */
  lemma {:induction false} FixedItems<T(!new)>(put: (T, bytes) -> bytes, size: nat, xs: seq<T>, rest: bytes)
    requires forall x, tail {:trigger put(x, tail)} :: |put(x, tail)| == size + |tail|
    ensures |PutItems(put, xs, rest)| == |xs| * size + |rest|
  {
    if xs != [] {
      FixedItems(put, size, xs[1..], rest);
    }
  }

  /** The lengths whose compact encoding can be read back. */
  predicate Short<T>(s: seq<T>) { |s| + 1 < TWO_28 }

  ghost predicate Extends<T(!new)>(item: bytes -> Parsed<T>)
  {
    forall s, t {:trigger item(s + t)} :: item(s).Some? ==> item(s + t) == Some((item(s).value.0, item(s).value.1 + t))
  }

  ghost predicate Inverts<T(!new)>(put: (T, bytes) -> bytes, item: bytes -> Parsed<T>, x: T)
  {
    forall rest {:trigger put(x, rest)} :: item(put(x, rest)) == Some((x, rest))
  }

  lemma VarintLaws(s: bytes, t: bytes, v: uint32, rest: bytes)
    ensures ReadVarint(s).Some? ==> ReadVarint(s + t) == Some((ReadVarint(s).value.0, ReadVarint(s).value.1 + t))
    ensures ReadVarint(PutVarint(v, rest)) == if v < TWO_28 then Some((v, rest)) else None
  {
    if ReadVarint(s).Some? {
      CanonicalWithinExamined(s, 0);
      VarintExtends(s, t, 0);
      var n := VarintSize(ReadVarint(s).value.0);
      assert (s + t)[n..] == s[n..] + t;
    }
    VarintRoundTrip(v, rest, 0);
  }

  lemma FixedExtend(s: bytes, t: bytes, n: nat)
    requires n <= |s|
    ensures (s + t)[..n] == s[..n] && (s + t)[n..] == s[n..] + t
  {
  }

  /** Every primitive reader extends. */
  lemma ExtendLaws()
    ensures Extends(ReadInt8) && Extends(ReadInt16) && Extends(ReadInt32) && Extends(ReadInt64)
    ensures Extends(ReadVarint) && Extends(ReadSignedVarint)
    ensures Extends(ReadCompactString) && Extends(ReadCompactBytes)
    ensures forall n: nat, s, t {:trigger ReadBytes(n, s + t)} :: ReadBytes(n, s).Some? ==>
              ReadBytes(n, s + t) == Some((ReadBytes(n, s).value.0, ReadBytes(n, s).value.1 + t))
    ensures forall n: nat, s, t {:trigger Skip(n, s + t)} :: Skip(n, s).Some? ==>
              Skip(n, s + t) == Some(((), Skip(n, s).value.1 + t))
  {
    forall s: bytes, t: bytes
      ensures ReadVarint(s).Some? ==> ReadVarint(s + t) == Some((ReadVarint(s).value.0, ReadVarint(s).value.1 + t))
    {
      VarintLaws(s, t, 0, []);
    }
    forall n: nat, s: bytes, t: bytes | n <= |s|
      ensures (s + t)[..n] == s[..n] && (s + t)[n..] == s[n..] + t
    {
      FixedExtend(s, t, n);
    }
  }

  lemma {:induction false} ItemsExtend<T(!new)>(n: nat, item: bytes -> Parsed<T>, s: bytes, t: bytes)
    requires Extends(item) && ReadItems(n, item, s).Some?
    ensures ReadItems(n, item, s + t) == Some((ReadItems(n, item, s).value.0, ReadItems(n, item, s).value.1 + t))
  {
    if n > 0 {
      ItemsExtend(n - 1, item, item(s).value.1, t);
    }
  }

  lemma ArrayExtends<T(!new)>(item: bytes -> Parsed<T>)
    requires Extends(item)
    ensures forall s, t {:trigger ReadArray(item, s + t)} :: ReadArray(item, s).Some? ==>
              ReadArray(item, s + t) == Some((ReadArray(item, s).value.0, ReadArray(item, s).value.1 + t))
  {
    forall s: bytes, t: bytes | ReadArray(item, s).Some?
      ensures ReadArray(item, s + t) == Some((ReadArray(item, s).value.0, ReadArray(item, s).value.1 + t))
    {
      VarintLaws(s, t, 0, []);
      var (count, rest) := ReadVarint(s).value;
      ItemsExtend(if count > 0 then count - 1 else 0, item, rest, t);
    }
  }

  lemma Int8Inverts(v: byte, rest: bytes)
    ensures ReadInt8(PutInt8(v, rest)) == Some((v, rest)) && Skip(1, PutInt8(v, rest)) == Some(((), rest))
  {
    assert PutInt8(v, rest)[0] == v;
  }

  lemma Int16Inverts(v: int16, rest: bytes)
    ensures ReadInt16(PutInt16(v, rest)) == Some((v, rest))
  {
    DecodeInvertsEncode16(v);
    assert PutInt16(v, rest)[..2] == BE16(v);
  }

  lemma Int32Inverts(v: int32, rest: bytes)
    ensures ReadInt32(PutInt32(v, rest)) == Some((v, rest))
  {
    DecodeInvertsEncode32(v);
    assert PutInt32(v, rest)[..4] == BE32(v);
  }

  lemma Int64Inverts(v: int64, rest: bytes)
    ensures ReadInt64(PutInt64(v, rest)) == Some((v, rest))
  {
    DecodeInvertsEncode64(v);
    assert PutInt64(v, rest)[..8] == BE64(v);
  }

  lemma VarintInverts(v: uint32, rest: bytes)
    requires v < TWO_28
    ensures ReadVarint(PutVarint(v, rest)) == Some((v, rest))
  {
    VarintLaws([], [], v, rest);
  }

  predicate SmallInt(v: int32) { -TWO_28 <= 2 * v < TWO_28 }

  lemma SignedVarintInverts(v: int32, rest: bytes)
    requires SmallInt(v)
    ensures ReadSignedVarint(PutSignedVarint(v, rest)) == Some((v, rest))
  {
    ZigzagBijection(v, 0);
    VarintInverts(ZigzagEncode(v), rest);
  }

  lemma StringInverts(s: bytes, rest: bytes)
    requires Short(s)
    ensures ReadCompactString(PutCompactString(s, rest)) == Some((s, rest))
    ensures ReadCompactBytes(PutCompactString(s, rest)) == Some((s, rest))
    ensures ReadNullableString(PutNullableString(s, rest)) == Some((s, rest))
  {
    assert Count(|s|) == |s| + 1;
    VarintInverts(|s| + 1, s + rest);
    if s == [] {
      VarintInverts(0, rest);
      assert s + rest == rest;
    }
  }

  /** Every primitive reader inverts its writer. */
  lemma InvertLaws()
    ensures forall v: byte, rest: bytes {:trigger PutInt8(v, rest)} ::
              ReadInt8(PutInt8(v, rest)) == Some((v, rest)) && Skip(1, PutInt8(v, rest)) == Some(((), rest))
    ensures forall v: int16, rest: bytes {:trigger PutInt16(v, rest)} :: ReadInt16(PutInt16(v, rest)) == Some((v, rest))
    ensures forall v: int32, rest: bytes {:trigger PutInt32(v, rest)} :: ReadInt32(PutInt32(v, rest)) == Some((v, rest))
    ensures forall v: int64, rest: bytes {:trigger PutInt64(v, rest)} :: ReadInt64(PutInt64(v, rest)) == Some((v, rest))
    ensures forall v: int32, rest: bytes {:trigger PutSignedVarint(v, rest)} :: SmallInt(v) ==>
              ReadSignedVarint(PutSignedVarint(v, rest)) == Some((v, rest))
  {
    forall v: byte, rest: bytes { Int8Inverts(v, rest); }
    forall v: int16, rest: bytes { Int16Inverts(v, rest); }
    forall v: int32, rest: bytes { Int32Inverts(v, rest); }
    forall v: int64, rest: bytes { Int64Inverts(v, rest); }
    forall v: int32, rest: bytes | SmallInt(v) { SignedVarintInverts(v, rest); }
  }

  lemma StringLaws()
    ensures forall s: bytes, rest: bytes {:trigger PutCompactString(s, rest)} :: Short(s) ==>
              && ReadCompactString(PutCompactString(s, rest)) == Some((s, rest))
              && ReadCompactBytes(PutCompactString(s, rest)) == Some((s, rest))
    ensures forall s: bytes, rest: bytes {:trigger PutNullableString(s, rest)} :: Short(s) ==>
              ReadNullableString(PutNullableString(s, rest)) == Some((s, rest))
    ensures forall b: bytes, rest: bytes {:trigger PutBytes(b, rest)} ::
              ReadBytes(|b|, PutBytes(b, rest)) == Some((b, rest)) && Skip(|b|, PutBytes(b, rest)) == Some(((), rest))
  {
    forall s: bytes, rest: bytes | Short(s) { StringInverts(s, rest); }
  }

  /** Null and missing values: a compact string of length 0 is refused, a compact array or byte field of length 0 is empty, and
      nothing can be read past the end. */
  lemma NullLaws<T>(item: bytes -> Parsed<T>, rest: bytes)
    ensures ReadCompactString(PutVarint(0, rest)) == None
    ensures ReadCompactBytes(PutVarint(0, rest)) == Some(([], rest)) && ReadArray(item, PutVarint(0, rest)) == Some(([], rest))
    ensures ReadInt8([]) == None && ReadVarint([]) == None && ReadBytes(1, []) == None && Skip(1, []) == None
  {
    VarintInverts(0, rest);
  }

  /** A varint written longer than it need be is read as its value, but only its canonical length is passed over: the byte
      behind that is read again. */
  lemma OverlongVarint(rest: bytes)
    ensures ReadVarint([128, 0] + rest) == Some((0, [0] + rest))
  {
    var s := [128, 0] + rest;
    assert s[1..] == [0] + rest && DecodeVarint(s[1..], 1) == Some(0);
  }

  lemma {:induction false} ItemsInvert<T(!new)>(put: (T, bytes) -> bytes, item: bytes -> Parsed<T>, xs: seq<T>, rest: bytes)
    requires forall x :: x in xs ==> Inverts(put, item, x)
    ensures ReadItems(|xs|, item, PutItems(put, xs, rest)) == Some((xs, rest))
  {
    if xs != [] {
      ItemsInvert(put, item, xs[1..], rest);
      assert Inverts(put, item, xs[0]);
      assert xs == [xs[0]] + xs[1..];
    }
  }

  lemma ArrayInverts<T(!new)>(put: (T, bytes) -> bytes, item: bytes -> Parsed<T>, xs: seq<T>, rest: bytes)
    requires Short(xs) && forall x :: x in xs ==> Inverts(put, item, x)
    ensures ReadArray(item, PutArray(put, xs, rest)) == Some((xs, rest))
  {
    assert Count(|xs|) == |xs| + 1;
    VarintInverts(|xs| + 1, PutItems(put, xs, rest));
    ItemsInvert(put, item, xs, rest);
  }
}
