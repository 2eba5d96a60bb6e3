/** Record batches (src/util/record_batch.hpp): the parser, the header-only count, and what they
    return on well-formed batches, whole or cut off. */
module RecordBatch {
  import opened Bytes
  import opened Varint
  import opened Wire
  import opened Cursor

  /** `LengthError` is the exception `reserve` throws for a negative record count. */
  datatype Outcome = Values(vs: seq<bytes>) | Malformed | LengthError

  // ---- what the parser computes ----

  /** The magic byte and last offset delta, with the rest of the 57-byte header after them. */
  function ReadHeaderFront(s: bytes): Parsed<(byte, int32)>
  {
    var (_, s) :- ReadInt64(s);
    var (_, s) :- ReadInt32(s);
    var (_, s) :- ReadInt32(s);
    var (magic, s) :- ReadInt8(s);
    var (_, s) :- ReadInt32(s);
    var (_, s) :- ReadInt16(s);
    var (delta, s) :- ReadInt32(s);
    Some(((magic, delta), s))
  }

  function ReadHeaderBack(s: bytes): Parsed<()>
  {
    var (_, s) :- ReadInt64(s);
    var (_, s) :- ReadInt64(s);
    var (_, s) :- ReadInt64(s);
    var (_, s) :- ReadInt16(s);
    var (_, s) :- ReadInt32(s);
    Some(((), s))
  }

  /** A byte string behind a signed length; a length of zero or less stands for no bytes. */
  function ReadSized(s: bytes): Parsed<bytes>
  {
    var (len, s) :- ReadSignedVarint(s);
    if len > 0 then ReadBytes(len, s) else Some(([], s))
  }

  function ReadRecordHeader(s: bytes): Parsed<()>
  {
    var (_, s) :- ReadSized(s);
    var (_, s) :- ReadSized(s);
    Some(((), s))
  }

  /** One record: nothing when its body size is not positive, otherwise its value. */
  function ReadRecord(s: bytes): Parsed<Option<bytes>>
  {
    var (bodySize, s) :- ReadSignedVarint(s);
    if bodySize <= 0 then Some((None, s)) else
    var (_, s) :- ReadInt8(s);
    var (_, s) :- ReadSignedVarint(s);
    var (_, s) :- ReadSignedVarint(s);
    var (_, s) :- ReadSized(s);
    var (value, s) :- ReadSized(s);
    var (_, s) :- ReadArray(ReadRecordHeader, s);
    Some((Some(value), s))
  }

  function Kept(records: seq<Option<bytes>>): seq<bytes>
  {
    if records == [] then []
    else (if records[0].Some? then [records[0].value] else []) + Kept(records[1..])
  }

  function ParseSingle(s: bytes): Outcome
  {
    match ReadHeaderFront(s)
    case None => Malformed
    case Some(((magic, delta), s1)) =>
      if magic != 2 then Malformed
      else match ReadHeaderBack(s1)
        case None => Malformed
        case Some((_, s2)) =>
          var count := ToInt32(delta + 1);
          if count < 0 then LengthError
          else match ReadItems(count, ReadRecord, s2)
            case None => Malformed
            case Some((records, _)) => Values(Kept(records))
  }

  function Finish(acc: seq<bytes>): Outcome
  {
    if acc == [] then Malformed else Values(acc)
  }

  /** The size the header announces, if twelve bytes of a batch are there and it is not negative. */
  function BatchSize(data: bytes): Option<nat>
  {
    if |data| < 12 then None
    else
      var len := Decode32(data[8..12]);
      if len < 0 then None else Some(12 + len)
  }

  function ParseFrom(data: bytes, acc: seq<bytes>): Outcome
    decreases |data|
  {
    var size := BatchSize(data);
    if size.None? || size.value > |data| then Finish(acc)
    else match ParseSingle(data[..size.value])
      case Malformed => Finish(acc)
      case LengthError => LengthError
      case Values(vs) => ParseFrom(data[size.value..], acc + vs)
  }

  function BatchCount(data: bytes): Option<int32>
  {
    if |data| < 28 then None
    else
      var ((magic, delta), _) :- ReadHeaderFront(data);
      if magic != 2 then None else Some(ToInt32(delta + 1))
  }

  // ---- well-formed batches ----

  datatype RawRecord = Record(bodySize: int32, attributes: byte, timestampDelta: int32, offsetDelta: int32,
                              key: Option<bytes>, value: Option<bytes>)

  predicate Sized(b: Option<bytes>) { b.Some? ==> 2 * |b.value| < TWO_28 }

  /** A record without headers, with a positive body size, whose lengths and deltas are readable varints. */
  predicate WellFormedRecord(r: RawRecord)
  {
    && 0 < r.bodySize && SmallInt(r.bodySize) && SmallInt(r.timestampDelta) && SmallInt(r.offsetDelta)
    && Sized(r.key) && Sized(r.value)
  }

  type Record = r: RawRecord | WellFormedRecord(r) witness Record(6, 0, 0, 0, None, None)

  datatype Batch = Batch(baseOffset: int64, leaderEpoch: int32, crc: int32, attributes: int16,
                         baseTimestamp: int64, maxTimestamp: int64, producerId: int64,
                         producerEpoch: int16, baseSequence: int32, records: seq<Record>)

  function PutSized(b: Option<bytes>, rest: bytes): bytes
    requires Sized(b)
  {
    if b.None? then PutSignedVarint(-1, rest) else PutSignedVarint(|b.value|, PutBytes(b.value, rest))
  }

  function PutRecord(r: Record, rest: bytes): bytes
  {
    PutSignedVarint(r.bodySize, PutInt8(r.attributes,
      PutSignedVarint(r.timestampDelta, PutSignedVarint(r.offsetDelta,
        PutSized(r.key, PutSized(r.value, PutVarint(0, rest)))))))
  }

  function Value(r: Record): bytes
  {
    if r.value.None? then [] else r.value.value
  }

  function ValuesOf(records: seq<Record>): seq<bytes>
  {
    seq(|records|, i requires 0 <= i < |records| => Value(records[i]))
  }

  function Tail(b: Batch): bytes
  {
    PutInt64(b.baseTimestamp, PutInt64(b.maxTimestamp, PutInt64(b.producerId,
      PutInt16(b.producerEpoch, PutInt32(b.baseSequence, PutItems(PutRecord, b.records, []))))))
  }

  /** Everything after the length field. */
  function Body(b: Batch): bytes
    requires |b.records| < TWO_31
  {
    PutInt32(b.leaderEpoch, PutInt8(2, PutInt32(b.crc, PutInt16(b.attributes,
      PutInt32(|b.records| - 1, Tail(b))))))
  }

  ghost predicate WellFormed(b: Batch)
  {
    |b.records| < TWO_31 && |Body(b)| < TWO_31
  }

  ghost function Encode(b: Batch): bytes
    requires WellFormed(b)
  {
    PutInt64(b.baseOffset, PutInt32(|Body(b)|, Body(b)))
  }

  // ---- reading them back ----

  lemma SizedInverts(b: Option<bytes>, rest: bytes)
    requires Sized(b)
    ensures ReadSized(PutSized(b, rest)) == Some((if b.None? then [] else b.value, rest))
  {
    SignedVarintInverts(-1, rest);
    if b.Some? {
      SignedVarintInverts(|b.value|, PutBytes(b.value, rest));
      assert PutBytes([], rest) == rest;
    }
  }

  lemma NoHeadersInverts(rest: bytes)
    ensures ReadArray(ReadRecordHeader, PutVarint(0, rest)) == Some(([], rest))
  {
    VarintInverts(0, rest);
  }

  lemma RecordInverts(r: Record, rest: bytes)
    ensures ReadRecord(PutRecord(r, rest)) == Some((Some(Value(r)), rest))
  {
    var s6 := PutVarint(0, rest);
    var s5 := PutSized(r.value, s6);
    var s4 := PutSized(r.key, s5);
    var s3 := PutSignedVarint(r.offsetDelta, s4);
    var s2 := PutSignedVarint(r.timestampDelta, s3);
    SignedVarintInverts(r.bodySize, PutInt8(r.attributes, s2));
    Int8Inverts(r.attributes, s2);
    SignedVarintInverts(r.timestampDelta, s3);
    SignedVarintInverts(r.offsetDelta, s4);
    SizedInverts(r.key, s5);
    SizedInverts(r.value, s6);
    NoHeadersInverts(rest);
  }

  lemma {:induction false} RecordsInvert(records: seq<Record>)
    ensures ReadItems(|records|, ReadRecord, PutItems(PutRecord, records, [])).Some?
    ensures ReadItems(|records|, ReadRecord, PutItems(PutRecord, records, [])).value.1 == []
    ensures Kept(ReadItems(|records|, ReadRecord, PutItems(PutRecord, records, [])).value.0) == ValuesOf(records)
  {
    hide ReadRecord, PutRecord;
    if records != [] {
      var rest := PutItems(PutRecord, records[1..], []);
      RecordsInvert(records[1..]);
      RecordInverts(records[0], rest);
      var tail := ReadItems(|records| - 1, ReadRecord, rest).value.0;
      assert ([Some(Value(records[0]))] + tail)[1..] == tail;
      assert ValuesOf(records) == [Value(records[0])] + ValuesOf(records[1..]);
    }
  }

  lemma HeaderFrontInverts(b: Batch)
    requires WellFormed(b)
    ensures ReadHeaderFront(Encode(b)) == Some(((2, |b.records| - 1), Tail(b)))
  {
    InvertLaws();
  }

  lemma HeaderBackInverts(b: Batch)
    ensures ReadHeaderBack(Tail(b)) == Some(((), PutItems(PutRecord, b.records, [])))
  {
    InvertLaws();
  }

  lemma SingleBatchParses(b: Batch)
    requires WellFormed(b)
    ensures ParseSingle(Encode(b)) == Values(ValuesOf(b.records))
  {
    hide Encode, Tail, PutItems, ReadItems, ReadHeaderFront, ReadHeaderBack, ValuesOf;
    HeaderFrontInverts(b);
    HeaderBackInverts(b);
    RecordsInvert(b.records);
  }

  lemma EncodedLength(b: Batch)
    requires WellFormed(b)
    ensures 57 <= |Encode(b)| == 12 + |Body(b)| && Encode(b)[8..12] == BE32(|Body(b)|)
  {
    var rest := PutInt32(|Body(b)|, Body(b));
    assert Encode(b)[8..12] == rest[..4];
  }

  /** Twelve bytes of an encoded batch are enough to know its size. */
  lemma EncodedSize(b: Batch, s: bytes)
    requires WellFormed(b)
    ensures 57 <= |Encode(b)| && BatchSize(Encode(b)) == Some(|Encode(b)|)
    ensures 12 <= |s| && s[..12] == Encode(b)[..12] ==> BatchSize(s) == Some(|Encode(b)|)
  {
    hide Encode, Body, BE32;
    EncodedLength(b);
    DecodeInvertsEncode32(|Body(b)|);
    if 12 <= |s| && s[..12] == Encode(b)[..12] {
      assert s[8..12] == s[..12][8..] == Encode(b)[..12][8..] == Encode(b)[8..12];
    }
  }

  /** A well-formed batch yields its values, and the header alone tells how many there are. */
  lemma SingleBatch(b: Batch)
    requires WellFormed(b)
    ensures ParseSingle(Encode(b)) == Values(ValuesOf(b.records))
    ensures BatchCount(Encode(b)) == Some(|b.records|) && |ValuesOf(b.records)| == |b.records|
    ensures BatchSize(Encode(b)) == Some(|Encode(b)|) && 57 <= |Encode(b)|
  {
    hide Encode, Tail, ParseSingle, BatchCount, BatchSize, WellFormed;
    EncodedSize(b, []);
    SingleBatchParses(b);
    EncodedCount(b);
  }

  lemma EncodedCount(b: Batch)
    requires WellFormed(b)
    ensures BatchCount(Encode(b)) == Some(|b.records|)
  {
    hide Encode, Tail, ReadHeaderFront, BatchSize;
    EncodedSize(b, []);
    HeaderFrontInverts(b);
  }

  ghost function EncodeAll(bs: seq<Batch>): bytes
    requires forall b :: b in bs ==> WellFormed(b)
  {
    if bs == [] then [] else Encode(bs[0]) + EncodeAll(bs[1..])
  }

  function AllValues(bs: seq<Batch>): seq<bytes>
  {
    if bs == [] then [] else ValuesOf(bs[0].records) + AllValues(bs[1..])
  }

  /** `tail` is a batch that was cut off before its end (or is empty). */
  ghost predicate CutBatch(tail: bytes)
  {
    tail == [] || exists b :: WellFormed(b) && tail < Encode(b)
  }

  lemma CutBatchStops(tail: bytes, acc: seq<bytes>)
    requires CutBatch(tail)
    ensures ParseFrom(tail, acc) == Finish(acc)
  {
    hide Encode, ParseSingle, BatchSize, WellFormed;
    CutBatchHasNoEnd(tail);
  }

  /** A batch that was cut off announces more bytes than are there, if it announces anything. */
  lemma CutBatchHasNoEnd(tail: bytes)
    requires CutBatch(tail)
    ensures BatchSize(tail).None? || BatchSize(tail).value > |tail|
  {
    hide Encode, WellFormed;
    if |tail| >= 12 {
      var b :| WellFormed(b) && tail < Encode(b);
      assert tail[..12] == Encode(b)[..12];
      EncodedSize(b, tail);
    }
  }

  lemma {:induction false} ParseFromBatches(bs: seq<Batch>, tail: bytes, acc: seq<bytes>)
    requires (forall b :: b in bs ==> WellFormed(b)) && CutBatch(tail)
    ensures ParseFrom(EncodeAll(bs) + tail, acc) == Finish(acc + AllValues(bs))
    decreases |bs|
  {
    hide Encode, BatchSize, ParseSingle, ValuesOf, WellFormed, CutBatch;
    if bs == [] {
      assert EncodeAll(bs) + tail == tail && acc + AllValues(bs) == acc;
      CutBatchStops(tail, acc);
    } else {
      var e, rest := Encode(bs[0]), EncodeAll(bs[1..]) + tail;
      var data := EncodeAll(bs) + tail;
      SingleBatch(bs[0]);
      assert data == e + rest && data[..|e|] == e && data[|e|..] == rest;
      assert BatchSize(data) == Some(|e|) by {
        assert data[..12] == e[..12];
        EncodedSize(bs[0], data);
      }
      ParseFromBatches(bs[1..], tail, acc + ValuesOf(bs[0].records));
      assert acc + ValuesOf(bs[0].records) + AllValues(bs[1..]) == acc + AllValues(bs);
    }
  }

  /** Parsing whole batches followed by any strict prefix of another returns exactly the values of
      the whole ones; it fails exactly when there are none. */
  lemma ParseIsHomomorphic(bs: seq<Batch>, tail: bytes)
    requires (forall b :: b in bs ==> WellFormed(b)) && CutBatch(tail)
    ensures ParseFrom(EncodeAll(bs) + tail, []) == if AllValues(bs) == [] then Malformed else Values(AllValues(bs))
  {
    ParseFromBatches(bs, tail, []);
    assert [] + AllValues(bs) == AllValues(bs);
  }

  // ---- the parser itself ----

  /** The header fields up to the last offset delta, which both parsers read. */
  method ParseHeaderFront(r: ByteReader) returns (front: Option<(byte, int32)>)
    requires r.Valid()
    modifies r
    ensures r.Valid()
    ensures ReadHeaderFront(old(r.Rest())).None? ==> front == None
    ensures ReadHeaderFront(old(r.Rest())).Some? ==>
              front == Some(ReadHeaderFront(old(r.Rest())).value.0) && r.Rest() == ReadHeaderFront(old(r.Rest())).value.1
  {
    hide Decode16, Decode32, Decode64;
    var baseOffset := r.ReadInt64();
    if baseOffset.None? { return None; }
    var batchLength := r.ReadInt32();
    if batchLength.None? { return None; }
    var leaderEpoch := r.ReadInt32();
    if leaderEpoch.None? { return None; }
    var magic := r.ReadInt8();
    if magic.None? { return None; }
    var crc := r.ReadInt32();
    if crc.None? { return None; }
    var attributes := r.ReadInt16();
    if attributes.None? { return None; }
    var delta := r.ReadInt32();
    if delta.None? { return None; }
    return Some((magic.value, delta.value));
  }

  method ParseHeader(r: ByteReader) returns (delta: Option<int32>)
    requires r.Valid()
    modifies r
    ensures r.Valid()
    ensures match ReadHeaderFront(old(r.Rest()))
      case None => delta == None
      case Some(((magic, d), s)) =>
        if magic != 2 || ReadHeaderBack(s).None? then delta == None
        else delta == Some(d) && r.Rest() == ReadHeaderBack(s).value.1
  {
    hide ReadHeaderFront, Decode16, Decode32, Decode64;
    var front := ParseHeaderFront(r);
    if front.None? || front.value.0 != 2 { return None; }
    var baseTimestamp := r.ReadInt64();
    if baseTimestamp.None? { return None; }
    var maxTimestamp := r.ReadInt64();
    if maxTimestamp.None? { return None; }
    var producerId := r.ReadInt64();
    if producerId.None? { return None; }
    var producerEpoch := r.ReadInt16();
    if producerEpoch.None? { return None; }
    var baseSequence := r.ReadInt32();
    if baseSequence.None? { return None; }
    return Some(front.value.1);
  }

  method ParseSized(r: ByteReader) returns (b: Option<bytes>)
    requires r.Valid()
    modifies r
    ensures r.Valid()
    ensures ReadSized(old(r.Rest())).None? ==> b == None
    ensures ReadSized(old(r.Rest())).Some? ==>
              b == Some(ReadSized(old(r.Rest())).value.0) && r.Rest() == ReadSized(old(r.Rest())).value.1
  {
    var len := r.ReadSignedVarint();
    if len.None? { return None; }
    b := Some([]);
    if len.value > 0 {
      b := r.ReadBytes(len.value);
    }
  }

  method ParseRecord(r: ByteReader) returns (ok: bool, value: Option<bytes>)
    requires r.Valid()
    modifies r
    ensures r.Valid() && ok == ReadRecord(old(r.Rest())).Some?
    ensures ok ==> (value, r.Rest()) == ReadRecord(old(r.Rest())).value
  {
    var bodySize := r.ReadSignedVarint();
    if bodySize.None? { return false, None; }
    if bodySize.value <= 0 { return true, None; }
    var attrs := r.ReadInt8();
    if attrs.None? { return false, None; }
    var timestampDelta := r.ReadSignedVarint();
    if timestampDelta.None? { return false, None; }
    var offsetDelta := r.ReadSignedVarint();
    if offsetDelta.None? { return false, None; }
    var key := ParseSized(r);
    if key.None? { return false, None; }
    value := ParseSized(r);
    if value.None? { return false, None; }
    ok := SkipHeaders(r);
  }

  method SkipHeaders(r: ByteReader) returns (ok: bool)
    requires r.Valid()
    modifies r
    ensures r.Valid() && ok == ReadArray(ReadRecordHeader, old(r.Rest())).Some?
    ensures ok ==> r.Rest() == ReadArray(ReadRecordHeader, old(r.Rest())).value.1
  {
    hide ReadSized, ReadVarint;
    var headersCount := r.ReadVarint();
    if headersCount.None? { return false; }
    var count := if headersCount.value > 0 then headersCount.value - 1 else 0;
    ghost var all := ReadItems(count, ReadRecordHeader, r.Rest());
    for h := 0 to count
      invariant r.Valid()
      invariant all.Some? == ReadItems(count - h, ReadRecordHeader, r.Rest()).Some?
      invariant all.Some? ==> all.value.1 == ReadItems(count - h, ReadRecordHeader, r.Rest()).value.1
    {
      var key := ParseSized(r);
      if key.None? { return false; }
      var value := ParseSized(r);
      if value.None? { return false; }
    }
    ok := true;
  }

  /** What a loop with `vs` in hand will have kept when the records ahead are read. */
  ghost function KeptAfter(vs: seq<bytes>, ahead: Parsed<seq<Option<bytes>>>): Option<seq<bytes>>
  {
    if ahead.None? then None else Some(vs + Kept(ahead.value.0))
  }

  lemma KeptStep(vs: seq<bytes>, n: nat, s: bytes)
    ensures n == 0 ==> KeptAfter(vs, ReadItems(n, ReadRecord, s)) == Some(vs)
    ensures n > 0 && ReadRecord(s).None? ==> KeptAfter(vs, ReadItems(n, ReadRecord, s)) == None
    ensures n > 0 && ReadRecord(s).Some? ==>
              KeptAfter(vs, ReadItems(n, ReadRecord, s)) ==
              KeptAfter(vs + (if ReadRecord(s).value.0.Some? then [ReadRecord(s).value.0.value] else []),
                        ReadItems(n - 1, ReadRecord, ReadRecord(s).value.1))
  {
    hide ReadRecord;
    if n == 0 {
      assert vs + [] == vs;
    } else if ReadRecord(s).Some? {
      var (x, s1) := ReadRecord(s).value;
      var rest := ReadItems(n - 1, ReadRecord, s1);
      if rest.Some? {
        assert ([x] + rest.value.0)[1..] == rest.value.0;
        var first := if x.Some? then [x.value] else [];
        assert vs + (first + Kept(rest.value.0)) == vs + first + Kept(rest.value.0);
      }
    }
  }

  /** The record loop: values of the records kept, or nothing if one cannot be read. */
  method ParseRecords(r: ByteReader, recordCount: nat) returns (values: Option<seq<bytes>>)
    requires r.Valid()
    modifies r
    ensures r.Valid()
    ensures values == match ReadItems(recordCount, ReadRecord, old(r.Rest()))
      case None => None
      case Some((records, _)) => Some(Kept(records))
  {
    hide ReadRecord, ReadItems, Kept;
    var vs: seq<bytes> := [];
    ghost var all := ReadItems(recordCount, ReadRecord, r.Rest());
    assert all.Some? ==> [] + Kept(all.value.0) == Kept(all.value.0);
    for i := 0 to recordCount
      invariant r.Valid() && KeptAfter(vs, ReadItems(recordCount - i, ReadRecord, r.Rest())) == KeptAfter([], all)
    {
      KeptStep(vs, recordCount - i, r.Rest());
      var ok, value := ParseRecord(r);
      if !ok { return None; }
      if value.Some? {
        vs := vs + [value.value];
      }
      assert value.None? ==> vs + [] == vs;
    }
    KeptStep(vs, 0, r.Rest());
    return Some(vs);
  }

  method ParseSingleRecordBatch(data: bytes) returns (o: Outcome)
    ensures o == ParseSingle(data)
  {
    hide ReadHeaderFront, ReadHeaderBack, ReadItems, ReadRecord, Kept, ToInt32;
    var r := new ByteReader(data);
    var delta := ParseHeader(r);
    if delta.None? { return Malformed; }
    var recordCount := ToInt32(delta.value as int + 1);
    if recordCount < 0 { return LengthError; }
    var values := ParseRecords(r, recordCount);
    return if values.None? then Malformed else Values(values.value);
  }

  method ParseRecordBatch(data: bytes) returns (o: Outcome)
    ensures o == ParseFrom(data, [])
  {
    hide ParseSingle;
    var allValues: seq<bytes> := [];
    var offset := 0;
    while offset + 12 <= |data|
      invariant 0 <= offset <= |data|
      invariant ParseFrom(data, []) == ParseFrom(data[offset..], allValues)
    {
      var headerLength: int := Decode32(data[offset + 8..offset + 12]);
      assert data[offset..][8..12] == data[offset + 8..offset + 12];
      if headerLength < 0 {
        if allValues == [] { return Malformed; }
        break;
      }
      var batchSize := 12 + headerLength;
      if offset + batchSize > |data| {
        if allValues == [] { return Malformed; }
        break;
      }
      assert data[offset..][..batchSize] == data[offset..offset + batchSize];
      var result := ParseSingleRecordBatch(data[offset..offset + batchSize]);
      match result {
        case LengthError => return LengthError;
        case Malformed =>
          if allValues == [] { return Malformed; }
          break;
        case Values(vs) =>
          allValues := allValues + vs;
      }
      assert data[offset..][batchSize..] == data[offset + batchSize..];
      offset := offset + batchSize;
    }
    if allValues == [] { return Malformed; }
    return Values(allValues);
  }

  method RecordBatchCount(data: bytes) returns (count: Option<int32>)
    ensures count == BatchCount(data)
  {
    hide ReadHeaderFront, ToInt32;
    if |data| < 28 { return None; }
    var r := new ByteReader(data);
    var front := ParseHeaderFront(r);
    if front.None? || front.value.0 != 2 { return None; }
    return Some(ToInt32(front.value.1 as int + 1));
  }
}
