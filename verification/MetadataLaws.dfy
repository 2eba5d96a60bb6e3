/** What the metadata parser promises of every log: its result is determined by the records of the log, and on a
    well-formed log those are exactly the records written. */
module MetadataLaws {
  import opened Bytes
  import opened Varint
  import opened Wire
  import opened Protocol
  import opened Cluster
  import opened Metadata

  // ================ the indexes ================

  lemma IndexUnique<K(!new)>(a: map<K, nat>, b: map<K, nat>, keys: seq<K>)
    requires IndexesLast(a, keys) && IndexesLast(b, keys)
    ensures a == b
  {
    forall k | k in a
      ensures k in b && a[k] == b[k]
    {
      assert k in keys;
    }
    assert a.Keys == b.Keys;
  }

  /** Only one result says exactly what a log says. */
  lemma ExactIsUnique(a: ClusterMetadata, b: ClusterMetadata, es: seq<Entry>)
    requires Exact(a, es) && Exact(b, es)
    ensures a == b
  {
    hide IndexesLast, TopicsOf, PartitionsOf, Ids;
    IndexUnique(a.nameToTopic, b.nameToTopic, Names(TopicsOf(es)));
    IndexUnique(a.uuidToTopic, b.uuidToTopic, Uuids(TopicsOf(es)));
    assert a.topics == b.topics;
  }

  /** Looking a topic up by name or by id indexes the topic list in bounds, finds one exactly when the log has such a topic
      record, and finds the one asked for. */
  lemma LookupsExact(m: ClusterMetadata, es: seq<Entry>, name: bytes, uuid: Uuid)
    requires Exact(m, es)
    ensures Indexed(m)
    ensures TopicByName(m, name).Some? <==> name in Names(TopicsOf(es))
    ensures TopicByName(m, name).Some? ==> TopicByName(m, name).value.name == name
    ensures TopicByUuid(m, uuid).Some? <==> uuid in Uuids(TopicsOf(es))
    ensures TopicByUuid(m, uuid).Some? ==> TopicByUuid(m, uuid).value.uuid == uuid
  {
    hide TopicsOf, PartitionsOf, Ids;
  }

  lemma {:induction false} TopicRecorded(es: seq<Entry>, k: nat)
    requires k < |es| && es[k].Topic?
    ensures es[k].t in TopicsOf(es)
  {
    if k < |es| - 1 {
      TopicRecorded(es[..|es| - 1], k);
    }
  }

  lemma {:induction false} PartitionRecorded(es: seq<Entry>, k: nat)
    requires k < |es| && es[k].Partition?
    ensures es[k].p in PartitionsOf(es)
  {
    if k < |es| - 1 {
      PartitionRecorded(es[..|es| - 1], k);
    }
  }

  lemma {:induction false} IdRecorded(ps: seq<RawPartition>, p: RawPartition)
    requires p in ps
    ensures p.id in Ids(ps, p.uuid)
  {
    if ps[|ps| - 1] != p {
      IdRecorded(ps[..|ps| - 1], p);
    }
  }

  /** The topic records, the partition records and the partitions of one topic id are those of the log, in its order and as
      often as they stand there. */
  lemma {:induction false} TopicsInLogOrder(a: seq<Entry>, b: seq<Entry>)
    ensures TopicsOf(a + b) == TopicsOf(a) + TopicsOf(b)
    ensures |b| == 1 ==> TopicsOf(b) == if b[0].Topic? then [b[0].t] else []
  {
    if b == [] {
      assert a + b == a && TopicsOf(b) == [];
    } else {
      var b1 := b[..|b| - 1];
      assert (a + b)[..|a + b| - 1] == a + b1 && (|b| == 1 ==> b1 == []);
      TopicsInLogOrder(a, b1);
    }
  }

  lemma {:induction false} PartitionsInLogOrder(a: seq<Entry>, b: seq<Entry>)
    ensures PartitionsOf(a + b) == PartitionsOf(a) + PartitionsOf(b)
    ensures |b| == 1 ==> PartitionsOf(b) == if b[0].Partition? then [b[0].p] else []
  {
    if b == [] {
      assert a + b == a && PartitionsOf(b) == [];
    } else {
      var b1 := b[..|b| - 1];
      assert (a + b)[..|a + b| - 1] == a + b1 && (|b| == 1 ==> b1 == []);
      PartitionsInLogOrder(a, b1);
    }
  }

  lemma {:induction false} IdsInLogOrder(a: seq<RawPartition>, b: seq<RawPartition>, uuid: Uuid)
    ensures Ids(a + b, uuid) == Ids(a, uuid) + Ids(b, uuid)
    ensures |b| == 1 ==> Ids(b, uuid) == if b[0].uuid == uuid then [b[0].id] else []
  {
    if b == [] {
      assert a + b == a && Ids(b, uuid) == [];
    } else {
      var b1 := b[..|b| - 1];
      assert (a + b)[..|a + b| - 1] == a + b1 && (|b| == 1 ==> b1 == []);
      IdsInLogOrder(a, b1, uuid);
    }
  }

  /** A partition record reaches the topic its id names, wherever in the log either of them stands. */
  lemma PartitionReachesItsTopic(m: ClusterMetadata, es: seq<Entry>, k: nat, j: nat)
    requires Exact(m, es) && k < |es| && j < |es|
    requires es[k].Partition? && es[j].Topic? && es[k].p.uuid == es[j].t.uuid
    ensures TopicByUuid(m, es[k].p.uuid).Some?
    ensures var t := TopicByUuid(m, es[k].p.uuid).value; t.uuid == es[k].p.uuid && es[k].p.id in t.partitions
  {
    hide TopicsOf, PartitionsOf, Ids;
    TopicRecorded(es, j);
    PartitionRecorded(es, k);
    IdRecorded(PartitionsOf(es), es[k].p);
    var ts := TopicsOf(es);
    var i :| 0 <= i < |ts| && ts[i] == es[j].t;
    assert Uuids(ts)[i] in Uuids(ts);
  }

  // ================ well-formed logs ================

  datatype Value =
    | TopicValue(t: RawTopic, more: bytes)
    | PartitionValue(p: RawPartition, more: bytes)
    | OtherValue(key: uint32, more: bytes)
    | NoValue

  datatype MetaRecord = MetaRecord(attributes: byte, timestampDelta: uint32, offsetDelta: uint32, key: Option<bytes>,
                                   frameVersion: uint32, version: uint32, value: Value, headers: seq<(bytes, bytes)>)

  datatype MetaBatch = MetaBatch(baseOffset: int64, leaderEpoch: int32, crc: int32, attributes: int16, lastOffsetDelta: int32,
                                 firstTimestamp: int64, lastTimestamp: int64, producerId: int64, producerEpoch: int16, baseSequence: int32,
                                 records: seq<MetaRecord>)

  function EntryOf(v: Value): Option<Entry>
  {
    match v
    case TopicValue(t, _) => Some(Topic(t))
    case PartitionValue(p, _) => Some(Partition(p))
    case _ => None
  }

  function KeyOf(v: Value): uint32
  {
    match v
    case TopicValue(_, _) => 2
    case PartitionValue(_, _) => 3
    case OtherValue(key, _) => key
    case NoValue => 0
  }

  function PutFields(v: Value): bytes
  {
    match v
    case TopicValue(t, more) => PutCompactString(t.name, PutBytes(t.uuid, more))
    case PartitionValue(p, more) => PutInt32(p.id, PutBytes(p.uuid, more))
    case OtherValue(_, more) => more
    case NoValue => []
  }

  function PutValue(x: MetaRecord): (s: bytes)
  {
    PutVarint(x.frameVersion, PutVarint(KeyOf(x.value), PutVarint(x.version, PutFields(x.value))))
  }

  /** A byte field behind its length as a signed varint. */
  function PutField(b: bytes, rest: bytes): bytes
    requires |b| < 0x8000_0000
  {
    PutSignedVarint(|b|, PutBytes(b, rest))
  }

  predicate FitsField(b: bytes) { 2 * |b| < TWO_28 }

  predicate FitsHeader(h: (bytes, bytes)) { FitsField(h.0) && FitsField(h.1) }

  function PutHeader(h: (bytes, bytes), rest: bytes): bytes
  {
    if FitsHeader(h) then PutField(h.0, PutField(h.1, rest)) else rest
  }

  predicate FitsRecord(x: MetaRecord)
  {
    && x.timestampDelta < TWO_28 && x.offsetDelta < TWO_28 && x.frameVersion < TWO_28 && x.version < TWO_28
    && (x.key.Some? ==> FitsField(x.key.value))
    && KeyOf(x.value) < TWO_28 && (x.value.OtherValue? ==> x.value.key != 2 && x.value.key != 3)
    && (x.value.TopicValue? ==> Short(x.value.t.name))
    && FitsField(PutValue(x))
    && (x.value.NoValue? ==> x.headers == []) && 2 * |x.headers| < TWO_28 && forall h :: h in x.headers ==> FitsHeader(h)
  }

  function PutKey(key: Option<bytes>, rest: bytes): bytes
    requires key.Some? ==> FitsField(key.value)
  {
    if key.None? then PutSignedVarint(-1, rest) else PutField(key.value, rest)
  }

  function PutHeaders(hs: seq<(bytes, bytes)>, rest: bytes): bytes
    requires 2 * |hs| < TWO_28
  {
    PutSignedVarint(|hs|, PutItems(PutHeader, hs, rest))
  }

  /** A record without a value, which says that its key was deleted, has the length -1. */
  function PutLongValue(x: MetaRecord, rest: bytes): bytes
    requires FitsField(PutValue(x))
  {
    if x.value.NoValue? then PutSignedVarint(-1, rest) else PutField(PutValue(x), rest)
  }

  function PutRecordBody(x: MetaRecord, rest: bytes): bytes
    requires FitsRecord(x)
  {
    PutInt8(x.attributes, PutVarint(x.timestampDelta, PutVarint(x.offsetDelta,
      PutKey(x.key, PutLongValue(x, PutHeaders(x.headers, rest))))))
  }

  /** The length in front of a record covers everything up to the next one. */
  predicate WellFormed(x: MetaRecord) { FitsRecord(x) && FitsField(PutRecordBody(x, [])) }

  function PutRecord(x: MetaRecord, rest: bytes): bytes
  {
    if WellFormed(x) then PutSignedVarint(|PutRecordBody(x, [])|, PutRecordBody(x, rest)) else rest
  }

  // ---- sizes ----

  lemma FieldSizes()
    ensures forall v: int32, rest: bytes {:trigger PutSignedVarint(v, rest)} :: |PutSignedVarint(v, rest)| == VarintSize(ZigzagEncode(v)) + |rest|
  {
    hide VarintSize, ZigzagEncode;
    PutSizes();
  }

  lemma {:induction false} HeadersAdd(hs: seq<(bytes, bytes)>, rest: bytes)
    ensures |PutItems(PutHeader, hs, rest)| == |PutItems(PutHeader, hs, [])| + |rest|
  {
    hide PutSignedVarint, VarintSize, ZigzagEncode, PutBytes;
    FieldSizes();
    PutSizes();
    if hs != [] {
      HeadersAdd(hs[1..], rest);
    }
  }

  lemma BodyAdds(x: MetaRecord, rest: bytes)
    requires FitsRecord(x)
    ensures |PutRecordBody(x, rest)| == |PutRecordBody(x, [])| + |rest|
  {
    hide PutSignedVarint, VarintSize, ZigzagEncode, PutBytes, PutVarint, PutInt8, PutItems, PutValue;
    FieldSizes();
    PutSizes();
    HeadersAdd(x.headers, rest);
  }

  // ---- reading back ----

  lemma FieldReads(b: bytes, rest: bytes)
    requires FitsField(b)
    ensures ReadSignedVarint(PutField(b, rest)) == Some((|b|, PutBytes(b, rest)))
    ensures ReadBytes(|b|, PutBytes(b, rest)) == Some((b, rest)) && SkipPositive(|b|, PutBytes(b, rest)) == Some(((), rest))
  {
    hide ReadSignedVarint, PutSignedVarint;
    InvertLaws();
    StringLaws();
  }

  lemma HeaderPassed(h: (bytes, bytes), rest: bytes)
    requires FitsHeader(h)
    ensures AfterHeader(PutHeader(h, rest)) == rest
  {
    hide ReadSignedVarint, SkipPositive, PutField;
    FieldReads(h.0, PutField(h.1, rest));
    FieldReads(h.1, rest);
  }

  lemma {:induction false} HeadersPassed(hs: seq<(bytes, bytes)>, rest: bytes)
    requires forall h :: h in hs ==> FitsHeader(h)
    ensures AfterHeaders(|hs|, PutItems(PutHeader, hs, rest)) == rest
  {
    hide AfterHeader, PutHeader;
    if hs != [] {
      HeaderPassed(hs[0], PutItems(PutHeader, hs[1..], rest));
      HeadersPassed(hs[1..], rest);
    }
  }

  lemma EndReached(x: MetaRecord, rest: bytes)
    requires FitsRecord(x)
    ensures AfterRecord(|rest|, PutHeaders(x.headers, rest)) == rest
  {
    hide ReadSignedVarint, PutSignedVarint, AfterHeaders, PutItems;
    InvertLaws();
    HeadersPassed(x.headers, rest);
  }

  lemma EntryReadBack(x: MetaRecord)
    requires FitsRecord(x) && !x.value.NoValue?
    ensures ReadEntry(PutValue(x)) == Some(EntryOf(x.value))
  {
    hide ReadVarint, PutVarint, ReadCompactString, PutCompactString, ReadInt32, PutInt32, PutBytes, ReadBytes;
    VarintInverts(x.frameVersion, PutVarint(KeyOf(x.value), PutVarint(x.version, PutFields(x.value))));
    VarintInverts(KeyOf(x.value), PutVarint(x.version, PutFields(x.value)));
    VarintInverts(x.version, PutFields(x.value));
    InvertLaws();
    StringLaws();
  }

  lemma ValueIsLong(x: MetaRecord)
    ensures |PutValue(x)| >= 3
  {
    hide PutFields, PutVarint, VarintSize;
    PutSizes();
    VarintSizeRange(0);
  }

  lemma KeyPassed(key: Option<bytes>, rest: bytes)
    requires key.Some? ==> FitsField(key.value)
    ensures ReadSignedVarint(PutKey(key, rest)).Some?
    ensures var (len, s) := ReadSignedVarint(PutKey(key, rest)).value; SkipPositive(len, s) == Some(((), rest))
  {
    hide ReadSignedVarint, PutSignedVarint;
    if key.None? {
      SignedVarintInverts(-1, rest);
    } else {
      FieldReads(key.value, rest);
    }
  }

  lemma ValueReadBack(x: MetaRecord, rest: bytes)
    requires FitsRecord(x)
    ensures RecordValue(PutRecordBody(x, rest)) ==
            if x.value.NoValue? then Stop(rest) else Go(PutValue(x), PutHeaders(x.headers, rest))
  {
    hide ReadInt8, PutInt8, ReadVarint, PutVarint, ReadSignedVarint, PutSignedVarint, PutKey, PutField, PutValue, PutHeaders,
         SkipPositive, ReadBytes, PutBytes;
    var s3 := PutHeaders(x.headers, rest);
    var s2 := PutLongValue(x, s3);
    var s1 := PutKey(x.key, s2);
    InvertLaws();
    VarintInverts(x.timestampDelta, PutVarint(x.offsetDelta, s1));
    VarintInverts(x.offsetDelta, s1);
    KeyPassed(x.key, s2);
    if x.value.NoValue? {
      SignedVarintInverts(-1, s3);
      NoHeaders(rest);
    } else {
      FieldReads(PutValue(x), s3);
      ValueIsLong(x);
    }
  }

  lemma NoHeaders(rest: bytes)
    ensures ReadSignedVarint(PutHeaders([], rest)) == Some((0, rest))
  {
    SignedVarintInverts(0, rest);
  }

  lemma RecordReadBack(x: MetaRecord, rest: bytes)
    requires WellFormed(x)
    ensures Record(PutRecord(x, rest)) == (EntryOf(x.value), rest) && |PutRecord(x, rest)| > |rest|
  {
    hide ReadSignedVarint, PutSignedVarint, RecordValue, PutRecordBody, ReadEntry, PutValue, AfterRecord, PutHeaders,
         FitsRecord, VarintSize, ZigzagEncode;
    InvertLaws();
    FieldSizes();
    BodyAdds(x, rest);
    ValueReadBack(x, rest);
    if !x.value.NoValue? {
      EntryReadBack(x);
      EndReached(x, rest);
    }
  }

  /** The entries of a list of records, those of other types left out. */
  function EntriesOf(xs: seq<MetaRecord>): seq<Entry>
  {
    if xs == [] then [] else Kept(EntryOf(xs[0].value)) + EntriesOf(xs[1..])
  }

  /** The end of the batch ends the loop, even when the count announced more records. */
  lemma {:induction false} RecordsReadBack(xs: seq<MetaRecord>, n: nat, rest: bytes)
    requires |xs| <= n && forall x :: x in xs ==> WellFormed(x)
    ensures Records(n, |rest|, PutItems(PutRecord, xs, rest)) == (EntriesOf(xs), rest)
    ensures |PutItems(PutRecord, xs, rest)| >= |rest|
  {
    hide Record, PutRecord, WellFormed;
    if xs != [] {
      RecordReadBack(xs[0], PutItems(PutRecord, xs[1..], rest));
      RecordsReadBack(xs[1..], n - 1, rest);
    }
  }

  // ---- batches ----

  function PutBatchTail(b: MetaBatch, rest: bytes): bytes
  {
    PutInt32(b.leaderEpoch, PutInt8(2, PutInt32(b.crc, PutInt16(b.attributes, PutInt32(b.lastOffsetDelta,
      PutInt64(b.firstTimestamp, PutInt64(b.lastTimestamp, PutInt64(b.producerId, PutInt16(b.producerEpoch,
        PutInt32(b.baseSequence, PutItems(PutRecord, b.records, rest)))))))))))
  }

  /** The batch fits its 32-bit length, and it has no more records than its last offset delta leaves room for. */
  ghost predicate WellFormedBatch(b: MetaBatch)
  {
    && |b.records| <= b.lastOffsetDelta as int + 1 < 0x8000_0000 && (forall x :: x in b.records ==> WellFormed(x))
    && |PutBatchTail(b, [])| < 0x8000_0000
  }

  ghost function PutBatch(b: MetaBatch, rest: bytes): bytes
  {
    if WellFormedBatch(b) then PutInt64(b.baseOffset, PutInt32(|PutBatchTail(b, [])|, PutBatchTail(b, rest))) else rest
  }

  lemma {:induction false} RecordsAdd(xs: seq<MetaRecord>, rest: bytes)
    ensures |PutItems(PutRecord, xs, rest)| == |PutItems(PutRecord, xs, [])| + |rest|
  {
    hide PutSignedVarint, PutRecordBody, FitsRecord, VarintSize, ZigzagEncode;
    if xs != [] {
      RecordsAdd(xs[1..], rest);
      FieldSizes();
      if WellFormed(xs[0]) {
        BodyAdds(xs[0], PutItems(PutRecord, xs[1..], rest));
        BodyAdds(xs[0], PutItems(PutRecord, xs[1..], []));
      }
    }
  }

  lemma TailAdds(b: MetaBatch, rest: bytes)
    ensures |PutBatchTail(b, rest)| == |PutBatchTail(b, [])| + |rest|
    ensures |PutBatchTail(b, rest)| == 45 + |PutItems(PutRecord, b.records, rest)|
  {
    hide PutInt8, PutInt16, PutInt32, PutInt64, PutItems, PutRecord;
    PutSizes();
    RecordsAdd(b.records, rest);
  }

  /** A fixed-size field is skipped by its size. */
  lemma SkipLaws()
    ensures forall v: int16, rest: bytes {:trigger PutInt16(v, rest)} :: Skip(2, PutInt16(v, rest)) == Some(((), rest))
    ensures forall v: int32, rest: bytes {:trigger PutInt32(v, rest)} :: Skip(4, PutInt32(v, rest)) == Some(((), rest))
    ensures forall v: int64, rest: bytes {:trigger PutInt64(v, rest)} :: Skip(8, PutInt64(v, rest)) == Some(((), rest))
  {
    hide BE16, BE32, BE64;
  }

  lemma FieldsReadBack(b: MetaBatch, left: int, rest: bytes)
    requires 0 <= b.lastOffsetDelta as int + 1 < 0x8000_0000
    ensures ReadBatchFields(left, PutBatchTail(b, rest)) == Some((Batch(b.lastOffsetDelta as int + 1, left), PutItems(PutRecord, b.records, rest)))
  {
    hide PutInt8, PutInt16, PutInt32, PutInt64, PutItems, PutRecord, ReadInt8, ReadInt32, Skip;
    InvertLaws();
    SkipLaws();
  }

  lemma HeaderReadBack(b: MetaBatch, rest: bytes)
    requires WellFormedBatch(b)
    ensures ReadBatchHeader(PutBatch(b, rest)) == Some((Batch(b.lastOffsetDelta as int + 1, |rest|), PutItems(PutRecord, b.records, rest)))
    ensures |PutBatch(b, rest)| >= HEADER + |rest|
  {
    hide PutInt32, PutInt64, PutItems, PutRecord, ReadInt32, Skip, WellFormed, PutBatchTail, ReadBatchFields;
    PutSizes();
    InvertLaws();
    SkipLaws();
    TailAdds(b, rest);
    RecordsAdd(b.records, rest);
    FieldsReadBack(b, |rest|, rest);
  }

  /** The entries of a list of batches. */
  function LogEntries(bs: seq<MetaBatch>): seq<Entry>
  {
    if bs == [] then [] else EntriesOf(bs[0].records) + LogEntries(bs[1..])
  }

  /** A well-formed log, whatever stands behind it, is read back record by record. */
  lemma {:induction false} LogReadBack(bs: seq<MetaBatch>, more: bytes)
    requires forall b :: b in bs ==> WellFormedBatch(b)
    ensures Entries(PutItems(PutBatch, bs, more)) == LogEntries(bs) + Entries(more)
  {
    hide PutBatch, ReadBatchHeader, Records, WellFormed, EntriesOf;
    if bs != [] {
      var rest := PutItems(PutBatch, bs[1..], more);
      assert bs[0] in bs;
      HeaderReadBack(bs[0], rest);
      RecordsReadBack(bs[0].records, bs[0].lastOffsetDelta as int + 1, rest);
      LogReadBack(bs[1..], more);
    }
  }

  /** The log ends where less than a batch header is left, at a negative batch length, and at another magic byte. */
  lemma LogEnds(s: bytes)
    ensures |s| < 57 || Decode32(s[8..12]) < 0 || s[16] != 2 ==> Entries(s) == []
  {
    hide Decode32;
    if |s| >= 57 {
      assert s[8..][..4] == s[8..12] && s[8..][4..] == s[12..] && s[12..][4..] == s[16..];
    }
  }
}
