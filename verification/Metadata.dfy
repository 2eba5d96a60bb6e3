/** Reading the cluster metadata log (`parse_cluster_metadata`, src/cluster/metadata.cpp): batches of records, of which
    topic and partition records are kept, and the name and uuid indexes built from them. */
module Metadata {
  import opened Bytes
  import opened Wire
  import opened Cursor
  import opened Protocol
  import opened Cluster

  const HEADER := 57

  datatype RawTopic = RawTopic(name: bytes, uuid: Uuid)
  datatype RawPartition = RawPartition(id: int32, uuid: Uuid)
  datatype Entry = Topic(t: RawTopic) | Partition(p: RawPartition)

  // ================ what the log says ================

  /** A step that either goes on with a value, or gives the record up with the cursor where it stands. */
  datatype Step<+T> = Go(value: T, ahead: bytes) | Stop(at: bytes) {
    predicate IsFailure() { Stop? }
    function PropagateFailure<U>(): Step<U> requires Stop? { Stop(at) }
    function Extract(): (T, bytes) requires Go? { (value, ahead) }
  }

  /** A failed read leaves the cursor in place. */
  function Take<T>(read: Parsed<T>, s: bytes): Step<T> { if read.None? then Stop(s) else Go(read.value.0, read.value.1) }

  /** The cursor after a read whose outcome is ignored. */
  function Past<T>(read: Parsed<T>, s: bytes): bytes { if read.None? then s else read.value.1 }

  function SkipPositive(n: int, s: bytes): Parsed<()> { Skip(if n > 0 then n else 0, s) }

  /** Everything before the record's value, and the value; a value shorter than three bytes is passed over. */
  function RecordValue(s: bytes): Step<bytes>
  {
    var (_, s) :- Take(ReadInt8(s), s);
    var (_, s) :- Take(ReadVarint(s), s);
    var (_, s) :- Take(ReadVarint(s), s);
    var (keyLen, s) :- Take(ReadSignedVarint(s), s);
    var (_, s) :- Take(SkipPositive(keyLen, s), s);
    var (valueLen, s) :- Take(ReadSignedVarint(s), s);
    if valueLen < 3 then Stop(Past(ReadSignedVarint(s), s)) else Take(ReadBytes(valueLen, s), s)
  }

  function ReadTopic(v: bytes): Option<RawTopic>
  {
    var (name, v) :- ReadCompactString(v);
    var (uuid, _) :- ReadBytes(16, v);
    Some(RawTopic(name, uuid))
  }

  function ReadPartition(v: bytes): Option<RawPartition>
  {
    var (id, v) :- ReadInt32(v);
    var (uuid, _) :- ReadBytes(16, v);
    Some(RawPartition(id, uuid))
  }

  /** `None` for a value that cannot be read, `Some(None)` for a record of another type. */
  function ReadEntry(value: bytes): Option<Option<Entry>>
  {
    var (_, v) :- ReadVarint(value);
    var (key, v) :- ReadVarint(v);
    var (_, v) :- ReadVarint(v);
    if key == 2 then
      var t :- ReadTopic(v);
      Some(Some(Topic(t)))
    else if key == 3 then
      var p :- ReadPartition(v);
      Some(Some(Partition(p)))
    else Some(None)
  }

  function HeaderFields(s: bytes): Step<()>
  {
    var (keyLen, s) :- Take(ReadSignedVarint(s), s);
    var (_, s) :- Take(SkipPositive(keyLen, s), s);
    var (valueLen, s) :- Take(ReadSignedVarint(s), s);
    Take(SkipPositive(valueLen, s), s)
  }

  function AfterHeader(s: bytes): bytes { if HeaderFields(s).Go? then HeaderFields(s).ahead else HeaderFields(s).at }

  function AfterHeaders(n: int, s: bytes): bytes
    decreases n
  {
    if n <= 0 then s else AfterHeaders(n - 1, AfterHeader(s))
  }

  /** The end of a record: its headers, and whatever is left before `left` bytes remain. */
  function AfterRecord(left: int, s: bytes): bytes
  {
    match ReadSignedVarint(s)
    case None => s
    case Some((count, s)) =>
      var s := AfterHeaders(count, s);
      if |s| > left then Past(SkipFrom(left, s), s) else s
  }

  /** Skipping until `left` bytes remain. */
  function SkipFrom(left: int, s: bytes): Parsed<()>
    requires |s| > left
  {
    Skip(|s| - left, s)
  }

  /** One turn of the record loop: what was kept, and the cursor afterwards. */
  function Record(s: bytes): (Option<Entry>, bytes)
  {
    match ReadSignedVarint(s)
    case None => (None, s)
    case Some((len, s)) =>
      if len < 0 then (None, s)
      else match RecordValue(s)
        case Stop(at) => (None, at)
        case Go(value, ahead) =>
          match ReadEntry(value)
          case None => (None, ahead)
          case Some(e) => (e, AfterRecord(|s| - len, ahead))
  }

  function Kept(e: Option<Entry>): seq<Entry> { if e.None? then [] else [e.value] }

  /** At most `n` records, stopping once no more than `left` bytes remain. */
  function Records(n: int, left: int, s: bytes): (seq<Entry>, bytes)
    decreases n
  {
    if n <= 0 || |s| <= left then ([], s)
    else
      var (e, s) := Record(s);
      var (es, s) := Records(n - 1, left, s);
      (Kept(e) + es, s)
  }

  /** The record count, and how many bytes remain when the batch ends. */
  datatype Batch = Batch(count: int32, left: int)

  function ReadBatchHeader(s: bytes): Parsed<Batch>
  {
    var (_, s) :- Skip(8, s);
    var (len, s) :- ReadInt32(s);
    if len < 0 then None else ReadBatchFields(|s| - len, s)
  }

  /** The header fields that the batch length covers. */
  function ReadBatchFields(left: int, s: bytes): Parsed<Batch>
  {
    var (_, s) :- Skip(4, s);
    var (magic, s) :- ReadInt8(s);
    if magic != 2 then None
    else
      var (_, s) :- Skip(4, s);
      var (_, s) :- Skip(2, s);
      var (delta, s) :- ReadInt32(s);
      var (_, s) :- Skip(8, s);
      var (_, s) :- Skip(8, s);
      var (_, s) :- Skip(8, s);
      var (_, s) :- Skip(2, s);
      var (_, s) :- Skip(4, s);
      Some((Batch(ToInt32(delta as int + 1), left), s))
  }

  lemma BatchHeaderMoves(s: bytes)
    ensures ReadBatchHeader(s).Some? ==> |ReadBatchHeader(s).value.1| == |s| - HEADER
  {
  }

  lemma HeaderShrinks(s: bytes)
    ensures |AfterHeader(s)| <= |s|
  {
    hide ReadInt8, ReadVarint, ReadSignedVarint, Skip, ReadBytes;
    ReadsShrink();
  }

  lemma {:induction false} HeadersShrink(n: int, s: bytes)
    ensures |AfterHeaders(n, s)| <= |s|
    decreases n
  {
    if n > 0 {
      HeaderShrinks(s);
      HeadersShrink(n - 1, AfterHeader(s));
    }
  }

  lemma ValueShrinks(s: bytes)
    ensures RecordValue(s).Go? ==> |RecordValue(s).ahead| <= |s|
    ensures RecordValue(s).Stop? ==> |RecordValue(s).at| <= |s|
  {
    hide ReadInt8, ReadVarint, ReadSignedVarint, Skip, ReadBytes;
    ReadsShrink();
  }

  lemma EndShrinks(left: int, s: bytes)
    ensures |AfterRecord(left, s)| <= |s|
  {
    hide AfterHeaders, ReadSignedVarint, Skip;
    ReadsShrink();
    if ReadSignedVarint(s).Some? {
      HeadersShrink(ReadSignedVarint(s).value.0, ReadSignedVarint(s).value.1);
    }
  }

  lemma RecordShrinks(s: bytes)
    ensures |Record(s).1| <= |s|
  {
    hide RecordValue, ReadEntry, AfterRecord, ReadSignedVarint;
    ReadsShrink();
    if ReadSignedVarint(s).Some? {
      var (len, s1) := ReadSignedVarint(s).value;
      ValueShrinks(s1);
      if RecordValue(s1).Go? {
        EndShrinks(|s1| - len, RecordValue(s1).ahead);
      }
    }
  }

  /** The cursor only moves forward, so the log is read in bounds and to an end. */
  lemma {:induction false} RecordsShrink(n: int, left: int, s: bytes)
    ensures |Records(n, left, s).1| <= |s|
    decreases n
  {
    hide Record;
    if n > 0 && |s| > left {
      RecordShrinks(s);
      RecordsShrink(n - 1, left, Record(s).1);
    }
  }

  /** Every topic and partition record of the log, in order. */
  function Entries(s: bytes): seq<Entry>
    decreases |s|
  {
    if |s| < HEADER || ReadBatchHeader(s).None? then []
    else
      BatchHeaderMoves(s);
      var (b, s1) := ReadBatchHeader(s).value;
      RecordsShrink(b.count, b.left, s1);
      var (es, s2) := Records(b.count, b.left, s1);
      es + Entries(s2)
  }

  // ================ what the indexes say ================

  function TopicsOf(es: seq<Entry>): seq<RawTopic>
  {
    if es == [] then []
    else TopicsOf(es[..|es| - 1]) + if es[|es| - 1].Topic? then [es[|es| - 1].t] else []
  }

  function PartitionsOf(es: seq<Entry>): seq<RawPartition>
  {
    if es == [] then []
    else PartitionsOf(es[..|es| - 1]) + if es[|es| - 1].Partition? then [es[|es| - 1].p] else []
  }

  /** The partition ids recorded for a topic id, in log order. */
  function Ids(ps: seq<RawPartition>, uuid: Uuid): seq<int32>
  {
    if ps == [] then []
    else Ids(ps[..|ps| - 1], uuid) + if ps[|ps| - 1].uuid == uuid then [ps[|ps| - 1].id] else []
  }

  function Names(ts: seq<RawTopic>): (ns: seq<bytes>)
    ensures |ns| == |ts| && forall i :: 0 <= i < |ts| ==> ns[i] == ts[i].name
  {
    seq(|ts|, i requires 0 <= i < |ts| => ts[i].name)
  }

  function Uuids(ts: seq<RawTopic>): (us: seq<Uuid>)
    ensures |us| == |ts| && forall i :: 0 <= i < |ts| ==> us[i] == ts[i].uuid
  {
    seq(|ts|, i requires 0 <= i < |ts| => ts[i].uuid)
  }

  /** The index maps every key, and no other, to its last position. */
  ghost predicate IndexesLast<K(!new)>(index: map<K, nat>, keys: seq<K>)
  {
    && (forall k :: k in index <==> k in keys)
    && (forall k :: k in index ==> index[k] < |keys| && keys[index[k]] == k)
    && (forall k, j :: k in index && index[k] < j < |keys| ==> keys[j] != k)
  }

  lemma IndexPush<K(!new)>(index: map<K, nat>, keys: seq<K>, key: K)
    requires IndexesLast(index, keys)
    ensures IndexesLast(index[key := |keys|], keys + [key])
  {
    var next, all := index[key := |keys|], keys + [key];
    forall k
      ensures k in next <==> k in all
    {
      assert all[|keys|] == key;
      assert k in keys ==> k in all;
    }
  }

  /** The topics in log order; of several with one topic id, the last holds all its partitions, wherever in the log
      those are recorded, and partitions of an unknown topic id are dropped. */
  ghost predicate Holds(topics: seq<TopicInfo>, ts: seq<RawTopic>, ps: seq<RawPartition>, byUuid: map<Uuid, nat>)
  {
    && |topics| == |ts|
    && forall i :: 0 <= i < |ts| ==>
         && topics[i].name == ts[i].name && topics[i].uuid == ts[i].uuid
         && topics[i].partitions == if ts[i].uuid in byUuid && byUuid[ts[i].uuid] == i then Ids(ps, ts[i].uuid) else []
  }

  ghost predicate Exact(meta: ClusterMetadata, es: seq<Entry>)
  {
    var ts := TopicsOf(es);
    && IndexesLast(meta.nameToTopic, Names(ts))
    && IndexesLast(meta.uuidToTopic, Uuids(ts))
    && Holds(meta.topics, ts, PartitionsOf(es), meta.uuidToTopic)
  }

  // ================ reading it ================

  lemma SkipNothing()
    ensures forall n, s {:trigger SkipPositive(n, s)} :: n <= 0 ==> SkipPositive(n, s) == Some(((), s))
  {
  }

  method ReadRecordValue(r: ByteReader) returns (value: Option<bytes>)
    requires r.Valid()
    modifies r
    ensures r.Valid() && var step := RecordValue(old(r.Rest()));
            if step.Go? then value == Some(step.value) && r.Rest() == step.ahead else value.None? && r.Rest() == step.at
  {
    hide ReadInt8, ReadVarint, ReadSignedVarint, Skip, ReadBytes;
    SkipNothing();
    var _ :- r.ReadInt8();
    var _ :- r.SkipVarint();
    var _ :- r.SkipVarint();
    var keyLen :- r.ReadSignedVarint();
    if keyLen > 0 {
      var _ :- r.Skip(keyLen);
    }
    var valueLen :- r.ReadSignedVarint();
    if valueLen < 3 {
      var _ := r.ReadSignedVarint();
      return None;
    }
    value := r.ReadBytes(valueLen);
  }

  method ParseTopic(v: ByteReader) returns (res: Option<RawTopic>)
    requires v.Valid()
    modifies v
    ensures v.Valid() && res == ReadTopic(old(v.Rest()))
  {
    hide ReadCompactString;
    var name :- v.ReadCompactString();
    var uuid :- v.ReadBytes(16);
    return Some(RawTopic(name, uuid));
  }

  /** After the check of what remains neither read can fail. */
  method ParsePartition(v: ByteReader) returns (res: Option<RawPartition>)
    requires v.Valid()
    modifies v
    ensures v.Valid() && res == ReadPartition(old(v.Rest()))
  {
    hide Decode32;
    var n := v.Remaining();
    if n < 4 + 16 {
      return None;
    }
    var id := v.ReadInt32();
    var uuid := v.ReadBytes(16);
    return Some(RawPartition(id.value, uuid.value));
  }

  method ParseEntry(value: bytes) returns (res: Option<Option<Entry>>)
    ensures res == ReadEntry(value)
  {
    hide ReadVarint, ReadTopic, ReadPartition;
    var v := new ByteReader(value);
    var _ :- v.ReadVarint();
    var key :- v.ReadVarint();
    var _ :- v.ReadVarint();
    if key == 2 {
      var t :- ParseTopic(v);
      return Some(Some(Topic(t)));
    } else if key == 3 {
      var p :- ParsePartition(v);
      return Some(Some(Partition(p)));
    }
    return Some(None);
  }

  /** The body of the header loop, whose outcome is ignored. */
  method PassHeader(r: ByteReader) returns (ok: Option<()>)
    requires r.Valid()
    modifies r
    ensures r.Valid() && r.Rest() == AfterHeader(old(r.Rest()))
  {
    hide ReadSignedVarint, Skip;
    SkipNothing();
    var keyLen :- r.ReadSignedVarint();
    if keyLen > 0 {
      var _ :- r.Skip(keyLen);
    }
    var valueLen :- r.ReadSignedVarint();
    if valueLen > 0 {
      var _ :- r.Skip(valueLen);
    }
    return Some(());
  }

  /** The end of a record that reaches up to `recordEnd`. */
  method PassRest(r: ByteReader, recordEnd: nat)
    requires r.Valid()
    modifies r
    ensures r.Valid() && r.Rest() == AfterRecord(|r.data| - recordEnd, old(r.Rest()))
  {
    hide ReadSignedVarint, AfterHeader;
    var count := r.ReadSignedVarint();
    if count.None? {
      return;
    }
    ghost var all := AfterHeaders(count.value, r.Rest());
    var h := 0;
    while h < count.value
      invariant r.Valid() && AfterHeaders(count.value as int - h, r.Rest()) == all
    {
      var _ := PassHeader(r);
      h := h + 1;
    }
    if r.offset < recordEnd {
      var _ := r.Skip(recordEnd - r.offset);
    }
  }

  /** The body of the record loop. */
  method ReadRecord(r: ByteReader) returns (kept: Option<Entry>)
    requires r.Valid()
    modifies r
    ensures r.Valid() && (kept, r.Rest()) == Record(old(r.Rest()))
  {
    hide ReadSignedVarint, RecordValue, ReadEntry, AfterRecord;
    var len :- r.ReadSignedVarint();
    if len < 0 {
      return None;
    }
    var recordEnd := r.offset + len;
    var value := ReadRecordValue(r);
    if value.None? {
      return None;
    }
    var e := ParseEntry(value.value);
    if e.None? {
      return None;
    }
    PassRest(r, recordEnd);
    return e.value;
  }

  method ParseBatchHeader(r: ByteReader) returns (res: Option<(int32, nat)>)
    requires r.Valid()
    modifies r
    ensures r.Valid() && var b := ReadBatchHeader(old(r.Rest()));
            if b.None? then res.None?
            else res.Some? && res.value.0 == b.value.0.count && |r.data| - res.value.1 == b.value.0.left && r.Rest() == b.value.1
  {
    hide ReadInt32, ReadInt8, Skip;
    var _ :- r.Skip(8);
    var len :- r.ReadInt32();
    if len < 0 {
      return None;
    }
    var batchEnd := r.offset + len;
    var _ :- r.Skip(4);
    var magic :- r.ReadInt8();
    if magic != 2 {
      return None;
    }
    var _ :- r.Skip(4);
    var _ :- r.Skip(2);
    var delta :- r.ReadInt32();
    var _ :- r.Skip(8);
    var _ :- r.Skip(8);
    var _ :- r.Skip(8);
    var _ :- r.Skip(2);
    var _ :- r.Skip(4);
    return Some((ToInt32(delta as int + 1), batchEnd));
  }

  // ================ the two loops over the log ================

  /** The records of one batch, appended to the topic and partition records found so far. */
  method ReadRecords(r: ByteReader, count: int32, batchEnd: nat, ts0: seq<RawTopic>, ps0: seq<RawPartition>, ghost es0: seq<Entry>)
    returns (ts: seq<RawTopic>, ps: seq<RawPartition>, ghost es: seq<Entry>)
    requires r.Valid() && ts0 == TopicsOf(es0) && ps0 == PartitionsOf(es0)
    modifies r
    ensures r.Valid() && ts == TopicsOf(es) && ps == PartitionsOf(es)
    ensures var all := Records(count, |r.data| - batchEnd, old(r.Rest())); es == es0 + all.0 && r.Rest() == all.1
  {
    hide Record, TopicsOf, PartitionsOf;
    ghost var all := Records(count, |r.data| - batchEnd, r.Rest());
    ts, ps, es := ts0, ps0, es0;
    var i := 0;
    while i < count
      invariant r.Valid() && ts == TopicsOf(es) && ps == PartitionsOf(es)
      invariant i <= if count > 0 then count else 0
      invariant es0 + all.0 == es + Records(count as int - i, |r.data| - batchEnd, r.Rest()).0
      invariant all.1 == Records(count as int - i, |r.data| - batchEnd, r.Rest()).1
    {
      if r.offset >= batchEnd {
        break;
      }
      ghost var rest := Records(count as int - i - 1, |r.data| - batchEnd, Record(r.Rest()).1).0;
      var kept := ReadRecord(r);
      Push(es, kept, rest);
      es := es + Kept(kept);
      if kept.Some? {
        match kept.value {
          case Topic(t) => ts := ts + [t];
          case Partition(p) => ps := ps + [p];
        }
      }
      i := i + 1;
    }
  }

  lemma Push(es: seq<Entry>, kept: Option<Entry>, rest: seq<Entry>)
    ensures es + (Kept(kept) + rest) == es + Kept(kept) + rest
    ensures TopicsOf(es + Kept(kept)) == TopicsOf(es) + if kept.Some? && kept.value.Topic? then [kept.value.t] else []
    ensures PartitionsOf(es + Kept(kept)) == PartitionsOf(es) + if kept.Some? && kept.value.Partition? then [kept.value.p] else []
  {
    if kept.None? {
      assert es + [] == es;
    } else {
      assert (es + [kept.value])[..|es|] == es;
    }
  }

  lemma LogStart(s: bytes)
    ensures TopicsOf([]) == [] && PartitionsOf([]) == [] && [] + Entries(s) == Entries(s)
  {
  }

  lemma LogStep(es: seq<Entry>, s: bytes)
    ensures |s| < HEADER || ReadBatchHeader(s).None? ==> es + Entries(s) == es
    ensures |s| >= HEADER && ReadBatchHeader(s).Some? ==>
              var (b, s1) := ReadBatchHeader(s).value;
              var all := Records(b.count, b.left, s1);
              |all.1| < |s| && es + Entries(s) == es + all.0 + Entries(all.1)
  {
    hide Records, ReadBatchHeader;
    if |s| >= HEADER && ReadBatchHeader(s).Some? {
      BatchHeaderMoves(s);
      var (b, s1) := ReadBatchHeader(s).value;
      RecordsShrink(b.count, b.left, s1);
      var all := Records(b.count, b.left, s1);
      assert es + (all.0 + Entries(all.1)) == es + all.0 + Entries(all.1);
    } else {
      assert es + [] == es;
    }
  }

  method ReadLog(data: bytes) returns (ts: seq<RawTopic>, ps: seq<RawPartition>)
    ensures ts == TopicsOf(Entries(data)) && ps == PartitionsOf(Entries(data))
  {
    hide Records, ReadBatchHeader, Entries, TopicsOf, PartitionsOf;
    var r := new ByteReader(data);
    ts, ps := [], [];
    ghost var es: seq<Entry> := [];
    LogStart(data);
    while |r.data| - r.offset >= HEADER
      invariant r.Valid() && ts == TopicsOf(es) && ps == PartitionsOf(es)
      invariant es + Entries(r.Rest()) == Entries(data)
      decreases |r.data| - r.offset
    {
      LogStep(es, r.Rest());
      var header := ParseBatchHeader(r);
      if header.None? {
        return;
      }
      ts, ps, es := ReadRecords(r, header.value.0, header.value.1, ts, ps, es);
    }
    LogStep(es, r.Rest());
  }

  // ================ the two loops over the records ================

  method IndexTopics(ts: seq<RawTopic>) returns (topics: seq<TopicInfo>, byName: map<bytes, nat>, byUuid: map<Uuid, nat>)
    ensures |topics| == |ts| && forall i :: 0 <= i < |ts| ==> topics[i] == TopicInfo(ts[i].name, ts[i].uuid, [])
    ensures IndexesLast(byName, Names(ts)) && IndexesLast(byUuid, Uuids(ts))
  {
    hide IndexesLast;
    topics, byName, byUuid := [], map[], map[];
    assert IndexesLast(byName, Names(ts[..0])) && IndexesLast(byUuid, Uuids(ts[..0])) by { IndexNothing(byName); IndexNothing(byUuid); }
    for i := 0 to |ts|
      invariant |topics| == i && forall j :: 0 <= j < i ==> topics[j] == TopicInfo(ts[j].name, ts[j].uuid, [])
      invariant IndexesLast(byName, Names(ts[..i])) && IndexesLast(byUuid, Uuids(ts[..i]))
    {
      IndexPush(byName, Names(ts[..i]), ts[i].name);
      IndexPush(byUuid, Uuids(ts[..i]), ts[i].uuid);
      assert Names(ts[..i + 1]) == Names(ts[..i]) + [ts[i].name] && Uuids(ts[..i + 1]) == Uuids(ts[..i]) + [ts[i].uuid];
      byName := byName[ts[i].name := |topics|];
      byUuid := byUuid[ts[i].uuid := |topics|];
      topics := topics + [TopicInfo(ts[i].name, ts[i].uuid, [])];
    }
    assert ts[..|ts|] == ts;
  }

  lemma IndexNothing<K(!new)>(index: map<K, nat>)
    requires index == map[]
    ensures IndexesLast(index, [])
  {
  }

  method AddPartitions(topics0: seq<TopicInfo>, byUuid: map<Uuid, nat>, ps: seq<RawPartition>, ghost ts: seq<RawTopic>)
    returns (topics: seq<TopicInfo>)
    requires IndexesLast(byUuid, Uuids(ts)) && Holds(topics0, ts, [], byUuid)
    ensures Holds(topics, ts, ps, byUuid)
  {
    hide IndexesLast, Holds, Ids;
    topics := topics0;
    assert ps[..0] == [] && ps[..|ps|] == ps;
    for i := 0 to |ps|
      invariant Holds(topics, ts, ps[..i], byUuid)
    {
      HoldsPush(topics, ts, ps, i, byUuid);
      if ps[i].uuid in byUuid {
        var k := byUuid[ps[i].uuid];
        topics := topics[k := topics[k].(partitions := topics[k].partitions + [ps[i].id])];
      }
    }
  }

  lemma HoldsPush(topics: seq<TopicInfo>, ts: seq<RawTopic>, ps: seq<RawPartition>, i: nat, byUuid: map<Uuid, nat>)
    requires i < |ps| && IndexesLast(byUuid, Uuids(ts)) && Holds(topics, ts, ps[..i], byUuid)
    ensures ps[i].uuid !in byUuid ==> Holds(topics, ts, ps[..i + 1], byUuid)
    ensures ps[i].uuid in byUuid ==>
              var k := byUuid[ps[i].uuid];
              && k < |topics|
              && Holds(topics[k := topics[k].(partitions := topics[k].partitions + [ps[i].id])], ts, ps[..i + 1], byUuid)
  {
    hide IndexesLast, Ids;
    forall uuid { IdsPush(ps, i, uuid); }
    if ps[i].uuid in byUuid {
      IndexedAt(byUuid, ts, ps[i].uuid);
    }
  }

  lemma IdsPush(ps: seq<RawPartition>, i: nat, uuid: Uuid)
    requires i < |ps|
    ensures Ids(ps[..i + 1], uuid) == Ids(ps[..i], uuid) + if ps[i].uuid == uuid then [ps[i].id] else []
  {
    assert ps[..i + 1][..i] == ps[..i];
  }

  lemma IndexedAt(byUuid: map<Uuid, nat>, ts: seq<RawTopic>, uuid: Uuid)
    requires IndexesLast(byUuid, Uuids(ts)) && uuid in byUuid
    ensures byUuid[uuid] < |ts| && ts[byUuid[uuid]].uuid == uuid
  {
  }

  /** `parse_cluster_metadata`: it ends on every input, and its indexes say exactly what the log says. */
  method ParseClusterMetadata(data: bytes) returns (meta: ClusterMetadata)
    ensures Exact(meta, Entries(data))
  {
    hide IndexesLast, Entries, TopicsOf, PartitionsOf;
    var ts, ps := ReadLog(data);
    var empty, byName, byUuid := IndexTopics(ts);
    var topics := AddPartitions(empty, byUuid, ps, ts);
    meta := ClusterMetadata(topics, byName, byUuid);
  }
}
