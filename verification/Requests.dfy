/** The request grammar: what `parse_request` (src/protocol/parser.cpp) accepts and the canonical encoding
    it inverts, for nine request kinds. */
module Requests {
  import opened Bytes
  import opened Wire
  import opened Protocol

  // ================ reading ================

  function ReadHeader(s: bytes): Parsed<RequestHeader>
  {
    var (key, s) :- ReadInt16(s);
    var (version, s) :- ReadInt16(s);
    var (correlation, s) :- ReadInt32(s);
    Some((RequestHeader(key, version, correlation), s))
  }

  /** The client id is skipped, and so is the header's tag byte. */
  function ReadClientId(s: bytes): Parsed<()>
  {
    var (len, s) :- ReadInt16(s);
    var (_, s) :- Skip(if len > 0 then len else 0, s);
    Skip(1, s)
  }

  function ReadProducePartition(s: bytes): Parsed<ProducePartitionRequest>
  {
    var (index, s) :- ReadInt32(s);
    var (records, s) :- ReadCompactBytes(s);
    var (_, s) :- Skip(1, s);
    Some((ProducePartitionRequest(index, records), s))
  }

  function ReadProduceTopic(s: bytes): Parsed<ProduceTopicRequest>
  {
    var (name, s) :- ReadCompactString(s);
    var (parts, s) :- ReadArray(ReadProducePartition, s);
    var (_, s) :- Skip(1, s);
    Some((ProduceTopicRequest(name, parts), s))
  }

  /** The transactional id, acks and timeout are read and dropped. */
  function ReadProduce(h: RequestHeader, s: bytes): Parsed<Request>
  {
    var (_, s) :- ReadCompactBytes(s);
    var (_, s) :- ReadInt16(s);
    var (_, s) :- ReadInt32(s);
    var (topics, s) :- ReadArray(ReadProduceTopic, s);
    var (_, s) :- Skip(1, s);
    Some((ProduceRequest(h, topics), s))
  }

  function ReadListPartition(s: bytes): Parsed<ListOffsetsPartitionRequest>
  {
    var (index, s) :- ReadInt32(s);
    var (timestamp, s) :- ReadInt64(s);
    var (_, s) :- Skip(1, s);
    Some((ListOffsetsPartitionRequest(index, timestamp), s))
  }

  function ReadListTopic(s: bytes): Parsed<ListOffsetsTopicRequest>
  {
    var (name, s) :- ReadCompactString(s);
    var (parts, s) :- ReadArray(ReadListPartition, s);
    var (_, s) :- Skip(1, s);
    Some((ListOffsetsTopicRequest(name, parts), s))
  }

  /** `static_cast<int8_t>` of a byte. */
  function ToInt8(b: byte): int8 { if b < 128 then b else b - 256 }

  function ReadListOffsets(h: RequestHeader, s: bytes): Parsed<Request>
  {
    var (replica, s) :- ReadInt32(s);
    var (isolation, s) :- ReadInt8(s);
    var (topics, s) :- ReadArray(ReadListTopic, s);
    var (_, s) :- Skip(1, s);
    Some((ListOffsetsRequest(h, replica, ToInt8(isolation), topics), s))
  }

  function ReadCommitPartition(s: bytes): Parsed<OffsetCommitPartitionRequest>
  {
    var (index, s) :- ReadInt32(s);
    var (offset, s) :- ReadInt64(s);
    var (_, s) :- Skip(1, s);
    Some((OffsetCommitPartitionRequest(index, offset), s))
  }

  function ReadCommitTopic(s: bytes): Parsed<OffsetCommitTopicRequest>
  {
    var (name, s) :- ReadCompactString(s);
    var (parts, s) :- ReadArray(ReadCommitPartition, s);
    var (_, s) :- Skip(1, s);
    Some((OffsetCommitTopicRequest(name, parts), s))
  }

  function ReadOffsetCommit(h: RequestHeader, s: bytes): Parsed<Request>
  {
    var (group, s) :- ReadCompactString(s);
    var (member, s) :- ReadCompactString(s);
    var (generation, s) :- ReadInt32(s);
    var (topics, s) :- ReadArray(ReadCommitTopic, s);
    var (_, s) :- Skip(1, s);
    Some((OffsetCommitRequest(h, group, member, generation, topics), s))
  }

  function ReadOffsetTopic(s: bytes): Parsed<OffsetFetchTopicRequest>
  {
    var (name, s) :- ReadCompactString(s);
    var (indexes, s) :- ReadArray(ReadInt32, s);
    var (_, s) :- Skip(1, s);
    Some((OffsetFetchTopicRequest(name, indexes), s))
  }

  function ReadOffsetFetch(h: RequestHeader, s: bytes): Parsed<Request>
  {
    var (group, s) :- ReadCompactString(s);
    var (topics, s) :- ReadArray(ReadOffsetTopic, s);
    var (_, s) :- Skip(1, s);
    Some((OffsetFetchRequest(h, group, topics), s))
  }

  function ReadFindCoordinator(h: RequestHeader, s: bytes): Parsed<Request>
  {
    var (key, s) :- ReadCompactString(s);
    var (keyType, s) :- ReadInt8(s);
    var (_, s) :- Skip(1, s);
    Some((FindCoordinatorRequest(h, key, ToInt8(keyType)), s))
  }

  function ReadProtocol(s: bytes): Parsed<JoinGroupProtocol>
  {
    var (name, s) :- ReadCompactString(s);
    var (metadata, s) :- ReadCompactBytes(s);
    var (_, s) :- Skip(1, s);
    Some((JoinGroupProtocol(name, metadata), s))
  }

  function ReadJoinGroup(h: RequestHeader, s: bytes): Parsed<Request>
  {
    var (group, s) :- ReadCompactString(s);
    var (timeout, s) :- ReadInt32(s);
    var (member, s) :- ReadCompactString(s);
    var (protocolType, s) :- ReadCompactString(s);
    var (protocols, s) :- ReadArray(ReadProtocol, s);
    var (_, s) :- Skip(1, s);
    Some((JoinGroupRequest(h, group, timeout, member, protocolType, protocols), s))
  }

  function ReadHeartbeat(h: RequestHeader, s: bytes): Parsed<Request>
  {
    var (group, s) :- ReadCompactString(s);
    var (generation, s) :- ReadInt32(s);
    var (member, s) :- ReadCompactString(s);
    var (instance, s) :- ReadCompactString(s);
    var (_, s) :- Skip(1, s);
    Some((HeartbeatRequest(h, group, generation, member, instance), s))
  }

  function ReadLeaveGroup(h: RequestHeader, s: bytes): Parsed<Request>
  {
    var (group, s) :- ReadCompactString(s);
    var (member, s) :- ReadCompactString(s);
    var (_, s) :- Skip(1, s);
    Some((LeaveGroupRequest(h, group, member), s))
  }

  function ReadAssignment(s: bytes): Parsed<SyncGroupAssignment>
  {
    var (member, s) :- ReadCompactString(s);
    var (assignment, s) :- ReadCompactBytes(s);
    var (_, s) :- Skip(1, s);
    Some((SyncGroupAssignment(member, assignment), s))
  }

  function ReadSyncGroup(h: RequestHeader, s: bytes): Parsed<Request>
  {
    var (group, s) :- ReadCompactString(s);
    var (generation, s) :- ReadInt32(s);
    var (member, s) :- ReadCompactString(s);
    var (assignments, s) :- ReadArray(ReadAssignment, s);
    var (_, s) :- Skip(1, s);
    Some((SyncGroupRequest(h, group, generation, member, assignments), s))
  }

  /** The nine API keys whose branches are modelled. */
  predicate Modelled(key: int16) { key == 0 || key == 2 || key == 8 || key == 9 || key == 10 || key == 11 || key == 12 || key == 13 || key == 14 }

  function ReadBody(h: RequestHeader, s: bytes): Parsed<Request>
    requires Modelled(h.apiKey)
  {
    match h.apiKey
    case 0 => ReadProduce(h, s)
    case 2 => ReadListOffsets(h, s)
    case 8 => ReadOffsetCommit(h, s)
    case 9 => ReadOffsetFetch(h, s)
    case 10 => ReadFindCoordinator(h, s)
    case 11 => ReadJoinGroup(h, s)
    case 12 => ReadHeartbeat(h, s)
    case 13 => ReadLeaveGroup(h, s)
    case _ => ReadSyncGroup(h, s)
  }

  /** `Elsewhere` stands for the branches of Fetch, Metadata, ApiVersions and DescribeTopicPartitions. */
  datatype Verdict = Accepted(request: Request) | Refused | Elsewhere(apiKey: int16)

  /** `parse_request`; bytes after the request are ignored. */
  function Parse(buf: bytes): Verdict
  {
    match ReadHeader(buf)
    case None => Refused
    case Some((h, s)) =>
      if h.apiKey == 1 || h.apiKey == 3 || h.apiKey == 18 || h.apiKey == 75 then Elsewhere(h.apiKey)
      else if !Modelled(h.apiKey) then Refused
      else match ReadClientId(s)
        case None => Refused
        case Some((_, s)) => if ReadBody(h, s).None? then Refused else Accepted(ReadBody(h, s).value.0)
  }

  // ================ canonical encoding ================

  /** The fields of the wire form that the parsed request does not keep. */
  datatype Envelope = Envelope(clientId: Option<bytes>, transactionalId: bytes, acks: int16, timeoutMs: int32)

  ghost predicate ValidEnvelope(e: Envelope)
  {
    (e.clientId.Some? ==> |e.clientId.value| < 0x8000) && Short(e.transactionalId)
  }

  function PutClientId(e: Envelope, rest: bytes): bytes
    requires e.clientId.Some? ==> |e.clientId.value| < 0x8000
  {
    match e.clientId
    case None => PutInt16(-1, PutTag(rest))
    case Some(id) => PutInt16(|id|, PutBytes(id, PutTag(rest)))
  }

  function PutProducePartition(p: ProducePartitionRequest, rest: bytes): bytes
  {
    PutInt32(p.partitionIndex, PutCompactString(p.records, PutTag(rest)))
  }

  function PutProduceTopic(t: ProduceTopicRequest, rest: bytes): bytes
  {
    PutCompactString(t.topicName, PutArray(PutProducePartition, t.partitions, PutTag(rest)))
  }

  function PutListPartition(p: ListOffsetsPartitionRequest, rest: bytes): bytes
  {
    PutInt32(p.partitionIndex, PutInt64(p.timestamp, PutTag(rest)))
  }

  function PutListTopic(t: ListOffsetsTopicRequest, rest: bytes): bytes
  {
    PutCompactString(t.topicName, PutArray(PutListPartition, t.partitions, PutTag(rest)))
  }

  function PutCommitPartition(p: OffsetCommitPartitionRequest, rest: bytes): bytes
  {
    PutInt32(p.partitionIndex, PutInt64(p.committedOffset, PutTag(rest)))
  }

  function PutCommitTopic(t: OffsetCommitTopicRequest, rest: bytes): bytes
  {
    PutCompactString(t.topicName, PutArray(PutCommitPartition, t.partitions, PutTag(rest)))
  }

  function PutOffsetTopic(t: OffsetFetchTopicRequest, rest: bytes): bytes
  {
    PutCompactString(t.topicName, PutArray(PutInt32, t.partitionIndexes, PutTag(rest)))
  }

  function PutProtocol(p: JoinGroupProtocol, rest: bytes): bytes
  {
    PutCompactString(p.name, PutCompactString(p.metadata, PutTag(rest)))
  }

  function PutAssignment(a: SyncGroupAssignment, rest: bytes): bytes
  {
    PutCompactString(a.memberId, PutCompactString(a.assignment, PutTag(rest)))
  }

  /** The API key of each modelled kind. */
  function KeyOf(r: Request): int16
  {
    match r
    case ProduceRequest(_, _) => 0
    case FetchRequest(_, _, _) => 1
    case ListOffsetsRequest(_, _, _, _) => 2
    case OffsetCommitRequest(_, _, _, _, _) => 8
    case OffsetFetchRequest(_, _, _) => 9
    case FindCoordinatorRequest(_, _, _) => 10
    case JoinGroupRequest(_, _, _, _, _, _) => 11
    case HeartbeatRequest(_, _, _, _, _) => 12
    case LeaveGroupRequest(_, _, _) => 13
    case SyncGroupRequest(_, _, _, _, _) => 14
  }

  function PutBody(e: Envelope, r: Request, rest: bytes): bytes
    requires !r.FetchRequest?
  {
    match r
    case ProduceRequest(_, topics) =>
      PutNullableString(e.transactionalId, PutInt16(e.acks, PutInt32(e.timeoutMs, PutArray(PutProduceTopic, topics, PutTag(rest)))))
    case ListOffsetsRequest(_, replica, isolation, topics) =>
      PutInt32(replica, PutInt8(isolation, PutArray(PutListTopic, topics, PutTag(rest))))
    case OffsetCommitRequest(_, group, member, generation, topics) =>
      PutCompactString(group, PutCompactString(member, PutInt32(generation, PutArray(PutCommitTopic, topics, PutTag(rest)))))
    case OffsetFetchRequest(_, group, topics) =>
      PutCompactString(group, PutArray(PutOffsetTopic, topics, PutTag(rest)))
    case FindCoordinatorRequest(_, key, keyType) =>
      PutCompactString(key, PutInt8(keyType, PutTag(rest)))
    case JoinGroupRequest(_, group, timeout, member, protocolType, protocols) =>
      PutCompactString(group, PutInt32(timeout, PutCompactString(member, PutCompactString(protocolType,
        PutArray(PutProtocol, protocols, PutTag(rest))))))
    case HeartbeatRequest(_, group, generation, member, instance) =>
      PutCompactString(group, PutInt32(generation, PutCompactString(member, PutCompactString(instance, PutTag(rest)))))
    case LeaveGroupRequest(_, group, member) =>
      PutCompactString(group, PutCompactString(member, PutTag(rest)))
    case SyncGroupRequest(_, group, generation, member, assignments) =>
      PutCompactString(group, PutInt32(generation, PutCompactString(member, PutArray(PutAssignment, assignments, PutTag(rest)))))
  }

  function PutHeader(h: RequestHeader, rest: bytes): bytes
  {
    PutInt16(h.apiKey, PutInt16(h.apiVersion, PutInt32(h.correlationId, rest)))
  }

  ghost function Encode(e: Envelope, r: Request): bytes
    requires ValidEnvelope(e) && !r.FetchRequest?
  {
    PutHeader(r.header, PutClientId(e, PutBody(e, r, [])))
  }

  /** Every length fits the readable varints, and the header carries the key of its kind. */
  ghost predicate Encodable(r: Request)
  {
    && r.header.apiKey == KeyOf(r)
    && match r
       case ProduceRequest(_, ts) =>
         Short(ts) && forall t :: t in ts ==> Short(t.topicName) && Short(t.partitions) && forall p :: p in t.partitions ==> Short(p.records)
       case ListOffsetsRequest(_, _, _, ts) => Short(ts) && forall t :: t in ts ==> Short(t.topicName) && Short(t.partitions)
       case OffsetCommitRequest(_, group, member, _, ts) =>
         Short(group) && Short(member) && Short(ts) && forall t :: t in ts ==> Short(t.topicName) && Short(t.partitions)
       case OffsetFetchRequest(_, group, ts) =>
         Short(group) && Short(ts) && forall t :: t in ts ==> Short(t.topicName) && Short(t.partitionIndexes)
       case FindCoordinatorRequest(_, key, _) => Short(key)
       case JoinGroupRequest(_, group, _, member, protocolType, ps) =>
         Short(group) && Short(member) && Short(protocolType) && Short(ps) && forall p :: p in ps ==> Short(p.name) && Short(p.metadata)
       case HeartbeatRequest(_, group, _, member, instance) => Short(group) && Short(member) && Short(instance)
       case LeaveGroupRequest(_, group, member) => Short(group) && Short(member)
       case SyncGroupRequest(_, group, _, member, xs) =>
         Short(group) && Short(member) && Short(xs) && forall x :: x in xs ==> Short(x.memberId) && Short(x.assignment)
       case FetchRequest(_, _, _) => false
  }
}
