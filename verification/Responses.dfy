/** The response layouts of `serialize` (src/protocol/serializer.cpp), and a decoder for them built from the
    reader operations. */
module Responses {
  import opened Bytes
  import opened Wire
  import opened Protocol

  // ================ layouts ================

  function PutInt32s(xs: seq<int32>, rest: bytes): bytes { PutArray(PutInt32, xs, rest) }
  function PutBool(b: bool, rest: bytes): bytes { PutInt8(if b then 1 else 0, rest) }
  function PutUuid(u: Uuid, rest: bytes): bytes { PutBytes(u, rest) }

  function PutApiVersion(e: ApiVersionEntry, rest: bytes): bytes
  {
    PutInt16(e.apiKey, PutInt16(e.minVersion, PutInt16(e.maxVersion, PutTag(rest))))
  }

  function PutDescribedPartition(p: PartitionMetadata, rest: bytes): bytes
  {
    PutInt16(p.errorCode, PutInt32(p.partitionIndex, PutInt32(p.leaderId, PutInt32(p.leaderEpoch,
      PutInt32s(p.replicaNodes, PutInt32s(p.isrNodes, PutInt32s(p.eligibleLeaderReplicas, PutInt32s(p.lastKnownElr,
        PutInt32s(p.offlineReplicas, PutTag(rest))))))))))
  }

  function PutDescribedTopic(t: TopicMetadata, rest: bytes): bytes
  {
    PutInt16(t.errorCode, PutCompactString(t.topicName, PutUuid(t.topicId, PutBool(t.isInternal,
      PutArray(PutDescribedPartition, t.partitions, PutInt32(t.authorizedOperations, PutTag(rest)))))))
  }

  function PutFetchPartition(p: FetchPartitionResponse, rest: bytes): bytes
  {
    PutInt32(p.partitionIndex, PutInt16(p.errorCode, PutInt64(0, PutInt64(0, PutInt64(0, PutVarint(1, PutInt32(0,
      PutCompactString(p.records, PutTag(rest)))))))))
  }

  function PutFetchTopic(t: FetchTopicResponse, rest: bytes): bytes
  {
    PutUuid(t.topicId, PutArray(PutFetchPartition, t.partitions, PutTag(rest)))
  }

  function PutBroker(b: MetadataBroker, rest: bytes): bytes
  {
    PutInt32(b.nodeId, PutCompactString(b.host, PutInt32(b.port, PutNullableString(b.rack, PutTag(rest)))))
  }

  /** The same fields as in DescribeTopicPartitions, with the offline replicas third. */
  function PutMetadataPartition(p: PartitionMetadata, rest: bytes): bytes
  {
    PutInt16(p.errorCode, PutInt32(p.partitionIndex, PutInt32(p.leaderId, PutInt32(p.leaderEpoch,
      PutInt32s(p.replicaNodes, PutInt32s(p.isrNodes, PutInt32s(p.offlineReplicas, PutInt32s(p.eligibleLeaderReplicas,
        PutInt32s(p.lastKnownElr, PutTag(rest))))))))))
  }

  function PutMetadataTopic(t: TopicMetadata, rest: bytes): bytes
  {
    PutInt16(t.errorCode, PutNullableString(t.topicName, PutUuid(t.topicId, PutBool(t.isInternal,
      PutArray(PutMetadataPartition, t.partitions, PutInt32(t.authorizedOperations, PutTag(rest)))))))
  }

  function PutCommitPartition(p: OffsetCommitPartitionResponse, rest: bytes): bytes
  {
    PutInt32(p.partitionIndex, PutInt16(p.errorCode, PutInt32(p.committedLeaderEpoch,
      PutNullableString(p.committedMetadata, PutTag(rest)))))
  }

  function PutCommitTopic(t: OffsetCommitTopicResponse, rest: bytes): bytes
  {
    PutCompactString(t.topicName, PutArray(PutCommitPartition, t.partitions, PutTag(rest)))
  }

  function PutOffsetPartition(p: OffsetFetchPartitionResponse, rest: bytes): bytes
  {
    PutInt32(p.partitionIndex, PutInt64(p.committedOffset, PutInt32(p.committedLeaderEpoch,
      PutNullableString(p.committedMetadata, PutInt16(p.errorCode, PutTag(rest))))))
  }

  function PutOffsetTopic(t: OffsetFetchTopicResponse, rest: bytes): bytes
  {
    PutCompactString(t.topicName, PutArray(PutOffsetPartition, t.partitions, PutTag(rest)))
  }

  function PutListPartition(p: ListOffsetsPartitionResponse, rest: bytes): bytes
  {
    PutInt32(p.partitionIndex, PutInt16(p.errorCode, PutInt64(p.offset, PutInt64(p.timestamp, PutTag(rest)))))
  }

  function PutListTopic(t: ListOffsetsTopicResponse, rest: bytes): bytes
  {
    PutCompactString(t.topicName, PutArray(PutListPartition, t.partitions, PutTag(rest)))
  }

  function PutMember(m: JoinGroupMember, rest: bytes): bytes
  {
    PutCompactString(m.memberId, PutCompactString(m.metadata, PutTag(rest)))
  }

  function PutProducePartition(p: ProducePartitionResponse, rest: bytes): bytes
  {
    PutInt32(p.partitionIndex, PutInt16(p.errorCode, PutInt64(p.baseOffset, PutInt64(p.logAppendTimeMs,
      PutInt64(p.logStartOffset, PutInt8(1, PutInt8(0, PutTag(rest))))))))
  }

  function PutProduceTopic(t: ProduceTopicResponse, rest: bytes): bytes
  {
    PutCompactString(t.topicName, PutArray(PutProducePartition, t.partitions, PutTag(rest)))
  }

  /** Response header version 1: the correlation id and a tag byte. */
  function PutHeader(correlationId: int32, rest: bytes): bytes { PutInt32(correlationId, PutTag(rest)) }

  function PutBody(r: Response, rest: bytes): bytes
  {
    match r
    case ApiVersionsResponse(id, error, keys, throttle) =>
      PutInt32(id, PutInt16(error, PutArray(PutApiVersion, keys, PutInt32(throttle, PutTag(rest)))))
    case DescribeTopicPartitionsResponse(id, throttle, topics) =>
      PutHeader(id, PutInt32(throttle, PutArray(PutDescribedTopic, topics, PutInt8(0xFF, PutTag(rest)))))
    case FetchResponse(id, throttle, error, session, topics) =>
      PutHeader(id, PutInt32(throttle, PutInt16(error, PutInt32(session, PutArray(PutFetchTopic, topics, PutTag(rest))))))
    case FindCoordinatorResponse(id, throttle, error, message, node, host, port) =>
      PutHeader(id, PutInt32(throttle, PutInt16(error, PutNullableString(message, PutInt32(node,
        PutCompactString(host, PutInt32(port, PutTag(rest))))))))
    case HeartbeatResponse(id, throttle, error) => PutHeader(id, PutInt32(throttle, PutInt16(error, PutTag(rest))))
    case JoinGroupResponse(id, throttle, error, generation, protocol, leader, member, members) =>
      PutHeader(id, PutInt32(throttle, PutInt16(error, PutInt32(generation, PutNullableString(protocol,
        PutCompactString(leader, PutCompactString(member, PutArray(PutMember, members, PutTag(rest)))))))))
    case LeaveGroupResponse(id, throttle, error) => PutHeader(id, PutInt32(throttle, PutInt16(error, PutTag(rest))))
    case ListOffsetsResponse(id, throttle, topics) =>
      PutHeader(id, PutInt32(throttle, PutArray(PutListTopic, topics, PutTag(rest))))
    case MetadataResponse(id, throttle, brokers, cluster, controller, topics, operations) =>
      PutHeader(id, PutInt32(throttle, PutArray(PutBroker, brokers, PutNullableString(cluster, PutInt32(controller,
        PutArray(PutMetadataTopic, topics, PutInt32(operations, PutTag(rest))))))))
    case OffsetCommitResponse(id, throttle, topics) =>
      PutHeader(id, PutInt32(throttle, PutArray(PutCommitTopic, topics, PutTag(rest))))
    case OffsetFetchResponse(id, throttle, topics) =>
      PutHeader(id, PutInt32(throttle, PutArray(PutOffsetTopic, topics, PutTag(rest))))
    case ProduceResponse(id, throttle, topics) =>
      PutHeader(id, PutArray(PutProduceTopic, topics, PutInt32(throttle, PutTag(rest))))
    case SyncGroupResponse(id, throttle, error, protocolType, protocolName, assignment) =>
      PutHeader(id, PutInt32(throttle, PutInt16(error, PutNullableString(protocolType, PutNullableString(protocolName,
        PutCompactString(assignment, PutTag(rest)))))))
  }

  /** The frame a client receives: the body behind its length, which is cut to 32 bits. */
  function Frame(r: Response): bytes
  {
    var body := PutBody(r, []);
    PutInt32(ToInt32(|body|), body)
  }

  // ================ decoder ================

  /** A byte that has to be `b`. */
  function ReadByte(b: byte, s: bytes): Parsed<()>
  {
    var (x, s) :- ReadInt8(s);
    if x == b then Some(((), s)) else None
  }

  function ReadTag(s: bytes): Parsed<()> { ReadByte(0, s) }

  function ReadInt32s(s: bytes): Parsed<seq<int32>> { ReadArray(ReadInt32, s) }

  function ReadBool(s: bytes): Parsed<bool>
  {
    var (b, s) :- ReadInt8(s);
    if b > 1 then None else Some((b == 1, s))
  }

  function ReadUuid(s: bytes): Parsed<Uuid>
  {
    var (u, s) :- ReadBytes(16, s);
    Some((u, s))
  }

  function ReadApiVersion(s: bytes): Parsed<ApiVersionEntry>
  {
    var (key, s) :- ReadInt16(s);
    var (least, s) :- ReadInt16(s);
    var (most, s) :- ReadInt16(s);
    var (_, s) :- ReadTag(s);
    Some((ApiVersionEntry(key, least, most), s))
  }

  function ReadDescribedPartition(s: bytes): Parsed<PartitionMetadata>
  {
    var (error, s) :- ReadInt16(s);
    var (index, s) :- ReadInt32(s);
    var (leader, s) :- ReadInt32(s);
    var (epoch, s) :- ReadInt32(s);
    var (replicas, s) :- ReadInt32s(s);
    var (isr, s) :- ReadInt32s(s);
    var (eligible, s) :- ReadInt32s(s);
    var (lastKnown, s) :- ReadInt32s(s);
    var (offline, s) :- ReadInt32s(s);
    var (_, s) :- ReadTag(s);
    Some((PartitionMetadata(error, index, leader, epoch, replicas, isr, eligible, lastKnown, offline), s))
  }

  function ReadDescribedTopic(s: bytes): Parsed<TopicMetadata>
  {
    var (error, s) :- ReadInt16(s);
    var (name, s) :- ReadCompactString(s);
    var (id, s) :- ReadUuid(s);
    var (isInternal, s) :- ReadBool(s);
    var (parts, s) :- ReadArray(ReadDescribedPartition, s);
    var (operations, s) :- ReadInt32(s);
    var (_, s) :- ReadTag(s);
    Some((TopicMetadata(error, name, id, isInternal, operations, parts), s))
  }

  /** Three offsets of zero, no aborted transactions, no preferred replica. */
  function ReadFetchConstants(s: bytes): Parsed<()>
  {
    var (a, s) :- ReadInt64(s);
    var (b, s) :- ReadInt64(s);
    var (c, s) :- ReadInt64(s);
    var (aborted, s) :- ReadVarint(s);
    var (replica, s) :- ReadInt32(s);
    if a == 0 && b == 0 && c == 0 && aborted == 1 && replica == 0 then Some(((), s)) else None
  }

  function ReadFetchPartition(s: bytes): Parsed<FetchPartitionResponse>
  {
    var (index, s) :- ReadInt32(s);
    var (error, s) :- ReadInt16(s);
    var (_, s) :- ReadFetchConstants(s);
    var (records, s) :- ReadCompactString(s);
    var (_, s) :- ReadTag(s);
    Some((FetchPartitionResponse(index, error, records, None), s))
  }

  function ReadFetchTopic(s: bytes): Parsed<FetchTopicResponse>
  {
    var (id, s) :- ReadUuid(s);
    var (parts, s) :- ReadArray(ReadFetchPartition, s);
    var (_, s) :- ReadTag(s);
    Some((FetchTopicResponse(id, parts), s))
  }

  function ReadBroker(s: bytes): Parsed<MetadataBroker>
  {
    var (node, s) :- ReadInt32(s);
    var (host, s) :- ReadCompactString(s);
    var (port, s) :- ReadInt32(s);
    var (rack, s) :- ReadNullableString(s);
    var (_, s) :- ReadTag(s);
    Some((MetadataBroker(node, host, port, rack), s))
  }

  function ReadMetadataPartition(s: bytes): Parsed<PartitionMetadata>
  {
    var (error, s) :- ReadInt16(s);
    var (index, s) :- ReadInt32(s);
    var (leader, s) :- ReadInt32(s);
    var (epoch, s) :- ReadInt32(s);
    var (replicas, s) :- ReadInt32s(s);
    var (isr, s) :- ReadInt32s(s);
    var (offline, s) :- ReadInt32s(s);
    var (eligible, s) :- ReadInt32s(s);
    var (lastKnown, s) :- ReadInt32s(s);
    var (_, s) :- ReadTag(s);
    Some((PartitionMetadata(error, index, leader, epoch, replicas, isr, eligible, lastKnown, offline), s))
  }

  function ReadMetadataTopic(s: bytes): Parsed<TopicMetadata>
  {
    var (error, s) :- ReadInt16(s);
    var (name, s) :- ReadNullableString(s);
    var (id, s) :- ReadUuid(s);
    var (isInternal, s) :- ReadBool(s);
    var (parts, s) :- ReadArray(ReadMetadataPartition, s);
    var (operations, s) :- ReadInt32(s);
    var (_, s) :- ReadTag(s);
    Some((TopicMetadata(error, name, id, isInternal, operations, parts), s))
  }

  function ReadCommitPartition(s: bytes): Parsed<OffsetCommitPartitionResponse>
  {
    var (index, s) :- ReadInt32(s);
    var (error, s) :- ReadInt16(s);
    var (epoch, s) :- ReadInt32(s);
    var (metadata, s) :- ReadNullableString(s);
    var (_, s) :- ReadTag(s);
    Some((OffsetCommitPartitionResponse(index, error, epoch, metadata), s))
  }

  function ReadCommitTopic(s: bytes): Parsed<OffsetCommitTopicResponse>
  {
    var (name, s) :- ReadCompactString(s);
    var (parts, s) :- ReadArray(ReadCommitPartition, s);
    var (_, s) :- ReadTag(s);
    Some((OffsetCommitTopicResponse(name, parts), s))
  }

  function ReadOffsetPartition(s: bytes): Parsed<OffsetFetchPartitionResponse>
  {
    var (index, s) :- ReadInt32(s);
    var (offset, s) :- ReadInt64(s);
    var (epoch, s) :- ReadInt32(s);
    var (metadata, s) :- ReadNullableString(s);
    var (error, s) :- ReadInt16(s);
    var (_, s) :- ReadTag(s);
    Some((OffsetFetchPartitionResponse(index, offset, epoch, metadata, error), s))
  }

  function ReadOffsetTopic(s: bytes): Parsed<OffsetFetchTopicResponse>
  {
    var (name, s) :- ReadCompactString(s);
    var (parts, s) :- ReadArray(ReadOffsetPartition, s);
    var (_, s) :- ReadTag(s);
    Some((OffsetFetchTopicResponse(name, parts), s))
  }

  function ReadListPartition(s: bytes): Parsed<ListOffsetsPartitionResponse>
  {
    var (index, s) :- ReadInt32(s);
    var (error, s) :- ReadInt16(s);
    var (offset, s) :- ReadInt64(s);
    var (timestamp, s) :- ReadInt64(s);
    var (_, s) :- ReadTag(s);
    Some((ListOffsetsPartitionResponse(index, error, offset, timestamp), s))
  }

  function ReadListTopic(s: bytes): Parsed<ListOffsetsTopicResponse>
  {
    var (name, s) :- ReadCompactString(s);
    var (parts, s) :- ReadArray(ReadListPartition, s);
    var (_, s) :- ReadTag(s);
    Some((ListOffsetsTopicResponse(name, parts), s))
  }

  function ReadMember(s: bytes): Parsed<JoinGroupMember>
  {
    var (member, s) :- ReadCompactString(s);
    var (metadata, s) :- ReadCompactString(s);
    var (_, s) :- ReadTag(s);
    Some((JoinGroupMember(member, metadata), s))
  }

  function ReadProducePartition(s: bytes): Parsed<ProducePartitionResponse>
  {
    var (index, s) :- ReadInt32(s);
    var (error, s) :- ReadInt16(s);
    var (base, s) :- ReadInt64(s);
    var (appended, s) :- ReadInt64(s);
    var (start, s) :- ReadInt64(s);
    var (_, s) :- ReadByte(1, s);
    var (_, s) :- ReadByte(0, s);
    var (_, s) :- ReadTag(s);
    Some((ProducePartitionResponse(index, error, base, appended, start), s))
  }

  function ReadProduceTopic(s: bytes): Parsed<ProduceTopicResponse>
  {
    var (name, s) :- ReadCompactString(s);
    var (parts, s) :- ReadArray(ReadProducePartition, s);
    var (_, s) :- ReadTag(s);
    Some((ProduceTopicResponse(name, parts), s))
  }

  /** Which response a client is waiting for; the frame does not say. */
  datatype Kind =
    | ApiVersions | DescribeTopicPartitions | Fetch | FindCoordinator | Heartbeat | JoinGroup | LeaveGroup | ListOffsets
    | Metadata | OffsetCommit | OffsetFetch | Produce | SyncGroup

  function KindOf(r: Response): Kind
  {
    match r
    case ApiVersionsResponse(_, _, _, _) => ApiVersions
    case DescribeTopicPartitionsResponse(_, _, _) => DescribeTopicPartitions
    case FetchResponse(_, _, _, _, _) => Fetch
    case FindCoordinatorResponse(_, _, _, _, _, _, _) => FindCoordinator
    case HeartbeatResponse(_, _, _) => Heartbeat
    case JoinGroupResponse(_, _, _, _, _, _, _, _) => JoinGroup
    case LeaveGroupResponse(_, _, _) => LeaveGroup
    case ListOffsetsResponse(_, _, _) => ListOffsets
    case MetadataResponse(_, _, _, _, _, _, _) => Metadata
    case OffsetCommitResponse(_, _, _) => OffsetCommit
    case OffsetFetchResponse(_, _, _) => OffsetFetch
    case ProduceResponse(_, _, _) => Produce
    case SyncGroupResponse(_, _, _, _, _, _) => SyncGroup
  }

  function ReadApiVersions(id: int32, s: bytes): Parsed<Response>
  {
    var (error, s) :- ReadInt16(s);
    var (keys, s) :- ReadArray(ReadApiVersion, s);
    var (throttle, s) :- ReadInt32(s);
    var (_, s) :- ReadTag(s);
    Some((ApiVersionsResponse(id, error, keys, throttle), s))
  }

  function ReadDescribeTopicPartitions(id: int32, throttle: int32, s: bytes): Parsed<Response>
  {
    var (topics, s) :- ReadArray(ReadDescribedTopic, s);
    var (_, s) :- ReadByte(0xFF, s);
    var (_, s) :- ReadTag(s);
    Some((DescribeTopicPartitionsResponse(id, throttle, topics), s))
  }

  function ReadFetch(id: int32, throttle: int32, s: bytes): Parsed<Response>
  {
    var (error, s) :- ReadInt16(s);
    var (session, s) :- ReadInt32(s);
    var (topics, s) :- ReadArray(ReadFetchTopic, s);
    var (_, s) :- ReadTag(s);
    Some((FetchResponse(id, throttle, error, session, topics), s))
  }

  function ReadFindCoordinator(id: int32, throttle: int32, s: bytes): Parsed<Response>
  {
    var (error, s) :- ReadInt16(s);
    var (message, s) :- ReadNullableString(s);
    var (node, s) :- ReadInt32(s);
    var (host, s) :- ReadCompactString(s);
    var (port, s) :- ReadInt32(s);
    var (_, s) :- ReadTag(s);
    Some((FindCoordinatorResponse(id, throttle, error, message, node, host, port), s))
  }

  function ReadHeartbeat(id: int32, throttle: int32, s: bytes): Parsed<Response>
  {
    var (error, s) :- ReadInt16(s);
    var (_, s) :- ReadTag(s);
    Some((HeartbeatResponse(id, throttle, error), s))
  }

  function ReadJoinGroup(id: int32, throttle: int32, s: bytes): Parsed<Response>
  {
    var (error, s) :- ReadInt16(s);
    var (generation, s) :- ReadInt32(s);
    var (protocol, s) :- ReadNullableString(s);
    var (leader, s) :- ReadCompactString(s);
    var (member, s) :- ReadCompactString(s);
    var (members, s) :- ReadArray(ReadMember, s);
    var (_, s) :- ReadTag(s);
    Some((JoinGroupResponse(id, throttle, error, generation, protocol, leader, member, members), s))
  }

  function ReadLeaveGroup(id: int32, throttle: int32, s: bytes): Parsed<Response>
  {
    var (error, s) :- ReadInt16(s);
    var (_, s) :- ReadTag(s);
    Some((LeaveGroupResponse(id, throttle, error), s))
  }

  function ReadListOffsets(id: int32, throttle: int32, s: bytes): Parsed<Response>
  {
    var (topics, s) :- ReadArray(ReadListTopic, s);
    var (_, s) :- ReadTag(s);
    Some((ListOffsetsResponse(id, throttle, topics), s))
  }

  function ReadMetadata(id: int32, throttle: int32, s: bytes): Parsed<Response>
  {
    var (brokers, s) :- ReadArray(ReadBroker, s);
    var (cluster, s) :- ReadNullableString(s);
    var (controller, s) :- ReadInt32(s);
    var (topics, s) :- ReadArray(ReadMetadataTopic, s);
    var (operations, s) :- ReadInt32(s);
    var (_, s) :- ReadTag(s);
    Some((MetadataResponse(id, throttle, brokers, cluster, controller, topics, operations), s))
  }

  function ReadOffsetCommit(id: int32, throttle: int32, s: bytes): Parsed<Response>
  {
    var (topics, s) :- ReadArray(ReadCommitTopic, s);
    var (_, s) :- ReadTag(s);
    Some((OffsetCommitResponse(id, throttle, topics), s))
  }

  function ReadOffsetFetch(id: int32, throttle: int32, s: bytes): Parsed<Response>
  {
    var (topics, s) :- ReadArray(ReadOffsetTopic, s);
    var (_, s) :- ReadTag(s);
    Some((OffsetFetchResponse(id, throttle, topics), s))
  }

  function ReadProduce(id: int32, s: bytes): Parsed<Response>
  {
    var (topics, s) :- ReadArray(ReadProduceTopic, s);
    var (throttle, s) :- ReadInt32(s);
    var (_, s) :- ReadTag(s);
    Some((ProduceResponse(id, throttle, topics), s))
  }

  function ReadSyncGroup(id: int32, throttle: int32, s: bytes): Parsed<Response>
  {
    var (error, s) :- ReadInt16(s);
    var (protocolType, s) :- ReadNullableString(s);
    var (protocolName, s) :- ReadNullableString(s);
    var (assignment, s) :- ReadCompactString(s);
    var (_, s) :- ReadTag(s);
    Some((SyncGroupResponse(id, throttle, error, protocolType, protocolName, assignment), s))
  }

  /** The kinds whose body starts with the throttle time. */
  function ReadThrottled(k: Kind, id: int32, s: bytes): Parsed<Response>
    requires k != ApiVersions && k != Produce
  {
    var (throttle, s) :- ReadInt32(s);
    match k
    case DescribeTopicPartitions => ReadDescribeTopicPartitions(id, throttle, s)
    case Fetch => ReadFetch(id, throttle, s)
    case FindCoordinator => ReadFindCoordinator(id, throttle, s)
    case Heartbeat => ReadHeartbeat(id, throttle, s)
    case JoinGroup => ReadJoinGroup(id, throttle, s)
    case LeaveGroup => ReadLeaveGroup(id, throttle, s)
    case ListOffsets => ReadListOffsets(id, throttle, s)
    case Metadata => ReadMetadata(id, throttle, s)
    case OffsetCommit => ReadOffsetCommit(id, throttle, s)
    case OffsetFetch => ReadOffsetFetch(id, throttle, s)
    case SyncGroup => ReadSyncGroup(id, throttle, s)
  }

  function ReadResponse(k: Kind, s: bytes): Parsed<Response>
  {
    var (id, s) :- ReadInt32(s);
    if k == ApiVersions then ReadApiVersions(id, s)
    else
      var (_, s) :- ReadTag(s);
      if k == Produce then ReadProduce(id, s) else ReadThrottled(k, id, s)
  }

  /** Reads a whole body: nothing may be left over. */
  function DecodeBody(k: Kind, body: bytes): Option<Response>
  {
    var (r, rest) :- ReadResponse(k, body);
    if rest == [] then Some(r) else None
  }

  function Decode(k: Kind, frame: bytes): Option<Response>
  {
    var (_, body) :- ReadInt32(frame);
    DecodeBody(k, body)
  }

  // ================ what a frame carries ================

  function SentPartition(p: FetchPartitionResponse): FetchPartitionResponse { p.(splice := None) }

  function SentTopic(t: FetchTopicResponse): FetchTopicResponse
  {
    t.(partitions := seq(|t.partitions|, i requires 0 <= i < |t.partitions| => SentPartition(t.partitions[i])))
  }

  /** The response without the splice fields, which are not sent. */
  function Sent(r: Response): Response
  {
    if r.FetchResponse? then
      r.(fetchResponses := seq(|r.fetchResponses|, i requires 0 <= i < |r.fetchResponses| => SentTopic(r.fetchResponses[i])))
    else r
  }

  ghost predicate ShortPartition(p: PartitionMetadata)
  {
    Short(p.replicaNodes) && Short(p.isrNodes) && Short(p.eligibleLeaderReplicas) && Short(p.lastKnownElr) && Short(p.offlineReplicas)
  }

  ghost predicate ShortTopic(t: TopicMetadata)
  {
    Short(t.topicName) && Short(t.partitions) && forall p :: p in t.partitions ==> ShortPartition(p)
  }

  /** Every length plus one is below 2^28. */
  ghost predicate Decodable(r: Response)
  {
    match r
    case ApiVersionsResponse(_, _, keys, _) => Short(keys)
    case DescribeTopicPartitionsResponse(_, _, ts) => Short(ts) && forall t :: t in ts ==> ShortTopic(t)
    case FetchResponse(_, _, _, _, ts) =>
      Short(ts) && forall t :: t in ts ==> Short(t.partitions) && forall p :: p in t.partitions ==> Short(p.records)
    case FindCoordinatorResponse(_, _, _, message, _, host, _) => Short(message) && Short(host)
    case HeartbeatResponse(_, _, _) => true
    case JoinGroupResponse(_, _, _, _, protocol, leader, member, ms) =>
      Short(protocol) && Short(leader) && Short(member) && Short(ms) && forall m :: m in ms ==> Short(m.memberId) && Short(m.metadata)
    case LeaveGroupResponse(_, _, _) => true
    case ListOffsetsResponse(_, _, ts) => Short(ts) && forall t :: t in ts ==> Short(t.topicName) && Short(t.partitions)
    case MetadataResponse(_, _, bs, cluster, _, ts, _) =>
      && Short(bs) && (forall b :: b in bs ==> Short(b.host) && Short(b.rack))
      && Short(cluster) && Short(ts) && forall t :: t in ts ==> ShortTopic(t)
    case OffsetCommitResponse(_, _, ts) =>
      Short(ts) && forall t :: t in ts ==> Short(t.topicName) && Short(t.partitions) && forall p :: p in t.partitions ==> Short(p.committedMetadata)
    case OffsetFetchResponse(_, _, ts) =>
      Short(ts) && forall t :: t in ts ==> Short(t.topicName) && Short(t.partitions) && forall p :: p in t.partitions ==> Short(p.committedMetadata)
    case ProduceResponse(_, _, ts) => Short(ts) && forall t :: t in ts ==> Short(t.topicName) && Short(t.partitions)
    case SyncGroupResponse(_, _, _, protocolType, protocolName, assignment) => Short(protocolType) && Short(protocolName) && Short(assignment)
  }
}
