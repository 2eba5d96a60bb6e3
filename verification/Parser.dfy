/** `parse_request` as the source runs it: one reader moved step by step and one counted loop per compact array.
    Every method is proved to do what the grammar of `Requests` says. */
module Parser {
  import opened Bytes
  import opened Wire
  import opened Cursor
  import opened Protocol
  import opened Requests

  /** A compact byte field: a length of 0 or 1 is empty. */
  method ParseCompactBytes(r: ByteReader) returns (res: Option<bytes>)
    requires r.Valid()
    modifies r
    ensures r.Valid() && Yields(res, ReadCompactBytes(old(r.Rest())), r.Rest())
  {
    hide ReadVarint, ReadBytes;
    var len :- r.ReadVarint();
    if len > 1 {
      var data :- r.ReadBytes(len - 1);
      return Some(data);
    }
    return Some([]);
  }

  method ParseProducePartition(r: ByteReader) returns (res: Option<ProducePartitionRequest>)
    requires r.Valid()
    modifies r
    ensures r.Valid() && Yields(res, ReadProducePartition(old(r.Rest())), r.Rest())
  {
    hide ReadCompactBytes, ReadInt32, Skip;
    var index :- r.ReadInt32();
    var records :- ParseCompactBytes(r);
    var _ :- r.Skip(1);
    return Some(ProducePartitionRequest(index, records));
  }

  method ParseProducePartitions(r: ByteReader) returns (res: Option<seq<ProducePartitionRequest>>)
    requires r.Valid()
    modifies r
    ensures r.Valid() && Yields(res, ReadArray(ReadProducePartition, old(r.Rest())), r.Rest())
  {
    hide ReadVarint, ReadItems, ReadProducePartition;
    var len :- r.ReadVarint();
    var n: nat := if len > 0 then len - 1 else 0;
    ghost var goal := ReadItems(n, ReadProducePartition, r.Rest());
    AfterStart(goal);
    var xs := [];
    for i := 0 to n
      invariant r.Valid() && After(xs, ReadItems(n - i, ReadProducePartition, r.Rest())) == goal
    {
      AfterStep(xs, n - i, ReadProducePartition, r.Rest());
      var x :- ParseProducePartition(r);
      xs := xs + [x];
    }
    AfterStep(xs, 0, ReadProducePartition, r.Rest());
    return Some(xs);
  }

  method ParseProduceTopic(r: ByteReader) returns (res: Option<ProduceTopicRequest>)
    requires r.Valid()
    modifies r
    ensures r.Valid() && Yields(res, ReadProduceTopic(old(r.Rest())), r.Rest())
  {
    hide ReadArray, ReadCompactString, Skip;
    var name :- r.ReadCompactString();
    var parts :- ParseProducePartitions(r);
    var _ :- r.Skip(1);
    return Some(ProduceTopicRequest(name, parts));
  }

  method ParseProduceTopics(r: ByteReader) returns (res: Option<seq<ProduceTopicRequest>>)
    requires r.Valid()
    modifies r
    ensures r.Valid() && Yields(res, ReadArray(ReadProduceTopic, old(r.Rest())), r.Rest())
  {
    hide ReadVarint, ReadItems, ReadProduceTopic;
    var len :- r.ReadVarint();
    var n: nat := if len > 0 then len - 1 else 0;
    ghost var goal := ReadItems(n, ReadProduceTopic, r.Rest());
    AfterStart(goal);
    var xs := [];
    for i := 0 to n
      invariant r.Valid() && After(xs, ReadItems(n - i, ReadProduceTopic, r.Rest())) == goal
    {
      AfterStep(xs, n - i, ReadProduceTopic, r.Rest());
      var x :- ParseProduceTopic(r);
      xs := xs + [x];
    }
    AfterStep(xs, 0, ReadProduceTopic, r.Rest());
    return Some(xs);
  }

  method ParseListPartition(r: ByteReader) returns (res: Option<ListOffsetsPartitionRequest>)
    requires r.Valid()
    modifies r
    ensures r.Valid() && Yields(res, ReadListPartition(old(r.Rest())), r.Rest())
  {
    hide ReadInt32, ReadInt64, Skip;
    var index :- r.ReadInt32();
    var timestamp :- r.ReadInt64();
    var _ :- r.Skip(1);
    return Some(ListOffsetsPartitionRequest(index, timestamp));
  }

  method ParseListPartitions(r: ByteReader) returns (res: Option<seq<ListOffsetsPartitionRequest>>)
    requires r.Valid()
    modifies r
    ensures r.Valid() && Yields(res, ReadArray(ReadListPartition, old(r.Rest())), r.Rest())
  {
    hide ReadVarint, ReadItems, ReadListPartition;
    var len :- r.ReadVarint();
    var n: nat := if len > 0 then len - 1 else 0;
    ghost var goal := ReadItems(n, ReadListPartition, r.Rest());
    AfterStart(goal);
    var xs := [];
    for i := 0 to n
      invariant r.Valid() && After(xs, ReadItems(n - i, ReadListPartition, r.Rest())) == goal
    {
      AfterStep(xs, n - i, ReadListPartition, r.Rest());
      var x :- ParseListPartition(r);
      xs := xs + [x];
    }
    AfterStep(xs, 0, ReadListPartition, r.Rest());
    return Some(xs);
  }

  method ParseListTopic(r: ByteReader) returns (res: Option<ListOffsetsTopicRequest>)
    requires r.Valid()
    modifies r
    ensures r.Valid() && Yields(res, ReadListTopic(old(r.Rest())), r.Rest())
  {
    hide ReadArray, ReadCompactString, Skip;
    var name :- r.ReadCompactString();
    var parts :- ParseListPartitions(r);
    var _ :- r.Skip(1);
    return Some(ListOffsetsTopicRequest(name, parts));
  }

  method ParseListTopics(r: ByteReader) returns (res: Option<seq<ListOffsetsTopicRequest>>)
    requires r.Valid()
    modifies r
    ensures r.Valid() && Yields(res, ReadArray(ReadListTopic, old(r.Rest())), r.Rest())
  {
    hide ReadVarint, ReadItems, ReadListTopic;
    var len :- r.ReadVarint();
    var n: nat := if len > 0 then len - 1 else 0;
    ghost var goal := ReadItems(n, ReadListTopic, r.Rest());
    AfterStart(goal);
    var xs := [];
    for i := 0 to n
      invariant r.Valid() && After(xs, ReadItems(n - i, ReadListTopic, r.Rest())) == goal
    {
      AfterStep(xs, n - i, ReadListTopic, r.Rest());
      var x :- ParseListTopic(r);
      xs := xs + [x];
    }
    AfterStep(xs, 0, ReadListTopic, r.Rest());
    return Some(xs);
  }

  method ParseCommitPartition(r: ByteReader) returns (res: Option<OffsetCommitPartitionRequest>)
    requires r.Valid()
    modifies r
    ensures r.Valid() && Yields(res, ReadCommitPartition(old(r.Rest())), r.Rest())
  {
    hide ReadInt32, ReadInt64, Skip;
    var index :- r.ReadInt32();
    var offset :- r.ReadInt64();
    var _ :- r.Skip(1);
    return Some(OffsetCommitPartitionRequest(index, offset));
  }

  method ParseCommitPartitions(r: ByteReader) returns (res: Option<seq<OffsetCommitPartitionRequest>>)
    requires r.Valid()
    modifies r
    ensures r.Valid() && Yields(res, ReadArray(ReadCommitPartition, old(r.Rest())), r.Rest())
  {
    hide ReadVarint, ReadItems, ReadCommitPartition;
    var len :- r.ReadVarint();
    var n: nat := if len > 0 then len - 1 else 0;
    ghost var goal := ReadItems(n, ReadCommitPartition, r.Rest());
    AfterStart(goal);
    var xs := [];
    for i := 0 to n
      invariant r.Valid() && After(xs, ReadItems(n - i, ReadCommitPartition, r.Rest())) == goal
    {
      AfterStep(xs, n - i, ReadCommitPartition, r.Rest());
      var x :- ParseCommitPartition(r);
      xs := xs + [x];
    }
    AfterStep(xs, 0, ReadCommitPartition, r.Rest());
    return Some(xs);
  }

  method ParseCommitTopic(r: ByteReader) returns (res: Option<OffsetCommitTopicRequest>)
    requires r.Valid()
    modifies r
    ensures r.Valid() && Yields(res, ReadCommitTopic(old(r.Rest())), r.Rest())
  {
    hide ReadArray, ReadCompactString, Skip;
    var name :- r.ReadCompactString();
    var parts :- ParseCommitPartitions(r);
    var _ :- r.Skip(1);
    return Some(OffsetCommitTopicRequest(name, parts));
  }

  method ParseCommitTopics(r: ByteReader) returns (res: Option<seq<OffsetCommitTopicRequest>>)
    requires r.Valid()
    modifies r
    ensures r.Valid() && Yields(res, ReadArray(ReadCommitTopic, old(r.Rest())), r.Rest())
  {
    hide ReadVarint, ReadItems, ReadCommitTopic;
    var len :- r.ReadVarint();
    var n: nat := if len > 0 then len - 1 else 0;
    ghost var goal := ReadItems(n, ReadCommitTopic, r.Rest());
    AfterStart(goal);
    var xs := [];
    for i := 0 to n
      invariant r.Valid() && After(xs, ReadItems(n - i, ReadCommitTopic, r.Rest())) == goal
    {
      AfterStep(xs, n - i, ReadCommitTopic, r.Rest());
      var x :- ParseCommitTopic(r);
      xs := xs + [x];
    }
    AfterStep(xs, 0, ReadCommitTopic, r.Rest());
    return Some(xs);
  }

  method ParseIndexes(r: ByteReader) returns (res: Option<seq<int32>>)
    requires r.Valid()
    modifies r
    ensures r.Valid() && Yields(res, ReadArray(ReadInt32, old(r.Rest())), r.Rest())
  {
    hide ReadVarint, ReadItems, ReadInt32;
    var len :- r.ReadVarint();
    var n: nat := if len > 0 then len - 1 else 0;
    ghost var goal := ReadItems(n, ReadInt32, r.Rest());
    AfterStart(goal);
    var xs := [];
    for i := 0 to n
      invariant r.Valid() && After(xs, ReadItems(n - i, ReadInt32, r.Rest())) == goal
    {
      AfterStep(xs, n - i, ReadInt32, r.Rest());
      var x :- r.ReadInt32();
      xs := xs + [x];
    }
    AfterStep(xs, 0, ReadInt32, r.Rest());
    return Some(xs);
  }

  method ParseOffsetTopic(r: ByteReader) returns (res: Option<OffsetFetchTopicRequest>)
    requires r.Valid()
    modifies r
    ensures r.Valid() && Yields(res, ReadOffsetTopic(old(r.Rest())), r.Rest())
  {
    hide ReadArray, ReadCompactString, Skip;
    var name :- r.ReadCompactString();
    var indexes :- ParseIndexes(r);
    var _ :- r.Skip(1);
    return Some(OffsetFetchTopicRequest(name, indexes));
  }

  method ParseOffsetTopics(r: ByteReader) returns (res: Option<seq<OffsetFetchTopicRequest>>)
    requires r.Valid()
    modifies r
    ensures r.Valid() && Yields(res, ReadArray(ReadOffsetTopic, old(r.Rest())), r.Rest())
  {
    hide ReadVarint, ReadItems, ReadOffsetTopic;
    var len :- r.ReadVarint();
    var n: nat := if len > 0 then len - 1 else 0;
    ghost var goal := ReadItems(n, ReadOffsetTopic, r.Rest());
    AfterStart(goal);
    var xs := [];
    for i := 0 to n
      invariant r.Valid() && After(xs, ReadItems(n - i, ReadOffsetTopic, r.Rest())) == goal
    {
      AfterStep(xs, n - i, ReadOffsetTopic, r.Rest());
      var x :- ParseOffsetTopic(r);
      xs := xs + [x];
    }
    AfterStep(xs, 0, ReadOffsetTopic, r.Rest());
    return Some(xs);
  }

  method ParseProtocol(r: ByteReader) returns (res: Option<JoinGroupProtocol>)
    requires r.Valid()
    modifies r
    ensures r.Valid() && Yields(res, ReadProtocol(old(r.Rest())), r.Rest())
  {
    hide ReadCompactBytes, ReadCompactString, Skip;
    var name :- r.ReadCompactString();
    var metadata :- ParseCompactBytes(r);
    var _ :- r.Skip(1);
    return Some(JoinGroupProtocol(name, metadata));
  }

  method ParseProtocols(r: ByteReader) returns (res: Option<seq<JoinGroupProtocol>>)
    requires r.Valid()
    modifies r
    ensures r.Valid() && Yields(res, ReadArray(ReadProtocol, old(r.Rest())), r.Rest())
  {
    hide ReadVarint, ReadItems, ReadProtocol;
    var len :- r.ReadVarint();
    var n: nat := if len > 0 then len - 1 else 0;
    ghost var goal := ReadItems(n, ReadProtocol, r.Rest());
    AfterStart(goal);
    var xs := [];
    for i := 0 to n
      invariant r.Valid() && After(xs, ReadItems(n - i, ReadProtocol, r.Rest())) == goal
    {
      AfterStep(xs, n - i, ReadProtocol, r.Rest());
      var x :- ParseProtocol(r);
      xs := xs + [x];
    }
    AfterStep(xs, 0, ReadProtocol, r.Rest());
    return Some(xs);
  }

  method ParseAssignment(r: ByteReader) returns (res: Option<SyncGroupAssignment>)
    requires r.Valid()
    modifies r
    ensures r.Valid() && Yields(res, ReadAssignment(old(r.Rest())), r.Rest())
  {
    hide ReadCompactBytes, ReadCompactString, Skip;
    var member :- r.ReadCompactString();
    var assignment :- ParseCompactBytes(r);
    var _ :- r.Skip(1);
    return Some(SyncGroupAssignment(member, assignment));
  }

  method ParseAssignments(r: ByteReader) returns (res: Option<seq<SyncGroupAssignment>>)
    requires r.Valid()
    modifies r
    ensures r.Valid() && Yields(res, ReadArray(ReadAssignment, old(r.Rest())), r.Rest())
  {
    hide ReadVarint, ReadItems, ReadAssignment;
    var len :- r.ReadVarint();
    var n: nat := if len > 0 then len - 1 else 0;
    ghost var goal := ReadItems(n, ReadAssignment, r.Rest());
    AfterStart(goal);
    var xs := [];
    for i := 0 to n
      invariant r.Valid() && After(xs, ReadItems(n - i, ReadAssignment, r.Rest())) == goal
    {
      AfterStep(xs, n - i, ReadAssignment, r.Rest());
      var x :- ParseAssignment(r);
      xs := xs + [x];
    }
    AfterStep(xs, 0, ReadAssignment, r.Rest());
    return Some(xs);
  }

  method ParseProduce(h: RequestHeader, r: ByteReader) returns (res: Option<Request>)
    requires r.Valid()
    modifies r
    ensures r.Valid() && Yields(res, ReadProduce(h, old(r.Rest())), r.Rest())
  {
    hide ReadArray, ReadCompactBytes, ReadInt16, ReadInt32, Skip;
    var _ :- ParseCompactBytes(r);
    var _ :- r.ReadInt16();
    var _ :- r.ReadInt32();
    var topics :- ParseProduceTopics(r);
    var _ :- r.Skip(1);
    return Some(ProduceRequest(h, topics));
  }

  method ParseListOffsets(h: RequestHeader, r: ByteReader) returns (res: Option<Request>)
    requires r.Valid()
    modifies r
    ensures r.Valid() && Yields(res, ReadListOffsets(h, old(r.Rest())), r.Rest())
  {
    hide ReadArray, ReadInt32, ReadInt8, Skip;
    var replica :- r.ReadInt32();
    var isolation :- r.ReadInt8();
    var topics :- ParseListTopics(r);
    var _ :- r.Skip(1);
    return Some(ListOffsetsRequest(h, replica, ToInt8(isolation), topics));
  }

  method ParseOffsetCommit(h: RequestHeader, r: ByteReader) returns (res: Option<Request>)
    requires r.Valid()
    modifies r
    ensures r.Valid() && Yields(res, ReadOffsetCommit(h, old(r.Rest())), r.Rest())
  {
    hide ReadArray, ReadCompactString, ReadInt32, Skip;
    var group :- r.ReadCompactString();
    var member :- r.ReadCompactString();
    var generation :- r.ReadInt32();
    var topics :- ParseCommitTopics(r);
    var _ :- r.Skip(1);
    return Some(OffsetCommitRequest(h, group, member, generation, topics));
  }

  method ParseOffsetFetch(h: RequestHeader, r: ByteReader) returns (res: Option<Request>)
    requires r.Valid()
    modifies r
    ensures r.Valid() && Yields(res, ReadOffsetFetch(h, old(r.Rest())), r.Rest())
  {
    hide ReadArray, ReadCompactString, Skip;
    var group :- r.ReadCompactString();
    var topics :- ParseOffsetTopics(r);
    var _ :- r.Skip(1);
    return Some(OffsetFetchRequest(h, group, topics));
  }

  method ParseFindCoordinator(h: RequestHeader, r: ByteReader) returns (res: Option<Request>)
    requires r.Valid()
    modifies r
    ensures r.Valid() && Yields(res, ReadFindCoordinator(h, old(r.Rest())), r.Rest())
  {
    hide ReadCompactString, ReadInt8, Skip;
    var key :- r.ReadCompactString();
    var keyType :- r.ReadInt8();
    var _ :- r.Skip(1);
    return Some(FindCoordinatorRequest(h, key, ToInt8(keyType)));
  }

  method ParseJoinGroup(h: RequestHeader, r: ByteReader) returns (res: Option<Request>)
    requires r.Valid()
    modifies r
    ensures r.Valid() && Yields(res, ReadJoinGroup(h, old(r.Rest())), r.Rest())
  {
    hide ReadArray, ReadCompactString, ReadInt32, Skip;
    var group :- r.ReadCompactString();
    var timeout :- r.ReadInt32();
    var member :- r.ReadCompactString();
    var protocolType :- r.ReadCompactString();
    var protocols :- ParseProtocols(r);
    var _ :- r.Skip(1);
    return Some(JoinGroupRequest(h, group, timeout, member, protocolType, protocols));
  }

  method ParseHeartbeat(h: RequestHeader, r: ByteReader) returns (res: Option<Request>)
    requires r.Valid()
    modifies r
    ensures r.Valid() && Yields(res, ReadHeartbeat(h, old(r.Rest())), r.Rest())
  {
    hide ReadCompactString, ReadInt32, Skip;
    var group :- r.ReadCompactString();
    var generation :- r.ReadInt32();
    var member :- r.ReadCompactString();
    var instance :- r.ReadCompactString();
    var _ :- r.Skip(1);
    return Some(HeartbeatRequest(h, group, generation, member, instance));
  }

  method ParseLeaveGroup(h: RequestHeader, r: ByteReader) returns (res: Option<Request>)
    requires r.Valid()
    modifies r
    ensures r.Valid() && Yields(res, ReadLeaveGroup(h, old(r.Rest())), r.Rest())
  {
    hide ReadCompactString, Skip;
    var group :- r.ReadCompactString();
    var member :- r.ReadCompactString();
    var _ :- r.Skip(1);
    return Some(LeaveGroupRequest(h, group, member));
  }

  method ParseSyncGroup(h: RequestHeader, r: ByteReader) returns (res: Option<Request>)
    requires r.Valid()
    modifies r
    ensures r.Valid() && Yields(res, ReadSyncGroup(h, old(r.Rest())), r.Rest())
  {
    hide ReadArray, ReadCompactString, ReadInt32, Skip;
    var group :- r.ReadCompactString();
    var generation :- r.ReadInt32();
    var member :- r.ReadCompactString();
    var assignments :- ParseAssignments(r);
    var _ :- r.Skip(1);
    return Some(SyncGroupRequest(h, group, generation, member, assignments));
  }

  method ParseHeader(r: ByteReader) returns (res: Option<RequestHeader>)
    requires r.Valid()
    modifies r
    ensures r.Valid() && Yields(res, ReadHeader(old(r.Rest())), r.Rest())
  {
    hide ReadInt16, ReadInt32;
    var key :- r.ReadInt16();
    var version :- r.ReadInt16();
    var correlation :- r.ReadInt32();
    return Some(RequestHeader(key, version, correlation));
  }

  method ParseClientId(r: ByteReader) returns (res: Option<()>)
    requires r.Valid()
    modifies r
    ensures r.Valid() && Yields(res, ReadClientId(old(r.Rest())), r.Rest())
  {
    hide ReadInt16;
    var len :- r.ReadInt16();
    if len > 0 {
      var _ :- r.Skip(len);
    }
    res := r.Skip(1);
  }

  method ParseBody(h: RequestHeader, r: ByteReader) returns (res: Option<Request>)
    requires r.Valid() && Modelled(h.apiKey)
    modifies r
    ensures r.Valid() && Yields(res, ReadBody(h, old(r.Rest())), r.Rest())
  {
    hide ReadProduce, ReadListOffsets, ReadOffsetCommit, ReadOffsetFetch, ReadFindCoordinator, ReadJoinGroup, ReadHeartbeat,
         ReadLeaveGroup, ReadSyncGroup;
    match h.apiKey {
      case 0 => res := ParseProduce(h, r);
      case 2 => res := ParseListOffsets(h, r);
      case 8 => res := ParseOffsetCommit(h, r);
      case 9 => res := ParseOffsetFetch(h, r);
      case 10 => res := ParseFindCoordinator(h, r);
      case 11 => res := ParseJoinGroup(h, r);
      case 12 => res := ParseHeartbeat(h, r);
      case 13 => res := ParseLeaveGroup(h, r);
      case _ => res := ParseSyncGroup(h, r);
    }
  }

  /** `parse_request`. */
  method ParseRequest(buf: bytes) returns (verdict: Verdict)
    ensures verdict == Parse(buf)
  {
    hide ReadHeader, ReadClientId, ReadBody;
    var r := new ByteReader(buf);
    var h := ParseHeader(r);
    if h.None? {
      return Refused;
    }
    var key := h.value.apiKey;
    if key == 1 || key == 3 || key == 18 || key == 75 {
      return Elsewhere(key);
    }
    if !Modelled(key) {
      return Refused;
    }
    var id := ParseClientId(r);
    if id.None? {
      return Refused;
    }
    var body := ParseBody(h.value, r);
    return if body.None? then Refused else Accepted(body.value);
  }
}
