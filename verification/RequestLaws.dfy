/** Parsing inverts the canonical encoding of every request, and refuses every strict prefix of it. */
module RequestLaws {
  import opened Bytes
  import opened Wire
  import opened Protocol
  import opened Requests

  // ================ bytes appended to a readable input change nothing ================

  lemma ItemsExtend()
    ensures Extends(ReadProducePartition) && Extends(ReadListPartition) && Extends(ReadCommitPartition)
    ensures Extends(ReadProtocol) && Extends(ReadAssignment) && Extends(ReadInt32)
  {
    hide ReadInt32, ReadInt64, ReadCompactString, ReadCompactBytes, Skip;
    ExtendLaws();
  }

  lemma TopicsExtend()
    ensures Extends(ReadProduceTopic) && Extends(ReadListTopic) && Extends(ReadCommitTopic) && Extends(ReadOffsetTopic)
  {
    hide ReadCompactString, Skip, ReadArray, ReadProducePartition, ReadListPartition, ReadCommitPartition, ReadInt32;
    ExtendLaws();
    ItemsExtend();
    ArrayExtends(ReadProducePartition);
    ArrayExtends(ReadListPartition);
    ArrayExtends(ReadCommitPartition);
    ArrayExtends(ReadInt32);
  }

  lemma ArraysExtend()
    ensures forall s, t {:trigger ReadArray(ReadProduceTopic, s + t)} :: ReadArray(ReadProduceTopic, s).Some? ==>
              ReadArray(ReadProduceTopic, s + t) == Some((ReadArray(ReadProduceTopic, s).value.0, ReadArray(ReadProduceTopic, s).value.1 + t))
    ensures forall s, t {:trigger ReadArray(ReadListTopic, s + t)} :: ReadArray(ReadListTopic, s).Some? ==>
              ReadArray(ReadListTopic, s + t) == Some((ReadArray(ReadListTopic, s).value.0, ReadArray(ReadListTopic, s).value.1 + t))
    ensures forall s, t {:trigger ReadArray(ReadCommitTopic, s + t)} :: ReadArray(ReadCommitTopic, s).Some? ==>
              ReadArray(ReadCommitTopic, s + t) == Some((ReadArray(ReadCommitTopic, s).value.0, ReadArray(ReadCommitTopic, s).value.1 + t))
    ensures forall s, t {:trigger ReadArray(ReadOffsetTopic, s + t)} :: ReadArray(ReadOffsetTopic, s).Some? ==>
              ReadArray(ReadOffsetTopic, s + t) == Some((ReadArray(ReadOffsetTopic, s).value.0, ReadArray(ReadOffsetTopic, s).value.1 + t))
    ensures forall s, t {:trigger ReadArray(ReadProtocol, s + t)} :: ReadArray(ReadProtocol, s).Some? ==>
              ReadArray(ReadProtocol, s + t) == Some((ReadArray(ReadProtocol, s).value.0, ReadArray(ReadProtocol, s).value.1 + t))
    ensures forall s, t {:trigger ReadArray(ReadAssignment, s + t)} :: ReadArray(ReadAssignment, s).Some? ==>
              ReadArray(ReadAssignment, s + t) == Some((ReadArray(ReadAssignment, s).value.0, ReadArray(ReadAssignment, s).value.1 + t))
  {
    hide ReadArray, ReadProduceTopic, ReadListTopic, ReadCommitTopic, ReadOffsetTopic, ReadProtocol, ReadAssignment,
         Extends;
    TopicsExtend();
    ItemsExtend();
    ArrayExtends(ReadProduceTopic);
    ArrayExtends(ReadListTopic);
    ArrayExtends(ReadCommitTopic);
    ArrayExtends(ReadOffsetTopic);
    ArrayExtends(ReadProtocol);
    ArrayExtends(ReadAssignment);
  }

  lemma FrontExtends(s: bytes, t: bytes)
    ensures ReadHeader(s).Some? ==> ReadHeader(s + t) == Some((ReadHeader(s).value.0, ReadHeader(s).value.1 + t))
    ensures ReadClientId(s).Some? ==> ReadClientId(s + t) == Some(((), ReadClientId(s).value.1 + t))
  {
    hide ReadInt16, ReadInt32, Skip;
    ExtendLaws();
  }

  lemma BodyExtends(h: RequestHeader, s: bytes, t: bytes)
    requires Modelled(h.apiKey) && ReadBody(h, s).Some?
    ensures ReadBody(h, s + t) == Some((ReadBody(h, s).value.0, ReadBody(h, s).value.1 + t))
  {
    hide ReadInt8, ReadInt16, ReadInt32, ReadInt64, ReadCompactString, ReadCompactBytes, Skip, ReadArray;
    ExtendLaws();
    ArraysExtend();
  }

  /** A complete request is parsed the same whatever follows it. */
  lemma ParseExtends(s: bytes, t: bytes)
    requires Parse(s).Accepted?
    ensures Parse(s + t) == Parse(s)
    ensures ReadHeader(s).Some? && ReadHeader(s + t).Some?
  {
    hide ReadHeader, ReadClientId, ReadBody;
    FrontExtends(s, t);
    var (h, s1) := ReadHeader(s).value;
    FrontExtends(s1, t);
    BodyExtends(h, ReadClientId(s1).value.1, t);
  }

  // ================ reading inverts writing ================

  lemma ProducePartitionInverts(p: ProducePartitionRequest)
    requires Short(p.records)
    ensures Inverts(PutProducePartition, ReadProducePartition, p)
  {
    hide ReadInt32, PutInt32, ReadCompactBytes, PutCompactString, Skip, PutInt8;
    InvertLaws();
    StringLaws();
  }

  lemma ListPartitionInverts(p: ListOffsetsPartitionRequest)
    ensures Inverts(PutListPartition, ReadListPartition, p)
  {
    hide ReadInt32, PutInt32, ReadInt64, PutInt64, Skip, PutInt8;
    InvertLaws();
  }

  lemma CommitPartitionInverts(p: OffsetCommitPartitionRequest)
    ensures Inverts(PutCommitPartition, ReadCommitPartition, p)
  {
    hide ReadInt32, PutInt32, ReadInt64, PutInt64, Skip, PutInt8;
    InvertLaws();
  }

  lemma ProtocolInverts(p: JoinGroupProtocol)
    requires Short(p.name) && Short(p.metadata)
    ensures Inverts(PutProtocol, ReadProtocol, p)
  {
    hide ReadCompactString, ReadCompactBytes, PutCompactString, Skip, PutInt8;
    InvertLaws();
    StringLaws();
  }

  lemma AssignmentInverts(a: SyncGroupAssignment)
    requires Short(a.memberId) && Short(a.assignment)
    ensures Inverts(PutAssignment, ReadAssignment, a)
  {
    hide ReadCompactString, ReadCompactBytes, PutCompactString, Skip, PutInt8;
    InvertLaws();
    StringLaws();
  }

  lemma Int32sInvert(v: int32)
    ensures Inverts(PutInt32, ReadInt32, v)
  {
    hide ReadInt32, PutInt32;
    InvertLaws();
  }

  lemma ProduceTopicInverts(t: ProduceTopicRequest)
    requires Short(t.topicName) && Short(t.partitions) && forall p :: p in t.partitions ==> Short(p.records)
    ensures Inverts(PutProduceTopic, ReadProduceTopic, t)
  {
    hide ReadCompactString, PutCompactString, ReadArray, PutArray, Skip, PutInt8, ReadProducePartition,
         PutProducePartition;
    forall p | p in t.partitions ensures Inverts(PutProducePartition, ReadProducePartition, p) { ProducePartitionInverts(p); }
    forall rest: bytes
      ensures ReadProduceTopic(PutProduceTopic(t, rest)) == Some((t, rest))
    {
      InvertLaws();
      StringLaws();
      ArrayInverts(PutProducePartition, ReadProducePartition, t.partitions, PutTag(rest));
    }
  }

  lemma ListTopicInverts(t: ListOffsetsTopicRequest)
    requires Short(t.topicName) && Short(t.partitions)
    ensures Inverts(PutListTopic, ReadListTopic, t)
  {
    hide ReadCompactString, PutCompactString, ReadArray, PutArray, Skip, PutInt8, ReadListPartition, PutListPartition;
    forall p | p in t.partitions ensures Inverts(PutListPartition, ReadListPartition, p) { ListPartitionInverts(p); }
    forall rest: bytes
      ensures ReadListTopic(PutListTopic(t, rest)) == Some((t, rest))
    {
      InvertLaws();
      StringLaws();
      ArrayInverts(PutListPartition, ReadListPartition, t.partitions, PutTag(rest));
    }
  }

  lemma CommitTopicInverts(t: OffsetCommitTopicRequest)
    requires Short(t.topicName) && Short(t.partitions)
    ensures Inverts(PutCommitTopic, ReadCommitTopic, t)
  {
    hide ReadCompactString, PutCompactString, ReadArray, PutArray, Skip, PutInt8, ReadCommitPartition,
         PutCommitPartition;
    forall p | p in t.partitions ensures Inverts(PutCommitPartition, ReadCommitPartition, p) { CommitPartitionInverts(p); }
    forall rest: bytes
      ensures ReadCommitTopic(PutCommitTopic(t, rest)) == Some((t, rest))
    {
      InvertLaws();
      StringLaws();
      ArrayInverts(PutCommitPartition, ReadCommitPartition, t.partitions, PutTag(rest));
    }
  }

  lemma OffsetTopicInverts(t: OffsetFetchTopicRequest)
    requires Short(t.topicName) && Short(t.partitionIndexes)
    ensures Inverts(PutOffsetTopic, ReadOffsetTopic, t)
  {
    hide ReadCompactString, PutCompactString, ReadArray, PutArray, Skip, PutInt8, ReadInt32, PutInt32;
    forall p | p in t.partitionIndexes ensures Inverts(PutInt32, ReadInt32, p) { Int32sInvert(p); }
    forall rest: bytes
      ensures ReadOffsetTopic(PutOffsetTopic(t, rest)) == Some((t, rest))
    {
      InvertLaws();
      StringLaws();
      ArrayInverts(PutInt32, ReadInt32, t.partitionIndexes, PutTag(rest));
    }
  }

  lemma ClientIdInverts(e: Envelope, rest: bytes)
    requires ValidEnvelope(e)
    ensures ReadClientId(PutClientId(e, rest)) == Some(((), rest))
  {
    hide ReadInt16, PutInt16, PutInt8;
    InvertLaws();
    StringLaws();
    if e.clientId.Some? {
      assert PutBytes([], PutTag(rest)) == PutTag(rest);
    }
  }

  lemma HeaderInverts(h: RequestHeader, rest: bytes)
    ensures ReadHeader(PutHeader(h, rest)) == Some((h, rest))
  {
    hide ReadInt16, PutInt16, ReadInt32, PutInt32;
    InvertLaws();
  }

  lemma SignedByte(v: int8, rest: bytes)
    ensures ReadInt8(PutInt8(v, rest)).Some? && ToInt8(ReadInt8(PutInt8(v, rest)).value.0) == v
    ensures ReadInt8(PutInt8(v, rest)).value.1 == rest
  {
    var b: byte := if v < 0 then v + 256 else v;
    Int8Inverts(b, rest);
    assert PutInt8(v, rest) == PutInt8(b, rest);
  }

  lemma ProduceInverts(e: Envelope, r: Request, rest: bytes)
    requires ValidEnvelope(e) && r.ProduceRequest? && Encodable(r)
    ensures ReadProduce(r.header, PutBody(e, r, rest)) == Some((r, rest))
  {
    hide ReadInt16, PutInt16, ReadInt32, PutInt32, PutNullableString, ReadCompactBytes, ReadArray, PutArray, Skip, PutInt8,
         ReadProduceTopic, PutProduceTopic;
    InvertLaws();
    StringLaws();
    forall t | t in r.produceTopics ensures Inverts(PutProduceTopic, ReadProduceTopic, t) { ProduceTopicInverts(t); }
    ArrayInverts(PutProduceTopic, ReadProduceTopic, r.produceTopics, PutTag(rest));
  }

  lemma ListOffsetsInverts(e: Envelope, r: Request, rest: bytes)
    requires r.ListOffsetsRequest? && Encodable(r)
    ensures ReadListOffsets(r.header, PutBody(e, r, rest)) == Some((r, rest))
  {
    hide ReadInt32, PutInt32, ReadArray, PutArray, Skip, PutInt8, ReadInt8, ToInt8, ReadListTopic, PutListTopic;
    InvertLaws();
    forall t | t in r.listTopics ensures Inverts(PutListTopic, ReadListTopic, t) { ListTopicInverts(t); }
    var rest2 := PutArray(PutListTopic, r.listTopics, PutTag(rest));
    SignedByte(r.isolationLevel, rest2);
    ArrayInverts(PutListTopic, ReadListTopic, r.listTopics, PutTag(rest));
  }

  lemma OffsetCommitInverts(e: Envelope, r: Request, rest: bytes)
    requires r.OffsetCommitRequest? && Encodable(r)
    ensures ReadOffsetCommit(r.header, PutBody(e, r, rest)) == Some((r, rest))
  {
    hide ReadInt32, PutInt32, ReadCompactString, PutCompactString, ReadArray, PutArray, Skip, PutInt8,
         ReadCommitTopic, PutCommitTopic;
    InvertLaws();
    StringLaws();
    forall t | t in r.commitTopics ensures Inverts(PutCommitTopic, ReadCommitTopic, t) { CommitTopicInverts(t); }
    ArrayInverts(PutCommitTopic, ReadCommitTopic, r.commitTopics, PutTag(rest));
  }

  lemma OffsetFetchInverts(e: Envelope, r: Request, rest: bytes)
    requires r.OffsetFetchRequest? && Encodable(r)
    ensures ReadOffsetFetch(r.header, PutBody(e, r, rest)) == Some((r, rest))
  {
    hide ReadCompactString, PutCompactString, ReadArray, PutArray, Skip, PutInt8, ReadOffsetTopic, PutOffsetTopic;
    InvertLaws();
    StringLaws();
    forall t | t in r.offsetTopics ensures Inverts(PutOffsetTopic, ReadOffsetTopic, t) { OffsetTopicInverts(t); }
    ArrayInverts(PutOffsetTopic, ReadOffsetTopic, r.offsetTopics, PutTag(rest));
  }

  lemma JoinGroupInverts(e: Envelope, r: Request, rest: bytes)
    requires r.JoinGroupRequest? && Encodable(r)
    ensures ReadJoinGroup(r.header, PutBody(e, r, rest)) == Some((r, rest))
  {
    hide ReadInt32, PutInt32, ReadCompactString, PutCompactString, ReadArray, PutArray, Skip, PutInt8, ReadProtocol,
         PutProtocol;
    InvertLaws();
    StringLaws();
    forall p | p in r.protocols ensures Inverts(PutProtocol, ReadProtocol, p) { ProtocolInverts(p); }
    ArrayInverts(PutProtocol, ReadProtocol, r.protocols, PutTag(rest));
  }

  lemma SyncGroupInverts(e: Envelope, r: Request, rest: bytes)
    requires r.SyncGroupRequest? && Encodable(r)
    ensures ReadSyncGroup(r.header, PutBody(e, r, rest)) == Some((r, rest))
  {
    hide ReadInt32, PutInt32, ReadCompactString, PutCompactString, ReadArray, PutArray, Skip, PutInt8, ReadAssignment,
         PutAssignment;
    InvertLaws();
    StringLaws();
    forall a | a in r.assignments ensures Inverts(PutAssignment, ReadAssignment, a) { AssignmentInverts(a); }
    ArrayInverts(PutAssignment, ReadAssignment, r.assignments, PutTag(rest));
  }

  lemma FindCoordinatorInverts(e: Envelope, r: Request, rest: bytes)
    requires r.FindCoordinatorRequest? && Encodable(r)
    ensures ReadFindCoordinator(r.header, PutBody(e, r, rest)) == Some((r, rest))
  {
    hide ReadCompactString, PutCompactString, Skip, PutInt8, ReadInt8, ToInt8;
    InvertLaws();
    StringLaws();
    SignedByte(r.keyType, PutTag(rest));
  }

  lemma HeartbeatInverts(e: Envelope, r: Request, rest: bytes)
    requires r.HeartbeatRequest? && Encodable(r)
    ensures ReadHeartbeat(r.header, PutBody(e, r, rest)) == Some((r, rest))
  {
    hide ReadInt32, PutInt32, ReadCompactString, PutCompactString, Skip, PutInt8;
    InvertLaws();
    StringLaws();
  }

  lemma LeaveGroupInverts(e: Envelope, r: Request, rest: bytes)
    requires r.LeaveGroupRequest? && Encodable(r)
    ensures ReadLeaveGroup(r.header, PutBody(e, r, rest)) == Some((r, rest))
  {
    hide ReadCompactString, PutCompactString, Skip, PutInt8;
    InvertLaws();
    StringLaws();
  }

  lemma BodyInverts(e: Envelope, r: Request, rest: bytes)
    requires ValidEnvelope(e) && Encodable(r)
    ensures ReadBody(r.header, PutBody(e, r, rest)) == Some((r, rest))
  {
    hide PutBody, ReadProduce, ReadListOffsets, ReadOffsetCommit, ReadOffsetFetch, ReadFindCoordinator, ReadJoinGroup, ReadHeartbeat,
         ReadLeaveGroup, ReadSyncGroup;
    match r {
      case ProduceRequest(_, _) => ProduceInverts(e, r, rest);
      case ListOffsetsRequest(_, _, _, _) => ListOffsetsInverts(e, r, rest);
      case OffsetCommitRequest(_, _, _, _, _) => OffsetCommitInverts(e, r, rest);
      case OffsetFetchRequest(_, _, _) => OffsetFetchInverts(e, r, rest);
      case JoinGroupRequest(_, _, _, _, _, _) => JoinGroupInverts(e, r, rest);
      case SyncGroupRequest(_, _, _, _, _) => SyncGroupInverts(e, r, rest);
      case FindCoordinatorRequest(_, _, _) => FindCoordinatorInverts(e, r, rest);
      case HeartbeatRequest(_, _, _, _, _) => HeartbeatInverts(e, r, rest);
      case LeaveGroupRequest(_, _, _) => LeaveGroupInverts(e, r, rest);
    }
  }

  // ================ the theorems ================

  /** Parsing the canonical encoding of any request returns that request, whatever the client id, transactional
      id, acks and timeout around it. */
  lemma ParseInvertsEncode(e: Envelope, r: Request)
    requires ValidEnvelope(e) && Encodable(r)
    ensures Parse(Encode(e, r)) == Accepted(r)
  {
    hide ReadHeader, PutHeader, ReadClientId, PutClientId, ReadBody, PutBody;
    HeaderInverts(r.header, PutClientId(e, PutBody(e, r, [])));
    ClientIdInverts(e, PutBody(e, r, []));
    BodyInverts(e, r, []);
  }

  /** Every strict prefix of the encoding is refused. */
  lemma StrictPrefixRefused(e: Envelope, r: Request, k: nat)
    requires ValidEnvelope(e) && Encodable(r) && k < |Encode(e, r)|
    ensures Parse(Encode(e, r)[..k]) == Refused
  {
    hide ReadHeader, PutHeader, ReadClientId, PutClientId, ReadBody, PutBody, Encode;
    var all := Encode(e, r);
    var s, t := all[..k], all[k..];
    assert s + t == all && t != [];
    FrontExtends(s, t);
    EncodedFront(e, r);
    if ReadHeader(s).Some? {
      var s1 := ReadHeader(s).value.1;
      FrontExtends(s1, t);
      if ReadClientId(s1).Some? {
        var s2 := ReadClientId(s1).value.1;
        assert s2 + t == PutBody(e, r, []);
        NoShorterBody(e, r, s2, t);
      }
    }
  }

  lemma EncodedFront(e: Envelope, r: Request)
    requires ValidEnvelope(e) && Encodable(r)
    ensures ReadHeader(Encode(e, r)) == Some((r.header, PutClientId(e, PutBody(e, r, []))))
    ensures ReadClientId(PutClientId(e, PutBody(e, r, []))) == Some(((), PutBody(e, r, [])))
  {
    hide ReadHeader, PutHeader, ReadClientId, PutClientId, PutBody;
    HeaderInverts(r.header, PutClientId(e, PutBody(e, r, [])));
    ClientIdInverts(e, PutBody(e, r, []));
  }

  lemma NoShorterBody(e: Envelope, r: Request, s: bytes, t: bytes)
    requires ValidEnvelope(e) && Encodable(r) && s + t == PutBody(e, r, []) && t != []
    ensures ReadBody(r.header, s).None?
  {
    hide ReadBody, PutBody;
    BodyInverts(e, r, []);
    if ReadBody(r.header, s).Some? {
      BodyExtends(r.header, s, t);
    }
  }
}
