/** A frame determines every field sent in it: decoding inverts serialization, for all thirteen response kinds. */
module ResponseLaws {
  import opened Bytes
  import opened Wire
  import opened Protocol
  import opened Responses

  lemma TagLaws()
    ensures forall b: byte, rest: bytes {:trigger PutInt8(b, rest)} :: ReadByte(b, PutInt8(b, rest)) == Some(((), rest))
  {
    forall b: byte, rest: bytes { Int8Inverts(b, rest); }
  }

  /** Integer arrays, booleans and topic ids are read back. */
  lemma FieldLaws()
    ensures forall xs: seq<int32>, rest: bytes {:trigger PutInt32s(xs, rest)} :: Short(xs) ==> ReadInt32s(PutInt32s(xs, rest)) == Some((xs, rest))
    ensures forall b: bool, rest: bytes {:trigger PutBool(b, rest)} :: ReadBool(PutBool(b, rest)) == Some((b, rest))
    ensures forall u: Uuid, rest: bytes {:trigger PutUuid(u, rest)} :: ReadUuid(PutUuid(u, rest)) == Some((u, rest))
  {
    hide ReadInt32, PutInt32, ReadArray, PutArray, ReadInt8, PutInt8;
    InvertLaws();
    TagLaws();
    forall xs: seq<int32>, rest: bytes | Short(xs)
      ensures ReadInt32s(PutInt32s(xs, rest)) == Some((xs, rest))
    {
      ArrayInverts(PutInt32, ReadInt32, xs, rest);
    }
  }

  lemma ApiVersionInverts(x: ApiVersionEntry)
    ensures Inverts(PutApiVersion, ReadApiVersion, x)
  {
    hide ReadInt16, PutInt16, ReadByte, PutInt8;
    InvertLaws();
    TagLaws();
  }

  lemma DescribedPartitionInverts(x: PartitionMetadata)
    requires ShortPartition(x)
    ensures Inverts(PutDescribedPartition, ReadDescribedPartition, x)
  {
    hide ReadInt16, PutInt16, ReadInt32, PutInt32, ReadInt32s, PutInt32s, ReadByte, PutInt8;
    InvertLaws();
    TagLaws();
    FieldLaws();
  }

  lemma MetadataPartitionInverts(x: PartitionMetadata)
    requires ShortPartition(x)
    ensures Inverts(PutMetadataPartition, ReadMetadataPartition, x)
  {
    hide ReadInt16, PutInt16, ReadInt32, PutInt32, ReadInt32s, PutInt32s, ReadByte, PutInt8;
    InvertLaws();
    TagLaws();
    FieldLaws();
  }

  lemma VarintOneInverts()
    ensures forall rest: bytes {:trigger PutVarint(1, rest)} :: ReadVarint(PutVarint(1, rest)) == Some((1, rest))
  {
    hide ReadVarint, PutVarint;
    forall rest: bytes { VarintInverts(1, rest); }
  }

  lemma FetchPartitionInverts(x: FetchPartitionResponse)
    requires Short(x.records) && x.splice == None
    ensures Inverts(PutFetchPartition, ReadFetchPartition, x)
  {
    hide ReadInt16, PutInt16, ReadInt32, PutInt32, ReadInt64, PutInt64, ReadCompactString, PutCompactString,
         ReadVarint, PutVarint, ReadByte, PutInt8;
    InvertLaws();
    TagLaws();
    StringLaws();
    VarintOneInverts();
  }

  lemma BrokerInverts(x: MetadataBroker)
    requires Short(x.host) && Short(x.rack)
    ensures Inverts(PutBroker, ReadBroker, x)
  {
    hide ReadInt32, PutInt32, ReadCompactString, PutCompactString, ReadNullableString, PutNullableString, ReadByte, PutInt8;
    InvertLaws();
    TagLaws();
    StringLaws();
  }

  lemma CommitPartitionInverts(x: OffsetCommitPartitionResponse)
    requires Short(x.committedMetadata)
    ensures Inverts(PutCommitPartition, ReadCommitPartition, x)
  {
    hide ReadInt16, PutInt16, ReadInt32, PutInt32, ReadNullableString, PutNullableString, ReadByte, PutInt8;
    InvertLaws();
    TagLaws();
    StringLaws();
  }

  lemma OffsetPartitionInverts(x: OffsetFetchPartitionResponse)
    requires Short(x.committedMetadata)
    ensures Inverts(PutOffsetPartition, ReadOffsetPartition, x)
  {
    hide ReadInt16, PutInt16, ReadInt32, PutInt32, ReadInt64, PutInt64, ReadNullableString, PutNullableString, ReadByte,
         PutInt8;
    InvertLaws();
    TagLaws();
    StringLaws();
  }

  lemma ListPartitionInverts(x: ListOffsetsPartitionResponse)
    ensures Inverts(PutListPartition, ReadListPartition, x)
  {
    hide ReadInt16, PutInt16, ReadInt32, PutInt32, ReadInt64, PutInt64, ReadByte, PutInt8;
    InvertLaws();
    TagLaws();
  }

  lemma ProducePartitionInverts(x: ProducePartitionResponse)
    ensures Inverts(PutProducePartition, ReadProducePartition, x)
  {
    hide ReadInt16, PutInt16, ReadInt32, PutInt32, ReadInt64, PutInt64, ReadByte, PutInt8;
    InvertLaws();
    TagLaws();
  }

  lemma MemberInverts(x: JoinGroupMember)
    requires Short(x.memberId) && Short(x.metadata)
    ensures Inverts(PutMember, ReadMember, x)
  {
    hide ReadCompactString, PutCompactString, ReadByte, PutInt8;
    InvertLaws();
    TagLaws();
    StringLaws();
  }

  lemma DescribedTopicInverts(t: TopicMetadata)
    requires ShortTopic(t)
    ensures Inverts(PutDescribedTopic, ReadDescribedTopic, t)
  {
    hide ReadInt16, PutInt16, ReadInt32, PutInt32, ReadCompactString, PutCompactString, ReadBool, PutBool, ReadUuid,
         PutUuid, ReadArray, PutArray, ReadByte, PutInt8, ReadDescribedPartition, PutDescribedPartition;
    forall p | p in t.partitions ensures Inverts(PutDescribedPartition, ReadDescribedPartition, p) { DescribedPartitionInverts(p); }
    forall rest: bytes
      ensures ReadDescribedTopic(PutDescribedTopic(t, rest)) == Some((t, rest))
    {
      InvertLaws();
      TagLaws();
      StringLaws();
      FieldLaws();
      ArrayInverts(PutDescribedPartition, ReadDescribedPartition, t.partitions, PutInt32(t.authorizedOperations, PutTag(rest)));
    }
  }

  lemma MetadataTopicInverts(t: TopicMetadata)
    requires ShortTopic(t)
    ensures Inverts(PutMetadataTopic, ReadMetadataTopic, t)
  {
    hide ReadInt16, PutInt16, ReadInt32, PutInt32, ReadNullableString, PutNullableString, ReadBool, PutBool, ReadUuid,
         PutUuid, ReadArray, PutArray, ReadByte, PutInt8, ReadMetadataPartition, PutMetadataPartition;
    forall p | p in t.partitions ensures Inverts(PutMetadataPartition, ReadMetadataPartition, p) { MetadataPartitionInverts(p); }
    forall rest: bytes
      ensures ReadMetadataTopic(PutMetadataTopic(t, rest)) == Some((t, rest))
    {
      InvertLaws();
      TagLaws();
      StringLaws();
      FieldLaws();
      ArrayInverts(PutMetadataPartition, ReadMetadataPartition, t.partitions, PutInt32(t.authorizedOperations, PutTag(rest)));
    }
  }

  lemma FetchTopicInverts(t: FetchTopicResponse)
    requires Short(t.partitions) && forall p :: p in t.partitions ==> Short(p.records) && p.splice == None
    ensures Inverts(PutFetchTopic, ReadFetchTopic, t)
  {
    hide ReadBool, PutBool, ReadUuid, PutUuid, ReadArray, PutArray, ReadByte, PutInt8, ReadFetchPartition,
         PutFetchPartition;
    forall p | p in t.partitions ensures Inverts(PutFetchPartition, ReadFetchPartition, p) { FetchPartitionInverts(p); }
    forall rest: bytes
      ensures ReadFetchTopic(PutFetchTopic(t, rest)) == Some((t, rest))
    {
      InvertLaws();
      TagLaws();
      FieldLaws();
      ArrayInverts(PutFetchPartition, ReadFetchPartition, t.partitions, PutTag(rest));
    }
  }

  lemma CommitTopicInverts(t: OffsetCommitTopicResponse)
    requires Short(t.topicName) && Short(t.partitions) && forall p :: p in t.partitions ==> Short(p.committedMetadata)
    ensures Inverts(PutCommitTopic, ReadCommitTopic, t)
  {
    hide ReadCompactString, PutCompactString, ReadArray, PutArray, ReadByte, PutInt8, ReadCommitPartition,
         PutCommitPartition;
    forall p | p in t.partitions ensures Inverts(PutCommitPartition, ReadCommitPartition, p) { CommitPartitionInverts(p); }
    forall rest: bytes
      ensures ReadCommitTopic(PutCommitTopic(t, rest)) == Some((t, rest))
    {
      InvertLaws();
      TagLaws();
      StringLaws();
      ArrayInverts(PutCommitPartition, ReadCommitPartition, t.partitions, PutTag(rest));
    }
  }

  lemma OffsetTopicInverts(t: OffsetFetchTopicResponse)
    requires Short(t.topicName) && Short(t.partitions) && forall p :: p in t.partitions ==> Short(p.committedMetadata)
    ensures Inverts(PutOffsetTopic, ReadOffsetTopic, t)
  {
    hide ReadCompactString, PutCompactString, ReadArray, PutArray, ReadByte, PutInt8, ReadOffsetPartition,
         PutOffsetPartition;
    forall p | p in t.partitions ensures Inverts(PutOffsetPartition, ReadOffsetPartition, p) { OffsetPartitionInverts(p); }
    forall rest: bytes
      ensures ReadOffsetTopic(PutOffsetTopic(t, rest)) == Some((t, rest))
    {
      InvertLaws();
      TagLaws();
      StringLaws();
      ArrayInverts(PutOffsetPartition, ReadOffsetPartition, t.partitions, PutTag(rest));
    }
  }

  lemma ListTopicInverts(t: ListOffsetsTopicResponse)
    requires Short(t.topicName) && Short(t.partitions)
    ensures Inverts(PutListTopic, ReadListTopic, t)
  {
    hide ReadCompactString, PutCompactString, ReadArray, PutArray, ReadByte, PutInt8, ReadListPartition, PutListPartition;
    forall p | p in t.partitions ensures Inverts(PutListPartition, ReadListPartition, p) { ListPartitionInverts(p); }
    forall rest: bytes
      ensures ReadListTopic(PutListTopic(t, rest)) == Some((t, rest))
    {
      InvertLaws();
      TagLaws();
      StringLaws();
      ArrayInverts(PutListPartition, ReadListPartition, t.partitions, PutTag(rest));
    }
  }

  lemma ProduceTopicInverts(t: ProduceTopicResponse)
    requires Short(t.topicName) && Short(t.partitions)
    ensures Inverts(PutProduceTopic, ReadProduceTopic, t)
  {
    hide ReadCompactString, PutCompactString, ReadArray, PutArray, ReadByte, PutInt8, ReadProducePartition,
         PutProducePartition;
    forall p | p in t.partitions ensures Inverts(PutProducePartition, ReadProducePartition, p) { ProducePartitionInverts(p); }
    forall rest: bytes
      ensures ReadProduceTopic(PutProduceTopic(t, rest)) == Some((t, rest))
    {
      InvertLaws();
      TagLaws();
      StringLaws();
      ArrayInverts(PutProducePartition, ReadProducePartition, t.partitions, PutTag(rest));
    }
  }

  lemma ApiVersionsInverts(r: Response, rest: bytes)
    requires r.ApiVersionsResponse? && Decodable(r)
    ensures ReadResponse(ApiVersions, PutBody(r, rest)) == Some((r, rest))
  {
    hide ReadInt16, PutInt16, ReadInt32, PutInt32, ReadByte, PutInt8, ReadApiVersion, PutApiVersion, ReadArray, PutArray;
    forall x | x in r.apiKeys ensures Inverts(PutApiVersion, ReadApiVersion, x) { ApiVersionInverts(x); }
    InvertLaws();
    TagLaws();
    ArrayInverts(PutApiVersion, ReadApiVersion, r.apiKeys, PutInt32(r.throttleTimeMs, PutTag(rest)));
  }

  lemma DescribeTopicPartitionsInverts(r: Response, rest: bytes)
    requires r.DescribeTopicPartitionsResponse? && Decodable(r)
    ensures ReadResponse(DescribeTopicPartitions, PutBody(r, rest)) == Some((r, rest))
  {
    hide ReadInt32, PutInt32, ReadByte, PutInt8, ReadDescribedTopic, PutDescribedTopic, ReadArray, PutArray;
    forall x | x in r.topics ensures Inverts(PutDescribedTopic, ReadDescribedTopic, x) { DescribedTopicInverts(x); }
    InvertLaws();
    TagLaws();
    ArrayInverts(PutDescribedTopic, ReadDescribedTopic, r.topics, PutInt8(0xFF, PutTag(rest)));
  }

  lemma FetchInverts(r: Response, rest: bytes)
    requires r.FetchResponse? && Decodable(r) && Sent(r) == r
    ensures ReadResponse(Fetch, PutBody(r, rest)) == Some((r, rest))
  {
    hide ReadInt16, PutInt16, ReadInt32, PutInt32, ReadByte, PutInt8, ReadFetchTopic, PutFetchTopic, ReadArray, PutArray;
    forall x | x in r.fetchResponses ensures Inverts(PutFetchTopic, ReadFetchTopic, x) { FetchTopicInverts(x); }
    InvertLaws();
    TagLaws();
    ArrayInverts(PutFetchTopic, ReadFetchTopic, r.fetchResponses, PutTag(rest));
  }

  lemma FindCoordinatorInverts(r: Response, rest: bytes)
    requires r.FindCoordinatorResponse? && Decodable(r)
    ensures ReadResponse(FindCoordinator, PutBody(r, rest)) == Some((r, rest))
  {
    hide ReadInt16, PutInt16, ReadCompactString, PutCompactString, ReadNullableString, PutNullableString, ReadInt32,
         PutInt32, ReadByte, PutInt8;
    InvertLaws();
    TagLaws();
    StringLaws();
  }

  lemma HeartbeatInverts(r: Response, rest: bytes)
    requires r.HeartbeatResponse? && Decodable(r)
    ensures ReadResponse(Heartbeat, PutBody(r, rest)) == Some((r, rest))
  {
    hide ReadInt16, PutInt16, ReadInt32, PutInt32, ReadByte, PutInt8;
    InvertLaws();
    TagLaws();
  }

  lemma JoinGroupInverts(r: Response, rest: bytes)
    requires r.JoinGroupResponse? && Decodable(r)
    ensures ReadResponse(JoinGroup, PutBody(r, rest)) == Some((r, rest))
  {
    hide ReadInt16, PutInt16, ReadCompactString, PutCompactString, ReadNullableString, PutNullableString, ReadInt32,
         PutInt32, ReadByte, PutInt8, ReadMember, PutMember, ReadArray, PutArray;
    forall x | x in r.members ensures Inverts(PutMember, ReadMember, x) { MemberInverts(x); }
    InvertLaws();
    TagLaws();
    StringLaws();
    ArrayInverts(PutMember, ReadMember, r.members, PutTag(rest));
  }

  lemma LeaveGroupInverts(r: Response, rest: bytes)
    requires r.LeaveGroupResponse? && Decodable(r)
    ensures ReadResponse(LeaveGroup, PutBody(r, rest)) == Some((r, rest))
  {
    hide ReadInt16, PutInt16, ReadInt32, PutInt32, ReadByte, PutInt8;
    InvertLaws();
    TagLaws();
  }

  lemma ListOffsetsInverts(r: Response, rest: bytes)
    requires r.ListOffsetsResponse? && Decodable(r)
    ensures ReadResponse(ListOffsets, PutBody(r, rest)) == Some((r, rest))
  {
    hide ReadInt32, PutInt32, ReadByte, PutInt8, ReadListTopic, PutListTopic, ReadArray, PutArray;
    forall x | x in r.listTopics ensures Inverts(PutListTopic, ReadListTopic, x) { ListTopicInverts(x); }
    InvertLaws();
    TagLaws();
    ArrayInverts(PutListTopic, ReadListTopic, r.listTopics, PutTag(rest));
  }

  lemma MetadataInverts(r: Response, rest: bytes)
    requires r.MetadataResponse? && Decodable(r)
    ensures ReadResponse(Metadata, PutBody(r, rest)) == Some((r, rest))
  {
    hide ReadNullableString, PutNullableString, ReadInt32, PutInt32, ReadByte, PutInt8, ReadBroker, PutBroker,
         ReadMetadataTopic, PutMetadataTopic, ReadArray, PutArray;
    forall x | x in r.brokers ensures Inverts(PutBroker, ReadBroker, x) { BrokerInverts(x); }
    forall x | x in r.topics ensures Inverts(PutMetadataTopic, ReadMetadataTopic, x) { MetadataTopicInverts(x); }
    InvertLaws();
    TagLaws();
    StringLaws();
    ArrayInverts(PutBroker, ReadBroker, r.brokers, PutNullableString(r.clusterId, PutInt32(r.controllerId, PutArray(PutMetadataTopic, r.topics, PutInt32(r.clusterAuthorizedOperations, PutTag(rest))))));
    ArrayInverts(PutMetadataTopic, ReadMetadataTopic, r.topics, PutInt32(r.clusterAuthorizedOperations, PutTag(rest)));
  }

  lemma OffsetCommitInverts(r: Response, rest: bytes)
    requires r.OffsetCommitResponse? && Decodable(r)
    ensures ReadResponse(OffsetCommit, PutBody(r, rest)) == Some((r, rest))
  {
    hide ReadInt32, PutInt32, ReadByte, PutInt8, ReadCommitTopic, PutCommitTopic, ReadArray, PutArray;
    forall x | x in r.commitTopics ensures Inverts(PutCommitTopic, ReadCommitTopic, x) { CommitTopicInverts(x); }
    InvertLaws();
    TagLaws();
    ArrayInverts(PutCommitTopic, ReadCommitTopic, r.commitTopics, PutTag(rest));
  }

  lemma OffsetFetchInverts(r: Response, rest: bytes)
    requires r.OffsetFetchResponse? && Decodable(r)
    ensures ReadResponse(OffsetFetch, PutBody(r, rest)) == Some((r, rest))
  {
    hide ReadInt32, PutInt32, ReadByte, PutInt8, ReadOffsetTopic, PutOffsetTopic, ReadArray, PutArray;
    forall x | x in r.offsetTopics ensures Inverts(PutOffsetTopic, ReadOffsetTopic, x) { OffsetTopicInverts(x); }
    InvertLaws();
    TagLaws();
    ArrayInverts(PutOffsetTopic, ReadOffsetTopic, r.offsetTopics, PutTag(rest));
  }

  lemma ProduceInverts(r: Response, rest: bytes)
    requires r.ProduceResponse? && Decodable(r)
    ensures ReadResponse(Produce, PutBody(r, rest)) == Some((r, rest))
  {
    hide ReadInt32, PutInt32, ReadByte, PutInt8, ReadProduceTopic, PutProduceTopic, ReadArray, PutArray;
    forall x | x in r.produceResponses ensures Inverts(PutProduceTopic, ReadProduceTopic, x) { ProduceTopicInverts(x); }
    InvertLaws();
    TagLaws();
    ArrayInverts(PutProduceTopic, ReadProduceTopic, r.produceResponses, PutInt32(r.throttleTimeMs, PutTag(rest)));
  }

  lemma SyncGroupInverts(r: Response, rest: bytes)
    requires r.SyncGroupResponse? && Decodable(r)
    ensures ReadResponse(SyncGroup, PutBody(r, rest)) == Some((r, rest))
  {
    hide ReadInt16, PutInt16, ReadCompactString, PutCompactString, ReadNullableString, PutNullableString, ReadInt32,
         PutInt32, ReadByte, PutInt8;
    InvertLaws();
    TagLaws();
    StringLaws();
  }

  lemma BodyInverts(r: Response, rest: bytes)
    requires Decodable(r) && Sent(r) == r
    ensures ReadResponse(KindOf(r), PutBody(r, rest)) == Some((r, rest))
  {
    hide PutBody, ReadResponse;
    match r {
      case ApiVersionsResponse(_, _, _, _) => ApiVersionsInverts(r, rest);
      case DescribeTopicPartitionsResponse(_, _, _) => DescribeTopicPartitionsInverts(r, rest);
      case FetchResponse(_, _, _, _, _) => FetchInverts(r, rest);
      case FindCoordinatorResponse(_, _, _, _, _, _, _) => FindCoordinatorInverts(r, rest);
      case HeartbeatResponse(_, _, _) => HeartbeatInverts(r, rest);
      case JoinGroupResponse(_, _, _, _, _, _, _, _) => JoinGroupInverts(r, rest);
      case LeaveGroupResponse(_, _, _) => LeaveGroupInverts(r, rest);
      case ListOffsetsResponse(_, _, _) => ListOffsetsInverts(r, rest);
      case MetadataResponse(_, _, _, _, _, _, _) => MetadataInverts(r, rest);
      case OffsetCommitResponse(_, _, _) => OffsetCommitInverts(r, rest);
      case OffsetFetchResponse(_, _, _) => OffsetFetchInverts(r, rest);
      case ProduceResponse(_, _, _) => ProduceInverts(r, rest);
      case SyncGroupResponse(_, _, _, _, _, _) => SyncGroupInverts(r, rest);
    }
  }

  // ================ the splice fields are not sent ================

  /** Items written alike one by one are written alike together. */
  lemma {:induction false} SameItems<T>(put: (T, bytes) -> bytes, xs: seq<T>, ys: seq<T>, rest: bytes)
    requires |xs| == |ys| && forall i, tail :: 0 <= i < |xs| ==> put(xs[i], tail) == put(ys[i], tail)
    ensures PutItems(put, xs, rest) == PutItems(put, ys, rest)
  {
    if xs != [] {
      SameItems(put, xs[1..], ys[1..], rest);
    }
  }

  lemma SentTopicSame(t: FetchTopicResponse, rest: bytes)
    ensures PutFetchTopic(SentTopic(t), rest) == PutFetchTopic(t, rest)
  {
    hide PutVarint, PutItems, PutInt32, PutInt16, PutInt64, PutCompactString, PutInt8;
    SameItems(PutFetchPartition, SentTopic(t).partitions, t.partitions, PutTag(rest));
  }

  lemma SentSame(r: Response)
    ensures PutBody(Sent(r), []) == PutBody(r, [])
  {
    hide PutVarint, PutItems, PutFetchTopic, SentTopic, PutInt32, PutInt16, PutInt8;
    if r.FetchResponse? {
      var xs, ys := Sent(r).fetchResponses, r.fetchResponses;
      forall i, tail | 0 <= i < |xs| ensures PutFetchTopic(xs[i], tail) == PutFetchTopic(ys[i], tail) { SentTopicSame(ys[i], tail); }
      SameItems(PutFetchTopic, xs, ys, PutTag([]));
    }
  }

  lemma SentDecodable(r: Response)
    requires Decodable(r)
    ensures Decodable(Sent(r)) && Sent(Sent(r)) == Sent(r)
  {
    if r.FetchResponse? {
      var ts := r.fetchResponses;
      forall i | 0 <= i < |ts|
        ensures SentTopic(SentTopic(ts[i])) == SentTopic(ts[i]) && Short(SentTopic(ts[i]).partitions)
        ensures forall p :: p in SentTopic(ts[i]).partitions ==> Short(p.records)
      {
        assert ts[i] in ts;
      }
      assert Sent(Sent(r)).fetchResponses == Sent(r).fetchResponses;
    }
  }

  // ================ the theorems ================

  /** A client that knows which response it awaits recovers every field sent, at every depth. */
  lemma DecodeInvertsBody(r: Response)
    requires Decodable(r)
    ensures DecodeBody(KindOf(r), PutBody(r, [])) == Some(Sent(r))
  {
    hide PutBody, ReadResponse, Decodable, SentTopic;
    SentSame(r);
    SentDecodable(r);
    BodyInverts(Sent(r), []);
  }

  lemma DecodeInvertsFrame(r: Response)
    requires Decodable(r)
    ensures Decode(KindOf(r), Frame(r)) == Some(Sent(r))
  {
    hide PutBody, DecodeBody, Decodable, Sent, ReadInt32, PutInt32;
    InvertLaws();
    TagLaws();
    DecodeInvertsBody(r);
  }

  /** Two responses of one kind share a frame only when they agree on everything but the splice fields. */
  lemma FrameInjective(r: Response, q: Response)
    requires Decodable(r) && Decodable(q) && KindOf(r) == KindOf(q)
    ensures Frame(r) == Frame(q) <==> Sent(r) == Sent(q)
  {
    hide Decode, PutBody, Decodable, SentTopic;
    DecodeInvertsFrame(r);
    DecodeInvertsFrame(q);
    SentSame(r);
    SentSame(q);
  }

  /** The kind is not in the frame: a heartbeat and a leave-group response can share one. */
  lemma KindIsNotInTheFrame(id: int32, throttle: int32, error: int16)
    ensures Frame(HeartbeatResponse(id, throttle, error)) == Frame(LeaveGroupResponse(id, throttle, error))
    ensures Sent(HeartbeatResponse(id, throttle, error)) != Sent(LeaveGroupResponse(id, throttle, error))
  {
  }
}
