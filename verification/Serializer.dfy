/** The second traversal of `serialize` (src/protocol/serializer.cpp): it writes into a buffer of exactly the size the
    first one computed.  `rest` is what the frame still holds behind the part being written. */
module Serializer {
  import opened Bytes
  import opened Varint
  import opened Wire
  import opened Cursor
  import opened Protocol
  import opened Responses
  import opened SizePass

  method WriteNullable(w: ByteWriter, s: bytes, ghost rest: bytes)
    requires w.Valid() && w.Pending() == Some(PutNullableString(s, rest))
    modifies w`offset, w.data
    ensures w.Valid() && w.Pending() == Some(rest)
  {
    hide PutInt8, PutInt16, PutInt32, PutInt64, PutBytes, PutVarint, PutCompactString, VarintSize, Count;
    PutSizes();
    if s == [] {
      w.WriteVarint(0);
    } else {
      w.WriteCompactString(s);
    }
  }

  lemma PutNothing(b: bytes, rest: bytes)
    ensures b == [] ==> PutBytes(b, rest) == rest
  {
  }

  method WriteCompactBytes(w: ByteWriter, b: bytes, ghost rest: bytes)
    requires w.Valid() && w.Pending() == Some(PutCompactString(b, rest))
    modifies w`offset, w.data
    ensures w.Valid() && w.Pending() == Some(rest)
  {
    hide PutInt8, PutInt16, PutInt32, PutInt64, PutBytes, PutVarint, PutNullableString, VarintSize, Count;
    PutSizes();
    assert b == [] ==> PutBytes(b, rest) == rest by { PutNothing(b, rest); }
    w.WriteVarint(Count(|b|));
    if b != [] {
      w.WriteBytes(b);
    }
  }

  method WriteInt32s(w: ByteWriter, xs: seq<int32>, ghost rest: bytes)
    requires w.Valid() && w.Pending() == Some(PutInt32s(xs, rest))
    modifies w`offset, w.data
    ensures w.Valid() && w.Pending() == Some(rest)
  {
    hide PutInt8, PutInt16, PutInt32, PutInt64, PutBytes, PutVarint, PutCompactString, PutNullableString, VarintSize,
         Count, PutItems;
    PutSizes();
    w.WriteVarint(Count(|xs|));
    PutItemsEnds(PutInt32, xs, rest);
    for i := 0 to |xs|
      invariant w.Valid() && w.Pending() == Some(PutItems(PutInt32, xs[i..], rest))
    {
      PutItemsStep(PutInt32, xs, i, rest);
      w.WriteInt32(xs[i]);
    }
  }

  method WriteDescribedPartition(w: ByteWriter, p: PartitionMetadata, ghost rest: bytes)
    requires w.Valid() && w.Pending() == Some(PutDescribedPartition(p, rest))
    modifies w`offset, w.data
    ensures w.Valid() && w.Pending() == Some(rest)
  {
    hide PutInt8, PutInt16, PutInt32, PutInt64, PutBytes, PutVarint, PutCompactString, PutNullableString, VarintSize,
         Count, PutItems, PutInt32s;
    PutSizes();
    w.WriteInt16(p.errorCode);
    w.WriteInt32(p.partitionIndex);
    w.WriteInt32(p.leaderId);
    w.WriteInt32(p.leaderEpoch);
    WriteInt32s(w, p.replicaNodes,
      PutInt32s(p.isrNodes, PutInt32s(p.eligibleLeaderReplicas, PutInt32s(p.lastKnownElr, PutInt32s(p.offlineReplicas, PutTag(rest))))));
    WriteInt32s(w, p.isrNodes,
      PutInt32s(p.eligibleLeaderReplicas, PutInt32s(p.lastKnownElr, PutInt32s(p.offlineReplicas, PutTag(rest)))));
    WriteInt32s(w, p.eligibleLeaderReplicas, PutInt32s(p.lastKnownElr, PutInt32s(p.offlineReplicas, PutTag(rest))));
    WriteInt32s(w, p.lastKnownElr, PutInt32s(p.offlineReplicas, PutTag(rest)));
    WriteInt32s(w, p.offlineReplicas, PutTag(rest));
    w.WriteInt8(0);
  }

  method WriteMetadataPartition(w: ByteWriter, p: PartitionMetadata, ghost rest: bytes)
    requires w.Valid() && w.Pending() == Some(PutMetadataPartition(p, rest))
    modifies w`offset, w.data
    ensures w.Valid() && w.Pending() == Some(rest)
  {
    hide PutInt8, PutInt16, PutInt32, PutInt64, PutBytes, PutVarint, PutCompactString, PutNullableString, VarintSize,
         Count, PutItems, PutInt32s;
    PutSizes();
    w.WriteInt16(p.errorCode);
    w.WriteInt32(p.partitionIndex);
    w.WriteInt32(p.leaderId);
    w.WriteInt32(p.leaderEpoch);
    WriteInt32s(w, p.replicaNodes,
      PutInt32s(p.isrNodes, PutInt32s(p.offlineReplicas, PutInt32s(p.eligibleLeaderReplicas, PutInt32s(p.lastKnownElr, PutTag(rest))))));
    WriteInt32s(w, p.isrNodes,
      PutInt32s(p.offlineReplicas, PutInt32s(p.eligibleLeaderReplicas, PutInt32s(p.lastKnownElr, PutTag(rest)))));
    WriteInt32s(w, p.offlineReplicas, PutInt32s(p.eligibleLeaderReplicas, PutInt32s(p.lastKnownElr, PutTag(rest))));
    WriteInt32s(w, p.eligibleLeaderReplicas, PutInt32s(p.lastKnownElr, PutTag(rest)));
    WriteInt32s(w, p.lastKnownElr, PutTag(rest));
    w.WriteInt8(0);
  }

  /** An empty compact array is the single byte 1. */
  lemma EmptyArray<T>(put: (T, bytes) -> bytes, rest: bytes)
    ensures PutArray(put, [], rest) == PutInt8(1, rest)
  {
    assert EncodeVarint(1) == [1];
  }

  method WriteDescribedPartitions(w: ByteWriter, xs: seq<PartitionMetadata>, ghost rest: bytes)
    requires w.Valid() && w.Pending() == Some(PutArray(PutDescribedPartition, xs, rest))
    modifies w`offset, w.data
    ensures w.Valid() && w.Pending() == Some(rest)
  {
    hide PutVarint, VarintSize, Count, PutItems, PutDescribedPartition;
    PutSizes();
    w.WriteVarint(Count(|xs|));
    PutItemsEnds(PutDescribedPartition, xs, rest);
    for i := 0 to |xs|
      invariant w.Valid() && w.Pending() == Some(PutItems(PutDescribedPartition, xs[i..], rest))
    {
      PutItemsStep(PutDescribedPartition, xs, i, rest);
      WriteDescribedPartition(w, xs[i], PutItems(PutDescribedPartition, xs[i + 1..], rest));
    }
  }

  method WriteDescribedTopic(w: ByteWriter, t: TopicMetadata, ghost rest: bytes)
    requires w.Valid() && w.Pending() == Some(PutDescribedTopic(t, rest))
    modifies w`offset, w.data
    ensures w.Valid() && w.Pending() == Some(rest)
  {
    hide PutInt8, PutInt16, PutInt32, PutInt64, PutBytes, PutVarint, PutCompactString, PutNullableString, VarintSize,
         Count, PutArray, PutDescribedPartition;
    PutSizes();
    w.WriteInt16(t.errorCode);
    w.WriteCompactString(t.topicName);
    w.WriteBytes(t.topicId);
    w.WriteInt8(if t.isInternal then 1 else 0);
    if t.partitions == [] {
      EmptyArray(PutDescribedPartition, PutInt32(t.authorizedOperations, PutTag(rest)));
      w.WriteInt8(1);
    } else {
      WriteDescribedPartitions(w, t.partitions, PutInt32(t.authorizedOperations, PutTag(rest)));
    }
    w.WriteInt32(t.authorizedOperations);
    w.WriteInt8(0);
  }

  method WriteMetadataPartitions(w: ByteWriter, xs: seq<PartitionMetadata>, ghost rest: bytes)
    requires w.Valid() && w.Pending() == Some(PutArray(PutMetadataPartition, xs, rest))
    modifies w`offset, w.data
    ensures w.Valid() && w.Pending() == Some(rest)
  {
    hide PutVarint, VarintSize, Count, PutItems, PutMetadataPartition;
    PutSizes();
    w.WriteVarint(Count(|xs|));
    PutItemsEnds(PutMetadataPartition, xs, rest);
    for i := 0 to |xs|
      invariant w.Valid() && w.Pending() == Some(PutItems(PutMetadataPartition, xs[i..], rest))
    {
      PutItemsStep(PutMetadataPartition, xs, i, rest);
      WriteMetadataPartition(w, xs[i], PutItems(PutMetadataPartition, xs[i + 1..], rest));
    }
  }

  method WriteMetadataTopic(w: ByteWriter, t: TopicMetadata, ghost rest: bytes)
    requires w.Valid() && w.Pending() == Some(PutMetadataTopic(t, rest))
    modifies w`offset, w.data
    ensures w.Valid() && w.Pending() == Some(rest)
  {
    hide PutInt8, PutInt16, PutInt32, PutInt64, PutBytes, PutVarint, PutCompactString, PutNullableString, VarintSize,
         Count, PutArray, PutMetadataPartition;
    PutSizes();
    w.WriteInt16(t.errorCode);
    WriteNullable(w, t.topicName, PutUuid(t.topicId, PutBool(t.isInternal, PutArray(PutMetadataPartition, t.partitions, PutInt32(t.authorizedOperations, PutTag(rest))))));
    w.WriteBytes(t.topicId);
    w.WriteInt8(if t.isInternal then 1 else 0);
    WriteMetadataPartitions(w, t.partitions, PutInt32(t.authorizedOperations, PutTag(rest)));
    w.WriteInt32(t.authorizedOperations);
    w.WriteInt8(0);
  }

  method WriteFetchPartition(w: ByteWriter, p: FetchPartitionResponse, ghost rest: bytes)
    requires w.Valid() && w.Pending() == Some(PutFetchPartition(p, rest))
    modifies w`offset, w.data
    ensures w.Valid() && w.Pending() == Some(rest)
  {
    hide PutInt8, PutInt16, PutInt32, PutInt64, PutBytes, PutVarint, PutCompactString, PutNullableString, VarintSize,
         Count;
    PutSizes();
    w.WriteInt32(p.partitionIndex);
    w.WriteInt16(p.errorCode);
    w.WriteInt64(0);
    w.WriteInt64(0);
    w.WriteInt64(0);
    w.WriteVarint(1);
    w.WriteInt32(0);
    WriteCompactBytes(w, p.records, PutTag(rest));
    w.WriteInt8(0);
  }

  method WriteFetchPartitions(w: ByteWriter, xs: seq<FetchPartitionResponse>, ghost rest: bytes)
    requires w.Valid() && w.Pending() == Some(PutArray(PutFetchPartition, xs, rest))
    modifies w`offset, w.data
    ensures w.Valid() && w.Pending() == Some(rest)
  {
    hide PutVarint, VarintSize, Count, PutItems, PutFetchPartition;
    PutSizes();
    w.WriteVarint(Count(|xs|));
    PutItemsEnds(PutFetchPartition, xs, rest);
    for i := 0 to |xs|
      invariant w.Valid() && w.Pending() == Some(PutItems(PutFetchPartition, xs[i..], rest))
    {
      PutItemsStep(PutFetchPartition, xs, i, rest);
      WriteFetchPartition(w, xs[i], PutItems(PutFetchPartition, xs[i + 1..], rest));
    }
  }

  method WriteFetchTopic(w: ByteWriter, t: FetchTopicResponse, ghost rest: bytes)
    requires w.Valid() && w.Pending() == Some(PutFetchTopic(t, rest))
    modifies w`offset, w.data
    ensures w.Valid() && w.Pending() == Some(rest)
  {
    hide PutInt8, PutInt16, PutInt32, PutInt64, PutBytes, PutVarint, PutCompactString, PutNullableString, VarintSize,
         Count, PutArray, PutFetchPartition;
    PutSizes();
    w.WriteBytes(t.topicId);
    WriteFetchPartitions(w, t.partitions, PutTag(rest));
    w.WriteInt8(0);
  }

  method WriteCommitPartition(w: ByteWriter, p: OffsetCommitPartitionResponse, ghost rest: bytes)
    requires w.Valid() && w.Pending() == Some(PutCommitPartition(p, rest))
    modifies w`offset, w.data
    ensures w.Valid() && w.Pending() == Some(rest)
  {
    hide PutInt8, PutInt16, PutInt32, PutInt64, PutBytes, PutVarint, PutCompactString, PutNullableString, VarintSize,
         Count;
    PutSizes();
    w.WriteInt32(p.partitionIndex);
    w.WriteInt16(p.errorCode);
    w.WriteInt32(p.committedLeaderEpoch);
    WriteNullable(w, p.committedMetadata, PutTag(rest));
    w.WriteInt8(0);
  }

  method WriteCommitPartitions(w: ByteWriter, xs: seq<OffsetCommitPartitionResponse>, ghost rest: bytes)
    requires w.Valid() && w.Pending() == Some(PutArray(PutCommitPartition, xs, rest))
    modifies w`offset, w.data
    ensures w.Valid() && w.Pending() == Some(rest)
  {
    hide PutVarint, VarintSize, Count, PutItems, PutCommitPartition;
    PutSizes();
    w.WriteVarint(Count(|xs|));
    PutItemsEnds(PutCommitPartition, xs, rest);
    for i := 0 to |xs|
      invariant w.Valid() && w.Pending() == Some(PutItems(PutCommitPartition, xs[i..], rest))
    {
      PutItemsStep(PutCommitPartition, xs, i, rest);
      WriteCommitPartition(w, xs[i], PutItems(PutCommitPartition, xs[i + 1..], rest));
    }
  }

  method WriteCommitTopic(w: ByteWriter, t: OffsetCommitTopicResponse, ghost rest: bytes)
    requires w.Valid() && w.Pending() == Some(PutCommitTopic(t, rest))
    modifies w`offset, w.data
    ensures w.Valid() && w.Pending() == Some(rest)
  {
    hide PutInt8, PutInt16, PutInt32, PutInt64, PutBytes, PutVarint, PutCompactString, PutNullableString, VarintSize,
         Count, PutArray, PutCommitPartition;
    PutSizes();
    w.WriteCompactString(t.topicName);
    WriteCommitPartitions(w, t.partitions, PutTag(rest));
    w.WriteInt8(0);
  }

  method WriteOffsetPartition(w: ByteWriter, p: OffsetFetchPartitionResponse, ghost rest: bytes)
    requires w.Valid() && w.Pending() == Some(PutOffsetPartition(p, rest))
    modifies w`offset, w.data
    ensures w.Valid() && w.Pending() == Some(rest)
  {
    hide PutInt8, PutInt16, PutInt32, PutInt64, PutBytes, PutVarint, PutCompactString, PutNullableString, VarintSize,
         Count;
    PutSizes();
    w.WriteInt32(p.partitionIndex);
    w.WriteInt64(p.committedOffset);
    w.WriteInt32(p.committedLeaderEpoch);
    WriteNullable(w, p.committedMetadata, PutInt16(p.errorCode, PutTag(rest)));
    w.WriteInt16(p.errorCode);
    w.WriteInt8(0);
  }

  method WriteOffsetPartitions(w: ByteWriter, xs: seq<OffsetFetchPartitionResponse>, ghost rest: bytes)
    requires w.Valid() && w.Pending() == Some(PutArray(PutOffsetPartition, xs, rest))
    modifies w`offset, w.data
    ensures w.Valid() && w.Pending() == Some(rest)
  {
    hide PutVarint, VarintSize, Count, PutItems, PutOffsetPartition;
    PutSizes();
    w.WriteVarint(Count(|xs|));
    PutItemsEnds(PutOffsetPartition, xs, rest);
    for i := 0 to |xs|
      invariant w.Valid() && w.Pending() == Some(PutItems(PutOffsetPartition, xs[i..], rest))
    {
      PutItemsStep(PutOffsetPartition, xs, i, rest);
      WriteOffsetPartition(w, xs[i], PutItems(PutOffsetPartition, xs[i + 1..], rest));
    }
  }

  method WriteOffsetTopic(w: ByteWriter, t: OffsetFetchTopicResponse, ghost rest: bytes)
    requires w.Valid() && w.Pending() == Some(PutOffsetTopic(t, rest))
    modifies w`offset, w.data
    ensures w.Valid() && w.Pending() == Some(rest)
  {
    hide PutInt8, PutInt16, PutInt32, PutInt64, PutBytes, PutVarint, PutCompactString, PutNullableString, VarintSize,
         Count, PutArray, PutOffsetPartition;
    PutSizes();
    w.WriteCompactString(t.topicName);
    WriteOffsetPartitions(w, t.partitions, PutTag(rest));
    w.WriteInt8(0);
  }

  method WriteListPartition(w: ByteWriter, p: ListOffsetsPartitionResponse, ghost rest: bytes)
    requires w.Valid() && w.Pending() == Some(PutListPartition(p, rest))
    modifies w`offset, w.data
    ensures w.Valid() && w.Pending() == Some(rest)
  {
    hide PutInt8, PutInt16, PutInt32, PutInt64, PutBytes, PutVarint, PutCompactString, PutNullableString, VarintSize,
         Count;
    PutSizes();
    w.WriteInt32(p.partitionIndex);
    w.WriteInt16(p.errorCode);
    w.WriteInt64(p.offset);
    w.WriteInt64(p.timestamp);
    w.WriteInt8(0);
  }

  method WriteListPartitions(w: ByteWriter, xs: seq<ListOffsetsPartitionResponse>, ghost rest: bytes)
    requires w.Valid() && w.Pending() == Some(PutArray(PutListPartition, xs, rest))
    modifies w`offset, w.data
    ensures w.Valid() && w.Pending() == Some(rest)
  {
    hide PutVarint, VarintSize, Count, PutItems, PutListPartition;
    PutSizes();
    w.WriteVarint(Count(|xs|));
    PutItemsEnds(PutListPartition, xs, rest);
    for i := 0 to |xs|
      invariant w.Valid() && w.Pending() == Some(PutItems(PutListPartition, xs[i..], rest))
    {
      PutItemsStep(PutListPartition, xs, i, rest);
      WriteListPartition(w, xs[i], PutItems(PutListPartition, xs[i + 1..], rest));
    }
  }

  method WriteListTopic(w: ByteWriter, t: ListOffsetsTopicResponse, ghost rest: bytes)
    requires w.Valid() && w.Pending() == Some(PutListTopic(t, rest))
    modifies w`offset, w.data
    ensures w.Valid() && w.Pending() == Some(rest)
  {
    hide PutInt8, PutInt16, PutInt32, PutInt64, PutBytes, PutVarint, PutCompactString, PutNullableString, VarintSize,
         Count, PutArray, PutListPartition;
    PutSizes();
    w.WriteCompactString(t.topicName);
    WriteListPartitions(w, t.partitions, PutTag(rest));
    w.WriteInt8(0);
  }

  method WriteProducePartition(w: ByteWriter, p: ProducePartitionResponse, ghost rest: bytes)
    requires w.Valid() && w.Pending() == Some(PutProducePartition(p, rest))
    modifies w`offset, w.data
    ensures w.Valid() && w.Pending() == Some(rest)
  {
    hide PutInt8, PutInt16, PutInt32, PutInt64, PutBytes, PutVarint, PutCompactString, PutNullableString, VarintSize,
         Count;
    PutSizes();
    w.WriteInt32(p.partitionIndex);
    w.WriteInt16(p.errorCode);
    w.WriteInt64(p.baseOffset);
    w.WriteInt64(p.logAppendTimeMs);
    w.WriteInt64(p.logStartOffset);
    w.WriteInt8(1);
    w.WriteInt8(0);
    w.WriteInt8(0);
  }

  method WriteProducePartitions(w: ByteWriter, xs: seq<ProducePartitionResponse>, ghost rest: bytes)
    requires w.Valid() && w.Pending() == Some(PutArray(PutProducePartition, xs, rest))
    modifies w`offset, w.data
    ensures w.Valid() && w.Pending() == Some(rest)
  {
    hide PutVarint, VarintSize, Count, PutItems, PutProducePartition;
    PutSizes();
    w.WriteVarint(Count(|xs|));
    PutItemsEnds(PutProducePartition, xs, rest);
    for i := 0 to |xs|
      invariant w.Valid() && w.Pending() == Some(PutItems(PutProducePartition, xs[i..], rest))
    {
      PutItemsStep(PutProducePartition, xs, i, rest);
      WriteProducePartition(w, xs[i], PutItems(PutProducePartition, xs[i + 1..], rest));
    }
  }

  method WriteProduceTopic(w: ByteWriter, t: ProduceTopicResponse, ghost rest: bytes)
    requires w.Valid() && w.Pending() == Some(PutProduceTopic(t, rest))
    modifies w`offset, w.data
    ensures w.Valid() && w.Pending() == Some(rest)
  {
    hide PutInt8, PutInt16, PutInt32, PutInt64, PutBytes, PutVarint, PutCompactString, PutNullableString, VarintSize,
         Count, PutArray, PutProducePartition;
    PutSizes();
    w.WriteCompactString(t.topicName);
    WriteProducePartitions(w, t.partitions, PutTag(rest));
    w.WriteInt8(0);
  }

  /** The response header and the throttle time. */
  method WriteFront(w: ByteWriter, id: int32, throttle: int32, ghost rest: bytes)
    requires w.Valid() && w.Pending() == Some(PutHeader(id, PutInt32(throttle, rest)))
    modifies w`offset, w.data
    ensures w.Valid() && w.Pending() == Some(rest)
  {
    hide PutInt8, PutInt16, PutInt32, PutInt64, PutBytes, PutVarint, PutCompactString, PutNullableString, VarintSize,
         Count;
    PutSizes();
    w.WriteInt32(id);
    w.WriteInt8(0);
    w.WriteInt32(throttle);
  }

  method WriteApiVersion(w: ByteWriter, e: ApiVersionEntry, ghost rest: bytes)
    requires w.Valid() && w.Pending() == Some(PutApiVersion(e, rest))
    modifies w`offset, w.data
    ensures w.Valid() && w.Pending() == Some(rest)
  {
    hide PutInt8, PutInt16, PutInt32, PutInt64, PutBytes, PutVarint, PutCompactString, PutNullableString, VarintSize,
         Count;
    PutSizes();
    w.WriteInt16(e.apiKey);
    w.WriteInt16(e.minVersion);
    w.WriteInt16(e.maxVersion);
    w.WriteInt8(0);
  }

  method WriteMember(w: ByteWriter, m: JoinGroupMember, ghost rest: bytes)
    requires w.Valid() && w.Pending() == Some(PutMember(m, rest))
    modifies w`offset, w.data
    ensures w.Valid() && w.Pending() == Some(rest)
  {
    hide PutInt8, PutInt16, PutInt32, PutInt64, PutBytes, PutVarint, PutCompactString, PutNullableString, VarintSize,
         Count;
    PutSizes();
    w.WriteCompactString(m.memberId);
    WriteCompactBytes(w, m.metadata, PutTag(rest));
    w.WriteInt8(0);
  }

  method WriteBroker(w: ByteWriter, b: MetadataBroker, ghost rest: bytes)
    requires w.Valid() && w.Pending() == Some(PutBroker(b, rest))
    modifies w`offset, w.data
    ensures w.Valid() && w.Pending() == Some(rest)
  {
    hide PutInt8, PutInt16, PutInt32, PutInt64, PutBytes, PutVarint, PutCompactString, PutNullableString, VarintSize,
         Count;
    PutSizes();
    w.WriteInt32(b.nodeId);
    w.WriteCompactString(b.host);
    w.WriteInt32(b.port);
    WriteNullable(w, b.rack, PutTag(rest));
    w.WriteInt8(0);
  }

  method WriteApiVersions(w: ByteWriter, xs: seq<ApiVersionEntry>, ghost rest: bytes)
    requires w.Valid() && w.Pending() == Some(PutArray(PutApiVersion, xs, rest))
    modifies w`offset, w.data
    ensures w.Valid() && w.Pending() == Some(rest)
  {
    hide PutVarint, VarintSize, Count, PutItems, PutApiVersion;
    PutSizes();
    w.WriteVarint(Count(|xs|));
    PutItemsEnds(PutApiVersion, xs, rest);
    for i := 0 to |xs|
      invariant w.Valid() && w.Pending() == Some(PutItems(PutApiVersion, xs[i..], rest))
    {
      PutItemsStep(PutApiVersion, xs, i, rest);
      WriteApiVersion(w, xs[i], PutItems(PutApiVersion, xs[i + 1..], rest));
    }
  }

  method WriteDescribedTopics(w: ByteWriter, xs: seq<TopicMetadata>, ghost rest: bytes)
    requires w.Valid() && w.Pending() == Some(PutArray(PutDescribedTopic, xs, rest))
    modifies w`offset, w.data
    ensures w.Valid() && w.Pending() == Some(rest)
  {
    hide PutVarint, VarintSize, Count, PutItems, PutDescribedTopic;
    PutSizes();
    w.WriteVarint(Count(|xs|));
    PutItemsEnds(PutDescribedTopic, xs, rest);
    for i := 0 to |xs|
      invariant w.Valid() && w.Pending() == Some(PutItems(PutDescribedTopic, xs[i..], rest))
    {
      PutItemsStep(PutDescribedTopic, xs, i, rest);
      WriteDescribedTopic(w, xs[i], PutItems(PutDescribedTopic, xs[i + 1..], rest));
    }
  }

  method WriteFetchTopics(w: ByteWriter, xs: seq<FetchTopicResponse>, ghost rest: bytes)
    requires w.Valid() && w.Pending() == Some(PutArray(PutFetchTopic, xs, rest))
    modifies w`offset, w.data
    ensures w.Valid() && w.Pending() == Some(rest)
  {
    hide PutVarint, VarintSize, Count, PutItems, PutFetchTopic;
    PutSizes();
    w.WriteVarint(Count(|xs|));
    PutItemsEnds(PutFetchTopic, xs, rest);
    for i := 0 to |xs|
      invariant w.Valid() && w.Pending() == Some(PutItems(PutFetchTopic, xs[i..], rest))
    {
      PutItemsStep(PutFetchTopic, xs, i, rest);
      WriteFetchTopic(w, xs[i], PutItems(PutFetchTopic, xs[i + 1..], rest));
    }
  }

  method WriteCommitTopics(w: ByteWriter, xs: seq<OffsetCommitTopicResponse>, ghost rest: bytes)
    requires w.Valid() && w.Pending() == Some(PutArray(PutCommitTopic, xs, rest))
    modifies w`offset, w.data
    ensures w.Valid() && w.Pending() == Some(rest)
  {
    hide PutVarint, VarintSize, Count, PutItems, PutCommitTopic;
    PutSizes();
    w.WriteVarint(Count(|xs|));
    PutItemsEnds(PutCommitTopic, xs, rest);
    for i := 0 to |xs|
      invariant w.Valid() && w.Pending() == Some(PutItems(PutCommitTopic, xs[i..], rest))
    {
      PutItemsStep(PutCommitTopic, xs, i, rest);
      WriteCommitTopic(w, xs[i], PutItems(PutCommitTopic, xs[i + 1..], rest));
    }
  }

  method WriteOffsetTopics(w: ByteWriter, xs: seq<OffsetFetchTopicResponse>, ghost rest: bytes)
    requires w.Valid() && w.Pending() == Some(PutArray(PutOffsetTopic, xs, rest))
    modifies w`offset, w.data
    ensures w.Valid() && w.Pending() == Some(rest)
  {
    hide PutVarint, VarintSize, Count, PutItems, PutOffsetTopic;
    PutSizes();
    w.WriteVarint(Count(|xs|));
    PutItemsEnds(PutOffsetTopic, xs, rest);
    for i := 0 to |xs|
      invariant w.Valid() && w.Pending() == Some(PutItems(PutOffsetTopic, xs[i..], rest))
    {
      PutItemsStep(PutOffsetTopic, xs, i, rest);
      WriteOffsetTopic(w, xs[i], PutItems(PutOffsetTopic, xs[i + 1..], rest));
    }
  }

  method WriteListTopics(w: ByteWriter, xs: seq<ListOffsetsTopicResponse>, ghost rest: bytes)
    requires w.Valid() && w.Pending() == Some(PutArray(PutListTopic, xs, rest))
    modifies w`offset, w.data
    ensures w.Valid() && w.Pending() == Some(rest)
  {
    hide PutVarint, VarintSize, Count, PutItems, PutListTopic;
    PutSizes();
    w.WriteVarint(Count(|xs|));
    PutItemsEnds(PutListTopic, xs, rest);
    for i := 0 to |xs|
      invariant w.Valid() && w.Pending() == Some(PutItems(PutListTopic, xs[i..], rest))
    {
      PutItemsStep(PutListTopic, xs, i, rest);
      WriteListTopic(w, xs[i], PutItems(PutListTopic, xs[i + 1..], rest));
    }
  }

  method WriteProduceTopics(w: ByteWriter, xs: seq<ProduceTopicResponse>, ghost rest: bytes)
    requires w.Valid() && w.Pending() == Some(PutArray(PutProduceTopic, xs, rest))
    modifies w`offset, w.data
    ensures w.Valid() && w.Pending() == Some(rest)
  {
    hide PutVarint, VarintSize, Count, PutItems, PutProduceTopic;
    PutSizes();
    w.WriteVarint(Count(|xs|));
    PutItemsEnds(PutProduceTopic, xs, rest);
    for i := 0 to |xs|
      invariant w.Valid() && w.Pending() == Some(PutItems(PutProduceTopic, xs[i..], rest))
    {
      PutItemsStep(PutProduceTopic, xs, i, rest);
      WriteProduceTopic(w, xs[i], PutItems(PutProduceTopic, xs[i + 1..], rest));
    }
  }

  method WriteMembers(w: ByteWriter, xs: seq<JoinGroupMember>, ghost rest: bytes)
    requires w.Valid() && w.Pending() == Some(PutArray(PutMember, xs, rest))
    modifies w`offset, w.data
    ensures w.Valid() && w.Pending() == Some(rest)
  {
    hide PutVarint, VarintSize, Count, PutItems, PutMember;
    PutSizes();
    w.WriteVarint(Count(|xs|));
    PutItemsEnds(PutMember, xs, rest);
    for i := 0 to |xs|
      invariant w.Valid() && w.Pending() == Some(PutItems(PutMember, xs[i..], rest))
    {
      PutItemsStep(PutMember, xs, i, rest);
      WriteMember(w, xs[i], PutItems(PutMember, xs[i + 1..], rest));
    }
  }

  method WriteBrokers(w: ByteWriter, xs: seq<MetadataBroker>, ghost rest: bytes)
    requires w.Valid() && w.Pending() == Some(PutArray(PutBroker, xs, rest))
    modifies w`offset, w.data
    ensures w.Valid() && w.Pending() == Some(rest)
  {
    hide PutVarint, VarintSize, Count, PutItems, PutBroker;
    PutSizes();
    w.WriteVarint(Count(|xs|));
    PutItemsEnds(PutBroker, xs, rest);
    for i := 0 to |xs|
      invariant w.Valid() && w.Pending() == Some(PutItems(PutBroker, xs[i..], rest))
    {
      PutItemsStep(PutBroker, xs, i, rest);
      WriteBroker(w, xs[i], PutItems(PutBroker, xs[i + 1..], rest));
    }
  }

  method WriteMetadataTopics(w: ByteWriter, xs: seq<TopicMetadata>, ghost rest: bytes)
    requires w.Valid() && w.Pending() == Some(PutArray(PutMetadataTopic, xs, rest))
    modifies w`offset, w.data
    ensures w.Valid() && w.Pending() == Some(rest)
  {
    hide PutVarint, VarintSize, Count, PutItems, PutMetadataTopic;
    PutSizes();
    w.WriteVarint(Count(|xs|));
    PutItemsEnds(PutMetadataTopic, xs, rest);
    for i := 0 to |xs|
      invariant w.Valid() && w.Pending() == Some(PutItems(PutMetadataTopic, xs[i..], rest))
    {
      PutItemsStep(PutMetadataTopic, xs, i, rest);
      WriteMetadataTopic(w, xs[i], PutItems(PutMetadataTopic, xs[i + 1..], rest));
    }
  }

  method WriteApiVersionsResponse(w: ByteWriter, r: Response)
    requires r.ApiVersionsResponse? && w.Valid() && w.Pending() == Some(PutBody(r, []))
    modifies w`offset, w.data
    ensures w.Valid() && w.Pending() == Some([])
  {
    hide PutInt8, PutInt16, PutInt32, PutInt64, PutBytes, PutVarint, PutCompactString, PutNullableString, VarintSize,
         Count, PutArray;
    PutSizes();
    w.WriteInt32(r.correlationId);
    w.WriteInt16(r.errorCode);
    WriteApiVersions(w, r.apiKeys, PutInt32(r.throttleTimeMs, PutTag([])));
    w.WriteInt32(r.throttleTimeMs);
    w.WriteInt8(0);
  }

  method WriteDescribeTopicPartitionsResponse(w: ByteWriter, r: Response)
    requires r.DescribeTopicPartitionsResponse? && w.Valid() && w.Pending() == Some(PutBody(r, []))
    modifies w`offset, w.data
    ensures w.Valid() && w.Pending() == Some([])
  {
    hide PutInt8, PutInt16, PutInt32, PutInt64, PutBytes, PutVarint, PutCompactString, PutNullableString, VarintSize,
         Count, PutHeader, PutArray;
    PutSizes();
    WriteFront(w, r.correlationId, r.throttleTimeMs, PutArray(PutDescribedTopic, r.topics, PutInt8(0xFF, PutTag([]))));
    WriteDescribedTopics(w, r.topics, PutInt8(0xFF, PutTag([])));
    w.WriteInt8(0xFF);
    w.WriteInt8(0);
  }

  method WriteFetchResponse(w: ByteWriter, r: Response)
    requires r.FetchResponse? && w.Valid() && w.Pending() == Some(PutBody(r, []))
    modifies w`offset, w.data
    ensures w.Valid() && w.Pending() == Some([])
  {
    hide PutInt8, PutInt16, PutInt32, PutInt64, PutBytes, PutVarint, PutCompactString, PutNullableString, VarintSize,
         Count, PutHeader, PutArray;
    PutSizes();
    WriteFront(w, r.correlationId, r.throttleTimeMs, PutInt16(r.errorCode, PutInt32(r.sessionId, PutArray(PutFetchTopic, r.fetchResponses, PutTag([])))));
    w.WriteInt16(r.errorCode);
    w.WriteInt32(r.sessionId);
    WriteFetchTopics(w, r.fetchResponses, PutTag([]));
    w.WriteInt8(0);
  }

  method WriteOffsetCommitResponse(w: ByteWriter, r: Response)
    requires r.OffsetCommitResponse? && w.Valid() && w.Pending() == Some(PutBody(r, []))
    modifies w`offset, w.data
    ensures w.Valid() && w.Pending() == Some([])
  {
    hide PutInt8, PutInt16, PutInt32, PutInt64, PutBytes, PutVarint, PutCompactString, PutNullableString, VarintSize,
         Count, PutHeader, PutArray;
    PutSizes();
    WriteFront(w, r.correlationId, r.throttleTimeMs, PutArray(PutCommitTopic, r.commitTopics, PutTag([])));
    WriteCommitTopics(w, r.commitTopics, PutTag([]));
    w.WriteInt8(0);
  }

  method WriteOffsetFetchResponse(w: ByteWriter, r: Response)
    requires r.OffsetFetchResponse? && w.Valid() && w.Pending() == Some(PutBody(r, []))
    modifies w`offset, w.data
    ensures w.Valid() && w.Pending() == Some([])
  {
    hide PutInt8, PutInt16, PutInt32, PutInt64, PutBytes, PutVarint, PutCompactString, PutNullableString, VarintSize,
         Count, PutHeader, PutArray;
    PutSizes();
    WriteFront(w, r.correlationId, r.throttleTimeMs, PutArray(PutOffsetTopic, r.offsetTopics, PutTag([])));
    WriteOffsetTopics(w, r.offsetTopics, PutTag([]));
    w.WriteInt8(0);
  }

  method WriteListOffsetsResponse(w: ByteWriter, r: Response)
    requires r.ListOffsetsResponse? && w.Valid() && w.Pending() == Some(PutBody(r, []))
    modifies w`offset, w.data
    ensures w.Valid() && w.Pending() == Some([])
  {
    hide PutInt8, PutInt16, PutInt32, PutInt64, PutBytes, PutVarint, PutCompactString, PutNullableString, VarintSize,
         Count, PutHeader, PutArray;
    PutSizes();
    WriteFront(w, r.correlationId, r.throttleTimeMs, PutArray(PutListTopic, r.listTopics, PutTag([])));
    WriteListTopics(w, r.listTopics, PutTag([]));
    w.WriteInt8(0);
  }

  method WriteProduceResponse(w: ByteWriter, r: Response)
    requires r.ProduceResponse? && w.Valid() && w.Pending() == Some(PutBody(r, []))
    modifies w`offset, w.data
    ensures w.Valid() && w.Pending() == Some([])
  {
    hide PutInt8, PutInt16, PutInt32, PutInt64, PutBytes, PutVarint, PutCompactString, PutNullableString, VarintSize,
         Count, PutArray;
    PutSizes();
    w.WriteInt32(r.correlationId);
    w.WriteInt8(0);
    WriteProduceTopics(w, r.produceResponses, PutInt32(r.throttleTimeMs, PutTag([])));
    w.WriteInt32(r.throttleTimeMs);
    w.WriteInt8(0);
  }

  method WriteJoinGroupResponse(w: ByteWriter, r: Response)
    requires r.JoinGroupResponse? && w.Valid() && w.Pending() == Some(PutBody(r, []))
    modifies w`offset, w.data
    ensures w.Valid() && w.Pending() == Some([])
  {
    hide PutInt8, PutInt16, PutInt32, PutInt64, PutBytes, PutVarint, PutCompactString, PutNullableString, VarintSize,
         Count, PutHeader, PutArray;
    PutSizes();
    ghost var tail := PutCompactString(r.leader, PutCompactString(r.memberId, PutArray(PutMember, r.members, PutTag([]))));
    WriteFront(w, r.correlationId, r.throttleTimeMs, PutInt16(r.errorCode, PutInt32(r.generationId, PutNullableString(r.protocolName, tail))));
    w.WriteInt16(r.errorCode);
    w.WriteInt32(r.generationId);
    WriteNullable(w, r.protocolName, tail);
    w.WriteCompactString(r.leader);
    w.WriteCompactString(r.memberId);
    WriteMembers(w, r.members, PutTag([]));
    w.WriteInt8(0);
  }

  method WriteMetadataResponse(w: ByteWriter, r: Response)
    requires r.MetadataResponse? && w.Valid() && w.Pending() == Some(PutBody(r, []))
    modifies w`offset, w.data
    ensures w.Valid() && w.Pending() == Some([])
  {
    hide PutInt8, PutInt16, PutInt32, PutInt64, PutBytes, PutVarint, PutCompactString, PutNullableString, VarintSize,
         Count, PutHeader, PutArray;
    PutSizes();
    ghost var tail := PutInt32(r.clusterAuthorizedOperations, PutTag([]));
    ghost var afterCluster := PutInt32(r.controllerId, PutArray(PutMetadataTopic, r.topics, tail));
    WriteFront(w, r.correlationId, r.throttleTimeMs, PutArray(PutBroker, r.brokers, PutNullableString(r.clusterId, afterCluster)));
    WriteBrokers(w, r.brokers, PutNullableString(r.clusterId, afterCluster));
    WriteNullable(w, r.clusterId, afterCluster);
    w.WriteInt32(r.controllerId);
    WriteMetadataTopics(w, r.topics, tail);
    w.WriteInt32(r.clusterAuthorizedOperations);
    w.WriteInt8(0);
  }

  method WriteFindCoordinatorResponse(w: ByteWriter, r: Response)
    requires r.FindCoordinatorResponse? && w.Valid() && w.Pending() == Some(PutBody(r, []))
    modifies w`offset, w.data
    ensures w.Valid() && w.Pending() == Some([])
  {
    hide PutInt8, PutInt16, PutInt32, PutInt64, PutBytes, PutVarint, PutCompactString, PutNullableString, VarintSize,
         Count, PutHeader;
    PutSizes();
    ghost var tail := PutInt32(r.nodeId, PutCompactString(r.host, PutInt32(r.port, PutTag([]))));
    WriteFront(w, r.correlationId, r.throttleTimeMs, PutInt16(r.errorCode, PutNullableString(r.errorMessage, tail)));
    w.WriteInt16(r.errorCode);
    WriteNullable(w, r.errorMessage, tail);
    w.WriteInt32(r.nodeId);
    w.WriteCompactString(r.host);
    w.WriteInt32(r.port);
    w.WriteInt8(0);
  }

  method WriteSyncGroupResponse(w: ByteWriter, r: Response)
    requires r.SyncGroupResponse? && w.Valid() && w.Pending() == Some(PutBody(r, []))
    modifies w`offset, w.data
    ensures w.Valid() && w.Pending() == Some([])
  {
    hide PutInt8, PutInt16, PutInt32, PutInt64, PutBytes, PutVarint, PutCompactString, PutNullableString, VarintSize,
         Count, PutHeader;
    PutSizes();
    ghost var tail := PutCompactString(r.assignment, PutTag([]));
    WriteFront(w, r.correlationId, r.throttleTimeMs, PutInt16(r.errorCode, PutNullableString(r.protocolType, PutNullableString(r.protocolName, tail))));
    w.WriteInt16(r.errorCode);
    WriteNullable(w, r.protocolType, PutNullableString(r.protocolName, tail));
    WriteNullable(w, r.protocolName, tail);
    WriteCompactBytes(w, r.assignment, PutTag([]));
    w.WriteInt8(0);
  }

  /** Heartbeat and LeaveGroup responses have one layout. */
  method WriteStatus(w: ByteWriter, r: Response)
    requires (r.HeartbeatResponse? || r.LeaveGroupResponse?) && w.Valid() && w.Pending() == Some(PutBody(r, []))
    modifies w`offset, w.data
    ensures w.Valid() && w.Pending() == Some([])
  {
    hide PutInt8, PutInt16, PutInt32, PutInt64, PutBytes, PutVarint, PutCompactString, PutNullableString, VarintSize,
         Count;
    PutSizes();
    WriteFront(w, r.correlationId, r.throttleTimeMs, PutInt16(r.errorCode, PutTag([])));
    w.WriteInt16(r.errorCode);
    w.WriteInt8(0);
  }

  method WriteBody(w: ByteWriter, r: Response)
    requires w.Valid() && w.Pending() == Some(PutBody(r, []))
    modifies w`offset, w.data
    ensures w.Valid() && w.Pending() == Some([])
  {
    hide PutBody;
    match r {
      case ApiVersionsResponse(_, _, _, _) => WriteApiVersionsResponse(w, r);
      case DescribeTopicPartitionsResponse(_, _, _) => WriteDescribeTopicPartitionsResponse(w, r);
      case FetchResponse(_, _, _, _, _) => WriteFetchResponse(w, r);
      case FindCoordinatorResponse(_, _, _, _, _, _, _) => WriteFindCoordinatorResponse(w, r);
      case JoinGroupResponse(_, _, _, _, _, _, _, _) => WriteJoinGroupResponse(w, r);
      case ListOffsetsResponse(_, _, _) => WriteListOffsetsResponse(w, r);
      case MetadataResponse(_, _, _, _, _, _, _) => WriteMetadataResponse(w, r);
      case OffsetCommitResponse(_, _, _) => WriteOffsetCommitResponse(w, r);
      case OffsetFetchResponse(_, _, _) => WriteOffsetFetchResponse(w, r);
      case ProduceResponse(_, _, _) => WriteProduceResponse(w, r);
      case SyncGroupResponse(_, _, _, _, _, _) => WriteSyncGroupResponse(w, r);
      case _ => WriteStatus(w, r);
    }
  }

  /** `serialize`: the writer never passes the end of its buffer and stops exactly there. */
  method Serialize(r: Response) returns (buf: array<byte>, written: nat)
    requires Fits(r)
    ensures fresh(buf) && buf[..] == Frame(r)
    ensures written == buf.Length == 4 + |PutBody(r, [])|
  {
    hide PutBody, PutInt32, Shortfall, Fits;
    FitsExactly(r);
    PutSizes();
    var size := BodySize(r);
    buf := new byte[4 + size];
    var w := new ByteWriter(buf, Frame(r));
    w.WriteInt32(ToInt32(size));
    WriteBody(w, r);
    written := w.offset;
  }

  /** The length prefix is the length of what follows exactly when that is below 2 GiB. */
  lemma PrefixIsLength(r: Response)
    ensures ReadInt32(Frame(r)).Some? && |Frame(r)| == 4 + |PutBody(r, [])|
    ensures ReadInt32(Frame(r)).value.0 == |Frame(r)| - 4 <==> |PutBody(r, [])| < 0x8000_0000
  {
    hide PutBody, ReadInt32, PutInt32;
    PutSizes();
    InvertLaws();
  }

  /** With 127 topics the buffer is one byte too small for the frame. */
  lemma TooManyTopics(t: TopicMetadata)
    ensures !Fits(DescribeTopicPartitionsResponse(0, 0, seq(127, _ => t)))
    ensures Shortfall(DescribeTopicPartitionsResponse(0, 0, seq(127, _ => t))) == 1
  {
    assert VarintSize(128) == 1 + VarintSize(1);
  }
}
