/** The first traversal of `serialize` (src/protocol/serializer.cpp), which adds up the body size, against the bytes the
    second one writes.  `rest` is what the frame holds behind the part being sized. */
module SizePass {
  import opened Bytes
  import opened Varint
  import opened Wire
  import opened Protocol
  import opened Responses

  function CompactInt32ArraySize(xs: seq<int32>): nat { VarintSize(Count(|xs|)) + |xs| * 4 }

  function PartitionEntrySize(p: PartitionMetadata): nat
  {
    14 + CompactInt32ArraySize(p.replicaNodes) + CompactInt32ArraySize(p.isrNodes) + CompactInt32ArraySize(p.eligibleLeaderReplicas)
    + CompactInt32ArraySize(p.lastKnownElr) + CompactInt32ArraySize(p.offlineReplicas) + 1
  }

  lemma Int32sSize()
    ensures forall xs: seq<int32>, rest: bytes {:trigger PutInt32s(xs, rest)} :: |PutInt32s(xs, rest)| == CompactInt32ArraySize(xs) + |rest|
  {
    hide PutInt32, PutVarint, PutItems, VarintSize;
    PutSizes();
    forall xs: seq<int32>, rest: bytes
      ensures |PutInt32s(xs, rest)| == CompactInt32ArraySize(xs) + |rest|
    {
      FixedItems(PutInt32, 4, xs, rest);
    }
  }

  /** Both partition layouts take `partition_entry_size` bytes. */
  lemma PartitionEntrySizes(p: PartitionMetadata, rest: bytes)
    ensures |PutDescribedPartition(p, rest)| == |PutMetadataPartition(p, rest)| == PartitionEntrySize(p) + |rest|
  {
    hide PutInt32, PutInt16, PutInt8, PutInt32s, CompactInt32ArraySize;
    PutSizes();
    Int32sSize();
  }

  method DescribedTopicSize(t: TopicMetadata, ghost rest: bytes) returns (size: nat)
    ensures size + |rest| == |PutDescribedTopic(t, rest)|
  {
    hide PutInt8, PutInt16, PutInt32, PutInt64, PutBytes, PutVarint, PutCompactString, PutNullableString, VarintSize,
         Count, PutItems, PutInt32s, CompactInt32ArraySize, PutDescribedPartition;
    PutSizes();
    ghost var tail := PutInt32(t.authorizedOperations, PutTag(rest));
    PutItemsEnds(PutDescribedPartition, t.partitions, tail);
    size := 2 + VarintSize(Count(|t.topicName|)) + |t.topicName| + 16 + 1 + 4 + 1;
    if t.partitions == [] {
      size := size + 1;
    } else {
      size := size + VarintSize(Count(|t.partitions|));
      for i := 0 to |t.partitions|
        invariant size + |PutItems(PutDescribedPartition, t.partitions[i..], tail)| == |PutDescribedTopic(t, rest)| + 5
      {
        PutItemsStep(PutDescribedPartition, t.partitions, i, tail);
        var p := t.partitions[i];
        PartitionEntrySizes(p, PutItems(PutDescribedPartition, t.partitions[i + 1..], tail));
        size := size + PartitionEntrySize(p);
      }
    }
  }

  method MetadataTopicSize(t: TopicMetadata, ghost rest: bytes) returns (size: nat)
    ensures size + |rest| == |PutMetadataTopic(t, rest)|
  {
    hide PutInt8, PutInt16, PutInt32, PutInt64, PutBytes, PutVarint, PutCompactString, PutNullableString, VarintSize,
         Count, PutItems, PutInt32s, CompactInt32ArraySize, PutMetadataPartition;
    PutSizes();
    ghost var tail := PutInt32(t.authorizedOperations, PutTag(rest));
    PutItemsEnds(PutMetadataPartition, t.partitions, tail);
    size := 2 + VarintSize(if t.topicName == [] then 0 else Count(|t.topicName|)) + |t.topicName| + 16 + 1 + 4;
    size := size + VarintSize(Count(|t.partitions|));
    for i := 0 to |t.partitions|
      invariant size + |PutItems(PutMetadataPartition, t.partitions[i..], tail)| == |PutMetadataTopic(t, rest)| + 4
    {
      PutItemsStep(PutMetadataPartition, t.partitions, i, tail);
      var p := t.partitions[i];
      PartitionEntrySizes(p, PutItems(PutMetadataPartition, t.partitions[i + 1..], tail));
      size := size + PartitionEntrySize(p);
    }
    size := size + 1;
  }

  method FetchTopicSize(t: FetchTopicResponse, ghost rest: bytes) returns (size: nat)
    ensures size + |rest| == |PutFetchTopic(t, rest)|
  {
    hide PutInt8, PutInt16, PutInt32, PutInt64, PutBytes, PutVarint, PutCompactString, PutNullableString, VarintSize,
         Count, PutItems, PutInt32s, CompactInt32ArraySize;
    PutSizes();
    ghost var tail := PutTag(rest);
    PutItemsEnds(PutFetchPartition, t.partitions, tail);
    size := 16;
    size := size + VarintSize(Count(|t.partitions|));
    for i := 0 to |t.partitions|
      invariant size + |PutItems(PutFetchPartition, t.partitions[i..], tail)| == |PutFetchTopic(t, rest)|
    {
      PutItemsStep(PutFetchPartition, t.partitions, i, tail);
      var p := t.partitions[i];
      size := size + 35 + VarintSize(Count(|p.records|)) + |p.records| + 1;
    }
    size := size + 1;
  }

  method CommitTopicSize(t: OffsetCommitTopicResponse, ghost rest: bytes) returns (size: nat)
    ensures size + |rest| == |PutCommitTopic(t, rest)|
  {
    hide PutInt8, PutInt16, PutInt32, PutInt64, PutBytes, PutVarint, PutCompactString, PutNullableString, VarintSize,
         Count, PutItems, PutInt32s, CompactInt32ArraySize;
    PutSizes();
    ghost var tail := PutTag(rest);
    PutItemsEnds(PutCommitPartition, t.partitions, tail);
    size := VarintSize(Count(|t.topicName|)) + |t.topicName|;
    size := size + VarintSize(Count(|t.partitions|));
    for i := 0 to |t.partitions|
      invariant size + |PutItems(PutCommitPartition, t.partitions[i..], tail)| == |PutCommitTopic(t, rest)|
    {
      PutItemsStep(PutCommitPartition, t.partitions, i, tail);
      var p := t.partitions[i];
      size := size + 4 + 2 + 4 + VarintSize(Count(|p.committedMetadata|)) + |p.committedMetadata| + 1;
    }
    size := size + 1;
  }

  method OffsetTopicSize(t: OffsetFetchTopicResponse, ghost rest: bytes) returns (size: nat)
    ensures size + |rest| == |PutOffsetTopic(t, rest)|
  {
    hide PutInt8, PutInt16, PutInt32, PutInt64, PutBytes, PutVarint, PutCompactString, PutNullableString, VarintSize,
         Count, PutItems, PutInt32s, CompactInt32ArraySize;
    PutSizes();
    ghost var tail := PutTag(rest);
    PutItemsEnds(PutOffsetPartition, t.partitions, tail);
    size := VarintSize(Count(|t.topicName|)) + |t.topicName|;
    size := size + VarintSize(Count(|t.partitions|));
    for i := 0 to |t.partitions|
      invariant size + |PutItems(PutOffsetPartition, t.partitions[i..], tail)| == |PutOffsetTopic(t, rest)|
    {
      PutItemsStep(PutOffsetPartition, t.partitions, i, tail);
      var p := t.partitions[i];
      size := size + 4 + 8 + 4 + VarintSize(Count(|p.committedMetadata|)) + |p.committedMetadata| + 2 + 1;
    }
    size := size + 1;
  }

  method ListTopicSize(t: ListOffsetsTopicResponse, ghost rest: bytes) returns (size: nat)
    ensures size + |rest| == |PutListTopic(t, rest)|
  {
    hide PutInt8, PutInt16, PutInt32, PutInt64, PutBytes, PutVarint, PutCompactString, PutNullableString, VarintSize,
         Count, PutItems;
    PutSizes();
    FixedItems(PutListPartition, 23, t.partitions, PutTag(rest));
    size := VarintSize(Count(|t.topicName|)) + |t.topicName| + VarintSize(Count(|t.partitions|)) + |t.partitions| * (4 + 2 + 8 + 8 + 1) + 1;
  }

  method ProduceTopicSize(t: ProduceTopicResponse, ghost rest: bytes) returns (size: nat)
    ensures size + |rest| == |PutProduceTopic(t, rest)|
  {
    hide PutInt8, PutInt16, PutInt32, PutInt64, PutBytes, PutVarint, PutCompactString, PutNullableString, VarintSize,
         Count, PutItems;
    PutSizes();
    FixedItems(PutProducePartition, 33, t.partitions, PutTag(rest));
    size := VarintSize(Count(|t.topicName|)) + |t.topicName| + 1;
    if t.partitions == [] {
      size := size + 1;
    } else {
      size := size + VarintSize(Count(|t.partitions|)) + |t.partitions| * (4 + 2 + 8 + 8 + 8 + 1 + 1 + 1);
    }
  }

  /** What the size pass leaves out: it counts one byte for the topic count of DescribeTopicPartitions. */
  function Shortfall(r: Response): nat
  {
    if r.DescribeTopicPartitionsResponse? then VarintSize(Count(|r.topics|)) - 1 else 0
  }

  /** The bound a caller has to keep, which is 126 topics while the count fits 32 bits. */
  predicate Fits(r: Response)
  {
    r.DescribeTopicPartitionsResponse? ==> Count(|r.topics|) < 128
  }

  lemma FitsExactly(r: Response)
    ensures Fits(r) <==> Shortfall(r) == 0
    ensures r.DescribeTopicPartitionsResponse? && |r.topics| < TWO_32 - 1 ==> (Fits(r) <==> |r.topics| <= 126)
  {
    if r.DescribeTopicPartitionsResponse? {
      VarintSizeRange(Count(|r.topics|));
    }
  }

  method ApiVersionsSize(r: Response) returns (size: nat)
    requires r.ApiVersionsResponse?
    ensures size + Shortfall(r) == |PutBody(r, [])|
  {
    hide PutInt8, PutInt16, PutInt32, PutInt64, PutBytes, PutVarint, PutCompactString, PutNullableString, VarintSize,
         Count, PutItems;
    PutSizes();
    FixedItems(PutApiVersion, 7, r.apiKeys, PutInt32(r.throttleTimeMs, PutTag([])));
    size := 4 + 2 + VarintSize(Count(|r.apiKeys|)) + |r.apiKeys| * 7 + 4 + 1;
  }

  method DescribeTopicPartitionsSize(r: Response) returns (size: nat)
    requires r.DescribeTopicPartitionsResponse?
    ensures size + Shortfall(r) == |PutBody(r, [])|
  {
    hide PutInt8, PutInt16, PutInt32, PutInt64, PutBytes, PutVarint, PutCompactString, PutNullableString, VarintSize,
         Count, PutItems, PutDescribedTopic;
    PutSizes();
    ghost var tail := PutInt8(0xFF, PutTag([]));
    size := 5 + 4 + 1;
    PutItemsEnds(PutDescribedTopic, r.topics, tail);
    for i := 0 to |r.topics|
      invariant size + |PutItems(PutDescribedTopic, r.topics[i..], tail)| + Shortfall(r) == |PutBody(r, [])|
    {
      PutItemsStep(PutDescribedTopic, r.topics, i, tail);
      var n := DescribedTopicSize(r.topics[i], PutItems(PutDescribedTopic, r.topics[i + 1..], tail));
      size := size + n;
    }
    size := size + 2;
  }

  method FetchSize(r: Response) returns (size: nat)
    requires r.FetchResponse?
    ensures size + Shortfall(r) == |PutBody(r, [])|
  {
    hide PutInt8, PutInt16, PutInt32, PutInt64, PutBytes, PutVarint, PutCompactString, PutNullableString, VarintSize,
         Count, PutItems, PutFetchTopic;
    PutSizes();
    ghost var tail := PutTag([]);
    size := 4 + 1 + 4 + 2 + 4 + VarintSize(Count(|r.fetchResponses|));
    PutItemsEnds(PutFetchTopic, r.fetchResponses, tail);
    for i := 0 to |r.fetchResponses|
      invariant size + |PutItems(PutFetchTopic, r.fetchResponses[i..], tail)| + Shortfall(r) == |PutBody(r, [])|
    {
      PutItemsStep(PutFetchTopic, r.fetchResponses, i, tail);
      var n := FetchTopicSize(r.fetchResponses[i], PutItems(PutFetchTopic, r.fetchResponses[i + 1..], tail));
      size := size + n;
    }
    size := size + 1;
  }

  method OffsetCommitSize(r: Response) returns (size: nat)
    requires r.OffsetCommitResponse?
    ensures size + Shortfall(r) == |PutBody(r, [])|
  {
    hide PutInt8, PutInt16, PutInt32, PutInt64, PutBytes, PutVarint, PutCompactString, PutNullableString, VarintSize,
         Count, PutItems, PutCommitTopic;
    PutSizes();
    ghost var tail := PutTag([]);
    size := 4 + 1 + 4 + VarintSize(Count(|r.commitTopics|));
    PutItemsEnds(PutCommitTopic, r.commitTopics, tail);
    for i := 0 to |r.commitTopics|
      invariant size + |PutItems(PutCommitTopic, r.commitTopics[i..], tail)| + Shortfall(r) == |PutBody(r, [])|
    {
      PutItemsStep(PutCommitTopic, r.commitTopics, i, tail);
      var n := CommitTopicSize(r.commitTopics[i], PutItems(PutCommitTopic, r.commitTopics[i + 1..], tail));
      size := size + n;
    }
    size := size + 1;
  }

  method OffsetFetchSize(r: Response) returns (size: nat)
    requires r.OffsetFetchResponse?
    ensures size + Shortfall(r) == |PutBody(r, [])|
  {
    hide PutInt8, PutInt16, PutInt32, PutInt64, PutBytes, PutVarint, PutCompactString, PutNullableString, VarintSize,
         Count, PutItems, PutOffsetTopic;
    PutSizes();
    ghost var tail := PutTag([]);
    size := 4 + 1 + 4 + VarintSize(Count(|r.offsetTopics|));
    PutItemsEnds(PutOffsetTopic, r.offsetTopics, tail);
    for i := 0 to |r.offsetTopics|
      invariant size + |PutItems(PutOffsetTopic, r.offsetTopics[i..], tail)| + Shortfall(r) == |PutBody(r, [])|
    {
      PutItemsStep(PutOffsetTopic, r.offsetTopics, i, tail);
      var n := OffsetTopicSize(r.offsetTopics[i], PutItems(PutOffsetTopic, r.offsetTopics[i + 1..], tail));
      size := size + n;
    }
    size := size + 1;
  }

  method ListOffsetsSize(r: Response) returns (size: nat)
    requires r.ListOffsetsResponse?
    ensures size + Shortfall(r) == |PutBody(r, [])|
  {
    hide PutInt8, PutInt16, PutInt32, PutInt64, PutBytes, PutVarint, PutCompactString, PutNullableString, VarintSize,
         Count, PutItems, PutListTopic;
    PutSizes();
    ghost var tail := PutTag([]);
    size := 4 + 1 + 4 + VarintSize(Count(|r.listTopics|));
    PutItemsEnds(PutListTopic, r.listTopics, tail);
    for i := 0 to |r.listTopics|
      invariant size + |PutItems(PutListTopic, r.listTopics[i..], tail)| + Shortfall(r) == |PutBody(r, [])|
    {
      PutItemsStep(PutListTopic, r.listTopics, i, tail);
      var n := ListTopicSize(r.listTopics[i], PutItems(PutListTopic, r.listTopics[i + 1..], tail));
      size := size + n;
    }
    size := size + 1;
  }

  method ProduceSize(r: Response) returns (size: nat)
    requires r.ProduceResponse?
    ensures size + Shortfall(r) == |PutBody(r, [])|
  {
    hide PutInt8, PutInt16, PutInt32, PutInt64, PutBytes, PutVarint, PutCompactString, PutNullableString, VarintSize,
         Count, PutItems, PutProduceTopic;
    PutSizes();
    ghost var tail := PutInt32(r.throttleTimeMs, PutTag([]));
    size := 4 + 1 + VarintSize(Count(|r.produceResponses|));
    PutItemsEnds(PutProduceTopic, r.produceResponses, tail);
    for i := 0 to |r.produceResponses|
      invariant size + |PutItems(PutProduceTopic, r.produceResponses[i..], tail)| + Shortfall(r) == |PutBody(r, [])|
    {
      PutItemsStep(PutProduceTopic, r.produceResponses, i, tail);
      var n := ProduceTopicSize(r.produceResponses[i], PutItems(PutProduceTopic, r.produceResponses[i + 1..], tail));
      size := size + n;
    }
    size := size + 4 + 1;
  }

  method JoinGroupSize(r: Response) returns (size: nat)
    requires r.JoinGroupResponse?
    ensures size + Shortfall(r) == |PutBody(r, [])|
  {
    hide PutInt8, PutInt16, PutInt32, PutInt64, PutBytes, PutVarint, PutCompactString, PutNullableString, VarintSize,
         Count, PutItems;
    PutSizes();
    ghost var tail := PutTag([]);
    size := 4 + 1 + 4 + 2 + 4 + VarintSize(if r.protocolName == [] then 0 else Count(|r.protocolName|)) + |r.protocolName| + VarintSize(Count(|r.leader|)) + |r.leader|
            + VarintSize(Count(|r.memberId|)) + |r.memberId| + VarintSize(Count(|r.members|));
    PutItemsEnds(PutMember, r.members, tail);
    for i := 0 to |r.members|
      invariant size + |PutItems(PutMember, r.members[i..], tail)| + Shortfall(r) == |PutBody(r, [])|
    {
      PutItemsStep(PutMember, r.members, i, tail);
      var m := r.members[i];
      size := size + VarintSize(Count(|m.memberId|)) + |m.memberId| + VarintSize(Count(|m.metadata|)) + |m.metadata| + 1;
    }
    size := size + 1;
  }

  method MetadataSize(r: Response) returns (size: nat)
    requires r.MetadataResponse?
    ensures size + Shortfall(r) == |PutBody(r, [])|
  {
    hide PutInt8, PutInt16, PutInt32, PutInt64, PutBytes, PutVarint, PutCompactString, PutNullableString, VarintSize,
         Count, PutItems, PutMetadataTopic;
    PutSizes();
    ghost var tail := PutInt32(r.clusterAuthorizedOperations, PutTag([]));
    ghost var middle := PutNullableString(r.clusterId, PutInt32(r.controllerId, PutArray(PutMetadataTopic, r.topics, tail)));
    size := 4 + 1 + 4 + VarintSize(Count(|r.brokers|));
    PutItemsEnds(PutBroker, r.brokers, middle);
    for i := 0 to |r.brokers|
      invariant size + |PutItems(PutBroker, r.brokers[i..], middle)| == |PutBody(r, [])|
    {
      PutItemsStep(PutBroker, r.brokers, i, middle);
      var b := r.brokers[i];
      size := size + 4 + VarintSize(Count(|b.host|)) + |b.host| + 4 + VarintSize(if b.rack == [] then 0 else Count(|b.rack|)) + |b.rack| + 1;
    }
    size := size + VarintSize(if r.clusterId == [] then 0 else Count(|r.clusterId|)) + |r.clusterId| + 4 + VarintSize(Count(|r.topics|));
    PutItemsEnds(PutMetadataTopic, r.topics, tail);
    for i := 0 to |r.topics|
      invariant size + |PutItems(PutMetadataTopic, r.topics[i..], tail)| == |PutBody(r, [])|
    {
      PutItemsStep(PutMetadataTopic, r.topics, i, tail);
      var n := MetadataTopicSize(r.topics[i], PutItems(PutMetadataTopic, r.topics[i + 1..], tail));
      size := size + n;
    }
    size := size + 4 + 1;
  }

  /** The kinds without a list. */
  method FlatSize(r: Response) returns (size: nat)
    requires r.FindCoordinatorResponse? || r.HeartbeatResponse? || r.LeaveGroupResponse? || r.SyncGroupResponse?
    ensures size + Shortfall(r) == |PutBody(r, [])|
  {
    hide PutInt8, PutInt16, PutInt32, PutInt64, PutBytes, PutVarint, PutCompactString, PutNullableString, VarintSize,
         Count;
    PutSizes();
    if r.FindCoordinatorResponse? {
      size := 4 + 1 + 4 + 2 + VarintSize(if r.errorMessage == [] then 0 else Count(|r.errorMessage|)) + |r.errorMessage| + 4
              + VarintSize(Count(|r.host|)) + |r.host| + 4 + 1;
    } else if r.SyncGroupResponse? {
      size := 4 + 1 + 4 + 2 + VarintSize(if r.protocolType == [] then 0 else Count(|r.protocolType|)) + |r.protocolType|
              + VarintSize(if r.protocolName == [] then 0 else Count(|r.protocolName|)) + |r.protocolName|
              + VarintSize(Count(|r.assignment|)) + |r.assignment| + 1;
    } else {
      size := 4 + 1 + 4 + 2 + 1;
    }
  }

  /** The body size the source computes, against the bytes it will write. */
  method BodySize(r: Response) returns (size: nat)
    ensures size + Shortfall(r) == |PutBody(r, [])|
  {
    hide PutBody, Shortfall;
    match r {
      case ApiVersionsResponse(_, _, _, _) => size := ApiVersionsSize(r);
      case DescribeTopicPartitionsResponse(_, _, _) => size := DescribeTopicPartitionsSize(r);
      case FetchResponse(_, _, _, _, _) => size := FetchSize(r);
      case JoinGroupResponse(_, _, _, _, _, _, _, _) => size := JoinGroupSize(r);
      case ListOffsetsResponse(_, _, _) => size := ListOffsetsSize(r);
      case MetadataResponse(_, _, _, _, _, _, _) => size := MetadataSize(r);
      case OffsetCommitResponse(_, _, _) => size := OffsetCommitSize(r);
      case OffsetFetchResponse(_, _, _) => size := OffsetFetchSize(r);
      case ProduceResponse(_, _, _) => size := ProduceSize(r);
      case _ => size := FlatSize(r);
    }
  }
}
