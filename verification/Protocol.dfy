/** The request and response records of src/protocol/request.hpp and src/protocol/response.hpp.
    Strings are byte strings; a topic id is its 16 bytes. */
module Protocol {
  import opened Bytes

  type Uuid = u: bytes | |u| == 16 witness [0, 0, 0, 0, 0, 0, 0, 0, 0, 0, 0, 0, 0, 0, 0, 0]

  // ---- requests ----

  datatype RequestHeader = RequestHeader(apiKey: int16, apiVersion: int16, correlationId: int32)

  datatype FetchPartitionRequest = FetchPartitionRequest(partitionIndex: int32, fetchOffset: int64, maxBytes: int32)
  datatype FetchTopicRequest = FetchTopicRequest(topicId: Uuid, partitions: seq<FetchPartitionRequest>)

  datatype ProducePartitionRequest = ProducePartitionRequest(partitionIndex: int32, records: bytes)
  datatype ProduceTopicRequest = ProduceTopicRequest(topicName: bytes, partitions: seq<ProducePartitionRequest>)

  datatype ListOffsetsPartitionRequest = ListOffsetsPartitionRequest(partitionIndex: int32, timestamp: int64)
  datatype ListOffsetsTopicRequest = ListOffsetsTopicRequest(topicName: bytes, partitions: seq<ListOffsetsPartitionRequest>)

  datatype OffsetCommitPartitionRequest = OffsetCommitPartitionRequest(partitionIndex: int32, committedOffset: int64)
  datatype OffsetCommitTopicRequest = OffsetCommitTopicRequest(topicName: bytes, partitions: seq<OffsetCommitPartitionRequest>)

  datatype OffsetFetchTopicRequest = OffsetFetchTopicRequest(topicName: bytes, partitionIndexes: seq<int32>)

  datatype JoinGroupProtocol = JoinGroupProtocol(name: bytes, metadata: bytes)
  datatype SyncGroupAssignment = SyncGroupAssignment(memberId: bytes, assignment: bytes)

  datatype Request =
    | FetchRequest(header: RequestHeader, fetchTopics: seq<FetchTopicRequest>, maxBytes: int32)
    | FindCoordinatorRequest(header: RequestHeader, coordinatorKey: bytes, keyType: int8)
    | HeartbeatRequest(header: RequestHeader, groupId: bytes, generationId: int32, memberId: bytes, groupInstanceId: bytes)
    | JoinGroupRequest(header: RequestHeader, groupId: bytes, sessionTimeoutMs: int32, memberId: bytes,
                       protocolType: bytes, protocols: seq<JoinGroupProtocol>)
    | LeaveGroupRequest(header: RequestHeader, groupId: bytes, memberId: bytes)
    | ListOffsetsRequest(header: RequestHeader, replicaId: int32, isolationLevel: int8, listTopics: seq<ListOffsetsTopicRequest>)
    | OffsetCommitRequest(header: RequestHeader, groupId: bytes, memberId: bytes, generationId: int32,
                          commitTopics: seq<OffsetCommitTopicRequest>)
    | OffsetFetchRequest(header: RequestHeader, groupId: bytes, offsetTopics: seq<OffsetFetchTopicRequest>)
    | ProduceRequest(header: RequestHeader, produceTopics: seq<ProduceTopicRequest>)
    | SyncGroupRequest(header: RequestHeader, groupId: bytes, generationId: int32, memberId: bytes,
                       assignments: seq<SyncGroupAssignment>)

  // ---- responses ----

  datatype ApiVersionEntry = ApiVersionEntry(apiKey: int16, minVersion: int16, maxVersion: int16)

  datatype PartitionMetadata = PartitionMetadata(errorCode: int16, partitionIndex: int32, leaderId: int32, leaderEpoch: int32,
                                                 replicaNodes: seq<int32>, isrNodes: seq<int32>,
                                                 eligibleLeaderReplicas: seq<int32>, lastKnownElr: seq<int32>,
                                                 offlineReplicas: seq<int32>)
  /** Topic entries of both DescribeTopicPartitions and Metadata responses. */
  datatype TopicMetadata = TopicMetadata(errorCode: int16, topicName: bytes, topicId: Uuid, isInternal: bool,
                                         authorizedOperations: int32, partitions: seq<PartitionMetadata>)
  datatype MetadataBroker = MetadataBroker(nodeId: int32, host: bytes, port: int32, rack: bytes)

  /** The splice fields are never sent; `splice` stands for a non-negative `splice_fd` with its range. */
  datatype FetchPartitionResponse = FetchPartitionResponse(partitionIndex: int32, errorCode: int16, records: bytes,
                                                           splice: Option<(nat, nat)>)
  datatype FetchTopicResponse = FetchTopicResponse(topicId: Uuid, partitions: seq<FetchPartitionResponse>)

  datatype ProducePartitionResponse = ProducePartitionResponse(partitionIndex: int32, errorCode: int16, baseOffset: int64,
                                                               logAppendTimeMs: int64, logStartOffset: int64)
  datatype ProduceTopicResponse = ProduceTopicResponse(topicName: bytes, partitions: seq<ProducePartitionResponse>)

  datatype ListOffsetsPartitionResponse = ListOffsetsPartitionResponse(partitionIndex: int32, errorCode: int16,
                                                                       offset: int64, timestamp: int64)
  datatype ListOffsetsTopicResponse = ListOffsetsTopicResponse(topicName: bytes, partitions: seq<ListOffsetsPartitionResponse>)

  datatype OffsetCommitPartitionResponse = OffsetCommitPartitionResponse(partitionIndex: int32, errorCode: int16,
                                                                         committedLeaderEpoch: int32, committedMetadata: bytes)
  datatype OffsetCommitTopicResponse = OffsetCommitTopicResponse(topicName: bytes, partitions: seq<OffsetCommitPartitionResponse>)

  datatype OffsetFetchPartitionResponse = OffsetFetchPartitionResponse(partitionIndex: int32, committedOffset: int64,
                                                                       committedLeaderEpoch: int32, committedMetadata: bytes,
                                                                       errorCode: int16)
  datatype OffsetFetchTopicResponse = OffsetFetchTopicResponse(topicName: bytes, partitions: seq<OffsetFetchPartitionResponse>)

  datatype JoinGroupMember = JoinGroupMember(memberId: bytes, metadata: bytes)

  datatype Response =
    | ApiVersionsResponse(correlationId: int32, errorCode: int16, apiKeys: seq<ApiVersionEntry>, throttleTimeMs: int32)
    | DescribeTopicPartitionsResponse(correlationId: int32, throttleTimeMs: int32, topics: seq<TopicMetadata>)
    | FetchResponse(correlationId: int32, throttleTimeMs: int32, errorCode: int16, sessionId: int32,
                    fetchResponses: seq<FetchTopicResponse>)
    | FindCoordinatorResponse(correlationId: int32, throttleTimeMs: int32, errorCode: int16, errorMessage: bytes,
                              nodeId: int32, host: bytes, port: int32)
    | HeartbeatResponse(correlationId: int32, throttleTimeMs: int32, errorCode: int16)
    | JoinGroupResponse(correlationId: int32, throttleTimeMs: int32, errorCode: int16, generationId: int32,
                        protocolName: bytes, leader: bytes, memberId: bytes, members: seq<JoinGroupMember>)
    | LeaveGroupResponse(correlationId: int32, throttleTimeMs: int32, errorCode: int16)
    | ListOffsetsResponse(correlationId: int32, throttleTimeMs: int32, listTopics: seq<ListOffsetsTopicResponse>)
    | MetadataResponse(correlationId: int32, throttleTimeMs: int32, brokers: seq<MetadataBroker>, clusterId: bytes,
                       controllerId: int32, topics: seq<TopicMetadata>, clusterAuthorizedOperations: int32)
    | OffsetCommitResponse(correlationId: int32, throttleTimeMs: int32, commitTopics: seq<OffsetCommitTopicResponse>)
    | OffsetFetchResponse(correlationId: int32, throttleTimeMs: int32, offsetTopics: seq<OffsetFetchTopicResponse>)
    | ProduceResponse(correlationId: int32, throttleTimeMs: int32, produceResponses: seq<ProduceTopicResponse>)
    | SyncGroupResponse(correlationId: int32, throttleTimeMs: int32, errorCode: int16, protocolType: bytes,
                        protocolName: bytes, assignment: bytes)
}
