# TinyKafka in Dafny

A Dafny 4.11 model of TinyKafka, a C++ broker that speaks the Kafka protocol, with proofs about its four hard parts.
`dafny verify dfyconfig.toml` checks everything.

- **Partition log.** `Storage`, `RecordBatch`, `RecordBatchLaws`, `PartitionLog`, `IndexedFetch`, `RolledFetch`, `FetchAnswers`,
  `PartitionContext`: segments on disk, the sparse index, the record-batch parser and the two fetches. The specification is
  a log value and its history of accepted batches; the class is proved to do what it says, and the theorems hold over every
  run.
- **Consumer groups.** `Coordinator`, `CoordinatorRuns`, `CoordinatorHistory`, `GroupHistory`: the group state machine, one
  atomic step per request, with the clock as an argument. The theorems hold over every sequence of requests.
- **Sharded reactors.** `Shard`, `ShardOwnership`, `OwnershipExact`, `ShardFlow`, `ShardDelivery`, `ShardAnswers`, `Routing`,
  `DescriptorReuse`, `Queues`, `RecordHandler`, `Text`, `Cluster`, and `Connection` for one client: N reactors as a
  system of interleaved steps.
- **Wire codec.** `Bytes`, `Varint`, `Zigzag`, `Wire`, `Cursor`; `Protocol` (the records), `Requests`, `RequestLaws`, `Parser`;
  `Responses`, `ResponseLaws`, `SizePass`, `Serializer`; `Metadata` and `MetadataLaws` for the metadata log; and
  `EndToEnd`, which puts codec and connection together.

The pattern is the same throughout. Functions on values say what an operation means. Methods and classes in the form of
the source (cursors that move, loops, fields and buffers updated in place) are proved equal to those functions. Lemmas
prove what the design promises of the functions, for every input, run or interleaving. In the codec `PutX(v, rest)` is the
encoding of `v` in front of `rest` and `ReadX(s)` returns a value with the bytes after it; every reader obeys two laws, it
inverts its writer and it ignores what is appended, and refusal of strict prefixes follows from the two.

## What the proofs turned up

- The size pass of DescribeTopicPartitions counts one byte for the topic count. The two passes agree exactly up to 126
  topics (`SizePass.FitsExactly`); from 127 on the buffer is too small (`Serializer.TooManyTopics`).
- The varint reader stops at shift 28, so lengths and counts from 2^28 on are written but cannot be read
  (`Varint.VarintRoundTrip`), although UNSIGNED_VARINT of "Protocol Primitive Types" in the Kafka protocol guide has five
  bytes. Round trips are stated below that bound.
- A request is served by the owner of its first partition, or where it arrives when its first topic names no partition or
  has an unknown id. Single ownership holds exactly when that reactor owns every partition whose context the request looks
  up (`OwnershipExact.SingleOwnerExactly`, `OwnershipExact.WellRoutedExactly`). It fails for a request over partitions with
  different owners (`OwnershipExact.MixedRequestBreaks`) and for a request without a first partition that arrives elsewhere
  than at the owner (`OwnershipExact.KeylessRequestBreaks`); then two batches can get one offset
  (`OwnershipExact.KeylessRequestRepeatsOffset`).
- Responses find their connection by descriptor alone. A descriptor closed and accepted again while a request is away hands
  the response to the new client (`DescriptorReuse.AnotherClientGetsIt`); otherwise it reaches the asker
  (`DescriptorReuse.ReachesItsAskerExactly`).
- After a roll a ranged fetch reads whichever segment is already open. It returns a prefix of the stream when that is the
  segment the lookup names (`RolledFetch.RightSegmentGivesPrefix`), and can return other records when it is not
  (`RolledFetch.WrongSegmentGivesOtherRecords`).
- A varint written longer than it need be is read as its value, but the cursor passes only its canonical length, so its last
  bytes are read again as what follows (`Wire.OverlongVarint`).
- Once negative record counts have made the next offset negative, a batch is accepted and still answered with error 56
  (`ShardAnswers.ProduceAnswer`).
- A frame does not say of which kind it is (`ResponseLaws.KindIsNotInTheFrame`).
- The 32-bit length prefix is right exactly below 2^31 bytes (`Serializer.PrefixIsLength`).

## Model

| member | source | states |
|---|---|---|
| `PartitionLog.FullReadIsAcceptanceOrder` | src/broker/partition_context.hpp:42-118 | After every run of produces and fetches with record counts of at least one, a full read is the concatenation of all accepted blobs in acceptance order, however often the log rolled; bases are gap-free and the next offset is their end |
| `PartitionLog.FailedProduceChangesNothing` | src/broker/partition_context.hpp:42-58 | A produce that fails changes no file, not the next offset and not what a full read returns, even when it rolled the segment first |
| `PartitionLog.SparseIndexExact` | src/broker/partition_context.hpp:62-88 | In every reachable state the index holds exactly the batches of the current segment whose base is a multiple of 1000, each with its file position, in strictly increasing order, every position below the segment size; a segment over a non-zero limit holds one batch |
| `PartitionLog.SpliceStaysInBounds` | src/broker/partition_context.hpp:211-232 | The position looked up for any offset never exceeds the segment size, so the subtraction in `splice_info` cannot underflow |
| `PartitionLog.RunKeeps` | src/broker/partition_context.hpp:42-114 | Every run keeps the invariant that ties the log, its segments and index to the history of accepted batches |
| `PartitionLog.BestIsClosest` | src/broker/partition_context.hpp:127-138 | In an index of increasing offsets the lookup finds an entry exactly when one lies at or below the offset, and then the closest one |
| `PartitionLog.ProduceExactly` | src/broker/partition_context.hpp:42-114 | After every run: exactly which blobs are accepted, that each gets the next offset, that it goes behind the current segment or into a file of its own, and that no other file changes |
| `IndexedFetch.IndexedFetchRefinesScan` | src/broker/partition_context.hpp:120-190 | On an unrolled log of well-formed batches, the indexed, windowed, cutting fetch equals a plain scan: the first `max_bytes` of the values from the offset through the last batch that lies whole in the window starting at the last batch at or below the offset whose base is a multiple of 1000; when that batch does not fit it returns the raw window bytes |
| `IndexedFetch.FetchIsPrefixOfStream` | src/broker/partition_context.hpp:120-190 | After every run that has not rolled, when one whole batch fits the window the result is a prefix of the true record stream from that offset |
| `FetchAnswers.FetchFindsTheRecord` | src/broker/partition_context.hpp:120-190 | After every run, when the segment the lookup names is read and the batch holding the offset ends inside the window, the result starts with the value of the record at that offset, cut to `max_bytes`, and goes on with the records after it to the end of the last whole batch |
| `FetchAnswers.UnrolledStarts` | src/broker/partition_context.hpp:127-140 | On a log that has not rolled, every offset has an indexed batch to start from, and the segment it names is the one read |
| `FetchAnswers.SpliceCoversFromTheIndex` | src/broker/partition_context.hpp:211-232 | After every run a splice is offered exactly when the file is open and 65536 bytes lie behind the last indexed batch at or below the offset, and covers the file from there, up to the limit or the end |
| `RolledFetch.RightSegmentGivesPrefix` | src/broker/partition_context.hpp:120-190 | After every run, however often the log rolled, if no segment or the one the lookup names is open for reading and the first batch fits the window, the result is a prefix of the record stream from the offset |
| `RolledFetch.WrongSegmentGivesOtherRecords` | src/broker/partition_context.hpp:240-247 | On a reachable rolled log with another segment open, a fetch returns the records of that one, no prefix of the stream |
| `RolledFetch.WrongSegmentExample` | src/broker/partition_context.hpp:240-247 | The same at two concrete batches |
| `RolledFetch.SegmentScan` | src/broker/partition_context.hpp:136-189 | Reading a segment from any of its batches is a scan of the whole stream as far as its whole batches lie in the window |
| `IndexedFetch.CutWindow` | src/broker/partition_context.hpp:147-189 | Cutting the file anywhere loses only the batches that do not fit whole |
| `PartitionContext.PartitionContext.constructor` | src/broker/partition_context.hpp:34-40 | A new context is the empty log |
| `PartitionContext.PartitionContext.Produce` | src/broker/partition_context.hpp:42-114 | Does what the log specification says, including the error paths, and returns its base offset or -1 |
| `PartitionContext.PartitionContext.FetchAll` | src/broker/partition_context.hpp:116-118 | Returns the full read of the specification |
| `PartitionContext.PartitionContext.Fetch` | src/broker/partition_context.hpp:120-190 | Does what the specification's indexed fetch says, including which read descriptor stays open |
| `PartitionContext.PartitionContext.FindBest` | src/broker/partition_context.hpp:127-134 | The loop with its early exit finds the last index entry at or below the offset |
| `PartitionContext.PartitionContext.EnsureReadFd` | src/broker/partition_context.hpp:240-247 | Opens a segment only when none is open |
| `PartitionContext.PartitionContext.ReadWindow` | src/broker/partition_context.hpp:142-164 | Reads the bounded window from the position |
| `PartitionContext.PartitionContext.SpliceInfo` | src/broker/partition_context.hpp:211-232 | Returns the range of the specification, or nothing |
| `PartitionContext.CutRecords` | src/broker/partition_context.hpp:166-189 | Parses, skips and cuts as the specification says, raw-bytes fallback included |
| `PartitionContext.Collect` | src/broker/partition_context.hpp:174-189 | The loop that stops early collects the first `max_bytes` of all values after the skipped ones |
| `Storage.NameRoundTrip` | src/storage/partition_log.hpp:19-21 | The base offset read back from a segment's file name is the one it was named by, for every 64-bit base, and the name passes the length and suffix test |
| `Storage.SegmentsUpdate` | src/storage/partition_log.hpp:19-21 | Writing the file named by a base changes that segment and no other |
| `Storage.AscendingAppend` | src/storage/log_reader.cpp:29-44 | Appending to the segment of highest base appends to the concatenation in base order |
| `Storage.ListSegments` | src/storage/log_reader.cpp:17-27 | For every directory: the loop throws exactly when a segment-shaped name is no 64-bit number, and otherwise lists, for every base such a name stands for, a file of that base |
| `Storage.OwnListing` | src/storage/log_reader.cpp:17-27 | Of the log's own segments there is one listing, by base |
| `Storage.ConcatSegments` | src/storage/log_reader.cpp:29-44 | The segment loop yields their contents in ascending base order |
| `Storage.ReadTopicLog` | src/storage/log_reader.cpp:11-45 | Reading a directory throws exactly when listing it does, and otherwise concatenates the listed segments in ascending base order |
| `RecordBatch.SingleBatch` | src/util/record_batch.hpp:14-166 | Parsing the encoding of any well-formed batch returns its values, and the header-only count is their number |
| `RecordBatch.ParseIsHomomorphic` | src/util/record_batch.hpp:170-213 | Parsing any sequence of well-formed batches followed by any strict prefix of another returns exactly the values of the whole batches; it fails exactly when there are none |
| `RecordBatchLaws.HeaderChecks` | src/util/record_batch.hpp:18-84 | Fewer than 57 bytes or another magic byte is malformed and a negative record count throws; the header-only count needs 28 bytes and that magic byte |
| `RecordBatchLaws.StrictPrefixMalformed` | src/util/record_batch.hpp:14-166 | Every strict prefix of a well-formed batch is malformed, so no record of it is returned |
| `RecordBatchLaws.EmptyRecordsPassedOver` | src/util/record_batch.hpp:86-92 | Records of body size zero are passed over and the others returned in order |
| `RecordBatchLaws.HeadersReadBack` | src/util/record_batch.hpp:133-162 | A record whose header count is written plus one is read back, and the next one begins behind its headers |
| `RecordBatch.ParseSingleRecordBatch` | src/util/record_batch.hpp:14-167 | The cursor loops return what the grammar says, malformed input and negative counts included |
| `RecordBatch.ParseRecordBatch` | src/util/record_batch.hpp:170-213 | The batch loop returns what the grammar says for every input |
| `RecordBatch.RecordBatchCount` | src/util/record_batch.hpp:215-240 | Returns the count the header announces, or fails as the grammar says |
| `CoordinatorRuns.GroupInvariant` | src/broker/group_coordinator.cpp:16-207 | In every reachable state a group is Empty exactly when it has no members, member ids are pairwise distinct, Dead is unreachable, and AwaitingSync implies a generation of at least one |
| `CoordinatorRuns.GenerationStep` | src/broker/group_coordinator.cpp:52-58 | No step lowers a generation and every step from Stable to AwaitingSync raises it |
| `CoordinatorRuns.GenerationMonotone` | src/broker/group_coordinator.cpp:24-60 | Generations never decrease over any continuation of any run |
| `CoordinatorRuns.Fenced` | src/broker/group_coordinator.cpp:90-111 | Once a group's generation has passed g, no later Heartbeat or SyncGroup carrying g is accepted, whatever happens in between |
| `CoordinatorRuns.StableSince` | src/broker/group_coordinator.cpp:105-111 | A stable group was made stable by an accepted SyncGroup with assignments, and nothing disturbed it since |
| `CoordinatorRuns.AcceptedHeartbeatFollowsSync` | src/broker/group_coordinator.cpp:142-173 | Every accepted heartbeat is preceded by an accepted SyncGroup with assignments, with no join, shrinking leave or eviction in between |
| `CoordinatorRuns.StepIsEffect` | src/broker/group_coordinator.cpp:16-270 | A request changes only the group it names, and no group disappears |
| `GroupHistory.GroupIsItsHistory` | src/broker/group_coordinator.cpp:16-235 | In every reachable state a group exists exactly when a request made it, and its generation, state, timeout, members, their last times and metadata are those told by the sequence of requests alone |
| `GroupHistory.AcceptedExactly` | src/broker/group_coordinator.cpp:84-207 | SyncGroup, Heartbeat and LeaveGroup are accepted exactly when the history says so, and answer with 82 or 25 when not |
| `GroupHistory.JoinAnswers` | src/broker/group_coordinator.cpp:16-82 | JoinGroup answers with the generation, name, protocol and members the group has afterwards, the one who asked among them |
| `GroupHistory.NewNamesDiffer` | src/broker/group_coordinator.cpp:19-22 | Two joins that ask for a name never get the same one |
| `GroupHistory.HeartbeatEvictsExactly` | src/broker/group_coordinator.cpp:155-172 | After an accepted heartbeat an id is a member exactly when it was one and was heard of within the timeout, the sender counting as heard of now |
| `GroupHistory.LeaveRemovesExactly` | src/broker/group_coordinator.cpp:182-207 | After a leave the members are the old ones other than the one named, unchanged and in order |
| `GroupHistory.LastHeartbeatIsHistory` | src/broker/group_coordinator.cpp:24-172 | A member's last heartbeat is the time of the last request that heard of it, over every run |
| `GroupHistory.NeverLost` | src/broker/group_coordinator.cpp:138-207 | A member that never leaves and is heard of in time is never lost, whatever the others do |
| `GroupHistory.CommitAnswers` | src/broker/group_coordinator.cpp:209-235 | OffsetCommit acknowledges every partition it was given, in order |
| `CoordinatorHistory.MembersInOrderOfAdmission` | src/broker/group_coordinator.cpp:24-60 | In every reachable state members stand in the order of their last admission |
| `CoordinatorHistory.LeaderIsMostSenior` | src/broker/group_coordinator.cpp:62-82 | The leader every JoinGroup reports is the earliest-admitted surviving member |
| `CoordinatorHistory.AssignmentsAreHistory` | src/broker/group_coordinator.cpp:95-111 | A member's stored assignment is the one last given to it since it was last added, or empty |
| `CoordinatorHistory.SyncReturnsHistory` | src/broker/group_coordinator.cpp:84-136 | An accepted SyncGroup returns that assignment |
| `CoordinatorHistory.OffsetsAreHistory` | src/broker/group_coordinator.cpp:209-235 | A group's offset of a topic and partition is the last one committed for it, over every run |
| `CoordinatorHistory.OffsetFetchReturnsHistory` | src/broker/group_coordinator.cpp:237-270 | OffsetFetch answers every partition asked for, in order, with the last committed offset or -1, and no error |
| `Coordinator.GroupCoordinator.constructor` | src/broker/group_coordinator.hpp:48-49 | Starts with no groups |
| `Coordinator.GroupCoordinator.HandleJoinGroup` | src/broker/group_coordinator.cpp:16-82 | New state and reply are those of the specification |
| `Coordinator.GroupCoordinator.HandleSyncGroup` | src/broker/group_coordinator.cpp:84-136 | New state and reply are those of the specification |
| `Coordinator.GroupCoordinator.HandleHeartbeat` | src/broker/group_coordinator.cpp:138-180 | New state and reply are those of the specification, evictions included |
| `Coordinator.GroupCoordinator.HandleLeaveGroup` | src/broker/group_coordinator.cpp:182-207 | New state and reply are those of the specification |
| `Coordinator.GroupCoordinator.HandleOffsetCommit` | src/broker/group_coordinator.cpp:209-235 | New state and reply are those of the specification |
| `Coordinator.GroupCoordinator.HandleOffsetFetch` | src/broker/group_coordinator.cpp:237-270 | New state and reply are those of the specification |
| `Coordinator.ApplyAssignments` | src/broker/group_coordinator.cpp:95-111 | The loop over assignments updates or adds members as specified |
| `Coordinator.EraseUnless` | src/broker/group_coordinator.cpp:162-172 | Keeps exactly the members that qualify, in order |
| `ShardOwnership.SingleOwnerGapFree` | src/net/reactor.cpp:290-307 | In every interleaving of accept, read, forward, serve, deliver, write and close steps of N reactors, a partition has a context only on the reactor it routes to, the base offsets of its accepted batches are the running sums of their record counts, and the owner's next offset is their total, provided each request is served by the owner of every partition whose context it looks up |
| `OwnershipExact.SingleOwnerExactly` | src/net/reactor.cpp:290-311 | After every run, single ownership holds exactly when every request was handled by a reactor that owns all it looks up |
| `OwnershipExact.WellRoutedExactly` | src/net/reactor.cpp:290-311 | From the requests alone: well-routed requests keep single ownership in every run, and after a run that served them all it holds only if every one was well routed; the serving reactor is the owner of the first partition, or the receiving one when there is none |
| `OwnershipExact.ServedExactly` | src/net/reactor.cpp:309-311 | One request, received where it is served or served after being forwarded, keeps single ownership exactly when its server owns all it looks up; forwarding alone never breaks it |
| `OwnershipExact.ContextsExactly` | src/broker/record_handler.cpp:172-180 | After every run a reactor has a context exactly when it handled a request that looks it up |
| `OwnershipExact.RunConserves` | src/net/reactor.cpp:293-306 | What was received is what was handled or waits, at the reactor that serves it |
| `OwnershipExact.MixedRequestBreaks` | src/net/reactor.cpp:200-206 | Every produce for two partitions with different owners, the second known, breaks single ownership at once |
| `OwnershipExact.KeylessRequestBreaks` | src/net/reactor.cpp:196-206 | So does every produce whose first topic names no partition, received elsewhere than at the owner of what it produces to |
| `OwnershipExact.KeylessRequestRepeatsOffset` | src/net/reactor.cpp:290-311 | Such a request and a plain one give two accepted batches of one partition the same base offset |
| `OwnershipExact.TwoReactorsBreak` | src/net/reactor.cpp:196-206 | Both failures at concrete requests on two reactors |
| `Shard.SinglePartitionHasOneOwner` | src/net/reactor.cpp:196-226 | A request that names one partition is well routed, wherever it arrives |
| `Shard.Route` | src/shard/shard_router.hpp:13-17 | Always a valid reactor index |
| `Text.ContextKeyInjective` | src/broker/record_handler.cpp:174-174 | Distinct topic-partitions have distinct context keys, colons in topic names included |
| `ShardFlow.LanesAreFifo` | src/net/reactor.cpp:414-472 | In every interleaving, what one reactor forwarded to another is in forwarding order: what came back, the responses under way, the request being handled, the requests queued |
| `ShardDelivery.ForwardedInExactlyOnePlace` | src/net/reactor.cpp:414-472 | At every point of every run each forwarded request is in exactly one place, once: its target's queue, being handled there, its source's response queue, appended to an open connection, or dropped for want of one |
| `ShardDelivery.EndsAreReal` | src/net/reactor.cpp:443-463 | It counts as appended exactly when some step appended the answer its request was served with to the history of the connection behind its descriptor, and as dropped exactly when some step found none open |
| `ShardDelivery.WaitingResponsesAreAnswers` | src/net/reactor.cpp:414-441 | In every interleaving, every response waiting in a queue is what the reactor that served its request answered at that step |
| `ShardDelivery.DeliveredResponsesAreAnswers` | src/net/reactor.cpp:443-463 | And so is every response appended to a connection |
| `ShardDelivery.ServedOnce` | src/net/reactor.cpp:414-441 | No forwarded request is served twice, so that answer is one |
| `ShardDelivery.OutputIsWhatWasGiven` | src/net/reactor.cpp:335-406 | In every interleaving and for every open connection, what the socket took since it was opened, then what is unsent, is exactly the responses given to it since, in order, and EPOLLOUT is armed exactly when something is unsent |
| `ShardDelivery.StoryTells` | src/net/reactor.cpp:335-472 | The state of every connection is the output machine run on its own history, and it is open exactly when it has one |
| `ShardFlow.ForwardedCountedOnce` | src/net/reactor.cpp:293-306 | Each forwarded request counts once over the two queues, the one being handled and the ones delivered |
| `ShardFlow.ForwardedNowhereElse` | src/net/reactor.cpp:414-441 | And in no other reactor's queues |
| `ShardDelivery.DeliverReachesItsConnection` | src/net/reactor.cpp:443-472 | In every reachable system, delivering appends the response to the unsent output of the connection behind its descriptor if that is open, and touches no other |
| `DescriptorReuse.ReachesItsAskerExactly` | src/net/reactor.cpp:443-463 | The response to a forwarded request goes to the connection that asked exactly when that was neither closed nor replaced in between |
| `DescriptorReuse.AnotherClientGetsIt` | src/net/reactor.cpp:443-463 | In a run that closes and accepts the descriptor again in between, the second client is handed the first one's response |
| `DescriptorReuse.SameConnectionExactly` | src/net/reactor.cpp:408-412 | The connection behind a descriptor is the same at two points of a run exactly when nothing in between ended it |
| `Queues.CrossReactorQueues.constructor` | src/shard/cross_reactor_queue.hpp:74-76 | Both queues start empty |
| `Queues.CrossReactorQueues.PushRequest` | src/shard/cross_reactor_queue.hpp:30-36 | Appends at the back |
| `Queues.CrossReactorQueues.TryPopRequest` | src/shard/cross_reactor_queue.hpp:38-46 | Takes the front, or reports empty |
| `Queues.CrossReactorQueues.PushResponse` | src/shard/cross_reactor_queue.hpp:48-54 | Appends at the back |
| `Queues.CrossReactorQueues.TryPopResponse` | src/shard/cross_reactor_queue.hpp:56-64 | Takes the front, or reports empty |
| `RecordHandler.RecordHandler.constructor` | src/broker/record_handler.hpp:14-20 | Starts without contexts |
| `RecordHandler.RecordHandler.HandleProduce` | src/broker/record_handler.cpp:44-92 | The nested loops do exactly the flat list of produce tasks, in order |
| `RecordHandler.RecordHandler.HandleListOffsets` | src/broker/record_handler.cpp:5-42 | The nested loops do exactly the flat list of list tasks, in order |
| `RecordHandler.RecordHandler.HandleFetch` | src/broker/record_handler.cpp:94-152 | The nested loops do exactly the flat list of fetch tasks, in order |
| `ShardAnswers.AnswersAreRight` | src/broker/record_handler.cpp:5-152 | In every interleaving of well-routed requests, a request served by the owner of what it looks up gets one reply a task, in order, each right for the log of its partition, whose next offset is the total of the batches accepted for it before |
| `ShardAnswers.ProduceAnswer` | src/broker/record_handler.cpp:44-92 | A produce is answered with the number of records accepted for its partition before it exactly when it was accepted, and with error 56 and -1 when not |
| `ShardAnswers.ListAnswer` | src/broker/record_handler.cpp:5-42 | ListOffsets answers the number of records accepted for the partition at -1, zero at -2, error -1 at any other time, and error 3 for an unknown partition |
| `ShardAnswers.FullFetchAnswer` | src/broker/record_handler.cpp:94-152 | A fetch without a range that is not spliced answers with every blob the log accepted, in order |
| `ShardAnswers.ContextIsItsRun` | src/broker/record_handler.cpp:172-180 | In every interleaving, the context of a partition on a reactor is the log run on the operations that reactor carried out on it, and on no others |
| `ShardAnswers.DoAllReplies` | src/broker/record_handler.cpp:5-152 | Earlier replies stay as they are: reply i is the one task i gives |
| `Routing.ProduceTaskAt` | src/broker/record_handler.cpp:49-90 | Task by task, the list is the request's nested lists in order |
| `Routing.ListTaskAt` | src/broker/record_handler.cpp:10-40 | Task by task, the list is the request's nested lists in order |
| `Routing.FetchTaskAt` | src/broker/record_handler.cpp:99-150 | Task by task, the list is the request's nested lists in order, topics of unknown id left out |
| `Routing.KeyIsThatOfTheFirstTask` | src/net/reactor.cpp:196-226 | A request is routed by its first task, and by none exactly when its first topic has no partition or, for a fetch, no known id |
| `Routing.MixExamples` | src/shard/shard_router.hpp:13-17 | The hash mix at three inputs, a partition of -1 included |
| `Connection.OutputExactlyOnceInOrder` | src/net/reactor.cpp:335-406 | In every splice-free run, bytes sent, then the unsent part of the buffer, then the queue, are exactly the responses in order, and EPOLLOUT is armed exactly when something is unsent |
| `Connection.FramingSafe` | src/net/reactor.cpp:230-282 | However the socket splits the stream, and whether or not the connection closed since, the bodies handed to the parser are exactly the whole frames among the bytes read, hence a prefix of the length-prefix decoding of the stream, and none exceeds the limit |
| `Connection.ClosesExactly` | src/net/reactor.cpp:230-288 | In every run, a read event closes the connection exactly when a receive it needed delivered nothing, the announced length is over the limit or the request it completed was refused, and it gets further whenever what it waits for is delivered |
| `Connection.Connection.constructor` | src/net/reactor.hpp:43-54 | A fresh connection has nothing read and nothing to write |
| `Connection.Connection.Respond` | src/net/reactor.cpp:335-350 | Queues a response and arms EPOLLOUT as specified |
| `Connection.Connection.AdvanceWriteQueue` | src/net/reactor.cpp:391-406 | Moves to the next response, or disarms |
| `Connection.Connection.HandleWrite` | src/net/reactor.cpp:355-389 | Advances by what was sent, or closes |
| `Connection.Connection.Receive` | src/net/reactor.cpp:236-251 | Fills the buffer up to a length as specified |
| `Connection.Connection.ReceiveBody` | src/net/reactor.cpp:263-282 | Completes a body as specified |
| `Connection.Connection.Read` | src/net/reactor.cpp:230-282 | One read event does what the framing specification says |
| `EndToEnd.RequestsSurviveChunking` | src/net/reactor.cpp:234-288 | Of framed canonical requests, each is handed over exactly when its last byte was read, in order, under any chunking, and is accepted as the request sent; a close loses only what was not read |
| `EndToEnd.ResponsesArriveInOrder` | src/net/reactor.cpp:355-406 | Splitting what the socket took by length prefixes and decoding gives the responses in order, and all of them once nothing is unsent |
| `Bytes.DecodeInvertsEncode16` | src/util/endian.hpp:6-32 | Decoding inverts encoding for every 16-bit value |
| `Bytes.DecodeInvertsEncode32` | src/util/endian.hpp:11-37 | Decoding inverts encoding for every 32-bit value |
| `Bytes.DecodeInvertsEncode64` | src/util/endian.hpp:18-44 | Decoding inverts encoding for every 64-bit value |
| `Bytes.DecodeIsBigEndian` | src/util/endian.hpp:29-44 | Decoding is the big-endian value of the bytes, at every width |
| `Varint.VarintRoundTrip` | src/util/varint.hpp:22-49 | Writing then reading is the identity exactly below 2^28 and fails from there on |
| `Varint.VarintIsBase128` | src/util/varint.hpp:32-49 | A varint that ends within four bytes, canonical or not, is the number its seven-bit groups spell |
| `Varint.UnendedVarint` | src/util/varint.hpp:32-49 | One that does not is refused |
| `Varint.CanonicalWithinExamined` | src/util/varint.hpp:32-49 | The canonical length of a value read never exceeds the bytes examined, so the cursor stays in bounds however the value was written |
| `Varint.VarintExtends` | src/util/varint.hpp:32-49 | Bytes after a readable varint do not change it |
| `Varint.VarintEncodedSize` | src/util/varint.hpp:10-20 | The size loop gives the length of the encoding |
| `Varint.WriteUnsignedVarint` | src/util/varint.hpp:22-30 | Writes exactly the encoding and no other byte of the buffer |
| `Varint.ReadUnsignedVarint` | src/util/varint.hpp:32-49 | The loop with its shift limit reads what the specification says |
| `Varint.ZigzagBijection` | src/util/varint.hpp:51-57 | Zigzag is a bijection between all int32 and all uint32 |
| `Zigzag.EncodeIsArithmetic` | src/util/varint.hpp:51-53 | The shifts and exclusive-or of the source compute that code, for every word |
| `Zigzag.DecodeIsArithmetic` | src/util/varint.hpp:55-57 | And its inverse, for every word |
| `Zigzag.BitsBijection` | src/util/varint.hpp:51-57 | On words each undoes the other |
| `Cursor.ByteReader.ReadInt8` | src/util/byte_reader.hpp:24-29 | Stays in bounds, returns what the reading law says, and leaves the cursor in place on failure |
| `Cursor.ByteReader.ReadInt16` | src/util/byte_reader.hpp:31-38 | Stays in bounds, returns what the reading law says, and leaves the cursor in place on failure |
| `Cursor.ByteReader.ReadInt32` | src/util/byte_reader.hpp:40-47 | Stays in bounds, returns what the reading law says, and leaves the cursor in place on failure |
| `Cursor.ByteReader.ReadInt64` | src/util/byte_reader.hpp:49-56 | Stays in bounds, returns what the reading law says, and leaves the cursor in place on failure |
| `Cursor.ByteReader.ReadBytes` | src/util/byte_reader.hpp:58-66 | Stays in bounds, returns what the reading law says, and leaves the cursor in place on failure |
| `Cursor.ByteReader.ReadVarint` | src/util/byte_reader.hpp:68-75 | Stays in bounds, returns what the reading law says, and leaves the cursor in place on failure |
| `Cursor.ByteReader.ReadCompactString` | src/util/byte_reader.hpp:77-86 | Stays in bounds, returns what the reading law says, and leaves the cursor in place on failure |
| `Cursor.ByteReader.Skip` | src/util/byte_reader.hpp:88-94 | Stays in bounds, returns what the reading law says, and leaves the cursor in place on failure |
| `Cursor.ByteReader.ReadSignedVarint` | src/util/byte_reader.hpp:96-103 | Stays in bounds, returns what the reading law says, and leaves the cursor in place on failure |
| `Cursor.ByteReader.SkipVarint` | src/util/byte_reader.hpp:105-112 | Stays in bounds, returns what the reading law says, and leaves the cursor in place on failure |
| `Cursor.ByteWriter.WriteInt8` | src/util/byte_writer.hpp:27-30 | Appends exactly the encoding, so a buffer that is to hold it next is that much closer to done |
| `Cursor.ByteWriter.WriteInt16` | src/util/byte_writer.hpp:32-36 | Appends exactly the encoding, so a buffer that is to hold it next is that much closer to done |
| `Cursor.ByteWriter.WriteInt32` | src/util/byte_writer.hpp:38-42 | Appends exactly the encoding, so a buffer that is to hold it next is that much closer to done |
| `Cursor.ByteWriter.WriteInt64` | src/util/byte_writer.hpp:44-48 | Appends exactly the encoding, so a buffer that is to hold it next is that much closer to done |
| `Cursor.ByteWriter.WriteBytes` | src/util/byte_writer.hpp:50-54 | Appends exactly the encoding, so a buffer that is to hold it next is that much closer to done |
| `Cursor.ByteWriter.WriteVarint` | src/util/byte_writer.hpp:56-60 | Appends exactly the encoding, so a buffer that is to hold it next is that much closer to done |
| `Cursor.ByteWriter.WriteCompactString` | src/util/byte_writer.hpp:68-72 | Appends exactly the encoding, so a buffer that is to hold it next is that much closer to done |
| `Wire.ExtendLaws` | src/util/byte_reader.hpp:24-112 | Bytes appended to a readable input change nothing, for every reader |
| `Wire.InvertLaws` | src/util/byte_reader.hpp:24-112 | Reading inverts writing for every fixed-size field and every signed varint of the readable range |
| `Wire.StringInverts` | src/util/byte_reader.hpp:77-86 | Compact and nullable strings of readable length are read back |
| `Wire.NullLaws` | src/util/byte_reader.hpp:58-94 | A compact string of length zero is refused, a compact array or byte field of length zero is empty, and nothing is read past the end |
| `Wire.OverlongVarint` | src/util/byte_reader.hpp:68-75 | A varint written longer than need be is read as its value, but only its canonical length is passed over |
| `Wire.ArrayInverts` | src/protocol/parser.cpp:274-318 | A compact array is read back when its items are |
| `Wire.ReadsShrink` | src/util/byte_reader.hpp:24-112 | No read moves the cursor back |
| `RequestLaws.ParseInvertsEncode` | src/protocol/parser.cpp:245-900 | For all nine kinds, parsing the canonical encoding of any request returns that request, whatever client id, transactional id, acks and timeout surround it |
| `RequestLaws.StrictPrefixRefused` | src/protocol/parser.cpp:245-900 | Every strict prefix of that encoding is refused |
| `RequestLaws.ParseExtends` | src/protocol/parser.cpp:245-900 | A complete request is parsed the same whatever follows it |
| `RequestLaws.BodyInverts` | src/protocol/parser.cpp:245-900 | The body of each kind is read back field by field |
| `Parser.ParseRequest` | src/protocol/parser.cpp:8-904 | The cursor code returns what the grammar says for every input, accepted or refused |
| `Parser.ParseProduce` | src/protocol/parser.cpp:390-481 | Reads the body as the grammar says, failing where it fails |
| `Parser.ParseListOffsets` | src/protocol/parser.cpp:260-326 | Reads the body as the grammar says, failing where it fails |
| `Parser.ParseOffsetCommit` | src/protocol/parser.cpp:497-567 | Reads the body as the grammar says, failing where it fails |
| `Parser.ParseOffsetFetch` | src/protocol/parser.cpp:583-635 | Reads the body as the grammar says, failing where it fails |
| `Parser.ParseFindCoordinator` | src/protocol/parser.cpp:652-670 | Reads the body as the grammar says, failing where it fails |
| `Parser.ParseJoinGroup` | src/protocol/parser.cpp:687-747 | Reads the body as the grammar says, failing where it fails |
| `Parser.ParseHeartbeat` | src/protocol/parser.cpp:764-791 | Reads the body as the grammar says, failing where it fails |
| `Parser.ParseLeaveGroup` | src/protocol/parser.cpp:808-827 | Reads the body as the grammar says, failing where it fails |
| `Parser.ParseSyncGroup` | src/protocol/parser.cpp:844-900 | Reads the body as the grammar says, failing where it fails |
| `Serializer.Serialize` | src/protocol/serializer.cpp:33-594 | For every response of all 13 kinds, the writer never passes the end of its buffer, stops exactly at 4 plus the body size, and the buffer is the frame |
| `SizePass.BodySize` | src/protocol/serializer.cpp:33-594 | For every response, the size pass plus its shortfall is the length the write pass needs; only DescribeTopicPartitions has a shortfall |
| `SizePass.FitsExactly` | src/protocol/serializer.cpp:60-87 | The shortfall is zero exactly when the topic count takes one byte, that is at most 126 topics |
| `Serializer.TooManyTopics` | src/protocol/serializer.cpp:61-87 | With 127 topics the buffer is one byte too small |
| `Serializer.PrefixIsLength` | src/protocol/serializer.cpp:43-43 | The length prefix is the buffer size minus 4 exactly when the body is below 2^31 bytes |
| `SizePass.PartitionEntrySizes` | src/protocol/serializer.cpp:20-29 | Both partition layouts take the size the source computes |
| `SizePass.ApiVersionsSize` | src/protocol/serializer.cpp:36-39 | The loops add up to the length of what the write pass writes |
| `SizePass.DescribeTopicPartitionsSize` | src/protocol/serializer.cpp:60-76 | The loops add up to the length of what the write pass writes |
| `SizePass.FetchSize` | src/protocol/serializer.cpp:122-140 | The loops add up to the length of what the write pass writes |
| `SizePass.MetadataSize` | src/protocol/serializer.cpp:177-214 | The loops add up to the length of what the write pass writes |
| `SizePass.OffsetCommitSize` | src/protocol/serializer.cpp:304-319 | The loops add up to the length of what the write pass writes |
| `SizePass.OffsetFetchSize` | src/protocol/serializer.cpp:350-365 | The loops add up to the length of what the write pass writes |
| `SizePass.ListOffsetsSize` | src/protocol/serializer.cpp:397-409 | The loops add up to the length of what the write pass writes |
| `SizePass.JoinGroupSize` | src/protocol/serializer.cpp:436-453 | The loops add up to the length of what the write pass writes |
| `SizePass.ProduceSize` | src/protocol/serializer.cpp:545-560 | The loops add up to the length of what the write pass writes |
| `SizePass.FlatSize` | src/protocol/serializer.cpp:276-282 | The kinds without a list: the sum is the length of what is written |
| `Serializer.WriteApiVersionsResponse` | src/protocol/serializer.cpp:43-58 | Writes exactly the layout of the kind and ends where it ends |
| `Serializer.WriteDescribeTopicPartitionsResponse` | src/protocol/serializer.cpp:81-120 | Writes exactly the layout of the kind and ends where it ends |
| `Serializer.WriteFetchResponse` | src/protocol/serializer.cpp:145-175 | Writes exactly the layout of the kind and ends where it ends |
| `Serializer.WriteMetadataResponse` | src/protocol/serializer.cpp:219-274 | Writes exactly the layout of the kind and ends where it ends |
| `Serializer.WriteFindCoordinatorResponse` | src/protocol/serializer.cpp:287-302 | Writes exactly the layout of the kind and ends where it ends |
| `Serializer.WriteOffsetCommitResponse` | src/protocol/serializer.cpp:324-348 | Writes exactly the layout of the kind and ends where it ends |
| `Serializer.WriteOffsetFetchResponse` | src/protocol/serializer.cpp:370-395 | Writes exactly the layout of the kind and ends where it ends |
| `Serializer.WriteListOffsetsResponse` | src/protocol/serializer.cpp:414-434 | Writes exactly the layout of the kind and ends where it ends |
| `Serializer.WriteJoinGroupResponse` | src/protocol/serializer.cpp:458-481 | Writes exactly the layout of the kind and ends where it ends |
| `Serializer.WriteSyncGroupResponse` | src/protocol/serializer.cpp:523-543 | Writes exactly the layout of the kind and ends where it ends |
| `Serializer.WriteProduceResponse` | src/protocol/serializer.cpp:565-590 | Writes exactly the layout of the kind and ends where it ends |
| `Serializer.WriteStatus` | src/protocol/serializer.cpp:488-507 | The same for Heartbeat and LeaveGroup |
| `Serializer.WriteInt32s` | src/protocol/serializer.cpp:13-18 | Writes the count and every element |
| `ResponseLaws.DecodeInvertsFrame` | src/protocol/serializer.cpp:33-594 | A decoder built from the reader operations recovers every field of every nested topic, partition, broker and member of all 13 kinds when all lengths plus one are below 2^28, apart from the unsent splice fields, and finds every constant and tag byte in its place |
| `ResponseLaws.DecodeInvertsBody` | src/protocol/serializer.cpp:33-594 | The same for a body without its length, with nothing left over |
| `ResponseLaws.FrameInjective` | src/protocol/serializer.cpp:33-594 | Two responses of one kind have the same frame exactly when they agree on everything but the splice fields |
| `ResponseLaws.KindIsNotInTheFrame` | src/protocol/serializer.cpp:483-508 | Heartbeat and LeaveGroup responses with equal fields share a frame |
| `Metadata.ParseClusterMetadata` | src/cluster/metadata.cpp:28-243 | Ends on every input and in bounds; the result maps each name and each uuid to its last topic record, and every recorded partition of a known uuid goes to that topic in log order |
| `Metadata.ReadLog` | src/cluster/metadata.cpp:35-227 | The nested batch, record and header loops extract exactly the entries the log specification says, gave-up records included |
| `Metadata.ReadRecords` | src/cluster/metadata.cpp:90-226 | The record loop with its early exits does the same for one batch |
| `Metadata.ReadRecord` | src/cluster/metadata.cpp:95-225 | One turn of the record loop: what is kept and where the cursor stops on each failure |
| `Metadata.IndexTopics` | src/cluster/metadata.cpp:229-234 | Both indexes map every key, and no other, to its last position |
| `Metadata.AddPartitions` | src/cluster/metadata.cpp:235-240 | Partitions go to the last topic with their uuid, in log order, and others are dropped |
| `Metadata.RecordsShrink` | src/cluster/metadata.cpp:90-226 | No sequence of records moves the cursor back, so the batch loop ends |
| `MetadataLaws.ExactIsUnique` | src/cluster/metadata.cpp:229-242 | That contract determines the whole result |
| `MetadataLaws.LookupsExact` | src/broker/record_handler.cpp:154-170 | Lookups by name and by id index the topic list in bounds, find a topic exactly when the log records one, and find the one asked for |
| `MetadataLaws.PartitionReachesItsTopic` | src/cluster/metadata.cpp:235-240 | A partition record reaches its topic wherever in the log either of them stands |
| `MetadataLaws.LogReadBack` | src/cluster/metadata.cpp:35-227 | On every well-formed log, whatever stands behind it and whether or not offsets were left out by compaction, the extracted entries are exactly the topic and partition records written, then those of what stands behind |
| `MetadataLaws.LogEnds` | src/cluster/metadata.cpp:35-58 | The log ends where less than a header is left, at a negative batch length, and at another magic byte |
| `MetadataLaws.TopicsInLogOrder` | src/cluster/metadata.cpp:160-173 | The topic records are those of the log, in its order and as often |
| `MetadataLaws.PartitionsInLogOrder` | src/cluster/metadata.cpp:174-190 | So are the partition records |
| `MetadataLaws.IdsInLogOrder` | src/cluster/metadata.cpp:235-240 | And so are the partitions of one topic id |
| `MetadataLaws.RecordReadBack` | src/cluster/metadata.cpp:95-225 | A well-formed record of any type, with any key and headers, or without a value, is read back and ends where the next begins |

## Left out

- io_uring writes, splicing and their completions: foreign calls whose order the repository does not decide. Writes are synchronous and complete.
- IndexedFetch.IndexedFetchRefinesScan: unrolled logs; `RolledFetch` has what holds after a roll and what does not.
- IndexedFetch.FetchIsPrefixOfStream: says nothing when no whole batch fits the window, because the source then returns raw batch bytes; `IndexedFetchRefinesScan` says which bytes.
- PartitionContext.PartitionContext.Produce: requires the next offset to stay clear of the 64-bit limits, since the source's addition is undefined there.
- PartitionContext.PartitionContext.SpliceInfo: requires the looked-up position to be within the segment, which `SpliceStaysInBounds` proves of every reachable state with positive record counts.
- PartitionLog.FullReadIsAcceptanceOrder: assumes record counts of at least one, as two segments could otherwise share a base.
- PartitionLog.SparseIndexExact: assumes record counts of at least one, as two batches could otherwise share a base.
- PartitionLog.SpliceStaysInBounds: assumes record counts of at least one, like `SparseIndexExact`.
- Directory entries that are no regular files, and files that cannot be opened: the listing holds regular, readable files.
- RecordBatch.SingleBatch: header-free records only, because the parser reads the header count as unsigned minus one; `RecordBatchLaws.HeadersReadBack` has records with headers written that way.
- RecordBatch.ParseIsHomomorphic: header-free records only, like `SingleBatch`.
- Serializer.Serialize: requires the DescribeTopicPartitions topic count to take one byte, because beyond that the source writes past its buffer.
- RequestLaws.StrictPrefixRefused: covers the nine kinds of `ParseInvertsEncode`.
- RequestLaws.ParseInvertsEncode: does not cover the Fetch, Metadata, ApiVersions and DescribeTopicPartitions branches of `parse_request`, which the model names `Elsewhere`. The Fetch branch checks a different variable from the one just read and the DescribeTopicPartitions branch subtracts one from a possibly zero count.
- Error codes of the readers: every failure is `None`, without its code.
- Allocation failure: only the negative count that `reserve` rejects in the record-batch parser is modelled.
- Signed overflow of `last_offset_delta + 1`: modelled as wrap-around; the source leaves it undefined.
- Generations and member counters are unbounded integers.
- ShardOwnership.SingleOwnerGapFree: assumes well-routed requests, without which single ownership fails as `OwnershipExact` says.
- ShardAnswers.AnswersAreRight: assumes well-routed requests, like `SingleOwnerGapFree`; without them `ContextIsItsRun` still says what each reactor's log is.
- ShardAnswers.FullFetchAnswer: assumes record counts of at least one, like `FullReadIsAcceptanceOrder`.
- FetchAnswers.FetchFindsTheRecord: says nothing of a fetch that reads another segment than the lookup names; `RolledFetch.WrongSegmentGivesOtherRecords` does.
- The log-append time and log-start offset of a produce reply, and the timestamp of a ListOffsets reply, which are constants; the file range in a spliced fetch reply, of which `FetchAnswers.SpliceCoversFromTheIndex` says what it is.
- MetadataLaws.RecordReadBack: a record without a value has no headers, because the parser then reads only their number; values of one or two bytes, which it does not pass over, are outside the well-formed logs.
- ShardDelivery.OutputIsWhatWasGiven: assumes that no response is empty, which is true of the serializer.
- The order of responses on one connection that come from different reactors: the source does not order them.
- In the system of reactors a context is a value in a map, a response is an abstract function of its replies, the drain loops are one step per message, and a request is the flat list of its partition tasks; `RecordHandler` proves the nested loops equal to that list. Error entries for unknown topic ids in a fetch are not among the replies.
- Socket errors are taken to discard no bytes.
- Connection.OutputExactlyOnceInOrder: responses are non-empty, as every serialized response is.
- Bit operations are written as arithmetic, except in `Shard.Route` and `Zigzag`.
- varint sizes inside the size pass use the function `VarintSize`, which `Varint.VarintEncodedSize` proves the source's loop computes.
- CRC, timestamps and producer ids, which the broker does not interpret.
- Sockets, epoll, eventfd, server setup, configuration, logging and metrics: plumbing.
- src/broker/metadata_handler.cpp, src/broker/broker.cpp, `handle_find_coordinator` and `parse_cluster_metadata_file`, which look up, dispatch, answer with constants and read a file.
