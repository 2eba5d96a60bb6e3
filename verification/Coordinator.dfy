/** The consumer-group coordinator (src/broker/group_coordinator.cpp): what each handler does to the
    groups, as functions, and the handlers themselves.  Every handler runs under one lock, so a handler
    is one step.  The clock is an argument; generations and member numbers are unbounded. */
module Coordinator {
  import opened Bytes
  import opened Text
  import opened Protocol

  datatype GroupState = Empty | AwaitingSync | Stable | Dead

  datatype Member = Member(id: bytes, metadata: bytes, assignment: bytes, lastHeartbeat: int)

  type Offsets = map<bytes, map<int32, int64>>

  datatype Group = Group(state: GroupState, generation: int, sessionTimeoutMs: int, members: seq<Member>, committed: Offsets)

  const NEW_GROUP := Group(Empty, 0, 30000, [], map[])
  const ILLEGAL_GENERATION: int16 := 82
  const UNKNOWN_MEMBER: int16 := 25

  datatype Coord = Coord(groups: map<bytes, Group>, nextMemberId: nat)

  const START := Coord(map[], 0)

  /** The fields of a reply that the handler computes. */
  datatype Reply =
    | Joined(generation: int, protocolName: bytes, leader: bytes, memberId: bytes, members: seq<JoinGroupMember>)
    | Synced(error: int16, assignment: bytes)
    | Beat(error: int16)
    | Left(error: int16)
    | Committed(commitTopics: seq<OffsetCommitTopicResponse>)
    | Fetched(offsetTopics: seq<OffsetFetchTopicResponse>)
    | Elsewhere

  /** `groups_[id]`: the group, created empty if missing. */
  function At(groups: map<bytes, Group>, id: bytes): Group
  {
    if id in groups then groups[id] else NEW_GROUP
  }

  // ---- member lists ----

  /** The position of the first member called `id`, or the length of the list. */
  function Find(ms: seq<Member>, id: bytes): (i: nat)
    ensures i <= |ms| && (i < |ms| ==> ms[i].id == id)
    ensures forall j :: 0 <= j < i ==> ms[j].id != id
  {
    if ms == [] || ms[0].id == id then 0 else 1 + Find(ms[1..], id)
  }

  function Touch(ms: seq<Member>, id: bytes, now: int): seq<Member>
  {
    var i := Find(ms, id);
    if i < |ms| then ms[i := ms[i].(lastHeartbeat := now)] else ms
  }

  function AssignOne(ms: seq<Member>, a: SyncGroupAssignment, now: int): seq<Member>
  {
    var i := Find(ms, a.memberId);
    if i < |ms| then ms[i := ms[i].(assignment := a.assignment)]
    else ms + [Member(a.memberId, [], a.assignment, now)]
  }

  function Assign(ms: seq<Member>, assignments: seq<SyncGroupAssignment>, now: int): seq<Member>
  {
    if assignments == [] then ms
    else AssignOne(Assign(ms, assignments[..|assignments| - 1], now), assignments[|assignments| - 1], now)
  }

  function AssignmentOf(ms: seq<Member>, id: bytes): bytes
  {
    var i := Find(ms, id);
    if i < |ms| then ms[i].assignment else []
  }

  /** `std::erase_if` keeps the others in order. */
  function Keep(ms: seq<Member>, keep: Member -> bool): seq<Member>
  {
    if ms == [] then []
    else
      var init, last := ms[..|ms| - 1], ms[|ms| - 1];
      if keep(last) then Keep(init, keep) + [last] else Keep(init, keep)
  }

  // ---- the handlers as functions ----

  function MemberName(c: Coord, requested: bytes): bytes
  {
    if requested == [] then Ascii("member-") + ToString(c.nextMemberId + 1) else requested
  }

  function JoinMembers(ms: seq<Member>, id: bytes, protocols: seq<JoinGroupProtocol>, now: int): seq<Member>
  {
    if Find(ms, id) < |ms| then Touch(ms, id, now)
    else ms + [Member(id, if protocols == [] then [] else protocols[0].metadata, [], now)]
  }

  function JoinedGroup(g: Group, id: bytes, r: Request, now: int): Group
    requires r.JoinGroupRequest?
  {
    Group(AwaitingSync,
          if g.generation == 0 then 1 else if g.state == Stable then g.generation + 1 else g.generation,
          r.sessionTimeoutMs, JoinMembers(g.members, id, r.protocols, now), g.committed)
  }

  function Roster(ms: seq<Member>): seq<JoinGroupMember>
  {
    seq(|ms|, i requires 0 <= i < |ms| => JoinGroupMember(ms[i].id, ms[i].metadata))
  }

  function Join(c: Coord, r: Request, now: int): (Coord, Reply)
    requires r.JoinGroupRequest?
  {
    var id := MemberName(c, r.memberId);
    var g := JoinedGroup(At(c.groups, r.groupId), id, r, now);
    (Coord(c.groups[r.groupId := g], if r.memberId == [] then c.nextMemberId + 1 else c.nextMemberId),
     Joined(g.generation, if r.protocols == [] then [] else r.protocols[0].name,
            if g.members == [] then [] else g.members[0].id, id, Roster(g.members)))
  }

  function Sync(c: Coord, r: Request, now: int): (Coord, Reply)
    requires r.SyncGroupRequest?
  {
    if r.groupId !in c.groups || c.groups[r.groupId].generation != r.generationId
    then (c, Synced(ILLEGAL_GENERATION, []))
    else
      var g := c.groups[r.groupId];
      var g' := if r.assignments == [] then g
                else g.(members := Assign(g.members, r.assignments, now), state := Stable);
      (c.(groups := c.groups[r.groupId := g']), Synced(0, AssignmentOf(g'.members, r.memberId)))
  }

  function Alive(now: int, timeout: int): Member -> bool
  {
    (m: Member) => !(now - m.lastHeartbeat > timeout)
  }

  function BeatGroup(g: Group, memberId: bytes, now: int): Group
  {
    var members := Keep(Touch(g.members, memberId, now), Alive(now, g.sessionTimeoutMs));
    if members == [] then g.(members := members, state := Empty)
    else if |members| < |g.members| then g.(members := members, state := AwaitingSync, generation := g.generation + 1)
    else g.(members := members)
  }

  function Heartbeat(c: Coord, r: Request, now: int): (Coord, Reply)
    requires r.HeartbeatRequest?
  {
    if r.groupId !in c.groups || c.groups[r.groupId].generation != r.generationId || c.groups[r.groupId].state != Stable
    then (c, Beat(ILLEGAL_GENERATION))
    else (c.(groups := c.groups[r.groupId := BeatGroup(c.groups[r.groupId], r.memberId, now)]), Beat(0))
  }

  function NotNamed(id: bytes): Member -> bool
  {
    (m: Member) => m.id != id
  }

  function LeaveGroup(g: Group, memberId: bytes): Group
  {
    var members := Keep(g.members, NotNamed(memberId));
    if |members| == |g.members| then g.(members := members)
    else if members == [] then g.(members := members, state := Empty)
    else g.(members := members, state := AwaitingSync, generation := g.generation + 1)
  }

  function Leave(c: Coord, r: Request): (Coord, Reply)
    requires r.LeaveGroupRequest?
  {
    if r.groupId !in c.groups then (c, Left(UNKNOWN_MEMBER))
    else
      var g := LeaveGroup(c.groups[r.groupId], r.memberId);
      (c.(groups := c.groups[r.groupId := g]),
       Left(if |g.members| == |c.groups[r.groupId].members| then UNKNOWN_MEMBER else 0))
  }

  function Put(offsets: Offsets, topic: bytes, partition: int32, offset: int64): Offsets
  {
    offsets[topic := (if topic in offsets then offsets[topic] else map[])[partition := offset]]
  }

  function Get(offsets: Offsets, topic: bytes, partition: int32): Option<int64>
  {
    if topic in offsets && partition in offsets[topic] then Some(offsets[topic][partition]) else None
  }

  function CommitPartitions(offsets: Offsets, topic: bytes, ps: seq<OffsetCommitPartitionRequest>): Offsets
  {
    if ps == [] then offsets
    else
      var last := ps[|ps| - 1];
      Put(CommitPartitions(offsets, topic, ps[..|ps| - 1]), topic, last.partitionIndex, last.committedOffset)
  }

  function CommitTopics(offsets: Offsets, ts: seq<OffsetCommitTopicRequest>): Offsets
  {
    if ts == [] then offsets
    else
      var last := ts[|ts| - 1];
      CommitPartitions(CommitTopics(offsets, ts[..|ts| - 1]), last.topicName, last.partitions)
  }

  function CommitReply(ts: seq<OffsetCommitTopicRequest>): seq<OffsetCommitTopicResponse>
  {
    seq(|ts|, i requires 0 <= i < |ts| => OffsetCommitTopicResponse(ts[i].topicName, CommitAcks(ts[i].partitions)))
  }

  function CommitAcks(ps: seq<OffsetCommitPartitionRequest>): seq<OffsetCommitPartitionResponse>
  {
    seq(|ps|, i requires 0 <= i < |ps| => OffsetCommitPartitionResponse(ps[i].partitionIndex, 0, -1, []))
  }

  function OffsetCommit(c: Coord, r: Request): (Coord, Reply)
    requires r.OffsetCommitRequest?
  {
    var g := At(c.groups, r.groupId);
    (c.(groups := c.groups[r.groupId := g.(committed := CommitTopics(g.committed, r.commitTopics))]),
     Committed(CommitReply(r.commitTopics)))
  }

  function FetchedPartitions(offsets: Offsets, topic: bytes, ps: seq<int32>): seq<OffsetFetchPartitionResponse>
  {
    seq(|ps|, i requires 0 <= i < |ps| => OffsetFetchPartitionResponse(ps[i],
        if Get(offsets, topic, ps[i]).Some? then Get(offsets, topic, ps[i]).value else -1, -1, [], 0))
  }

  function FetchedTopics(offsets: Offsets, ts: seq<OffsetFetchTopicRequest>): seq<OffsetFetchTopicResponse>
  {
    seq(|ts|, i requires 0 <= i < |ts| =>
        OffsetFetchTopicResponse(ts[i].topicName, FetchedPartitions(offsets, ts[i].topicName, ts[i].partitionIndexes)))
  }

  function OffsetFetch(c: Coord, r: Request): (Coord, Reply)
    requires r.OffsetFetchRequest?
  {
    var g := At(c.groups, r.groupId);
    (c.(groups := c.groups[r.groupId := g]), Fetched(FetchedTopics(g.committed, r.offsetTopics)))
  }

  /** One request handled at time `now`; requests of other kinds do not concern the coordinator. */
  function Step(c: Coord, r: Request, now: int): (Coord, Reply)
  {
    match r
    case JoinGroupRequest(_, _, _, _, _, _) => Join(c, r, now)
    case SyncGroupRequest(_, _, _, _, _) => Sync(c, r, now)
    case HeartbeatRequest(_, _, _, _, _) => Heartbeat(c, r, now)
    case LeaveGroupRequest(_, _, _) => Leave(c, r)
    case OffsetCommitRequest(_, _, _, _, _) => OffsetCommit(c, r)
    case OffsetFetchRequest(_, _, _) => OffsetFetch(c, r)
    case _ => (c, Elsewhere)
  }

  // ---- the handlers themselves ----

  class GroupCoordinator {
    var groups: map<bytes, Group>
    var nextMemberId: nat

    ghost function State(): Coord
      reads this
    {
      Coord(groups, nextMemberId)
    }

    constructor ()
      ensures State() == START
    {
      groups, nextMemberId := map[], 0;
    }

    method HandleJoinGroup(r: Request, now: int) returns (reply: Reply)
      requires r.JoinGroupRequest?
      modifies this
      ensures (State(), reply) == Join(old(State()), r, now)
    {
      hide Roster, Find, Ascii, ToString;
      var member := r.memberId;
      if member == [] {
        nextMemberId := nextMemberId + 1;
        member := Ascii("member-") + ToString(nextMemberId);
      }
      var meta := At(groups, r.groupId);
      var i := FindMember(meta.members, member);
      if i == |meta.members| {
        var metadata := if r.protocols == [] then [] else r.protocols[0].metadata;
        meta := meta.(members := meta.members + [Member(member, metadata, [], now)]);
      } else {
        meta := meta.(members := meta.members[i := meta.members[i].(lastHeartbeat := now)]);
      }
      meta := meta.(sessionTimeoutMs := r.sessionTimeoutMs);
      if meta.generation == 0 {
        meta := meta.(generation := 1);
      } else if meta.state == Stable {
        meta := meta.(generation := meta.generation + 1);
      }
      meta := meta.(state := AwaitingSync);
      groups := groups[r.groupId := meta];
      var protoName := if r.protocols == [] then [] else r.protocols[0].name;
      var roster := BuildRoster(meta.members);
      reply := Joined(meta.generation, protoName, meta.members[0].id, member, roster);
    }

    method HandleSyncGroup(r: Request, now: int) returns (reply: Reply)
      requires r.SyncGroupRequest?
      modifies this
      ensures (State(), reply) == Sync(old(State()), r, now)
    {
      hide Assign, Find;
      if r.groupId !in groups || groups[r.groupId].generation != r.generationId {
        return Synced(ILLEGAL_GENERATION, []);
      }
      var meta := groups[r.groupId];
      if r.assignments != [] {
        var members := ApplyAssignments(meta.members, r.assignments, now);
        meta := meta.(members := members, state := Stable);
      }
      groups := groups[r.groupId := meta];
      var j := FindMember(meta.members, r.memberId);
      reply := Synced(0, if j < |meta.members| then meta.members[j].assignment else []);
    }

    method HandleHeartbeat(r: Request, now: int) returns (reply: Reply)
      requires r.HeartbeatRequest?
      modifies this
      ensures (State(), reply) == Heartbeat(old(State()), r, now)
    {
      if r.groupId !in groups || groups[r.groupId].generation != r.generationId || groups[r.groupId].state != Stable {
        return Beat(ILLEGAL_GENERATION);
      }
      var meta := groups[r.groupId];
      var i := FindMember(meta.members, r.memberId);
      if i < |meta.members| {
        meta := meta.(members := meta.members[i := meta.members[i].(lastHeartbeat := now)]);
      }
      var oldSize := |meta.members|;
      var kept := EraseUnless(meta.members, Alive(now, meta.sessionTimeoutMs));
      meta := meta.(members := kept);
      if kept == [] {
        meta := meta.(state := Empty);
      } else if |kept| < oldSize {
        meta := meta.(state := AwaitingSync, generation := meta.generation + 1);
      }
      groups := groups[r.groupId := meta];
      reply := Beat(0);
    }

    method HandleLeaveGroup(r: Request) returns (reply: Reply)
      requires r.LeaveGroupRequest?
      modifies this
      ensures (State(), reply) == Leave(old(State()), r)
    {
      if r.groupId !in groups {
        return Left(UNKNOWN_MEMBER);
      }
      var meta := groups[r.groupId];
      var oldSize := |meta.members|;
      KeepShrinks(meta.members, NotNamed(r.memberId));
      var kept := EraseUnless(meta.members, NotNamed(r.memberId));
      meta := meta.(members := kept);
      reply := Left(UNKNOWN_MEMBER);
      if |kept| < oldSize {
        reply := Left(0);
        if kept == [] {
          meta := meta.(state := Empty);
        } else {
          meta := meta.(state := AwaitingSync, generation := meta.generation + 1);
        }
      }
      groups := groups[r.groupId := meta];
    }

    method HandleOffsetCommit(r: Request) returns (reply: Reply)
      requires r.OffsetCommitRequest?
      modifies this
      ensures (State(), reply) == OffsetCommit(old(State()), r)
    {
      var meta := At(groups, r.groupId);
      var offsets := meta.committed;
      var topics: seq<OffsetCommitTopicResponse> := [];
      for i := 0 to |r.commitTopics|
        invariant offsets == CommitTopics(meta.committed, r.commitTopics[..i])
        invariant topics == CommitReply(r.commitTopics[..i])
      {
        var t := r.commitTopics[i];
        assert r.commitTopics[..i + 1][..i] == r.commitTopics[..i];
        ghost var before := offsets;
        var parts: seq<OffsetCommitPartitionResponse> := [];
        for j := 0 to |t.partitions|
          invariant offsets == CommitPartitions(before, t.topicName, t.partitions[..j])
          invariant parts == CommitAcks(t.partitions[..j])
        {
          var p := t.partitions[j];
          assert t.partitions[..j + 1][..j] == t.partitions[..j];
          offsets := Put(offsets, t.topicName, p.partitionIndex, p.committedOffset);
          parts := parts + [OffsetCommitPartitionResponse(p.partitionIndex, 0, -1, [])];
        }
        assert t.partitions[..|t.partitions|] == t.partitions;
        topics := topics + [OffsetCommitTopicResponse(t.topicName, parts)];
      }
      assert r.commitTopics[..|r.commitTopics|] == r.commitTopics;
      groups := groups[r.groupId := meta.(committed := offsets)];
      reply := Committed(topics);
    }

    method HandleOffsetFetch(r: Request) returns (reply: Reply)
      requires r.OffsetFetchRequest?
      modifies this
      ensures (State(), reply) == OffsetFetch(old(State()), r)
    {
      var meta := At(groups, r.groupId);
      groups := groups[r.groupId := meta];
      var topics: seq<OffsetFetchTopicResponse> := [];
      for i := 0 to |r.offsetTopics|
        invariant topics == FetchedTopics(meta.committed, r.offsetTopics[..i])
      {
        var t := r.offsetTopics[i];
        var parts: seq<OffsetFetchPartitionResponse> := [];
        for j := 0 to |t.partitionIndexes|
          invariant parts == FetchedPartitions(meta.committed, t.topicName, t.partitionIndexes[..j])
        {
          var offset: int64 := -1;
          var idx := t.partitionIndexes[j];
          if t.topicName in meta.committed {
            if idx in meta.committed[t.topicName] {
              offset := meta.committed[t.topicName][idx];
            }
          }
          parts := parts + [OffsetFetchPartitionResponse(idx, offset, -1, [], 0)];
        }
        assert t.partitionIndexes[..|t.partitionIndexes|] == t.partitionIndexes;
        topics := topics + [OffsetFetchTopicResponse(t.topicName, parts)];
      }
      assert r.offsetTopics[..|r.offsetTopics|] == r.offsetTopics;
      reply := Fetched(topics);
    }
  }

  method BuildRoster(ms: seq<Member>) returns (roster: seq<JoinGroupMember>)
    ensures roster == Roster(ms)
  {
    roster := [];
    for k := 0 to |ms|
      invariant roster == Roster(ms[..k])
    {
      roster := roster + [JoinGroupMember(ms[k].id, ms[k].metadata)];
    }
    assert ms[..|ms|] == ms;
  }

  method ApplyAssignments(ms: seq<Member>, assignments: seq<SyncGroupAssignment>, now: int) returns (members: seq<Member>)
    ensures members == Assign(ms, assignments, now)
  {
    members := ms;
    for k := 0 to |assignments|
      invariant members == Assign(ms, assignments[..k], now)
    {
      var a := assignments[k];
      assert assignments[..k + 1][..k] == assignments[..k];
      var i := FindMember(members, a.memberId);
      if i < |members| {
        members := members[i := members[i].(assignment := a.assignment)];
      } else {
        members := members + [Member(a.memberId, [], a.assignment, now)];
      }
    }
    assert assignments[..|assignments|] == assignments;
  }

  /** The search loop the handlers share. */
  method FindMember(ms: seq<Member>, id: bytes) returns (i: nat)
    ensures i == Find(ms, id)
  {
    i := 0;
    while i < |ms| && ms[i].id != id
      invariant i <= |ms| && forall j :: 0 <= j < i ==> ms[j].id != id
    {
      i := i + 1;
    }
  }

  method EraseUnless(ms: seq<Member>, keep: Member -> bool) returns (kept: seq<Member>)
    ensures kept == Keep(ms, keep)
  {
    kept := [];
    for i := 0 to |ms|
      invariant kept == Keep(ms[..i], keep)
    {
      assert ms[..i + 1][..i] == ms[..i];
      if keep(ms[i]) {
        kept := kept + [ms[i]];
      }
    }
    assert ms[..|ms|] == ms;
  }

  lemma {:induction false} KeepShrinks(ms: seq<Member>, keep: Member -> bool)
    ensures |Keep(ms, keep)| <= |ms|
    ensures |Keep(ms, keep)| == |ms| ==> Keep(ms, keep) == ms
    decreases |ms|
  {
    if ms != [] {
      KeepShrinks(ms[..|ms| - 1], keep);
    }
  }
}
