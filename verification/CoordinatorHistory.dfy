/** The coordinator's replies as functions of the history of requests alone: who was admitted when,
    what was assigned last, what was committed last. */
module CoordinatorHistory {
  import opened Bytes
  import opened Protocol
  import opened Coordinator
  import opened CoordinatorRuns

  // ---- order of admission ----

  /** The ids of `ids'` that are not in `ids`, in order. */
  function Fresh(ids: seq<bytes>, ids': seq<bytes>): seq<bytes>
  {
    if ids' == [] then []
    else
      var init, last := ids'[..|ids'| - 1], ids'[|ids'| - 1];
      if last in ids then Fresh(ids, init) else Fresh(ids, init) + [last]
  }

  /** Everyone ever admitted to the group, in order; an id that left and came back appears again. */
  function Admissions(es: seq<Event>, gid: bytes): seq<bytes>
  {
    if es == [] then []
    else
      var before := es[..|es| - 1];
      Admissions(before, gid) + Fresh(Ids(GroupIn(before, gid).members), Ids(GroupIn(es, gid).members))
  }

  /** The position of the last admission of `id`, or -1. */
  function LastAdmitted(log: seq<bytes>, id: bytes): (i: int)
    ensures -1 <= i < |log| && (i >= 0 ==> log[i] == id)
    ensures id in log ==> i >= 0
  {
    if log == [] then -1 else if log[|log| - 1] == id then |log| - 1 else LastAdmitted(log[..|log| - 1], id)
  }

  /** The list is in order of last admission. */
  ghost predicate Seniority(ids: seq<bytes>, log: seq<bytes>)
  {
    && (forall i :: 0 <= i < |ids| ==> ids[i] in log)
    && (forall i, j :: 0 <= i < j < |ids| ==> LastAdmitted(log, ids[i]) < LastAdmitted(log, ids[j]))
  }

  lemma {:induction false} FreshOfThinned(ids: seq<bytes>, ids': seq<bytes>)
    requires forall i :: 0 <= i < |ids'| ==> ids'[i] in ids
    ensures Fresh(ids, ids') == []
    decreases |ids'|
  {
    if ids' != [] {
      FreshOfThinned(ids, ids'[..|ids'| - 1]);
    }
  }

  lemma {:induction false} FreshOfGrown(ids: seq<bytes>, ids': seq<bytes>)
    requires ids <= ids' && forall i :: |ids| <= i < |ids'| ==> ids'[i] !in ids
    ensures Fresh(ids, ids') == ids'[|ids|..]
    decreases |ids'|
  {
    if |ids'| == |ids| {
      FreshOfThinned(ids, ids');
    } else {
      var n := |ids'| - 1;
      FreshOfGrown(ids, ids'[..n]);
      assert ids'[|ids|..] == ids'[..n][|ids|..] + [ids'[n]];
    }
  }

  lemma {:induction false} LastOfAppend(log: seq<bytes>, new': seq<bytes>, id: bytes)
    ensures LastAdmitted(log + new', id) ==
            if id in new' then |log| + LastAdmitted(new', id) else LastAdmitted(log, id)
    decreases |new'|
  {
    if new' == [] {
      assert log + new' == log;
    } else {
      var n := |new'| - 1;
      assert (log + new')[..|log| + n] == log + new'[..n];
      LastOfAppend(log, new'[..n], id);
      assert id in new' <==> id == new'[n] || id in new'[..n];
    }
  }

  lemma LastOfDistinct(new': seq<bytes>, i: nat)
    requires Distinct(new') && i < |new'|
    ensures LastAdmitted(new', new'[i]) == i
  {
    assert new'[i] in new';
  }

  lemma SeniorityGrows(ids: seq<bytes>, ids': seq<bytes>, log: seq<bytes>)
    requires Seniority(ids, log) && Grown(ids, ids')
    ensures Seniority(ids', log + ids'[|ids|..])
  {
    hide LastAdmitted;
    var new' := ids'[|ids|..];
    forall i | 0 <= i < |ids'|
      ensures ids'[i] in log + new'
      ensures LastAdmitted(log + new', ids'[i]) == if i < |ids| then LastAdmitted(log, ids[i]) else |log| + (i - |ids|)
      ensures i < |ids| ==> LastAdmitted(log + new', ids'[i]) < |log|
    {
      LastOfAppend(log, new', ids'[i]);
      if i >= |ids| {
        assert ids'[i] == new'[i - |ids|];
        LastOfDistinct(new', i - |ids|);
      } else {
        assert ids'[i] == ids[i] && ids[i] in log;
        LastInRange(log, ids[i]);
        assert ids[i] !in new' by {
          assert forall k :: 0 <= k < |new'| ==> new'[k] == ids'[|ids| + k];
        }
      }
    }
  }

  lemma LastInRange(log: seq<bytes>, id: bytes)
    ensures LastAdmitted(log, id) < |log|
  {
  }

  lemma SeniorityThins(ids: seq<bytes>, ids': seq<bytes>, log: seq<bytes>)
    requires Seniority(ids, log) && Thinned(ids, ids')
    ensures Seniority(ids', log)
  {
    hide LastAdmitted;
    forall i, j | 0 <= i < j < |ids'|
      ensures LastAdmitted(log, ids'[i]) < LastAdmitted(log, ids'[j])
    {
      assert Before(ids, ids'[i], ids'[j]);
    }
  }

  lemma SeniorityStep(ids: seq<bytes>, ids': seq<bytes>, log: seq<bytes>)
    requires Seniority(ids, log) && (Grown(ids, ids') || Thinned(ids, ids'))
    ensures Seniority(ids', log + Fresh(ids, ids'))
  {
    hide Seniority, Fresh, LastAdmitted;
    if Thinned(ids, ids') {
      FreshOfThinned(ids, ids');
      SeniorityThins(ids, ids', log);
      assert log + [] == log;
    } else {
      FreshOfGrown(ids, ids');
      SeniorityGrows(ids, ids', log);
    }
  }

  /** In every reachable state each group lists its members in order of admission. */
  lemma {:induction false} MembersInOrderOfAdmission(es: seq<Event>, gid: bytes)
    ensures Seniority(Ids(GroupIn(es, gid).members), Admissions(es, gid))
    decreases |es|
  {
    hide Seniority, Grown, Thinned, Effect, Step, Fresh;
    if es == [] {
      NoSeniority();
    } else {
      var before, e := es[..|es| - 1], es[|es| - 1];
      MembersInOrderOfAdmission(before, gid);
      StepIsEffect(Run(before), gid, e.request, e.now);
      var ids, ids' := Ids(GroupIn(before, gid).members), Ids(GroupIn(es, gid).members);
      if Concerns(e.request, gid) {
        EffectOnIds(Run(before), gid, e.request, e.now);
      } else {
        GrownSame(ids);
      }
      SeniorityStep(ids, ids', Admissions(before, gid));
    }
  }

  lemma NoSeniority()
    ensures Seniority(Ids(NEW_GROUP.members), [])
  {
  }

  /** The leader a JoinGroup names is the member of the group admitted before all others. */
  lemma LeaderIsMostSenior(es: seq<Event>, e: Event)
    requires e.request.JoinGroupRequest?
    ensures ReplyTo(es, e).Joined?
    ensures var log, ids := Admissions(es + [e], e.request.groupId), Ids(GroupIn(es + [e], e.request.groupId).members);
            && ReplyTo(es, e).leader in ids
            && forall m :: m in ids ==> LastAdmitted(log, ReplyTo(es, e).leader) <= LastAdmitted(log, m)
  {
    hide Admissions, Roster, JoinMembers, MemberName, LastAdmitted;
    assert (es + [e])[..|es|] == es;
    MembersInOrderOfAdmission(es + [e], e.request.groupId);
    JoinNotEmpty(At(Run(es).groups, e.request.groupId).members, MemberName(Run(es), e.request.memberId), e.request.protocols, e.now);
  }

  // ---- assignments ----

  function LastGiven(assignments: seq<SyncGroupAssignment>, id: bytes): Option<bytes>
  {
    if assignments == [] then None
    else
      var last := assignments[|assignments| - 1];
      if last.memberId == id then Some(last.assignment) else LastGiven(assignments[..|assignments| - 1], id)
  }

  /** The assignment last given to `id` by an accepted SyncGroup since it was last added to the group. */
  function GivenTo(es: seq<Event>, gid: bytes, id: bytes): bytes
  {
    if es == [] then []
    else
      var before, e := es[..|es| - 1], es[|es| - 1];
      if Stabilizes(Run(before), e, gid) && LastGiven(e.request.assignments, id).Some?
      then LastGiven(e.request.assignments, id).value
      else if id !in Ids(GroupIn(before, gid).members) && id in Ids(GroupIn(es, gid).members) then []
      else GivenTo(before, gid, id)
  }

  lemma FindSame(ms: seq<Member>, ms': seq<Member>, id: bytes)
    requires |ms| <= |ms'| && forall j :: 0 <= j < |ms| ==> ms'[j].id == ms[j].id
    ensures if Find(ms, id) < |ms| then Find(ms', id) == Find(ms, id) else Find(ms', id) >= |ms|
  {
    hide Find;
    var k, k' := Find(ms, id), Find(ms', id);
    if k < |ms| {
      assert ms'[k].id == ms[k].id == id;
    }
    if k' < |ms| {
      assert ms'[k'].id == ms[k'].id == id;
    }
  }

  lemma FindMeansMember(ms: seq<Member>, id: bytes)
    ensures Find(ms, id) < |ms| <==> id in Ids(ms)
  {
    hide Find;
    if Find(ms, id) < |ms| {
      assert Ids(ms)[Find(ms, id)] == id;
    }
  }

  lemma AssignOneGives(ms: seq<Member>, a: SyncGroupAssignment, now: int, id: bytes)
    ensures AssignmentOf(AssignOne(ms, a, now), id) == if id == a.memberId then a.assignment else AssignmentOf(ms, id)
  {
    hide Find;
    var ms' := AssignOne(ms, a, now);
    FindSame(ms, ms', id);
    if Find(ms, a.memberId) == |ms| {
      assert ms'[|ms|].id == a.memberId;
    }
  }

  lemma {:induction false} AssignGives(ms: seq<Member>, assignments: seq<SyncGroupAssignment>, now: int, id: bytes)
    ensures AssignmentOf(Assign(ms, assignments, now), id) ==
            if LastGiven(assignments, id).Some? then LastGiven(assignments, id).value else AssignmentOf(ms, id)
    decreases |assignments|
  {
    hide AssignOne, AssignmentOf;
    if assignments != [] {
      var init, last := assignments[..|assignments| - 1], assignments[|assignments| - 1];
      AssignGives(ms, init, now, id);
      AssignOneGives(Assign(ms, init, now), last, now, id);
    }
  }

  lemma TouchGives(ms: seq<Member>, touched: bytes, now: int, id: bytes)
    ensures AssignmentOf(Touch(ms, touched, now), id) == AssignmentOf(ms, id)
  {
    hide Find;
    FindSame(ms, Touch(ms, touched, now), id);
  }

  lemma JoinGives(ms: seq<Member>, joined: bytes, protocols: seq<JoinGroupProtocol>, now: int, id: bytes)
    ensures AssignmentOf(JoinMembers(ms, joined, protocols, now), id) == AssignmentOf(ms, id)
  {
    hide Find, Touch;
    TouchGives(ms, joined, now, id);
    if Find(ms, joined) == |ms| {
      FindSame(ms, JoinMembers(ms, joined, protocols, now), id);
    }
  }

  lemma {:induction false} KeepMembers(ms: seq<Member>, keep: Member -> bool, m: Member)
    ensures m in Keep(ms, keep) ==> m in ms
    decreases |ms|
  {
    if ms != [] {
      KeepMembers(ms[..|ms| - 1], keep, m);
    }
  }

  lemma KeepGives(ms: seq<Member>, keep: Member -> bool, id: bytes)
    requires Distinct(Ids(ms)) && id in Ids(Keep(ms, keep))
    ensures AssignmentOf(Keep(ms, keep), id) == AssignmentOf(ms, id)
  {
    hide Find, Keep;
    var kept := Keep(ms, keep);
    var i := Find(kept, id);
    var k :| 0 <= k < |kept| && Ids(kept)[k] == id;
    assert i < |kept|;
    KeepMembers(ms, keep, kept[i]);
    var j :| 0 <= j < |ms| && ms[j] == kept[i];
    assert Find(ms, id) == j by {
      assert Ids(ms)[j] == id;
      assert Find(ms, id) < |ms| ==> Ids(ms)[Find(ms, id)] == id;
    }
  }

  /** What a step does to the assignment of someone who is a member after it. */
  lemma EffectGives(c: Coord, e: Event, gid: bytes, id: bytes)
    requires GroupInv(At(c.groups, gid)) && Concerns(e.request, gid)
    requires id in Ids(Effect(c, gid, e.request, e.now).members)
    ensures AssignmentOf(Effect(c, gid, e.request, e.now).members, id) ==
            if Stabilizes(c, e, gid) && LastGiven(e.request.assignments, id).Some?
            then LastGiven(e.request.assignments, id).value else AssignmentOf(At(c.groups, gid).members, id)
  {
    hide Assign, JoinMembers, Keep, Touch, CommitTopics, MemberName, Distinct, AssignmentOf, LastGiven, Roster, Ids;
    var g, r := At(c.groups, gid), e.request;
    match r {
      case JoinGroupRequest(_, _, _, _, _, _) => JoinGives(g.members, MemberName(c, r.memberId), r.protocols, e.now, id);
      case SyncGroupRequest(_, _, _, _, _) => AssignGives(g.members, r.assignments, e.now, id);
      case HeartbeatRequest(_, _, _, _, _) =>
        if Effect(c, gid, r, e.now) != g {
          TouchIds(g.members, r.memberId, e.now);
          TouchGives(g.members, r.memberId, e.now, id);
          KeepGives(Touch(g.members, r.memberId, e.now), Alive(e.now, g.sessionTimeoutMs), id);
        }
      case LeaveGroupRequest(_, _, _) =>
        if Effect(c, gid, r, e.now) != g {
          KeepGives(g.members, NotNamed(r.memberId), id);
        }
      case _ =>
    }
  }

  lemma NotMemberNothing(ms: seq<Member>, id: bytes)
    requires id !in Ids(ms)
    ensures AssignmentOf(ms, id) == []
  {
    FindMeansMember(ms, id);
  }

  /** In every reachable state each member holds the assignment the history last gave it. */
  lemma {:induction false} AssignmentsAreHistory(es: seq<Event>, gid: bytes, id: bytes)
    requires id in Ids(GroupIn(es, gid).members)
    ensures AssignmentOf(GroupIn(es, gid).members, id) == GivenTo(es, gid, id)
    decreases |es|
  {
    hide Effect, Step, AssignmentOf, Ids, GroupInv, Stabilizes, LastGiven;
    if es == [] {
      NoMembers(id);
    } else {
      var before, e := es[..|es| - 1], es[|es| - 1];
      GroupInvariant(before, gid);
      StepIsEffect(Run(before), gid, e.request, e.now);
      StabilizesConcerns(Run(before), e, gid);
      if Concerns(e.request, gid) {
        EffectGives(Run(before), e, gid, id);
      }
      if id in Ids(GroupIn(before, gid).members) {
        AssignmentsAreHistory(before, gid, id);
      } else {
        NotMemberNothing(GroupIn(before, gid).members, id);
      }
    }
  }

  lemma NoMembers(id: bytes)
    ensures id !in Ids(NEW_GROUP.members)
  {
  }

  lemma StabilizesConcerns(c: Coord, e: Event, gid: bytes)
    ensures Stabilizes(c, e, gid) ==> Concerns(e.request, gid)
  {
    hide Step;
  }

  /** An accepted SyncGroup returns the assignment last given to the requesting member since it was last
      added, and nothing to someone who is not a member. */
  lemma SyncReturnsHistory(es: seq<Event>, e: Event)
    requires e.request.SyncGroupRequest? && ReplyTo(es, e).Synced? && ReplyTo(es, e).error == 0
    ensures var gid, id := e.request.groupId, e.request.memberId;
            ReplyTo(es, e).assignment ==
            if id in Ids(GroupIn(es + [e], gid).members) then GivenTo(es + [e], gid, id) else []
  {
    hide AssignmentOf, Ids, GivenTo, Assign;
    var gid, id := e.request.groupId, e.request.memberId;
    assert (es + [e])[..|es|] == es;
    assert ReplyTo(es, e).assignment == AssignmentOf(GroupIn(es + [e], gid).members, id);
    if id in Ids(GroupIn(es + [e], gid).members) {
      AssignmentsAreHistory(es + [e], gid, id);
    } else {
      NotMemberNothing(GroupIn(es + [e], gid).members, id);
    }
  }

  // ---- committed offsets ----

  function LastInPartitions(ps: seq<OffsetCommitPartitionRequest>, p: int32): Option<int64>
  {
    if ps == [] then None
    else
      var last := ps[|ps| - 1];
      if last.partitionIndex == p then Some(last.committedOffset) else LastInPartitions(ps[..|ps| - 1], p)
  }

  function LastInTopics(ts: seq<OffsetCommitTopicRequest>, t: bytes, p: int32): Option<int64>
  {
    if ts == [] then None
    else
      var last := ts[|ts| - 1];
      if last.topicName == t && LastInPartitions(last.partitions, p).Some? then LastInPartitions(last.partitions, p)
      else LastInTopics(ts[..|ts| - 1], t, p)
  }

  /** The value last committed for the group, topic and partition, from the OffsetCommit requests alone. */
  function LastCommit(es: seq<Event>, gid: bytes, t: bytes, p: int32): Option<int64>
  {
    if es == [] then None
    else
      var r := es[|es| - 1].request;
      if r.OffsetCommitRequest? && r.groupId == gid && LastInTopics(r.commitTopics, t, p).Some?
      then LastInTopics(r.commitTopics, t, p)
      else LastCommit(es[..|es| - 1], gid, t, p)
  }

  lemma {:induction false} CommitPartitionsGet(o: Offsets, topic: bytes, ps: seq<OffsetCommitPartitionRequest>, t: bytes, p: int32)
    ensures Get(CommitPartitions(o, topic, ps), t, p) ==
            if t == topic && LastInPartitions(ps, p).Some? then LastInPartitions(ps, p) else Get(o, t, p)
    decreases |ps|
  {
    if ps != [] {
      CommitPartitionsGet(o, topic, ps[..|ps| - 1], t, p);
    }
  }

  lemma {:induction false} CommitTopicsGet(o: Offsets, ts: seq<OffsetCommitTopicRequest>, t: bytes, p: int32)
    ensures Get(CommitTopics(o, ts), t, p) ==
            if LastInTopics(ts, t, p).Some? then LastInTopics(ts, t, p) else Get(o, t, p)
    decreases |ts|
  {
    hide CommitPartitions, Get, LastInPartitions;
    if ts != [] {
      var init, last := ts[..|ts| - 1], ts[|ts| - 1];
      CommitTopicsGet(o, init, t, p);
      CommitPartitionsGet(CommitTopics(o, init), last.topicName, last.partitions, t, p);
    }
  }

  lemma EffectOnOffsets(c: Coord, gid: bytes, r: Request, now: int, t: bytes, p: int32)
    ensures Get(Effect(c, gid, r, now).committed, t, p) ==
            if r.OffsetCommitRequest? && LastInTopics(r.commitTopics, t, p).Some? then LastInTopics(r.commitTopics, t, p)
            else Get(At(c.groups, gid).committed, t, p)
  {
    hide Assign, JoinMembers, Keep, Touch, CommitTopics, MemberName, LastInTopics, Get;
    if r.OffsetCommitRequest? {
      CommitTopicsGet(At(c.groups, gid).committed, r.commitTopics, t, p);
    }
  }

  /** In every reachable state the stored offset is the last one committed for that group, topic and
      partition: no membership step and no other group touches it. */
  lemma {:induction false} OffsetsAreHistory(es: seq<Event>, gid: bytes, t: bytes, p: int32)
    ensures Get(GroupIn(es, gid).committed, t, p) == LastCommit(es, gid, t, p)
    decreases |es|
  {
    hide Effect, Step, Get, LastInTopics;
    if es == [] {
      NothingCommitted(t, p);
    } else {
      var before, e := es[..|es| - 1], es[|es| - 1];
      OffsetsAreHistory(before, gid, t, p);
      StepIsEffect(Run(before), gid, e.request, e.now);
      EffectOnOffsets(Run(before), gid, e.request, e.now, t, p);
    }
  }

  lemma NothingCommitted(t: bytes, p: int32)
    ensures Get(NEW_GROUP.committed, t, p) == None
  {
  }

  /** OffsetFetch returns, for every topic and partition asked, the last value committed or -1. */
  lemma OffsetFetchReturnsHistory(es: seq<Event>, e: Event, i: nat, j: nat)
    requires e.request.OffsetFetchRequest?
    requires i < |e.request.offsetTopics| && j < |e.request.offsetTopics[i].partitionIndexes|
    ensures var r, reply := e.request, ReplyTo(es, e);
            var t, p := r.offsetTopics[i].topicName, r.offsetTopics[i].partitionIndexes[j];
            && reply.Fetched? && |reply.offsetTopics| == |r.offsetTopics|
            && reply.offsetTopics[i].topicName == t
            && |reply.offsetTopics[i].partitions| == |r.offsetTopics[i].partitionIndexes|
            && reply.offsetTopics[i].partitions[j] ==
               OffsetFetchPartitionResponse(p, if LastCommit(es, r.groupId, t, p).Some? then LastCommit(es, r.groupId, t, p).value else -1,
                                            -1, [], 0)
  {
    hide Run, Get, LastCommit;
    OffsetsAreHistory(es, e.request.groupId, e.request.offsetTopics[i].topicName, e.request.offsetTopics[i].partitionIndexes[j]);
  }
}
