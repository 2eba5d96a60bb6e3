/** What holds of the coordinator over every run: group invariants, generation fencing, order of
    admission, and replies that agree with the history of requests. */
module CoordinatorRuns {
  import opened Bytes
  import opened Protocol
  import opened Coordinator

  datatype Event = Event(request: Request, now: int)

  function Run(es: seq<Event>): Coord
  {
    if es == [] then START
    else
      var e := es[|es| - 1];
      Step(Run(es[..|es| - 1]), e.request, e.now).0
  }

  function ReplyTo(es: seq<Event>, e: Event): Reply { Step(Run(es), e.request, e.now).1 }

  function GroupIn(es: seq<Event>, gid: bytes): Group { At(Run(es).groups, gid) }

  /** The request is one of the six group requests and names `gid`. */
  predicate Concerns(r: Request, gid: bytes)
  {
    match r
    case JoinGroupRequest(_, g, _, _, _, _) => g == gid
    case SyncGroupRequest(_, g, _, _, _) => g == gid
    case HeartbeatRequest(_, g, _, _, _) => g == gid
    case LeaveGroupRequest(_, g, _) => g == gid
    case OffsetCommitRequest(_, g, _, _, _) => g == gid
    case OffsetFetchRequest(_, g, _) => g == gid
    case _ => false
  }

  /** What a request does to the group it names. */
  function Effect(c: Coord, gid: bytes, r: Request, now: int): Group
  {
    var g := At(c.groups, gid);
    match r
    case JoinGroupRequest(_, _, _, _, _, _) => JoinedGroup(g, MemberName(c, r.memberId), r, now)
    case SyncGroupRequest(_, _, _, _, _) =>
      if gid !in c.groups || g.generation != r.generationId || r.assignments == [] then g
      else g.(members := Assign(g.members, r.assignments, now), state := Stable)
    case HeartbeatRequest(_, _, _, _, _) =>
      if gid !in c.groups || g.generation != r.generationId || g.state != Stable then g else BeatGroup(g, r.memberId, now)
    case LeaveGroupRequest(_, _, _) => if gid !in c.groups then g else LeaveGroup(g, r.memberId)
    case OffsetCommitRequest(_, _, _, _, _) => g.(committed := CommitTopics(g.committed, r.commitTopics))
    case _ => g
  }

  /** A step changes the group it names, as `Effect` says, and no other; no group ever disappears. */
  lemma StepIsEffect(c: Coord, gid: bytes, r: Request, now: int)
    ensures At(Step(c, r, now).0.groups, gid) == if Concerns(r, gid) then Effect(c, gid, r, now) else At(c.groups, gid)
    ensures gid in c.groups ==> gid in Step(c, r, now).0.groups
    ensures !Concerns(r, gid) ==> (gid in c.groups <==> gid in Step(c, r, now).0.groups)
  {
    hide JoinedGroup, Assign, BeatGroup, LeaveGroup, CommitTopics, FetchedTopics, CommitReply, AssignmentOf, Roster,
         MemberName;
  }

  // ---- member ids ----

  function Ids(ms: seq<Member>): (ids: seq<bytes>)
    ensures |ids| == |ms| && forall i :: 0 <= i < |ms| ==> ids[i] == ms[i].id
  {
    seq(|ms|, i requires 0 <= i < |ms| => ms[i].id)
  }

  predicate Distinct(ids: seq<bytes>) { forall i, j :: 0 <= i < j < |ids| ==> ids[i] != ids[j] }

  lemma TouchIds(ms: seq<Member>, id: bytes, now: int)
    ensures Ids(Touch(ms, id, now)) == Ids(ms)
  {
    hide Find;
  }

  lemma AssignOneIds(ms: seq<Member>, a: SyncGroupAssignment, now: int)
    ensures Ids(AssignOne(ms, a, now)) == if a.memberId in Ids(ms) then Ids(ms) else Ids(ms) + [a.memberId]
  {
    hide Find;
    var i := Find(ms, a.memberId);
    if i < |ms| {
      assert Ids(ms)[i] == a.memberId;
    }
  }

  lemma JoinIds(ms: seq<Member>, id: bytes, protocols: seq<JoinGroupProtocol>, now: int)
    ensures Ids(JoinMembers(ms, id, protocols, now)) == if id in Ids(ms) then Ids(ms) else Ids(ms) + [id]
  {
    hide Find, Touch;
    TouchIds(ms, id, now);
    if Find(ms, id) < |ms| {
      assert Ids(ms)[Find(ms, id)] == id;
    }
  }

  /** `ids` followed by ids that were not in it, each once. */
  ghost predicate Grown(ids: seq<bytes>, ids': seq<bytes>)
  {
    ids <= ids' && Distinct(ids'[|ids|..]) && forall i :: |ids| <= i < |ids'| ==> ids'[i] !in ids
  }

  /** A selection of `ids` in the same relative order. */
  ghost predicate Thinned(ids: seq<bytes>, ids': seq<bytes>)
  {
    && (forall i :: 0 <= i < |ids'| ==> ids'[i] in ids)
    && (forall i, j :: 0 <= i < j < |ids'| ==> Before(ids, ids'[i], ids'[j]))
  }

  ghost predicate Before(ids: seq<bytes>, a: bytes, b: bytes)
  {
    exists i, j :: 0 <= i < j < |ids| && ids[i] == a && ids[j] == b
  }

  lemma GrowOne(ids: seq<bytes>, mid: seq<bytes>, id: bytes)
    requires Grown(ids, mid) && id !in mid
    ensures Grown(ids, mid + [id])
  {
    var ids' := mid + [id];
    var new', new0 := ids'[|ids|..], mid[|ids|..];
    forall i, j | 0 <= i < j < |new'|
      ensures new'[i] != new'[j]
    {
      assert new'[i] == new0[i] == mid[|ids| + i];
      assert j < |new0| ==> new'[j] == new0[j];
    }
    forall i | |ids| <= i < |ids'|
      ensures ids'[i] !in ids
    {
      assert i == |mid| ==> forall k :: 0 <= k < |ids| ==> ids[k] == mid[k];
    }
  }

  lemma {:induction false} AssignIds(ms: seq<Member>, assignments: seq<SyncGroupAssignment>, now: int)
    ensures Grown(Ids(ms), Ids(Assign(ms, assignments, now)))
    decreases |assignments|
  {
    hide AssignOne, Grown;
    if assignments == [] {
      GrownSame(Ids(ms));
    } else {
      var init, last := assignments[..|assignments| - 1], assignments[|assignments| - 1];
      AssignIds(ms, init, now);
      AssignOneIds(Assign(ms, init, now), last, now);
      if last.memberId !in Ids(Assign(ms, init, now)) {
        GrowOne(Ids(ms), Ids(Assign(ms, init, now)), last.memberId);
      }
    }
  }

  lemma GrownSame(ids: seq<bytes>)
    ensures Grown(ids, ids)
  {
  }

  lemma {:induction false} KeepIds(ms: seq<Member>, keep: Member -> bool)
    ensures Thinned(Ids(ms), Ids(Keep(ms, keep)))
    decreases |ms|
  {
    if ms != [] {
      var n := |ms| - 1;
      KeepIds(ms[..n], keep);
      ThinnedSnoc(Ids(ms[..n]), Ids(Keep(ms[..n], keep)), ms[n].id);
      assert Ids(ms) == Ids(ms[..n]) + [ms[n].id];
      assert keep(ms[n]) ==> Ids(Keep(ms, keep)) == Ids(Keep(ms[..n], keep)) + [ms[n].id];
    }
  }

  lemma ThinnedSnoc(ids: seq<bytes>, kept: seq<bytes>, id: bytes)
    requires Thinned(ids, kept)
    ensures Thinned(ids + [id], kept) && Thinned(ids + [id], kept + [id])
  {
    var all := ids + [id];
    forall i, j | 0 <= i < j < |kept| + 1
      ensures Before(all, (kept + [id])[i], (kept + [id])[j])
    {
      if j < |kept| {
        assert Before(ids, kept[i], kept[j]);
        var p, q :| 0 <= p < q < |ids| && ids[p] == kept[i] && ids[q] == kept[j];
        assert all[p] == kept[i] && all[q] == kept[j];
      } else {
        assert kept[i] in ids;
        var p :| 0 <= p < |ids| && ids[p] == kept[i];
        assert all[p] == kept[i] && all[|ids|] == id;
      }
    }
    forall i, j | 0 <= i < j < |kept|
      ensures Before(all, kept[i], kept[j])
    {
      assert Before(all, (kept + [id])[i], (kept + [id])[j]);
    }
  }

  lemma DistinctKept(ids: seq<bytes>, ids': seq<bytes>)
    requires Distinct(ids) && (Grown(ids, ids') || Thinned(ids, ids'))
    ensures Distinct(ids')
  {
    if Thinned(ids, ids') {
      forall i, j | 0 <= i < j < |ids'|
        ensures ids'[i] != ids'[j]
      {
        assert Before(ids, ids'[i], ids'[j]);
      }
    } else {
      forall i, j | 0 <= i < j < |ids'|
        ensures ids'[i] != ids'[j]
      {
        if i >= |ids| {
          assert ids'[|ids|..][i - |ids|] == ids'[i] && ids'[|ids|..][j - |ids|] == ids'[j];
        } else if j >= |ids| {
          assert ids'[i] == ids[i];
        }
      }
    }
  }

  /** Every step either appends new ids or removes some; survivors never change places. */
  lemma EffectOnIds(c: Coord, gid: bytes, r: Request, now: int)
    ensures var ids, ids' := Ids(At(c.groups, gid).members), Ids(Effect(c, gid, r, now).members);
            Grown(ids, ids') || Thinned(ids, ids')
  {
    hide Grown, Thinned, Assign, JoinMembers, Keep, Touch, CommitTopics, MemberName;
    var g := At(c.groups, gid);
    GrownSame(Ids(g.members));
    match r {
      case JoinGroupRequest(_, _, _, _, _, _) =>
        JoinIds(g.members, MemberName(c, r.memberId), r.protocols, now);
        if MemberName(c, r.memberId) !in Ids(g.members) {
          GrowOne(Ids(g.members), Ids(g.members), MemberName(c, r.memberId));
        }
      case SyncGroupRequest(_, _, _, _, _) => AssignIds(g.members, r.assignments, now);
      case HeartbeatRequest(_, _, _, _, _) =>
        TouchIds(g.members, r.memberId, now);
        KeepIds(Touch(g.members, r.memberId, now), Alive(now, g.sessionTimeoutMs));
      case LeaveGroupRequest(_, _, _) => KeepIds(g.members, NotNamed(r.memberId));
      case _ =>
    }
  }

  // ---- group invariants ----

  /** Empty exactly without members, ids distinct, never Dead, and no AwaitingSync before generation 1. */
  ghost predicate GroupInv(g: Group)
  {
    && (g.state == Empty <==> g.members == [])
    && Distinct(Ids(g.members))
    && g.state != Dead
    && 0 <= g.generation && (g.state == AwaitingSync ==> 1 <= g.generation)
  }

  lemma JoinNotEmpty(ms: seq<Member>, id: bytes, protocols: seq<JoinGroupProtocol>, now: int)
    ensures JoinMembers(ms, id, protocols, now) != []
  {
    hide Find;
  }

  lemma {:induction false} AssignNotEmpty(ms: seq<Member>, assignments: seq<SyncGroupAssignment>, now: int)
    requires assignments != []
    ensures Assign(ms, assignments, now) != []
  {
    hide Find;
  }

  /** The shape of the group after a step, apart from the ids. */
  lemma EffectKeepsShape(c: Coord, gid: bytes, r: Request, now: int)
    requires GroupInv(At(c.groups, gid))
    ensures var g, g' := At(c.groups, gid), Effect(c, gid, r, now);
            && (g'.state == Empty <==> g'.members == []) && g'.state != Dead
            && (g'.state == AwaitingSync ==> 1 <= g'.generation)
            && g.generation <= g'.generation
            && (g.state == Stable && g'.state == AwaitingSync ==> g.generation < g'.generation)
  {
    hide Assign, JoinMembers, Keep, Touch, CommitTopics, MemberName, Distinct;
    var g := At(c.groups, gid);
    match r {
      case JoinGroupRequest(_, _, _, _, _, _) => JoinNotEmpty(g.members, MemberName(c, r.memberId), r.protocols, now);
      case SyncGroupRequest(_, _, _, _, _) => if r.assignments != [] { AssignNotEmpty(g.members, r.assignments, now); }
      case LeaveGroupRequest(_, _, _) => KeepShrinks(g.members, NotNamed(r.memberId));
      case _ =>
    }
  }

  lemma EffectKeepsInv(c: Coord, gid: bytes, r: Request, now: int)
    requires GroupInv(At(c.groups, gid))
    ensures GroupInv(Effect(c, gid, r, now))
  {
    hide Effect, Distinct, Grown, Thinned, Ids;
    EffectKeepsShape(c, gid, r, now);
    EffectOnIds(c, gid, r, now);
    DistinctKept(Ids(At(c.groups, gid).members), Ids(Effect(c, gid, r, now).members));
  }

  /** In every reachable state every group satisfies the invariant. */
  lemma {:induction false} GroupInvariant(es: seq<Event>, gid: bytes)
    ensures GroupInv(GroupIn(es, gid))
    decreases |es|
  {
    hide GroupInv, Effect, Step;
    if es == [] {
      NewGroupInv();
    } else {
      var before, e := es[..|es| - 1], es[|es| - 1];
      GroupInvariant(before, gid);
      StepIsEffect(Run(before), gid, e.request, e.now);
      EffectKeepsInv(Run(before), gid, e.request, e.now);
    }
  }

  lemma NewGroupInv()
    ensures GroupInv(NEW_GROUP)
  {
  }

  /** A step from Stable to AwaitingSync strictly raises the generation, and no step lowers it. */
  lemma GenerationStep(es: seq<Event>, e: Event, gid: bytes)
    ensures GroupIn(es, gid).generation <= GroupIn(es + [e], gid).generation
    ensures GroupIn(es, gid).state == Stable && GroupIn(es + [e], gid).state == AwaitingSync ==>
              GroupIn(es, gid).generation < GroupIn(es + [e], gid).generation
  {
    hide GroupInv, Effect, Step;
    assert (es + [e])[..|es|] == es;
    GroupInvariant(es, gid);
    StepIsEffect(Run(es), gid, e.request, e.now);
    EffectKeepsShape(Run(es), gid, e.request, e.now);
  }

  lemma {:induction false} GenerationMonotone(es: seq<Event>, more: seq<Event>, gid: bytes)
    ensures GroupIn(es, gid).generation <= GroupIn(es + more, gid).generation
    decreases |more|
  {
    hide GroupIn;
    if more == [] {
      assert es + more == es;
    } else {
      var init, last := more[..|more| - 1], more[|more| - 1];
      GenerationMonotone(es, init, gid);
      GenerationStep(es + init, last, gid);
      assert es + init + [last] == es + more;
    }
  }

  // ---- fencing ----

  predicate Carries(r: Request, gid: bytes, generation: int)
  {
    (r.HeartbeatRequest? || r.SyncGroupRequest?) && r.groupId == gid && r.generationId == generation
  }

  predicate Refused(reply: Reply)
  {
    reply == Beat(ILLEGAL_GENERATION) || reply == Synced(ILLEGAL_GENERATION, [])
  }

  /** Once a group's generation has passed `generation`, no later Heartbeat or SyncGroup carrying it is accepted. */
  lemma Fenced(es: seq<Event>, more: seq<Event>, e: Event, gid: bytes, generation: int)
    requires GroupIn(es, gid).generation > generation && Carries(e.request, gid, generation)
    ensures Refused(ReplyTo(es + more, e))
  {
    hide Run, Assign, BeatGroup;
    GenerationMonotone(es, more, gid);
  }

  /** Accepted SyncGroup with assignments, the only way to become Stable. */
  predicate Stabilizes(c: Coord, e: Event, gid: bytes)
  {
    e.request.SyncGroupRequest? && e.request.groupId == gid && e.request.assignments != []
    && Step(c, e.request, e.now).1.error == 0
  }

  /** A JoinGroup, or a leave or eviction that makes the group smaller. */
  predicate Disturbs(c: Coord, e: Event, gid: bytes)
  {
    && Concerns(e.request, gid)
    && (e.request.JoinGroupRequest?
        || ((e.request.LeaveGroupRequest? || e.request.HeartbeatRequest?)
            && |At(Step(c, e.request, e.now).0.groups, gid).members| < |At(c.groups, gid).members|))
  }

  /** Where a Stable state can come from. */
  lemma StableComesFrom(c: Coord, e: Event, gid: bytes)
    requires GroupInv(At(c.groups, gid))
    requires At(Step(c, e.request, e.now).0.groups, gid).state == Stable
    ensures Stabilizes(c, e, gid) || (At(c.groups, gid).state == Stable && !Disturbs(c, e, gid))
  {
    hide Assign, JoinMembers, BeatGroup, LeaveGroup, CommitTopics, MemberName, Distinct, AssignmentOf, Roster, Step;
    var r, g := e.request, At(c.groups, gid);
    StepIsEffect(c, gid, r, e.now);
    SyncReply(c, e, gid);
    if Concerns(r, gid) {
      ShrinkUnsettles(c, e, gid);
    }
  }

  lemma SyncReply(c: Coord, e: Event, gid: bytes)
    ensures e.request.SyncGroupRequest? && e.request.groupId == gid && gid in c.groups
              && At(c.groups, gid).generation == e.request.generationId && e.request.assignments != []
            ==> Stabilizes(c, e, gid)
  {
    hide Assign, AssignmentOf;
  }

  lemma ShrinkUnsettles(c: Coord, e: Event, gid: bytes)
    requires GroupInv(At(c.groups, gid)) && Concerns(e.request, gid)
    requires e.request.LeaveGroupRequest? || e.request.HeartbeatRequest?
             ==> Effect(c, gid, e.request, e.now).state == Stable
    ensures e.request.LeaveGroupRequest? || e.request.HeartbeatRequest? ==>
              At(c.groups, gid).state == Stable
              && |Effect(c, gid, e.request, e.now).members| >= |At(c.groups, gid).members|
  {
    hide Keep, Touch, Distinct, Assign, JoinMembers, CommitTopics, MemberName;
    KeepShrinks(At(c.groups, gid).members, NotNamed(if e.request.LeaveGroupRequest? then e.request.memberId else []));
  }

  /** Every Stable group was made so by an accepted SyncGroup with assignments, and nothing has disturbed
      it since: `k` is that event. */
  lemma {:induction false} StableSince(es: seq<Event>, gid: bytes) returns (k: nat)
    requires GroupIn(es, gid).state == Stable
    ensures k < |es| && Stabilizes(Run(es[..k]), es[k], gid)
    ensures forall j :: k < j < |es| ==> !Disturbs(Run(es[..j]), es[j], gid)
    decreases |es|
  {
    hide Stabilizes, Disturbs, Step, GroupInv;
    var n := |es| - 1;
    var before := es[..n];
    GroupInvariant(before, gid);
    StableComesFrom(Run(before), es[n], gid);
    if Stabilizes(Run(before), es[n], gid) {
      k := n;
    } else {
      k := StableSince(before, gid);
      assert before[..k] == es[..k];
      forall j | k < j < |es|
        ensures !Disturbs(Run(es[..j]), es[j], gid)
      {
        assert j < n ==> before[..j] == es[..j];
      }
    }
  }

  /** Every accepted heartbeat follows an accepted SyncGroup with assignments, with no JoinGroup, shrinking
      leave or eviction of the group in between. */
  lemma AcceptedHeartbeatFollowsSync(es: seq<Event>, e: Event) returns (k: nat)
    requires e.request.HeartbeatRequest? && ReplyTo(es, e) == Beat(0)
    ensures k < |es| && Stabilizes(Run(es[..k]), es[k], e.request.groupId)
    ensures forall j :: k < j < |es| ==> !Disturbs(Run(es[..j]), es[j], e.request.groupId)
  {
    hide Stabilizes, Disturbs, Run, BeatGroup;
    k := StableSince(es, e.request.groupId);
  }
}
