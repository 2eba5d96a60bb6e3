/** Who is a member, when it was last heard of, which generation it is and what the coordinator answers, told from the
    requests alone.  The coordinator's lists are proved to say the same in every reachable state. */
module GroupHistory {
  import opened Bytes
  import opened Text
  import opened Protocol
  import opened Coordinator
  import opened CoordinatorRuns

  // ================ what the requests say ================

  /** One group as its members see it: `heard` maps each member to the last time it was heard of, `metadata` to what it
      joined with; `settled` says that assignments were handed out and nothing has changed since. */
  datatype View = View(known: bool, generation: int, settled: bool, timeout: int, heard: map<bytes, int>, metadata: map<bytes, bytes>)

  const NO_VIEW := View(false, 0, false, 30000, map[], map[])

  /** How many joins so far asked for a name. */
  function Anonymous(es: seq<Event>): nat
  {
    if es == [] then 0
    else
      var r := es[|es| - 1].request;
      Anonymous(es[..|es| - 1]) + if r.JoinGroupRequest? && r.memberId == [] then 1 else 0
  }

  /** The name a join goes by: the one it brings, or a new one. */
  function NameFor(es: seq<Event>, r: Request): bytes
    requires r.JoinGroupRequest?
  {
    if r.memberId != [] then r.memberId else Ascii("member-") + ToString(Anonymous(es) + 1)
  }

  /** Members that were not heard of for longer than the timeout are gone. */
  function StillHeard(heard: map<bytes, int>, now: int, timeout: int): map<bytes, int>
  {
    map id | id in heard && now <= heard[id] + timeout :: heard[id]
  }

  function Admit<T>(m: map<bytes, T>, id: bytes, x: T): map<bytes, T> { if id in m then m else m[id := x] }

  function AdmitAll<T>(m: map<bytes, T>, assignments: seq<SyncGroupAssignment>, x: T): map<bytes, T>
  {
    if assignments == [] then m
    else Admit(AdmitAll(m, assignments[..|assignments| - 1], x), assignments[|assignments| - 1].memberId, x)
  }

  function Only<T>(m: map<bytes, T>, ids: set<bytes>): map<bytes, T> { map id | id in m && id in ids :: m[id] }

  /** The group after some members went: those left start over, unless nobody is left. */
  function Without(v: View, heard: map<bytes, int>): View
  {
    if heard.Keys == v.heard.Keys then v.(heard := heard)
    else v.(heard := heard, metadata := Only(v.metadata, heard.Keys), settled := false, generation := if heard.Keys == {} then v.generation else v.generation + 1)
  }

  function Joined(v: View, name: bytes, r: Request, now: int): View
    requires r.JoinGroupRequest?
  {
    View(true, if v.generation == 0 then 1 else if v.settled then v.generation + 1 else v.generation, false, r.sessionTimeoutMs,
         v.heard[name := now], Admit(v.metadata, name, if r.protocols == [] then [] else r.protocols[0].metadata))
  }

  predicate SyncAccepted(v: View, generation: int) { v.known && v.generation == generation }

  predicate HeartbeatAccepted(v: View, generation: int) { v.known && v.generation == generation && v.settled }

  function ViewStep(v: View, name: bytes, r: Request, now: int): View
  {
    match r
    case JoinGroupRequest(_, _, _, _, _, _) => Joined(v, name, r, now)
    case SyncGroupRequest(_, _, generation, _, assignments) =>
      if !SyncAccepted(v, generation) || assignments == [] then v
      else v.(heard := AdmitAll(v.heard, assignments, now), metadata := AdmitAll(v.metadata, assignments, []), settled := true)
    case HeartbeatRequest(_, _, generation, id, _) =>
      if !HeartbeatAccepted(v, generation) then v
      else Without(v, StillHeard(if id in v.heard then v.heard[id := now] else v.heard, now, v.timeout))
    case LeaveGroupRequest(_, _, id) => Without(v, v.heard - {id})
    case OffsetCommitRequest(_, _, _, _, _) => v.(known := true)
    case OffsetFetchRequest(_, _, _) => v.(known := true)
    case _ => v
  }

  /** The group after a sequence of requests. */
  function ViewOf(es: seq<Event>, gid: bytes): View
  {
    if es == [] then NO_VIEW
    else
      var before, e := es[..|es| - 1], es[|es| - 1];
      if !Concerns(e.request, gid) then ViewOf(before, gid)
      else ViewStep(ViewOf(before, gid), if e.request.JoinGroupRequest? then NameFor(before, e.request) else [], e.request, e.now)
  }

  // ================ the coordinator's group says the same ================

  /** The member list holds exactly the members, each with its time and metadata. */
  ghost predicate Lists(ms: seq<Member>, heard: map<bytes, int>, metadata: map<bytes, bytes>)
  {
    && metadata.Keys == heard.Keys
    && (forall m :: m in ms ==> m.id in heard && heard[m.id] == m.lastHeartbeat && metadata[m.id] == m.metadata)
    && (forall id :: id in heard ==> id in Ids(ms))
  }

  function StateOf(v: View): GroupState { if v.heard.Keys == {} then Empty else if v.settled then Stable else AwaitingSync }

  ghost predicate Agrees(g: Group, v: View)
  {
    && g.generation == v.generation && g.sessionTimeoutMs == v.timeout && g.state == StateOf(v)
    && Lists(g.members, v.heard, v.metadata) && (v.settled ==> v.heard.Keys != {})
  }

  lemma ListsEmpty(ms: seq<Member>, heard: map<bytes, int>, metadata: map<bytes, bytes>)
    requires Lists(ms, heard, metadata)
    ensures ms == [] <==> heard.Keys == {}
  {
    assert ms != [] ==> ms[0] in ms;
    assert forall id :: id in heard.Keys ==> id in Ids(ms);
  }

  lemma MemberAt(ms: seq<Member>, id: bytes)
    ensures id in Ids(ms) <==> exists m :: m in ms && m.id == id
    ensures id in Ids(ms) <==> Find(ms, id) < |ms|
  {
    hide Find;
    if id in Ids(ms) {
      var i :| 0 <= i < |ms| && Ids(ms)[i] == id;
      assert ms[i] in ms;
    }
    if Find(ms, id) < |ms| {
      assert Ids(ms)[Find(ms, id)] == id;
    }
    forall m | m in ms && m.id == id
      ensures id in Ids(ms)
    {
      var i :| 0 <= i < |ms| && ms[i] == m;
      assert Ids(ms)[i] == id;
    }
  }

  lemma {:induction false} KeepExactly(ms: seq<Member>, keep: Member -> bool, m: Member)
    ensures m in Keep(ms, keep) <==> m in ms && keep(m)
    decreases |ms|
  {
    if ms != [] {
      var init, last := ms[..|ms| - 1], ms[|ms| - 1];
      KeepExactly(init, keep, m);
      assert ms == init + [last];
    }
  }

  lemma OneEach(ms: seq<Member>, a: Member, b: Member)
    requires Distinct(Ids(ms)) && a in ms && b in ms && a.id == b.id
    ensures a == b
  {
    var i :| 0 <= i < |ms| && ms[i] == a;
    var j :| 0 <= j < |ms| && ms[j] == b;
    assert Ids(ms)[i] == Ids(ms)[j];
  }

  /** Updating one member in place. */
  lemma UpdatedMembers(ms: seq<Member>, i: nat, x: Member)
    requires i < |ms| && x.id == ms[i].id && Distinct(Ids(ms))
    ensures forall m :: m in ms[i := x] <==> m == x || (m in ms && m.id != x.id)
    ensures Ids(ms[i := x]) == Ids(ms)
  {
    var ms' := ms[i := x];
    assert ms'[i] == x && x in ms';
    forall m | m in ms'
      ensures m == x || (m in ms && m.id != x.id)
    {
      var j :| 0 <= j < |ms'| && ms'[j] == m;
      if j != i {
        assert Ids(ms)[j] != Ids(ms)[i];
      }
    }
    forall m | m in ms && m.id != x.id
      ensures m in ms'
    {
      var j :| 0 <= j < |ms| && ms[j] == m;
      assert ms'[j] == m;
    }
  }

  lemma TouchLists(ms: seq<Member>, heard: map<bytes, int>, metadata: map<bytes, bytes>, id: bytes, now: int)
    requires Lists(ms, heard, metadata) && Distinct(Ids(ms))
    ensures Lists(Touch(ms, id, now), if id in heard then heard[id := now] else heard, metadata)
    ensures Ids(Touch(ms, id, now)) == Ids(ms)
  {
    hide Find, Ids, Distinct, Lists;
    MemberAt(ms, id);
    var i := Find(ms, id);
    if i < |ms| {
      UpdatedLists(ms, heard, metadata, i, now);
    } else {
      NotListed(ms, heard, metadata, id);
    }
  }

  lemma NotListed(ms: seq<Member>, heard: map<bytes, int>, metadata: map<bytes, bytes>, id: bytes)
    requires Lists(ms, heard, metadata) && id !in Ids(ms)
    ensures id !in heard
  {
  }

  lemma UpdatedLists(ms: seq<Member>, heard: map<bytes, int>, metadata: map<bytes, bytes>, i: nat, now: int)
    requires Lists(ms, heard, metadata) && Distinct(Ids(ms)) && i < |ms|
    ensures Lists(ms[i := ms[i].(lastHeartbeat := now)], heard[ms[i].id := now], metadata) && ms[i].id in heard
    ensures Ids(ms[i := ms[i].(lastHeartbeat := now)]) == Ids(ms)
  {
    hide Ids, Distinct;
    assert ms[i] in ms;
    UpdatedMembers(ms, i, ms[i].(lastHeartbeat := now));
  }

  lemma PushLists(ms: seq<Member>, heard: map<bytes, int>, metadata: map<bytes, bytes>, m: Member)
    requires Lists(ms, heard, metadata) && m.id !in heard
    ensures Lists(ms + [m], heard[m.id := m.lastHeartbeat], metadata[m.id := m.metadata])
  {
    var ms' := ms + [m];
    assert ms'[|ms|] == m;
    assert Ids(ms') == Ids(ms) + [m.id];
  }

  lemma JoinLists(ms: seq<Member>, heard: map<bytes, int>, metadata: map<bytes, bytes>, id: bytes, protocols: seq<JoinGroupProtocol>, now: int)
    requires Lists(ms, heard, metadata) && Distinct(Ids(ms))
    ensures Lists(JoinMembers(ms, id, protocols, now), heard[id := now],
                  Admit(metadata, id, if protocols == [] then [] else protocols[0].metadata))
  {
    hide Find, Ids, Distinct, Touch;
    MemberAt(ms, id);
    if Find(ms, id) < |ms| {
      assert ms[Find(ms, id)] in ms;
      TouchLists(ms, heard, metadata, id, now);
    } else {
      PushLists(ms, heard, metadata, Member(id, if protocols == [] then [] else protocols[0].metadata, [], now));
    }
  }

  lemma DistinctPush(ids: seq<bytes>, id: bytes)
    requires Distinct(ids)
    ensures id !in ids ==> Distinct(ids + [id])
  {
  }

  lemma AssignOneLists(ms: seq<Member>, heard: map<bytes, int>, metadata: map<bytes, bytes>, a: SyncGroupAssignment, now: int)
    requires Lists(ms, heard, metadata) && Distinct(Ids(ms))
    ensures Lists(AssignOne(ms, a, now), Admit(heard, a.memberId, now), Admit(metadata, a.memberId, []))
    ensures Distinct(Ids(AssignOne(ms, a, now)))
  {
    hide Find, Ids, Distinct;
    MemberAt(ms, a.memberId);
    var i := Find(ms, a.memberId);
    AssignOneIds(ms, a, now);
    DistinctPush(Ids(ms), a.memberId);
    if i < |ms| {
      assert ms[i] in ms;
      UpdatedMembers(ms, i, ms[i].(assignment := a.assignment));
    } else {
      PushLists(ms, heard, metadata, Member(a.memberId, [], a.assignment, now));
    }
  }

  lemma {:induction false} AssignLists(ms: seq<Member>, heard: map<bytes, int>, metadata: map<bytes, bytes>,
                                       assignments: seq<SyncGroupAssignment>, now: int)
    requires Lists(ms, heard, metadata) && Distinct(Ids(ms))
    ensures Lists(Assign(ms, assignments, now), AdmitAll(heard, assignments, now), AdmitAll(metadata, assignments, []))
    ensures Distinct(Ids(Assign(ms, assignments, now)))
    decreases |assignments|
  {
    hide Ids, Distinct, Lists, AssignOne, Admit;
    if assignments != [] {
      var init, last := assignments[..|assignments| - 1], assignments[|assignments| - 1];
      AssignLists(ms, heard, metadata, init, now);
      AssignOneLists(Assign(ms, init, now), AdmitAll(heard, init, now), AdmitAll(metadata, init, []), last, now);
    }
  }

  /** Dropping members from the list drops them from the view, and shortens the list exactly when there are any to drop. */
  lemma KeepLists(ms: seq<Member>, heard: map<bytes, int>, metadata: map<bytes, bytes>, keep: Member -> bool, heard': map<bytes, int>)
    requires Lists(ms, heard, metadata) && Distinct(Ids(ms))
    requires (forall id :: id in heard' ==> id in heard && heard'[id] == heard[id])
    requires forall m :: m in ms ==> (keep(m) <==> m.id in heard')
    ensures Lists(Keep(ms, keep), heard', Only(metadata, heard'.Keys))
    ensures |Keep(ms, keep)| <= |ms| && (|Keep(ms, keep)| == |ms| <==> heard'.Keys == heard.Keys)
    ensures heard'.Keys == heard.Keys ==> heard' == heard && Keep(ms, keep) == ms
  {
    hide Keep, Ids, Distinct;
    var kept := Keep(ms, keep);
    forall m ensures m in kept <==> m in ms && keep(m) { KeepExactly(ms, keep, m); }
    KeepShrinks(ms, keep);
    forall id | id in heard'
      ensures id in Ids(kept)
    {
      MemberAt(ms, id);
      MemberAt(kept, id);
    }
    if |kept| == |ms| {
      forall id | id in heard ensures id in heard' { MemberAt(ms, id); }
    }
    if heard'.Keys == heard.Keys {
      KeepAll(ms, keep);
    }
  }

  lemma {:induction false} KeepAll(ms: seq<Member>, keep: Member -> bool)
    requires forall m :: m in ms ==> keep(m)
    ensures Keep(ms, keep) == ms
    decreases |ms|
  {
    if ms != [] {
      assert ms[|ms| - 1] in ms;
      KeepAll(ms[..|ms| - 1], keep);
    }
  }

  lemma BeatAgrees(g: Group, v: View, id: bytes, now: int)
    requires Agrees(g, v) && GroupInv(g) && v.settled
    ensures Agrees(BeatGroup(g, id, now), Without(v, StillHeard(if id in v.heard then v.heard[id := now] else v.heard, now, v.timeout)))
  {
    hide Keep, Touch, Distinct, Ids, Lists;
    var heard := if id in v.heard then v.heard[id := now] else v.heard;
    var touched, kept := Touch(g.members, id, now), StillHeard(heard, now, v.timeout);
    TouchLists(g.members, v.heard, v.metadata, id, now);
    TimesOf(touched, heard, v.metadata);
    KeepLists(touched, heard, v.metadata, Alive(now, v.timeout), kept);
    assert heard.Keys == v.heard.Keys && |Ids(touched)| == |touched| && |Ids(g.members)| == |g.members|;
    var members := Keep(touched, Alive(now, v.timeout));
    ListsKeys(touched, heard, v.metadata);
    ListsEmpty(members, kept, Only(v.metadata, kept.Keys));
    if kept.Keys == heard.Keys {
      assert v.metadata == Only(v.metadata, kept.Keys);
    }
  }

  lemma TimesOf(ms: seq<Member>, heard: map<bytes, int>, metadata: map<bytes, bytes>)
    requires Lists(ms, heard, metadata)
    ensures forall m :: m in ms ==> m.id in heard && heard[m.id] == m.lastHeartbeat
  {
  }

  lemma ListsKeys(ms: seq<Member>, heard: map<bytes, int>, metadata: map<bytes, bytes>)
    requires Lists(ms, heard, metadata)
    ensures metadata.Keys == heard.Keys
  {
  }

  lemma LeaveAgrees(g: Group, v: View, id: bytes)
    requires Agrees(g, v) && GroupInv(g)
    ensures Agrees(LeaveGroup(g, id), Without(v, v.heard - {id}))
    ensures |LeaveGroup(g, id).members| == |g.members| <==> id !in v.heard
  {
    hide Keep, Distinct, Ids, Lists;
    var kept := v.heard - {id};
    TimesOf(g.members, v.heard, v.metadata);
    KeepLists(g.members, v.heard, v.metadata, NotNamed(id), kept);
    ListsKeys(g.members, v.heard, v.metadata);
    ListsEmpty(Keep(g.members, NotNamed(id)), kept, Only(v.metadata, kept.Keys));
    if kept.Keys == v.heard.Keys {
      assert v.metadata == Only(v.metadata, kept.Keys);
    } else {
      assert id in v.heard;
    }
  }

  /** The group, if it exists, agrees with the view. */
  ghost predicate Tells(c: Coord, gid: bytes, v: View) { (gid in c.groups <==> v.known) && Agrees(At(c.groups, gid), v) }

  lemma EffectAgrees(c: Coord, gid: bytes, v: View, r: Request, now: int)
    requires Tells(c, gid, v) && GroupInv(At(c.groups, gid)) && Concerns(r, gid) && (!v.known ==> v.heard == map[])
    ensures Agrees(Effect(c, gid, r, now), ViewStep(v, if r.JoinGroupRequest? then MemberName(c, r.memberId) else [], r, now))
  {
    hide Keep, Touch, Assign, JoinMembers, CommitTopics, MemberName, Distinct, Ids, Lists, BeatGroup, LeaveGroup, Without, AdmitAll;
    var g := At(c.groups, gid);
    ListsEmpty(g.members, v.heard, v.metadata);
    match r {
      case JoinGroupRequest(_, _, _, _, _, _) =>
        JoinLists(g.members, v.heard, v.metadata, MemberName(c, r.memberId), r.protocols, now);
        assert MemberName(c, r.memberId) in v.heard[MemberName(c, r.memberId) := now].Keys;
      case SyncGroupRequest(_, _, _, _, assignments) =>
        if SyncAccepted(v, r.generationId) && assignments != [] {
          AssignLists(g.members, v.heard, v.metadata, assignments, now);
          AssignNotEmpty(g.members, assignments, now);
          ListsEmpty(Assign(g.members, assignments, now), AdmitAll(v.heard, assignments, now), AdmitAll(v.metadata, assignments, []));
        }
      case HeartbeatRequest(_, _, _, id, _) => if HeartbeatAccepted(v, r.generationId) { BeatAgrees(g, v, id, now); }
      case LeaveGroupRequest(_, _, id) =>
        if v.known {
          LeaveAgrees(g, v, id);
        } else {
          NobodyLeaves(v, id);
        }
      case _ =>
    }
  }

  lemma NobodyLeaves(v: View, id: bytes)
    requires v.heard == map[]
    ensures Without(v, v.heard - {id}) == v
  {
    assert v.heard - {id} == v.heard;
  }

  // ================ over every run ================

  lemma NextName(es: seq<Event>)
    ensures Run(es).nextMemberId == Anonymous(es)
    decreases |es|
  {
    hide BeatGroup, LeaveGroup, Assign, AssignmentOf, CommitTopics, CommitReply, FetchedTopics, JoinedGroup, Roster, MemberName;
    if es != [] {
      NextName(es[..|es| - 1]);
    }
  }

  lemma KnownStep(c: Coord, gid: bytes, v: View, name: bytes, r: Request, now: int)
    requires gid in c.groups <==> v.known
    ensures gid in Step(c, r, now).0.groups <==> if Concerns(r, gid) then ViewStep(v, name, r, now).known else v.known
  {
    hide BeatGroup, LeaveGroup, Assign, AssignmentOf, CommitTopics, CommitReply, FetchedTopics, JoinedGroup, Roster, MemberName, AdmitAll,
         StillHeard;
  }

  lemma UnknownIsEmpty(es: seq<Event>, gid: bytes)
    ensures !ViewOf(es, gid).known ==> ViewOf(es, gid).heard == map[]
    decreases |es|
  {
    hide AdmitAll, StillHeard, NameFor, Admit, Only;
    if es != [] {
      UnknownIsEmpty(es[..|es| - 1], gid);
      var v := ViewOf(es[..|es| - 1], gid);
      if es[|es| - 1].request.LeaveGroupRequest? && !v.known {
        NobodyLeaves(v, es[|es| - 1].request.memberId);
      }
    }
  }

  /** In every reachable state a group exists exactly when a request made it, and its generation, state, timeout, members,
      their last heartbeats and their metadata are what the requests say. */
  lemma {:induction false} GroupIsItsHistory(es: seq<Event>, gid: bytes)
    ensures Tells(Run(es), gid, ViewOf(es, gid))
    decreases |es|
  {
    hide Step, ViewStep, Agrees, Effect, MemberName, GroupInv;
    if es == [] {
      NothingTold(gid);
    } else {
      var before, e := es[..|es| - 1], es[|es| - 1];
      var c, v := Run(before), ViewOf(before, gid);
      GroupIsItsHistory(before, gid);
      GroupInvariant(before, gid);
      UnknownIsEmpty(before, gid);
      StepIsEffect(c, gid, e.request, e.now);
      var name := if e.request.JoinGroupRequest? then NameFor(before, e.request) else [];
      KnownStep(c, gid, v, name, e.request, e.now);
      if Concerns(e.request, gid) {
        if e.request.JoinGroupRequest? { SameName(before, e.request); }
        EffectAgrees(c, gid, v, e.request, e.now);
      }
    }
  }

  lemma NothingTold(gid: bytes)
    ensures Tells(START, gid, NO_VIEW)
  {
  }

  lemma SameName(es: seq<Event>, r: Request)
    requires r.JoinGroupRequest?
    ensures MemberName(Run(es), r.memberId) == NameFor(es, r)
  {
    hide Run, ToString, Ascii;
    NextName(es);
  }

  /** Two joins that ask for a name never get the same one. */
  lemma NewNamesDiffer(es: seq<Event>, more: seq<Event>, r: Request, q: Request)
    requires r.JoinGroupRequest? && q.JoinGroupRequest? && r.memberId == [] && q.memberId == [] && more != [] && more[0].request == r
    ensures NameFor(es, r) != NameFor(es + more, q)
  {
    hide ToString;
    AnonymousGrows(es, more);
    var a, b := Anonymous(es) + 1, Anonymous(es + more) + 1;
    if NameFor(es, r) == NameFor(es + more, q) {
      var p := Ascii("member-");
      assert (p + ToString(a))[|p|..] == ToString(a) && (p + ToString(b))[|p|..] == ToString(b);
      ToStringInjective(a, b);
    }
  }

  lemma {:induction false} AnonymousGrows(es: seq<Event>, more: seq<Event>)
    ensures Anonymous(es + more) >= Anonymous(es)
    ensures more != [] && more[0].request.JoinGroupRequest? && more[0].request.memberId == [] ==> Anonymous(es + more) > Anonymous(es)
    decreases |more|
  {
    if more == [] {
      assert es + more == es;
    } else {
      var n := |more| - 1;
      assert (es + more)[..|es| + n] == es + more[..n];
      AnonymousGrows(es, more[..n]);
    }
  }

  // ================ what is answered ================

  /** JoinGroup answers with the generation, name and members the group has afterwards. */
  lemma JoinAnswers(es: seq<Event>, e: Event)
    requires e.request.JoinGroupRequest?
    ensures var r, reply := e.request, ReplyTo(es, e);
            var g, v := GroupIn(es + [e], r.groupId), ViewOf(es + [e], r.groupId);
            && reply.Joined? && reply.generation == v.generation && reply.memberId == NameFor(es, r) && reply.memberId in v.heard
            && reply.protocolName == (if r.protocols == [] then [] else r.protocols[0].name)
            && |reply.members| == |g.members| > 0 && reply.leader == reply.members[0].memberId
            && forall i :: 0 <= i < |g.members| ==>
                 && reply.members[i].memberId == g.members[i].id && g.members[i].id in v.metadata
                 && reply.members[i].metadata == v.metadata[g.members[i].id]
  {
    hide JoinMembers, MemberName, NameFor, Ids, ViewOf;
    var r := e.request;
    assert (es + [e])[..|es|] == es;
    GroupIsItsHistory(es + [e], r.groupId);
    SameName(es, r);
    var g := GroupIn(es + [e], r.groupId);
    assert forall i :: 0 <= i < |g.members| ==> g.members[i] in g.members;
    JoinNotEmpty(At(Run(es).groups, r.groupId).members, MemberName(Run(es), r.memberId), r.protocols, e.now);
    JoinHears(es, e);
  }

  lemma JoinHears(es: seq<Event>, e: Event)
    requires e.request.JoinGroupRequest?
    ensures NameFor(es, e.request) in ViewOf(es + [e], e.request.groupId).heard
  {
    hide NameFor;
    assert (es + [e])[..|es|] == es;
  }

  /** SyncGroup, Heartbeat and LeaveGroup are accepted exactly when the history says so, and answer with the code of their
      refusal otherwise. */
  lemma AcceptedExactly(es: seq<Event>, e: Event)
    ensures var r, reply := e.request, ReplyTo(es, e);
            && (r.SyncGroupRequest? ==>
                  reply.Synced? && if SyncAccepted(ViewOf(es, r.groupId), r.generationId) then reply.error == 0 else reply == Synced(82, []))
            && (r.HeartbeatRequest? ==>
                  reply == Beat(if HeartbeatAccepted(ViewOf(es, r.groupId), r.generationId) then 0 else 82))
            && (r.LeaveGroupRequest? ==> reply == Left(if r.memberId in ViewOf(es, r.groupId).heard then 0 else 25))
  {
    hide Run, ViewOf, Assign, AssignmentOf, BeatGroup, LeaveGroup, Lists;
    var r := e.request;
    if r.SyncGroupRequest? || r.HeartbeatRequest? || r.LeaveGroupRequest? {
      GroupIsItsHistory(es, r.groupId);
      GroupInvariant(es, r.groupId);
      UnknownIsEmpty(es, r.groupId);
      if r.LeaveGroupRequest? && ViewOf(es, r.groupId).known {
        LeaveAgrees(GroupIn(es, r.groupId), ViewOf(es, r.groupId), r.memberId);
      }
    }
  }

  /** OffsetCommit acknowledges every partition it was given, in order, without an error. */
  lemma CommitAnswers(es: seq<Event>, e: Event, i: nat, j: nat)
    requires e.request.OffsetCommitRequest? && i < |e.request.commitTopics| && j < |e.request.commitTopics[i].partitions|
    ensures var ts, reply := e.request.commitTopics, ReplyTo(es, e);
            && reply.Committed? && |reply.commitTopics| == |ts| && reply.commitTopics[i].topicName == ts[i].topicName
            && |reply.commitTopics[i].partitions| == |ts[i].partitions|
            && reply.commitTopics[i].partitions[j] == OffsetCommitPartitionResponse(ts[i].partitions[j].partitionIndex, 0, -1, [])
  {
    hide Run, CommitTopics;
  }

  // ================ eviction and leaving, on the lists ================

  /** After an accepted heartbeat an id is a member exactly when it was one and it is the sender, with a timeout that is not
      negative, or was heard of within the timeout. */
  lemma HeartbeatEvictsExactly(es: seq<Event>, e: Event, id: bytes)
    requires e.request.HeartbeatRequest? && ReplyTo(es, e) == Beat(0)
    ensures var gid, v := e.request.groupId, ViewOf(es, e.request.groupId);
            id in Ids(GroupIn(es + [e], gid).members) <==>
            && id in Ids(GroupIn(es, gid).members) && id in v.heard
            && if id == e.request.memberId then v.timeout >= 0 else e.now - v.heard[id] <= v.timeout
  {
    hide Run, Ids, ViewOf, ReplyTo;
    var gid, v := e.request.groupId, ViewOf(es, e.request.groupId);
    AcceptedExactly(es, e);
    MembersAre(es, gid, id);
    MembersAre(es + [e], gid, id);
    NextView(es, e, gid);
  }

  lemma MembersAre(es: seq<Event>, gid: bytes, id: bytes)
    ensures id in Ids(GroupIn(es, gid).members) <==> id in ViewOf(es, gid).heard
  {
    hide Run, Ids, ViewOf;
    GroupIsItsHistory(es, gid);
    var ms := GroupIn(es, gid).members;
    MemberAt(ms, id);
  }

  lemma NextView(es: seq<Event>, e: Event, gid: bytes)
    requires Concerns(e.request, gid)
    ensures ViewOf(es + [e], gid) ==
            ViewStep(ViewOf(es, gid), if e.request.JoinGroupRequest? then NameFor(es, e.request) else [], e.request, e.now)
  {
    hide ViewStep, NameFor;
    assert (es + [e])[..|es|] == es;
  }

  /** After a leave the members are exactly the old ones other than the one named, with all their fields, and in order. */
  lemma LeaveRemovesExactly(es: seq<Event>, e: Event)
    requires e.request.LeaveGroupRequest?
    ensures var old', new' := GroupIn(es, e.request.groupId).members, GroupIn(es + [e], e.request.groupId).members;
            && (forall m :: m in new' <==> m in old' && m.id != e.request.memberId)
            && Thinned(Ids(old'), Ids(new'))
  {
    hide Run, Ids, Thinned, Keep;
    var ms, id := GroupIn(es, e.request.groupId).members, e.request.memberId;
    AfterLeave(es, e);
    forall m ensures m in Keep(ms, NotNamed(id)) <==> m in ms && m.id != id { KeepExactly(ms, NotNamed(id), m); }
    KeepIds(ms, NotNamed(id));
  }

  lemma AfterLeave(es: seq<Event>, e: Event)
    requires e.request.LeaveGroupRequest?
    ensures GroupIn(es + [e], e.request.groupId).members == Keep(GroupIn(es, e.request.groupId).members, NotNamed(e.request.memberId))
  {
    hide Keep;
    assert (es + [e])[..|es|] == es;
    var ms := GroupIn(es, e.request.groupId).members;
    if e.request.groupId !in Run(es).groups {
      assert ms == [];
      KeepAll(ms, NotNamed(e.request.memberId));
    }
  }

  // ================ when a member was last heard of ================

  /** The request is a join by `id`, an accepted heartbeat of the member `id`, or an accepted sync that admits `id`. */
  ghost predicate HearsOf(es: seq<Event>, e: Event, gid: bytes, id: bytes)
  {
    && Concerns(e.request, gid)
    && var v, r := ViewOf(es, gid), e.request;
       || (r.JoinGroupRequest? && NameFor(es, r) == id)
       || (r.HeartbeatRequest? && r.memberId == id && id in v.heard && HeartbeatAccepted(v, r.generationId))
       || (r.SyncGroupRequest? && SyncAccepted(v, r.generationId) && id !in v.heard && exists a :: a in r.assignments && a.memberId == id)
  }

  lemma {:induction false} AdmittedExactly(heard: map<bytes, int>, assignments: seq<SyncGroupAssignment>, now: int, id: bytes)
    requires id !in heard
    ensures id in AdmitAll(heard, assignments, now) <==> exists a :: a in assignments && a.memberId == id
    ensures id in AdmitAll(heard, assignments, now) ==> AdmitAll(heard, assignments, now)[id] == now
    decreases |assignments|
  {
    if assignments != [] {
      var init, last := assignments[..|assignments| - 1], assignments[|assignments| - 1];
      AdmittedExactly(heard, init, now, id);
      assert assignments == init + [last];
      assert forall a :: a in assignments <==> a in init || a == last;
    }
  }

  lemma HeardStep(es: seq<Event>, e: Event, gid: bytes, id: bytes)
    requires id in ViewOf(es + [e], gid).heard
    ensures if HearsOf(es, e, gid, id) then ViewOf(es + [e], gid).heard[id] == e.now
            else id in ViewOf(es, gid).heard && ViewOf(es + [e], gid).heard[id] == ViewOf(es, gid).heard[id]
  {
    hide NameFor, AdmitAll, Only;
    assert (es + [e])[..|es|] == es;
    if e.request.SyncGroupRequest? {
      var heard := ViewOf(es, gid).heard;
      if id in heard {
        AdmittedStay(heard, e.request.assignments, e.now, id);
      } else {
        AdmittedExactly(heard, e.request.assignments, e.now, id);
      }
    }
  }

  /** The last heartbeat of a member is the time of the last request that heard of it: `k` is that request. */
  lemma {:induction false} LastHeartbeatIsHistory(es: seq<Event>, gid: bytes, m: Member) returns (k: nat)
    requires m in GroupIn(es, gid).members
    ensures k < |es| && HearsOf(es[..k], es[k], gid, m.id) && m.lastHeartbeat == es[k].now
    ensures forall j :: k < j < |es| ==> !HearsOf(es[..j], es[j], gid, m.id)
  {
    hide Run, ViewOf, Ids, HearsOf;
    GroupIsItsHistory(es, gid);
    k := LastHeard(es, gid, m.id);
  }

  lemma {:induction false} LastHeard(es: seq<Event>, gid: bytes, id: bytes) returns (k: nat)
    requires id in ViewOf(es, gid).heard
    ensures k < |es| && HearsOf(es[..k], es[k], gid, id) && ViewOf(es, gid).heard[id] == es[k].now
    ensures forall j :: k < j < |es| ==> !HearsOf(es[..j], es[j], gid, id)
    decreases |es|
  {
    hide HearsOf, ViewStep, NameFor;
    var n := |es| - 1;
    assert es == es[..n] + [es[n]];
    HeardStep(es[..n], es[n], gid, id);
    if HearsOf(es[..n], es[n], gid, id) {
      k := n;
    } else {
      k := LastHeard(es[..n], gid, id);
      assert es[..n][..k] == es[..k];
      assert forall j :: k < j < n ==> es[..n][..j] == es[..j] && es[..n][j] == es[j];
    }
  }

  // ================ staying a member ================

  /** The request does not remove `id` from the group: it is no leave of that id, and if it is an accepted heartbeat then of
      the id itself or within the timeout of when it was last heard of. */
  predicate Spares(v: View, e: Event, gid: bytes, id: bytes)
  {
    Concerns(e.request, gid) ==>
      && (e.request.LeaveGroupRequest? ==> e.request.memberId != id)
      && (e.request.HeartbeatRequest? && HeartbeatAccepted(v, e.request.generationId) && id in v.heard ==>
            if e.request.memberId == id then v.timeout >= 0 else e.now - v.heard[id] <= v.timeout)
  }

  /** A member that never leaves and is heard of in time is never lost, whatever the others do. */
  lemma {:induction false} NeverLost(es: seq<Event>, more: seq<Event>, gid: bytes, id: bytes)
    requires id in Ids(GroupIn(es, gid).members)
    requires forall i :: 0 <= i < |more| ==> Spares(ViewOf(es + more[..i], gid), more[i], gid, id)
    ensures id in Ids(GroupIn(es + more, gid).members)
    decreases |more|
  {
    hide Run, Ids, ViewOf, Spares;
    if more == [] {
      assert es + more == es;
    } else {
      var n := |more| - 1;
      forall i | 0 <= i < n ensures Spares(ViewOf(es + more[..n][..i], gid), more[..n][i], gid, id) { assert more[..n][..i] == more[..i]; }
      NeverLost(es, more[..n], gid, id);
      MembersAre(es + more[..n], gid, id);
      assert es + more[..n] + [more[n]] == es + more;
      SparedStays(es + more[..n], more[n], gid, id);
      MembersAre(es + more, gid, id);
    }
  }

  lemma SparedStays(es: seq<Event>, e: Event, gid: bytes, id: bytes)
    requires id in ViewOf(es, gid).heard && Spares(ViewOf(es, gid), e, gid, id)
    ensures id in ViewOf(es + [e], gid).heard
  {
    hide NameFor, AdmitAll, Only;
    assert (es + [e])[..|es|] == es;
    if e.request.SyncGroupRequest? {
      AdmittedStay(ViewOf(es, gid).heard, e.request.assignments, e.now, id);
    }
  }

  lemma {:induction false} AdmittedStay(heard: map<bytes, int>, assignments: seq<SyncGroupAssignment>, now: int, id: bytes)
    requires id in heard
    ensures id in AdmitAll(heard, assignments, now) && AdmitAll(heard, assignments, now)[id] == heard[id]
    decreases |assignments|
  {
    if assignments != [] {
      AdmittedStay(heard, assignments[..|assignments| - 1], now, id);
    }
  }
}
