/** When single ownership holds, exactly: a context exists on the reactors that served a request looking it up, and nowhere
    else, so ownership is a matter of which reactor serves what. */
module OwnershipExact {
  import opened Bytes
  import opened Text
  import opened Protocol
  import opened Cluster
  import opened RecordBatch
  import opened PartitionLog
  import opened Shard
  import opened ShardOwnership
  import C = Connection

  // ---- one request ----

  /** The request looks up the context with this key. */
  ghost predicate LooksUp(cfg: Config, req: Request, k: bytes)
  {
    exists t :: t in Tasks(cfg, req) && Touches(cfg, t) && k == ContextKey(t.topic, t.partition)
  }

  lemma DoCreates(cfg: Config, w: Work, t: Task, env: Env, k: bytes)
    ensures k in Do(cfg, w, t, env).contexts <==> k in w.contexts || (Touches(cfg, t) && k == ContextKey(t.topic, t.partition))
  {
    hide Known, Produce, Fetch, FetchAll, Lookup, ContextKey, RecordCount;
  }

  lemma {:induction false} DoAllCreates(cfg: Config, w: Work, ts: seq<Task>, env: Env, k: bytes)
    ensures k in DoAll(cfg, w, ts, env).contexts <==>
            k in w.contexts || exists t :: t in ts && Touches(cfg, t) && k == ContextKey(t.topic, t.partition)
    decreases |ts|
  {
    hide Do, Touches, ContextKey;
    if ts != [] {
      var init, last := ts[..|ts| - 1], ts[|ts| - 1];
      DoAllCreates(cfg, w, init, env, k);
      DoCreates(cfg, DoAll(cfg, w, init, env), last, env, k);
      assert ts == init + [last];
      assert forall t :: t in ts <==> t in init || t == last;
    }
  }

  // ---- one step ----

  /** A request handled on a reactor. */
  type Visit = (nat, Request)

  /** The request a step handles, with the reactor it is handled on. */
  ghost function HandledBy(cfg: Config, s: System, a: Act): seq<Visit>
    requires cfg.n == |s.reactors|
  {
    if a.r >= cfg.n then []
    else match a
      case Receive(r, _, req, _) => if Server(cfg, r, req) == r then [(r, req)] else []
      case Serve(r, _) => if s.reactors[r].handling.None? then [] else [(r, s.reactors[r].handling.value.request)]
      case _ => []
  }

  lemma ReceiveCreates(cfg: Config, s: System, r: nat, fd: int, req: Request, env: Env, q: nat, k: bytes)
    requires cfg.n == |s.reactors| && r < cfg.n && q < cfg.n
    ensures k in OnReceive(cfg, s, r, fd, req, env).reactors[q].contexts <==>
            k in s.reactors[q].contexts || (q == r == Server(cfg, r, req) && LooksUp(cfg, req, k))
  {
    hide Owner, Key, DoAll, Tasks, Touches, ContextKey, C.Enqueue;
    if Server(cfg, r, req) == r {
      DoAllCreates(cfg, Work(s.reactors[r].contexts, s.accepted, []), Tasks(cfg, req), env, k);
    }
  }

  lemma ServeCreates(cfg: Config, s: System, r: nat, env: Env, q: nat, k: bytes)
    requires cfg.n == |s.reactors| && r < cfg.n && q < cfg.n && s.reactors[r].handling.Some?
    ensures k in OnServe(cfg, s, r, env).reactors[q].contexts <==>
            k in s.reactors[q].contexts || (q == r && LooksUp(cfg, s.reactors[r].handling.value.request, k))
  {
    hide DoAll, Tasks, Touches, ContextKey;
    DoAllCreates(cfg, Work(s.reactors[r].contexts, s.accepted, []), Tasks(cfg, s.reactors[r].handling.value.request), env, k);
  }

  lemma StepCreates(cfg: Config, s: System, a: Act, q: nat, k: bytes)
    requires cfg.n == |s.reactors| && q < cfg.n
    ensures k in Perform(cfg, s, a).reactors[q].contexts <==>
            k in s.reactors[q].contexts || exists v :: v in HandledBy(cfg, s, a) && v.0 == q && LooksUp(cfg, v.1, k)
  {
    hide OnReceive, OnServe, LooksUp, Server, C.Enqueue, C.Sent, C.Taken;
    if a.r < cfg.n {
      if a.Receive? {
        ReceiveCreates(cfg, s, a.r, a.fd, a.request, a.env, q, k);
        assert Server(cfg, a.r, a.request) == a.r ==> (a.r, a.request) in HandledBy(cfg, s, a);
      } else if a.Serve? && s.reactors[a.r].handling.Some? {
        ServeCreates(cfg, s, a.r, a.env, q, k);
        assert (a.r, s.reactors[a.r].handling.value.request) in HandledBy(cfg, s, a);
      }
    }
  }

  // ---- runs ----

  /** Every request handled in a run, with the reactor it was handled on. */
  ghost function Handled(cfg: Config, acts: seq<Act>): seq<Visit>
  {
    if acts == [] then []
    else
      var init := acts[..|acts| - 1];
      Handled(cfg, init) + HandledBy(cfg, Interleave(cfg, init), acts[|acts| - 1])
  }

  /** After every run, a reactor has a context exactly when it handled a request that looks it up. */
  lemma {:induction false} ContextsExactly(cfg: Config, acts: seq<Act>, q: nat, k: bytes)
    requires q < cfg.n
    ensures k in Interleave(cfg, acts).reactors[q].contexts <==>
            exists v :: v in Handled(cfg, acts) && v.0 == q && LooksUp(cfg, v.1, k)
    decreases |acts|
  {
    hide Perform, HandledBy, LooksUp;
    if acts != [] {
      var init := acts[..|acts| - 1];
      ContextsExactly(cfg, init, q, k);
      StepCreates(cfg, Interleave(cfg, init), acts[|acts| - 1], q, k);
    }
  }

  /** Every context is on the reactor its partition routes to. */
  ghost predicate SingleOwner(cfg: Config, s: System)
    requires cfg.n == |s.reactors| > 0
  {
    forall r, t: bytes, p: int32 :: 0 <= r < cfg.n && ContextKey(t, p) in s.reactors[r].contexts ==> Owner(cfg, t, p) == r
  }

  lemma OwnsLookups(cfg: Config, q: nat, req: Request)
    requires cfg.n > 0
    ensures OwnsTouched(cfg, q, req) <==> forall t: bytes, p: int32 :: LooksUp(cfg, req, ContextKey(t, p)) ==> Owner(cfg, t, p) == q
  {
    hide Owner, Tasks, Touches, ContextKey;
    forall t: bytes, p: int32, x: Task
      ensures ContextKey(t, p) == ContextKey(x.topic, x.partition) ==> x.topic == t && x.partition == p
    {
      if ContextKey(t, p) == ContextKey(x.topic, x.partition) { ContextKeyInjective(t, p, x.topic, x.partition); }
    }
    forall x | x in Tasks(cfg, req) && Touches(cfg, x)
      ensures LooksUp(cfg, req, ContextKey(x.topic, x.partition))
    {
    }
  }

  lemma OwnerHandles(cfg: Config, acts: seq<Act>, v: Visit)
    requires cfg.n > 0 && SingleOwner(cfg, Interleave(cfg, acts)) && v in Handled(cfg, acts)
    ensures OwnsTouched(cfg, v.0, v.1)
  {
    hide Interleave, Handled, LooksUp, OwnsTouched, Owner, ContextKey;
    VisitsInRange(cfg, acts, v);
    OwnsLookups(cfg, v.0, v.1);
    forall t: bytes, p: int32 | LooksUp(cfg, v.1, ContextKey(t, p))
      ensures Owner(cfg, t, p) == v.0
    {
      ContextsExactly(cfg, acts, v.0, ContextKey(t, p));
    }
  }

  lemma HandlersOwn(cfg: Config, acts: seq<Act>)
    requires cfg.n > 0 && forall v :: v in Handled(cfg, acts) ==> OwnsTouched(cfg, v.0, v.1)
    ensures SingleOwner(cfg, Interleave(cfg, acts))
  {
    hide Interleave, Handled, LooksUp, OwnsTouched, Owner, ContextKey;
    forall r, t: bytes, p: int32 | 0 <= r < cfg.n && ContextKey(t, p) in Interleave(cfg, acts).reactors[r].contexts
      ensures Owner(cfg, t, p) == r
    {
      ContextsExactly(cfg, acts, r, ContextKey(t, p));
      var v :| v in Handled(cfg, acts) && v.0 == r && LooksUp(cfg, v.1, ContextKey(t, p));
      OwnsLookups(cfg, r, v.1);
    }
  }

  /** After every run, single ownership holds exactly when every request was handled by the owner of all it looks up. */
  lemma SingleOwnerExactly(cfg: Config, acts: seq<Act>)
    requires cfg.n > 0
    ensures SingleOwner(cfg, Interleave(cfg, acts)) <==> forall v :: v in Handled(cfg, acts) ==> OwnsTouched(cfg, v.0, v.1)
  {
    hide Interleave, Handled, OwnsTouched, SingleOwner;
    if SingleOwner(cfg, Interleave(cfg, acts)) {
      forall v | v in Handled(cfg, acts) ensures OwnsTouched(cfg, v.0, v.1) { OwnerHandles(cfg, acts, v); }
    } else if forall v :: v in Handled(cfg, acts) ==> OwnsTouched(cfg, v.0, v.1) {
      HandlersOwn(cfg, acts);
    }
  }

  lemma {:induction false} VisitsInRange(cfg: Config, acts: seq<Act>, v: Visit)
    requires v in Handled(cfg, acts)
    ensures v.0 < cfg.n
    decreases |acts|
  {
    hide Interleave, Server;
    var init := acts[..|acts| - 1];
    if v in Handled(cfg, init) {
      VisitsInRange(cfg, init, v);
    }
  }

  /** One step from a system with single ownership keeps it exactly when what it handles is owned by its handler. */
  lemma StepOwnsExactly(cfg: Config, s: System, a: Act)
    requires cfg.n == |s.reactors| > 0 && SingleOwner(cfg, s)
    ensures SingleOwner(cfg, Perform(cfg, s, a)) <==> forall v :: v in HandledBy(cfg, s, a) ==> OwnsTouched(cfg, v.0, v.1)
  {
    hide Perform, LooksUp, OwnsTouched, Owner, ContextKey, Server;
    forall q, k | 0 <= q < cfg.n
      ensures k in Perform(cfg, s, a).reactors[q].contexts <==>
              k in s.reactors[q].contexts || exists v :: v in HandledBy(cfg, s, a) && v.0 == q && LooksUp(cfg, v.1, k)
    {
      StepCreates(cfg, s, a, q, k);
    }
    if HandledBy(cfg, s, a) != [] {
      var v := HandledBy(cfg, s, a)[0];
      OwnsLookups(cfg, v.0, v.1);
      assert HandledBy(cfg, s, a) == [v] && v in HandledBy(cfg, s, a);
      assert forall k :: LooksUp(cfg, v.1, k) ==> k in Perform(cfg, s, a).reactors[v.0].contexts;
    }
  }

  /** So a request served where it arrives keeps it exactly when it is well routed, and so does a forwarded one when served. */
  lemma ServedExactly(cfg: Config, s: System, r: nat, fd: int, req: Request, env: Env)
    requires cfg.n == |s.reactors| && r < cfg.n && SingleOwner(cfg, s)
    ensures Server(cfg, r, req) == r ==>
              (SingleOwner(cfg, Perform(cfg, s, Receive(r, fd, req, env))) <==> WellRouted(cfg, r, req))
    ensures Server(cfg, r, req) != r ==> SingleOwner(cfg, Perform(cfg, s, Receive(r, fd, req, env)))
    ensures s.reactors[r].handling.Some? ==>
              (SingleOwner(cfg, Perform(cfg, s, Serve(r, env))) <==> OwnsTouched(cfg, r, s.reactors[r].handling.value.request))
  {
    hide Perform, OwnsTouched, SingleOwner, Server;
    StepOwnsExactly(cfg, s, Receive(r, fd, req, env));
    StepOwnsExactly(cfg, s, Serve(r, env));
    assert Server(cfg, r, req) == r ==> HandledBy(cfg, s, Receive(r, fd, req, env)) == [(r, req)];
    if s.reactors[r].handling.Some? {
      var v := (r, s.reactors[r].handling.value.request);
      assert HandledBy(cfg, s, Serve(r, env)) == [v] && v in HandledBy(cfg, s, Serve(r, env));
    }
  }

  // ---- from the requests received ----

  /** Every request received in a run, with the reactor it is served by. */
  ghost function Received(cfg: Config, acts: seq<Act>): seq<Visit>
  {
    if acts == [] then []
    else Received(cfg, acts[..|acts| - 1]) + ReceivedBy(cfg, acts[|acts| - 1])
  }

  ghost function ReceivedBy(cfg: Config, a: Act): seq<Visit>
  {
    if a.Receive? && a.r < cfg.n then [(Server(cfg, a.r, a.request), a.request)] else []
  }

  /** The request waits for reactor `v.0`, or is being handled there. */
  ghost predicate Waiting(s: System, v: Visit)
  {
    v.0 < |s.reactors| &&
    var x := s.reactors[v.0];
    (exists f :: f in x.requests && f.request == v.1) || (x.handling.Some? && x.handling.value.request == v.1)
  }

  lemma ReceiveWaits(cfg: Config, s: System, r: nat, fd: int, req: Request, env: Env, v: Visit)
    requires cfg.n == |s.reactors| && r < cfg.n
    ensures Waiting(OnReceive(cfg, s, r, fd, req, env), v) <==>
            Waiting(s, v) || (Server(cfg, r, req) != r && v == (Server(cfg, r, req), req))
  {
    hide Owner, Key, DoAll, Tasks, C.Enqueue;
    var s' := OnReceive(cfg, s, r, fd, req, env);
    var q := Server(cfg, r, req);
    if q != r {
      var f := Fwd(|s.forwarded|, fd, r, q, req);
      assert s'.reactors[q].requests == s.reactors[q].requests + [f];
      assert f in s'.reactors[q].requests;
      assert forall g :: g in s'.reactors[q].requests <==> g in s.reactors[q].requests || g == f;
    }
  }

  lemma TakeWaits(s: System, r: nat, v: Visit)
    requires r < |s.reactors| && s.reactors[r].requests != [] && s.reactors[r].handling.None?
    ensures var x := s.reactors[r];
            Waiting(Set(s, r, x.(requests := x.requests[1..], handling := Some(x.requests[0]))), v) <==> Waiting(s, v)
  {
    var q := s.reactors[r].requests;
    assert q == [q[0]] + q[1..];
    assert forall f :: f in q <==> f == q[0] || f in q[1..];
  }

  lemma ServeWaits(cfg: Config, s: System, r: nat, env: Env, v: Visit)
    requires cfg.n == |s.reactors| && r < cfg.n && s.reactors[r].handling.Some?
    ensures Waiting(OnServe(cfg, s, r, env), v) || v == (r, s.reactors[r].handling.value.request) <==> Waiting(s, v)
  {
    hide DoAll, Tasks;
  }

  /** What waited or was received is what waits or was handled. */
  lemma StepConserves(cfg: Config, s: System, a: Act, v: Visit)
    requires cfg.n == |s.reactors|
    ensures Waiting(Perform(cfg, s, a), v) || v in HandledBy(cfg, s, a) <==> Waiting(s, v) || v in ReceivedBy(cfg, a)
  {
    hide OnReceive, OnServe, Server, C.Enqueue, C.Sent, C.Taken;
    if a.r < cfg.n {
      match a {
        case Receive(r, fd, req, env) => ReceiveWaits(cfg, s, r, fd, req, env, v);
        case Take(r) => if s.reactors[r].requests != [] && s.reactors[r].handling.None? { TakeWaits(s, r, v); }
        case Serve(r, env) => if s.reactors[r].handling.Some? { ServeWaits(cfg, s, r, env, v); }
        case _ =>
      }
    }
  }

  lemma {:induction false} RunConserves(cfg: Config, acts: seq<Act>, v: Visit)
    ensures v in Received(cfg, acts) <==> v in Handled(cfg, acts) || Waiting(Interleave(cfg, acts), v)
    decreases |acts|
  {
    hide Perform, HandledBy, ReceivedBy, Waiting;
    if acts != [] {
      var init := acts[..|acts| - 1];
      RunConserves(cfg, init, v);
      StepConserves(cfg, Interleave(cfg, init), acts[|acts| - 1], v);
    } else {
      NothingWaits(cfg, v);
    }
  }

  lemma NothingWaits(cfg: Config, v: Visit)
    ensures !Waiting(Boot(cfg), v)
  {
  }

  lemma {:induction false} ReceivedAll(cfg: Config, acts: seq<Act>)
    requires cfg.n > 0
    ensures AllWellRouted(cfg, acts) <==> forall v :: v in Received(cfg, acts) ==> OwnsTouched(cfg, v.0, v.1)
    decreases |acts|
  {
    hide OwnsTouched, Server;
    if acts != [] {
      var init, last := acts[..|acts| - 1], acts[|acts| - 1];
      ReceivedAll(cfg, init);
      assert acts == init + [last];
      assert forall a :: a in acts <==> a in init || a == last;
      assert ReceivedBy(cfg, last) != [] ==> ReceivedBy(cfg, last)[0] in Received(cfg, acts);
    }
  }

  ghost predicate Quiescent(s: System)
  {
    forall r :: 0 <= r < |s.reactors| ==> s.reactors[r].requests == [] && s.reactors[r].handling.None?
  }

  /** The exact condition, from the requests alone: if every request is routed to the owner of all it looks up, single
      ownership holds after every run of them, and it holds after a run that has served them all only if every one is. */
  lemma WellRoutedExactly(cfg: Config, acts: seq<Act>)
    requires cfg.n > 0
    ensures AllWellRouted(cfg, acts) ==> SingleOwner(cfg, Interleave(cfg, acts))
    ensures Quiescent(Interleave(cfg, acts)) ==> (SingleOwner(cfg, Interleave(cfg, acts)) <==> AllWellRouted(cfg, acts))
  {
    hide Interleave, Handled, Received, OwnsTouched, AllWellRouted, SingleOwner;
    SingleOwnerExactly(cfg, acts);
    ReceivedAll(cfg, acts);
    forall v ensures v in Received(cfg, acts) <==> v in Handled(cfg, acts) || Waiting(Interleave(cfg, acts), v) {
      RunConserves(cfg, acts, v);
    }
  }

  // ---- requests that break it ----

  /** A produce request for some partitions of one topic, behind a topic without partitions if `keyless`. */
  function ProduceOf(h: RequestHeader, keyless: bool, topic: bytes, ps: seq<int32>, records: bytes): Request
  {
    ProduceRequest(h, (if keyless then [ProduceTopicRequest([], [])] else [])
                      + [ProduceTopicRequest(topic, seq(|ps|, i requires 0 <= i < |ps| => ProducePartitionRequest(ps[i], records)))])
  }

  /** The tasks of that request, one a partition. */
  function TasksOf(topic: bytes, ps: seq<int32>, records: bytes): (ts: seq<Task>)
    ensures |ts| == |ps| && forall i :: 0 <= i < |ps| ==> ts[i] == ProduceTask(topic, ps[i], records)
  {
    seq(|ps|, i requires 0 <= i < |ps| => ProduceTask(topic, ps[i], records))
  }

  lemma OneTopicTasks(t: ProduceTopicRequest, ps: seq<int32>, records: bytes)
    requires |t.partitions| == |ps| && forall i :: 0 <= i < |ps| ==> t.partitions[i] == ProducePartitionRequest(ps[i], records)
    ensures ProduceTasks([t]) == TasksOf(t.topicName, ps, records)
  {
    assert ProduceTasks([t][1..]) == [];
    assert forall i :: 0 <= i < |ps| ==> ProduceTasks([t])[i] == ProduceTask(t.topicName, ps[i], records);
  }

  lemma ProduceOfTasks(cfg: Config, h: RequestHeader, keyless: bool, topic: bytes, ps: seq<int32>, records: bytes)
    ensures Tasks(cfg, ProduceOf(h, keyless, topic, ps, records)) == TasksOf(topic, ps, records)
    ensures Key(cfg, ProduceOf(h, keyless, topic, ps, records)) == if keyless || ps == [] then None else Some((topic, ps[0]))
  {
    hide TasksOf;
    var ts := ProduceOf(h, keyless, topic, ps, records).produceTopics;
    var last := ts[|ts| - 1];
    OneTopicTasks(last, ps, records);
    if keyless {
      assert ts[1..] == [last];
      assert ProduceTasks(ts) == [] + ProduceTasks([last]);
    } else {
      assert ts == [last];
    }
  }

  /** Routing looks at the first partition only: a request for two partitions with different owners is served by the owner
      of the first, which then holds a context it does not own. */
  lemma MixedRequestBreaks(cfg: Config, fd: int, h: RequestHeader, topic: bytes, p: int32, q: int32, records: bytes, env: Env)
    requires cfg.n > 0 && Known(cfg, topic, q) && records != [] && Owner(cfg, topic, p) != Owner(cfg, topic, q)
    ensures var act := Receive(Owner(cfg, topic, p), fd, ProduceOf(h, false, topic, [p, q], records), env);
            !SingleOwner(cfg, Interleave(cfg, [act]))
  {
    hide Owner, Known, SingleOwner, Tasks, Key, ProduceOf;
    var req := ProduceOf(h, false, topic, [p, q], records);
    ProduceOfTasks(cfg, h, false, topic, [p, q], records);
    assert Tasks(cfg, req)[1] == ProduceTask(topic, q, records);
    assert ProduceTask(topic, q, records) in Tasks(cfg, req);
    OneReceive(cfg, Owner(cfg, topic, p), fd, req, env);
  }

  /** A request that has no first partition is served wherever it arrives, whoever owns what it looks up. */
  lemma KeylessRequestBreaks(cfg: Config, r: nat, fd: int, h: RequestHeader, topic: bytes, p: int32, records: bytes, env: Env)
    requires r < cfg.n && Known(cfg, topic, p) && records != [] && Owner(cfg, topic, p) != r
    ensures !SingleOwner(cfg, Interleave(cfg, [Receive(r, fd, ProduceOf(h, true, topic, [p], records), env)]))
  {
    hide Owner, Known, SingleOwner, Tasks, Key, ProduceOf;
    var req := ProduceOf(h, true, topic, [p], records);
    ProduceOfTasks(cfg, h, true, topic, [p], records);
    assert Tasks(cfg, req)[0] == ProduceTask(topic, p, records);
    assert ProduceTask(topic, p, records) in Tasks(cfg, req);
    OneReceive(cfg, r, fd, req, env);
  }

  lemma OneReceive(cfg: Config, r: nat, fd: int, req: Request, env: Env)
    requires r < cfg.n && Server(cfg, r, req) == r
    ensures SingleOwner(cfg, Interleave(cfg, [Receive(r, fd, req, env)])) <==> OwnsTouched(cfg, r, req)
  {
    hide Perform, SingleOwner, OwnsTouched, Server;
    var act := Receive(r, fd, req, env);
    assert [act][..0] == [];
    assert Interleave(cfg, []) == Boot(cfg);
    assert Interleave(cfg, [act]) == Perform(cfg, Boot(cfg), act);
    BootSingle(cfg);
    ServedExactly(cfg, Boot(cfg), r, fd, req, env);
  }

  lemma BootSingle(cfg: Config)
    requires cfg.n > 0
    ensures SingleOwner(cfg, Boot(cfg))
  {
    hide Owner, ContextKey;
  }

  // ---- and what breaks with it ----

  lemma FirstBatch(cfg: Config, w: Work, topic: bytes, p: int32, blob: bytes, count: int32)
    requires Known(cfg, topic, p) && BatchCount(blob) == Some(count) && ContextKey(topic, p) !in w.contexts
    ensures DoAll(cfg, w, [ProduceTask(topic, p, blob)], Env(true, true)).accepted == w.accepted + [Accepted(topic, p, 0, count)]
  {
    hide Known, ContextKey;
    var t := ProduceTask(topic, p, blob);
    assert [t][..0] == [] && DoAll(cfg, w, [], Env(true, true)) == w;
    assert blob != [];
  }

  lemma ReceiveFirstBatch(cfg: Config, s: System, r: nat, fd: int, h: RequestHeader, keyless: bool, topic: bytes, p: int32, blob: bytes,
                          count: int32)
    requires cfg.n == |s.reactors| && r < cfg.n && Known(cfg, topic, p) && BatchCount(blob) == Some(count)
    requires ContextKey(topic, p) !in s.reactors[r].contexts && (keyless || Owner(cfg, topic, p) == r)
    ensures var s' := Perform(cfg, s, Receive(r, fd, ProduceOf(h, keyless, topic, [p], blob), Env(true, true)));
            && s'.accepted == s.accepted + [Accepted(topic, p, 0, count)]
            && forall q :: 0 <= q < cfg.n && q != r ==> s'.reactors[q] == s.reactors[q]
  {
    hide Known, ContextKey, Owner, DoAll, Tasks, Key, ProduceOf, BatchCount, C.Enqueue;
    ProduceOfTasks(cfg, h, keyless, topic, [p], blob);
    assert Tasks(cfg, ProduceOf(h, keyless, topic, [p], blob)) == [ProduceTask(topic, p, blob)];
    FirstBatch(cfg, Work(s.reactors[r].contexts, s.accepted, []), topic, p, blob, count);
  }

  /** A keyless produce at a reactor that is not the owner, and a plain one at the owner, give two batches one offset. */
  lemma KeylessRequestRepeatsOffset(cfg: Config, r: nat, fd: int, h: RequestHeader, topic: bytes, p: int32, blob: bytes, count: int32)
    requires r < cfg.n && Known(cfg, topic, p) && Owner(cfg, topic, p) != r && BatchCount(blob) == Some(count) && count >= 1
    ensures var env, q := Env(true, true), Owner(cfg, topic, p);
            var acts := [Receive(r, fd, ProduceOf(h, true, topic, [p], blob), env), Receive(q, fd, ProduceOf(h, false, topic, [p], blob), env)];
            && Interleave(cfg, acts).accepted == [Accepted(topic, p, 0, count), Accepted(topic, p, 0, count)]
            && !RunningSums(Interleave(cfg, acts).accepted)
  {
    hide Known, ContextKey, Owner, Perform, ProduceOf, BatchCount;
    var env, q := Env(true, true), Owner(cfg, topic, p);
    var a, b := Receive(r, fd, ProduceOf(h, true, topic, [p], blob), env), Receive(q, fd, ProduceOf(h, false, topic, [p], blob), env);
    assert [a][..0] == [] && [a, b][..1] == [a];
    assert Interleave(cfg, []) == Boot(cfg);
    assert Interleave(cfg, [a]) == Perform(cfg, Boot(cfg), a);
    assert Interleave(cfg, [a, b]) == Perform(cfg, Interleave(cfg, [a]), b);
    ReceiveFirstBatch(cfg, Boot(cfg), r, fd, h, true, topic, p, blob, count);
    ReceiveFirstBatch(cfg, Interleave(cfg, [a]), q, fd, h, false, topic, p, blob, count);
    var one := Accepted(topic, p, 0, count);
    assert [one, one][..1] == [one] && [one][..0] == [];
    assert Total([one], topic, p) == count;
  }

  // ---- at one input ----

  const ZERO_UUID: Uuid := [0, 0, 0, 0, 0, 0, 0, 0, 0, 0, 0, 0, 0, 0, 0, 0]

  /** Two reactors, a topic "B" with partitions 0 and 1, and a hash of zero. */
  function TwoReactors(): Config
  {
    Config(2, _ => 0, ClusterMetadata([TopicInfo([66], ZERO_UUID, [0, 1])], map[[66] := 0], map[ZERO_UUID := 0]), 0, 0x10_0000, _ => [0])
  }

  lemma TwoReactorsOwners()
    ensures Owner(TwoReactors(), [66], 0) == 1 && Owner(TwoReactors(), [66], 1) == 0
    ensures Known(TwoReactors(), [66], 0) && Known(TwoReactors(), [66], 1)
  {
    assert Mix(0, 0) == 0x9e3779b9 && Mix(0, 1) == 0x9e3779ba;
  }

  /** Both failures at concrete requests. */
  lemma TwoReactorsBreak(h: RequestHeader)
    ensures var cfg, env := TwoReactors(), Env(true, true);
            && !SingleOwner(cfg, Interleave(cfg, [Receive(1, 7, ProduceOf(h, false, [66], [0, 1], [1]), env)]))
            && !SingleOwner(cfg, Interleave(cfg, [Receive(0, 7, ProduceOf(h, true, [66], [0], [1]), env)]))
  {
    hide Owner, Known, SingleOwner, Interleave, ProduceOf;
    TwoReactorsOwners();
    MixedRequestBreaks(TwoReactors(), 7, h, [66], 0, 1, [1], Env(true, true));
    KeylessRequestBreaks(TwoReactors(), 0, 7, h, [66], 0, [1], Env(true, true));
  }
}
