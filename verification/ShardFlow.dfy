/** Forwarding between reactors conserves requests and keeps them in order: every forwarded request is
    in exactly one place, and each pair of reactors is a FIFO lane. */
module ShardFlow {
  import opened Bytes
  import opened Protocol
  import opened PartitionLog
  import opened Shard
  import C = Connection

  /** The messages of one source for one target, in order. */
  function Sel(fs: seq<Fwd>, src: nat, tgt: nat): seq<Fwd>
  {
    if fs == [] then []
    else
      var init, last := fs[..|fs| - 1], fs[|fs| - 1];
      if last.source == src && last.target == tgt then Sel(init, src, tgt) + [last] else Sel(init, src, tgt)
  }

  function Origins(rs: seq<Rsp>): seq<Fwd>
  {
    seq(|rs|, i requires 0 <= i < |rs| => rs[i].origin)
  }

  function Held(h: Option<Fwd>): seq<Fwd> { if h.Some? then [h.value] else [] }

  /** Everything from `src` to `tgt`, from the longest delivered to the last forwarded. */
  function Lane(s: System, src: nat, tgt: nat): seq<Fwd>
    requires src < |s.reactors| && tgt < |s.reactors|
  {
    Sel(s.delivered, src, tgt) + Sel(Origins(s.reactors[src].responses), src, tgt)
    + Sel(Held(s.reactors[tgt].handling), src, tgt) + Sel(s.reactors[tgt].requests, src, tgt)
  }

  /** Requests wait at their target, responses at their source. */
  ghost predicate Placed(s: System)
  {
    forall r :: 0 <= r < |s.reactors| ==>
      && (forall f :: f in s.reactors[r].requests ==> f.target == r && f.source < |s.reactors|)
      && (s.reactors[r].handling.Some? ==> s.reactors[r].handling.value.target == r && s.reactors[r].handling.value.source < |s.reactors|)
      && (forall x :: x in s.reactors[r].responses ==> x.origin.source == r && x.origin.target < |s.reactors|)
  }

  ghost predicate Numbered(s: System)
  {
    forall i :: 0 <= i < |s.forwarded| ==>
      s.forwarded[i].id == i && s.forwarded[i].source < |s.reactors| && s.forwarded[i].target < |s.reactors|
  }

  ghost predicate InLanes(s: System)
  {
    forall src: nat, tgt: nat | src < |s.reactors| && tgt < |s.reactors| :: Sel(s.forwarded, src, tgt) == Lane(s, src, tgt)
  }

  ghost predicate Flow(s: System) { Placed(s) && Numbered(s) && InLanes(s) }

  // ---- selection ----

  lemma {:induction false} SelAppend(a: seq<Fwd>, b: seq<Fwd>, src: nat, tgt: nat)
    ensures Sel(a + b, src, tgt) == Sel(a, src, tgt) + Sel(b, src, tgt)
    decreases |b|
  {
    if b == [] {
      assert a + b == a;
    } else {
      var n := |b| - 1;
      assert (a + b)[..|a| + n] == a + b[..n];
      SelAppend(a, b[..n], src, tgt);
    }
  }

  lemma SelOne(f: Fwd, src: nat, tgt: nat)
    ensures Sel([f], src, tgt) == if f.source == src && f.target == tgt then [f] else []
  {
    assert [f][..0] == [];
  }

  lemma SelSnoc(a: seq<Fwd>, f: Fwd, src: nat, tgt: nat)
    ensures Sel(a + [f], src, tgt) == if f.source == src && f.target == tgt then Sel(a, src, tgt) + [f] else Sel(a, src, tgt)
  {
    assert (a + [f])[..|a|] == a;
  }

  lemma SelCons(fs: seq<Fwd>, src: nat, tgt: nat)
    requires fs != []
    ensures Sel(fs, src, tgt) == (if fs[0].source == src && fs[0].target == tgt then [fs[0]] else []) + Sel(fs[1..], src, tgt)
  {
    hide Sel;
    assert fs == [fs[0]] + fs[1..];
    SelAppend([fs[0]], fs[1..], src, tgt);
    SelOne(fs[0], src, tgt);
  }

  lemma {:induction false} SelCount(fs: seq<Fwd>, f: Fwd)
    ensures multiset(Sel(fs, f.source, f.target))[f] == multiset(fs)[f]
    decreases |fs|
  {
    if fs != [] {
      var n := |fs| - 1;
      SelCount(fs[..n], f);
      assert fs == fs[..n] + [fs[n]];
    }
  }

  // ---- the steps ----

  lemma ForwardLane(cfg: Config, s: System, r: nat, fd: int, req: Request, env: Env, src: nat, tgt: nat)
    requires cfg.n == |s.reactors| && r < cfg.n && src < cfg.n && tgt < cfg.n && InLanes(s)
    ensures var s' := OnReceive(cfg, s, r, fd, req, env);
            Sel(s'.forwarded, src, tgt) == Lane(s', src, tgt)
  {
    hide Sel, Origins, Owner, Key, DoAll, Tasks, C.Enqueue;
    var key, s' := Key(cfg, req), OnReceive(cfg, s, r, fd, req, env);
    assert Sel(s.forwarded, src, tgt) == Lane(s, src, tgt);
    if key.Some? && Owner(cfg, key.value.0, key.value.1) != r {
      var f := s'.forwarded[|s.forwarded|];
      assert s'.forwarded == s.forwarded + [f];
      SelSnoc(s.forwarded, f, src, tgt);
      SelSnoc(s.reactors[f.target].requests, f, src, tgt);
    }
  }

  lemma TakeLane(s: System, r: nat, src: nat, tgt: nat)
    requires r < |s.reactors| && src < |s.reactors| && tgt < |s.reactors|
    requires s.reactors[r].requests != [] && s.reactors[r].handling.None?
    ensures var x := s.reactors[r];
            Lane(Set(s, r, x.(requests := x.requests[1..], handling := Some(x.requests[0]))), src, tgt) == Lane(s, src, tgt)
  {
    hide Sel, Origins;
    if tgt == r {
      var q := s.reactors[r].requests;
      SelCons(q, src, tgt);
      SelOne(q[0], src, tgt);
      NoneSel(src, tgt);
      ghost var front := Sel(s.delivered, src, tgt) + Sel(Origins(s.reactors[src].responses), src, tgt);
      assert front + Sel([q[0]], src, tgt) + Sel(q[1..], src, tgt) == front + [] + Sel(q, src, tgt);
    }
  }

  lemma NoneSel(src: nat, tgt: nat)
    ensures Sel([], src, tgt) == []
  {
  }

  lemma OriginsSnoc(rs: seq<Rsp>, x: Rsp)
    ensures Origins(rs + [x]) == Origins(rs) + [x.origin]
  {
  }

  lemma OriginsCons(rs: seq<Rsp>)
    requires rs != []
    ensures Origins(rs)[1..] == Origins(rs[1..]) && Origins(rs) != [] && Origins(rs)[0] == rs[0].origin
  {
  }

  lemma ServeLane(cfg: Config, s: System, r: nat, env: Env, src: nat, tgt: nat)
    requires cfg.n == |s.reactors| && r < cfg.n && src < cfg.n && tgt < cfg.n && Placed(s) && s.reactors[r].handling.Some?
    ensures Lane(OnServe(cfg, s, r, env), src, tgt) == Lane(s, src, tgt)
  {
    hide Sel, Origins, DoAll, Tasks;
    var s', f := OnServe(cfg, s, r, env), s.reactors[r].handling.value;
    var rs := s.reactors[src].responses;
    SelOne(f, src, tgt);
    NoneSel(src, tgt);
    if f.source == src {
      var x := s'.reactors[src].responses[|rs|];
      assert s'.reactors[src].responses == rs + [x] && x.origin == f;
      OriginsSnoc(rs, x);
      SelSnoc(Origins(rs), f, src, tgt);
    }
    ghost var a, b, c := Sel(s.delivered, src, tgt), Sel(Origins(rs), src, tgt), Sel(s.reactors[tgt].requests, src, tgt);
    assert a + (b + [f]) + [] + c == a + b + [f] + c;
  }

  lemma DeliverLane(s: System, r: nat, src: nat, tgt: nat)
    requires r < |s.reactors| && src < |s.reactors| && tgt < |s.reactors| && Placed(s) && s.reactors[r].responses != []
    ensures Lane(OnDeliver(s, r), src, tgt) == Lane(s, src, tgt)
  {
    hide Sel, Origins, C.Enqueue;
    var rs := s.reactors[r].responses;
    var o := rs[0].origin;
    assert rs[0] in rs;
    SelSnoc(s.delivered, o, src, tgt);
    if src == r {
      OriginsCons(rs);
      SelCons(Origins(rs), src, tgt);
      ghost var a, b := Sel(s.delivered, src, tgt), Sel(Origins(rs[1..]), src, tgt);
      assert a + ([o] + b) == a + [o] + b && a + ([] + b) == a + b;
    }
  }

  lemma StepKeepsLanes(cfg: Config, s: System, a: Act, src: nat, tgt: nat)
    requires cfg.n == |s.reactors| && src < cfg.n && tgt < cfg.n && Flow(s)
    ensures Sel(Perform(cfg, s, a).forwarded, src, tgt) == Lane(Perform(cfg, s, a), src, tgt)
  {
    hide Sel, Origins, Placed, Numbered, OnReceive, OnServe, OnDeliver, C.Sent, C.Taken;
    assert Sel(s.forwarded, src, tgt) == Lane(s, src, tgt);
    if a.r < cfg.n {
      match a {
        case Receive(r, fd, req, env) => ForwardLane(cfg, s, r, fd, req, env, src, tgt);
        case Take(r) =>
          if s.reactors[r].requests != [] && s.reactors[r].handling.None? { TakeLane(s, r, src, tgt); }
        case Serve(r, env) =>
          if s.reactors[r].handling.Some? {
            ServeLane(cfg, s, r, env, src, tgt);
            SameForwarded(cfg, s, r, env);
          }
        case Deliver(r) =>
          if s.reactors[r].responses != [] {
            DeliverLane(s, r, src, tgt);
            SameForwardedDeliver(s, r);
          }
        case _ =>
      }
    }
  }

  lemma SameForwarded(cfg: Config, s: System, r: nat, env: Env)
    requires cfg.n == |s.reactors| && r < cfg.n && s.reactors[r].handling.Some?
    ensures OnServe(cfg, s, r, env).forwarded == s.forwarded
  {
    hide DoAll, Tasks;
  }

  lemma SameForwardedDeliver(s: System, r: nat)
    requires r < |s.reactors| && s.reactors[r].responses != []
    ensures OnDeliver(s, r).forwarded == s.forwarded
  {
    hide C.Enqueue;
  }

  lemma ReceiveKeepsPlaces(cfg: Config, s: System, r: nat, fd: int, req: Request, env: Env)
    requires cfg.n == |s.reactors| && r < cfg.n && Placed(s) && Numbered(s)
    ensures Placed(OnReceive(cfg, s, r, fd, req, env)) && Numbered(OnReceive(cfg, s, r, fd, req, env))
  {
    hide Owner, Key, DoAll, Tasks, C.Enqueue;
  }

  lemma ServeKeepsPlaces(cfg: Config, s: System, r: nat, env: Env)
    requires cfg.n == |s.reactors| && r < cfg.n && s.reactors[r].handling.Some? && Placed(s) && Numbered(s)
    ensures Placed(OnServe(cfg, s, r, env)) && Numbered(OnServe(cfg, s, r, env))
  {
    hide DoAll, Tasks;
  }

  lemma StepKeepsPlaces(cfg: Config, s: System, a: Act)
    requires cfg.n == |s.reactors| && Placed(s) && Numbered(s)
    ensures Placed(Perform(cfg, s, a)) && Numbered(Perform(cfg, s, a))
  {
    hide OnReceive, OnServe, C.Enqueue, C.Sent, C.Taken;
    if a.r < cfg.n {
      if a.Receive? {
        ReceiveKeepsPlaces(cfg, s, a.r, a.fd, a.request, a.env);
      } else if a.Serve? && s.reactors[a.r].handling.Some? {
        ServeKeepsPlaces(cfg, s, a.r, a.env);
      }
    }
  }

  lemma StepKeepsFlow(cfg: Config, s: System, a: Act)
    requires cfg.n == |s.reactors| && Flow(s)
    ensures Flow(Perform(cfg, s, a))
  {
    hide Perform, Sel, Lane, Placed, Numbered;
    StepKeepsPlaces(cfg, s, a);
    forall src: nat, tgt: nat | src < cfg.n && tgt < cfg.n
      ensures Sel(Perform(cfg, s, a).forwarded, src, tgt) == Lane(Perform(cfg, s, a), src, tgt)
    {
      StepKeepsLanes(cfg, s, a, src, tgt);
    }
  }

  lemma {:induction false} RunKeepsFlow(cfg: Config, acts: seq<Act>)
    ensures Flow(Interleave(cfg, acts))
    decreases |acts|
  {
    hide Perform, Flow;
    if acts == [] {
      BootFlows(cfg);
    } else {
      RunKeepsFlow(cfg, acts[..|acts| - 1]);
      StepKeepsFlow(cfg, Interleave(cfg, acts[..|acts| - 1]), acts[|acts| - 1]);
    }
  }

  lemma BootFlows(cfg: Config)
    ensures Flow(Boot(cfg))
  {
  }

  // ---- the theorems ----

  /** In every interleaving, what one reactor forwarded to another is, in forwarding order: what came back, then
      the responses on their way, then the request being handled, then the requests still queued. */
  lemma LanesAreFifo(cfg: Config, acts: seq<Act>, src: nat, tgt: nat)
    requires src < cfg.n && tgt < cfg.n
    ensures var s := Interleave(cfg, acts);
            Sel(s.forwarded, src, tgt) ==
            Sel(s.delivered, src, tgt) + Sel(Origins(s.reactors[src].responses), src, tgt)
            + Sel(Held(s.reactors[tgt].handling), src, tgt) + Sel(s.reactors[tgt].requests, src, tgt)
  {
    hide Interleave, Sel, Origins, Placed, Numbered;
    RunKeepsFlow(cfg, acts);
    var s := Interleave(cfg, acts);
    assert Sel(s.forwarded, src, tgt) == Lane(s, src, tgt);
  }

  lemma {:induction false} CountNumbered(fs: seq<Fwd>, i: nat)
    requires i < |fs| && forall k :: 0 <= k < |fs| ==> fs[k].id == k
    ensures multiset(fs)[fs[i]] == 1
  {
    assert fs == fs[..i] + [fs[i]] + fs[i + 1..];
    assert fs[i] !in fs[..i] && fs[i] !in fs[i + 1..];
  }

  /** So at every point each forwarded request counts once: as delivered, or in the response queue of its source, or as being
      handled by its target, or in the request queue of its target. */
  lemma ForwardedCountedOnce(cfg: Config, acts: seq<Act>, i: nat)
    requires i < |Interleave(cfg, acts).forwarded|
    ensures var s := Interleave(cfg, acts);
            var f := s.forwarded[i];
            && f.source < cfg.n && f.target < cfg.n
            && multiset(s.delivered)[f] + multiset(Origins(s.reactors[f.source].responses))[f]
               + multiset(Held(s.reactors[f.target].handling))[f] + multiset(s.reactors[f.target].requests)[f] == 1
  {
    hide Interleave, Sel, Origins, Placed, Held;
    RunKeepsFlow(cfg, acts);
    var s := Interleave(cfg, acts);
    var f := s.forwarded[i];
    CountNumbered(s.forwarded, i);
    LanesAreFifo(cfg, acts, f.source, f.target);
    SelCount(s.forwarded, f);
    SelCount(s.delivered, f);
    SelCount(Origins(s.reactors[f.source].responses), f);
    SelCount(Held(s.reactors[f.target].handling), f);
    SelCount(s.reactors[f.target].requests, f);
  }

  /** And in no other reactor's queues. */
  lemma ForwardedNowhereElse(cfg: Config, acts: seq<Act>, f: Fwd, r: nat)
    requires r < cfg.n
    ensures var s := Interleave(cfg, acts);
            && (r != f.target ==> f !in s.reactors[r].requests && s.reactors[r].handling != Some(f))
            && (r != f.source ==> f !in Origins(s.reactors[r].responses))
  {
    hide Interleave, Sel, Numbered, InLanes;
    RunKeepsFlow(cfg, acts);
    var s := Interleave(cfg, acts);
    forall i | 0 <= i < |s.reactors[r].responses|
      ensures Origins(s.reactors[r].responses)[i].source == r
    {
      assert s.reactors[r].responses[i] in s.reactors[r].responses;
    }
  }
}
