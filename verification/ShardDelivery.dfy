/** What reaches the connections: in every interleaving each open connection runs the output machine on exactly the responses
    given to it since it was opened, and every forwarded request ends as one of those or is dropped for want of a
    connection. */
module ShardDelivery {
  import opened Bytes
  import opened Protocol
  import opened PartitionLog
  import opened Shard
  import opened ShardFlow
  import C = Connection

  /** What happened to one connection: a request answered where it arrived, a response come back from another reactor, a
      write event. */
  datatype Event = Answered(data: bytes) | Delivered(origin: Fwd, data: bytes) | Took(k: nat)

  function OpOf(e: Event): C.OutOp { if e.Took? then C.Writable(e.k) else C.Respond(e.data) }

  function Ops(es: seq<Event>): (ops: seq<C.OutOp>)
    ensures |ops| == |es| && forall i :: 0 <= i < |es| ==> ops[i] == OpOf(es[i])
  {
    seq(|es|, i requires 0 <= i < |es| => OpOf(es[i]))
  }

  /** The response to a request handled on reactor `r`. */
  ghost function ReplyTo(cfg: Config, s: System, r: nat, req: Request, env: Env): bytes
    requires r < |s.reactors|
  {
    cfg.render(DoAll(cfg, Work(s.reactors[r].contexts, s.accepted, []), Tasks(cfg, req), env).replies)
  }

  function OrNone(es: Option<seq<Event>>): seq<Event> { if es.Some? then es.value else [] }

  ghost function StoryStep(cfg: Config, s: System, a: Act, r: nat, fd: int, es: Option<seq<Event>>): Option<seq<Event>>
    requires cfg.n == |s.reactors| && r < cfg.n
  {
    if a.r != r then es
    else match a
      case Accept(_, d) => if d == fd then Some([]) else es
      case Close(_, d) => if d == fd then None else es
      case Receive(_, d, req, env) =>
        if d != fd then es
        else if Server(cfg, r, req) != r then Some(OrNone(es))
        else if |ReplyTo(cfg, s, r, req, env)| > cfg.maxWrite then None
        else Some(OrNone(es) + [Answered(ReplyTo(cfg, s, r, req, env))])
      case Deliver(_) =>
        var rs := s.reactors[r].responses;
        if rs == [] || rs[0].origin.clientFd != fd || es.None? then es else Some(es.value + [Delivered(rs[0].origin, rs[0].data)])
      case Flush(_, d, k) => if d == fd then Some(OrNone(es) + [Took(k)]) else es
      case _ => es
  }

  /** The connection behind descriptor `fd` of reactor `r` since it was opened, if it is open. */
  ghost function Story(cfg: Config, acts: seq<Act>, r: nat, fd: int): Option<seq<Event>>
    requires r < cfg.n
  {
    if acts == [] then None
    else
      var init := acts[..|acts| - 1];
      StoryStep(cfg, Interleave(cfg, init), acts[|acts| - 1], r, fd, Story(cfg, init, r, fd))
  }

  // ---- connections run their story ----

  /** The state of a connection is what its story makes of it. */
  ghost predicate Tells(es: Option<seq<Event>>, conns: map<int, C.Out>, fd: int)
  {
    (es.Some? <==> fd in conns) && (es.Some? ==> conns[fd] == C.RunOut(Ops(es.value)).o)
  }

  lemma OpsSnoc(es: seq<Event>, e: Event)
    ensures C.RunOut(Ops(es + [e])) == C.OutStep(C.RunOut(Ops(es)), OpOf(e))
  {
    hide C.OutStep;
    var ops := Ops(es + [e]);
    assert ops[..|ops| - 1] == Ops(es);
  }

  lemma FreshStory(conns: map<int, C.Out>, fd: int, es: Option<seq<Event>>)
    requires Tells(es, conns, fd)
    ensures ConnAt(conns, fd) == C.RunOut(Ops(OrNone(es))).o
  {
  }

  lemma ReceiveTells(cfg: Config, s: System, r: nat, fd: int, req: Request, env: Env, q: nat, d: int, es: Option<seq<Event>>)
    requires cfg.n == |s.reactors| && r < cfg.n && q < cfg.n && Tells(es, s.reactors[q].conns, d)
    ensures var a := Receive(r, fd, req, env);
            Tells(StoryStep(cfg, s, a, q, d, es), OnReceive(cfg, s, r, fd, req, env).reactors[q].conns, d)
  {
    hide Owner, Key, DoAll, Tasks, C.RunOut, C.Enqueue, Ops;
    FreshStory(s.reactors[q].conns, d, es);
    if q == r && d == fd && Server(cfg, r, req) == r {
      var data := ReplyTo(cfg, s, r, req, env);
      OpsSnoc(OrNone(es), Answered(data));
    }
  }

  lemma DeliverTells(cfg: Config, s: System, r: nat, q: nat, d: int, es: Option<seq<Event>>)
    requires cfg.n == |s.reactors| && r < cfg.n && q < cfg.n && s.reactors[r].responses != [] && Tells(es, s.reactors[q].conns, d)
    ensures Tells(StoryStep(cfg, s, Deliver(r), q, d, es), OnDeliver(s, r).reactors[q].conns, d)
  {
    hide C.RunOut, C.Enqueue, Ops;
    var rsp := s.reactors[r].responses[0];
    if q == r && d == rsp.origin.clientFd && es.Some? {
      OpsSnoc(es.value, Delivered(rsp.origin, rsp.data));
    }
  }

  lemma StepTells(cfg: Config, s: System, a: Act, q: nat, d: int, es: Option<seq<Event>>)
    requires cfg.n == |s.reactors| && q < cfg.n && Tells(es, s.reactors[q].conns, d)
    ensures Tells(StoryStep(cfg, s, a, q, d, es), Perform(cfg, s, a).reactors[q].conns, d)
  {
    hide OnReceive, OnServe, OnDeliver, ReplyTo, Server, C.RunOut, C.Sent, C.Taken, Ops, Tells;
    if a.r < cfg.n {
      match a {
        case Receive(r, fd, req, env) => ReceiveTells(cfg, s, r, fd, req, env, q, d, es);
        case Deliver(r) => if s.reactors[r].responses != [] { DeliverTells(cfg, s, r, q, d, es); }
        case Serve(r, env) => if s.reactors[r].handling.Some? { ServeKeepsConns(cfg, s, r, env, q); }
        case _ => PlainTells(cfg, s, a, q, d, es);
      }
    }
  }

  lemma ServeKeepsConns(cfg: Config, s: System, r: nat, env: Env, q: nat)
    requires cfg.n == |s.reactors| && r < cfg.n && q < cfg.n && s.reactors[r].handling.Some?
    ensures OnServe(cfg, s, r, env).reactors[q].conns == s.reactors[q].conns
  {
    hide DoAll, Tasks;
  }

  lemma PlainTells(cfg: Config, s: System, a: Act, q: nat, d: int, es: Option<seq<Event>>)
    requires cfg.n == |s.reactors| && q < cfg.n && Tells(es, s.reactors[q].conns, d) && (a.Accept? || a.Take? || a.Flush? || a.Close?)
    ensures Tells(StoryStep(cfg, s, a, q, d, es), Perform(cfg, s, a).reactors[q].conns, d)
  {
    hide C.Sent, C.Taken, C.Chunk;
    FreshStory(s.reactors[q].conns, d, es);
    if a.Flush? {
      OpsSnoc(OrNone(es), Took(a.k));
    }
  }

  lemma {:induction false} StoryTells(cfg: Config, acts: seq<Act>, r: nat, fd: int)
    requires r < cfg.n
    ensures Tells(Story(cfg, acts, r, fd), Interleave(cfg, acts).reactors[r].conns, fd)
    decreases |acts|
  {
    hide Perform, StoryStep, Tells;
    if acts != [] {
      var init := acts[..|acts| - 1];
      StoryTells(cfg, init, r, fd);
      StepTells(cfg, Interleave(cfg, init), acts[|acts| - 1], r, fd, Story(cfg, init, r, fd));
    } else {
      NothingTold(cfg, r, fd);
    }
  }

  lemma NothingTold(cfg: Config, r: nat, fd: int)
    requires r < cfg.n
    ensures Tells(None, Boot(cfg).reactors[r].conns, fd)
  {
  }

  // ---- so their output is exactly the responses given to them ----

  /** The serializer never returns an empty buffer. */
  ghost predicate Renders(cfg: Config) { forall replies :: cfg.render(replies) != [] }

  ghost predicate Full(s: System)
  {
    forall r, i :: 0 <= r < |s.reactors| && 0 <= i < |s.reactors[r].responses| ==> s.reactors[r].responses[i].data != []
  }

  lemma StepKeepsFull(cfg: Config, s: System, a: Act)
    requires cfg.n == |s.reactors| && Renders(cfg) && Full(s)
    ensures Full(Perform(cfg, s, a))
  {
    hide Owner, Key, DoAll, Tasks, C.Enqueue, C.Sent, C.Taken;
  }

  lemma {:induction false} RunKeepsFull(cfg: Config, acts: seq<Act>)
    requires Renders(cfg)
    ensures Full(Interleave(cfg, acts))
    decreases |acts|
  {
    hide Perform, Renders;
    if acts != [] {
      RunKeepsFull(cfg, acts[..|acts| - 1]);
      StepKeepsFull(cfg, Interleave(cfg, acts[..|acts| - 1]), acts[|acts| - 1]);
    }
  }

  ghost predicate Sayings(es: seq<Event>) { forall e :: e in es ==> e.Took? || e.data != [] }

  lemma {:induction false} StorySays(cfg: Config, acts: seq<Act>, r: nat, fd: int)
    requires r < cfg.n && Renders(cfg)
    ensures Sayings(OrNone(Story(cfg, acts, r, fd)))
    decreases |acts|
  {
    hide Interleave, Server, ReplyTo;
    if acts != [] {
      var init := acts[..|acts| - 1];
      StorySays(cfg, init, r, fd);
      RunKeepsFull(cfg, init);
      var a := acts[|acts| - 1];
      if a.Receive? && a.r == r {
        RepliesAreFull(cfg, Interleave(cfg, init), r, a.request, a.env);
      }
    }
  }

  lemma RepliesAreFull(cfg: Config, s: System, r: nat, req: Request, env: Env)
    requires r < |s.reactors| && Renders(cfg)
    ensures ReplyTo(cfg, s, r, req, env) != []
  {
  }

  /** The responses among the events. */
  function Given(es: seq<Event>): seq<bytes>
  {
    if es == [] then []
    else
      var last := es[|es| - 1];
      Given(es[..|es| - 1]) + if last.Took? then [] else [last.data]
  }

  lemma {:induction false} GivenIsResponses(es: seq<Event>)
    ensures C.RunOut(Ops(es)).responses == Given(es)
    decreases |es|
  {
    hide C.Enqueue, C.Sent, C.Taken, C.Chunk;
    if es != [] {
      var init := es[..|es| - 1];
      GivenIsResponses(init);
      OpsSnoc(init, es[|es| - 1]);
      assert es == init + [es[|es| - 1]];
    }
  }

  /** In every interleaving and for every open connection: what the socket took since it was opened, then what is unsent, is
      exactly the responses given to it since, in order; and EPOLLOUT is armed exactly when something is unsent. */
  lemma OutputIsWhatWasGiven(cfg: Config, acts: seq<Act>, r: nat, fd: int)
    requires r < cfg.n && Renders(cfg) && fd in Interleave(cfg, acts).reactors[r].conns
    ensures Story(cfg, acts, r, fd).Some?
    ensures var es, o := Story(cfg, acts, r, fd).value, Interleave(cfg, acts).reactors[r].conns[fd];
            && C.RunOut(Ops(es)).wire + C.Unsent(o) == Concat(Given(es))
            && (o.armed <==> C.Unsent(o) != []) && C.Tidy(o)
  {
    hide Interleave, Story, C.RunOut, C.Unsent, Concat, C.Tidy;
    StoryTells(cfg, acts, r, fd);
    StorySays(cfg, acts, r, fd);
    var es := Story(cfg, acts, r, fd).value;
    forall op | op in Ops(es) ensures op.Respond? ==> op.data != [] {
      var i :| 0 <= i < |es| && op == OpOf(es[i]);
      assert es[i] in es;
    }
    GivenIsResponses(es);
    C.OutputExactlyOnceInOrder(Ops(es));
    C.OutRunKeeps(Ops(es));
  }

  /** Delivering appends the response to the output of the connection behind its descriptor, if that is open, and touches no
      other, in every reachable system. */
  lemma DeliverReachesItsConnection(cfg: Config, acts: seq<Act>, r: nat, fd: int)
    requires r < cfg.n && Renders(cfg) && Interleave(cfg, acts).reactors[r].responses != []
    ensures var s := Interleave(cfg, acts);
            var before, after, rsp := s.reactors[r].conns, Perform(cfg, s, Deliver(r)).reactors[r].conns, s.reactors[r].responses[0];
            && (fd in after <==> fd in before)
            && (fd in before && fd == rsp.origin.clientFd ==> C.Unsent(after[fd]) == C.Unsent(before[fd]) + rsp.data)
            && (fd in before && fd != rsp.origin.clientFd ==> after[fd] == before[fd])
  {
    hide Interleave, Story, C.RunOut, C.Unsent, Concat, C.Tidy, C.Enqueue;
    RunKeepsFull(cfg, acts);
    var s := Interleave(cfg, acts);
    var before, rsp := s.reactors[r].conns, s.reactors[r].responses[0];
    if fd in before {
      OutputIsWhatWasGiven(cfg, acts, r, fd);
      C.EnqueueAppends(before[fd], rsp.data);
    }
  }

  // ---- where a forwarded request ends ----

  /** The forwarded request whose response a step takes off its queue. */
  ghost function DeliveredBy(s: System, a: Act): Option<Fwd>
  {
    if a.Deliver? && a.r < |s.reactors| && s.reactors[a.r].responses != [] then Some(s.reactors[a.r].responses[0].origin) else None
  }

  /** Its connection is open. */
  ghost predicate IsOpen(s: System, r: nat, fd: int) { r < |s.reactors| && fd in s.reactors[r].conns }

  /** The requests whose responses were appended to an open connection (`open`), or dropped for want of one. */
  ghost function Ended(cfg: Config, acts: seq<Act>, open: bool): seq<Fwd>
  {
    if acts == [] then []
    else
      var init, a := acts[..|acts| - 1], acts[|acts| - 1];
      var s := Interleave(cfg, init);
      var f := DeliveredBy(s, a);
      Ended(cfg, init, open) + if f.Some? && IsOpen(s, a.r, f.value.clientFd) == open then [f.value] else []
  }

  lemma StepDelivers(cfg: Config, s: System, a: Act)
    requires cfg.n == |s.reactors|
    ensures Perform(cfg, s, a).delivered == s.delivered + if DeliveredBy(s, a).Some? then [DeliveredBy(s, a).value] else []
  {
    hide Owner, Key, DoAll, Tasks, C.Enqueue, C.Sent, C.Taken;
  }

  lemma {:induction false} DeliveredEnds(cfg: Config, acts: seq<Act>)
    ensures multiset(Interleave(cfg, acts).delivered) == multiset(Ended(cfg, acts, true)) + multiset(Ended(cfg, acts, false))
    decreases |acts|
  {
    hide Perform, DeliveredBy, IsOpen;
    if acts != [] {
      var init := acts[..|acts| - 1];
      DeliveredEnds(cfg, init);
      StepDelivers(cfg, Interleave(cfg, init), acts[|acts| - 1]);
    }
  }

  /** At every point of every run each forwarded request is in exactly one place, once: its response was appended to an open
      connection, or dropped, or waits in the response queue of its source, or it is being handled by its target, or waits
      in the request queue of its target. */
  lemma ForwardedInExactlyOnePlace(cfg: Config, acts: seq<Act>, i: nat)
    requires i < |Interleave(cfg, acts).forwarded|
    ensures var s := Interleave(cfg, acts);
            var f := s.forwarded[i];
            && f.source < cfg.n && f.target < cfg.n
            && multiset(Ended(cfg, acts, true))[f] + multiset(Ended(cfg, acts, false))[f]
               + multiset(Origins(s.reactors[f.source].responses))[f]
               + multiset(Held(s.reactors[f.target].handling))[f] + multiset(s.reactors[f.target].requests)[f] == 1
  {
    hide Interleave, Ended, Origins, Held;
    ForwardedCountedOnce(cfg, acts, i);
    DeliveredEnds(cfg, acts);
  }

  /** Step `j` serves `f` on its target. */
  ghost predicate ServedAt(cfg: Config, acts: seq<Act>, j: nat, f: Fwd)
  {
    && j < |acts| && f.target < cfg.n && acts[j].Serve? && acts[j].r == f.target
    && Interleave(cfg, acts[..j]).reactors[f.target].handling == Some(f)
  }

  /** What `f` is answered with by step `j`: the rendering of the replies its target gives at that point. */
  ghost function AnswerAt(cfg: Config, acts: seq<Act>, j: nat, f: Fwd): bytes
    requires ServedAt(cfg, acts, j, f)
  {
    ReplyTo(cfg, Interleave(cfg, acts[..j]), f.target, f.request, acts[j].env)
  }

  ghost predicate IsAnswer(cfg: Config, acts: seq<Act>, f: Fwd, data: bytes)
  {
    exists j: nat :: ServedAt(cfg, acts, j, f) && data == AnswerAt(cfg, acts, j, f)
  }

  lemma AnswerStays(cfg: Config, acts: seq<Act>, n: nat, f: Fwd, data: bytes)
    requires n <= |acts| && IsAnswer(cfg, acts[..n], f, data)
    ensures IsAnswer(cfg, acts, f, data)
  {
    hide Interleave, ReplyTo;
    var j: nat :| ServedAt(cfg, acts[..n], j, f) && data == AnswerAt(cfg, acts[..n], j, f);
    assert acts[..n][..j] == acts[..j] && acts[..n][j] == acts[j];
    assert ServedAt(cfg, acts, j, f) && data == AnswerAt(cfg, acts, j, f);
  }

  /** A step adds to a response queue only the answer to the request it serves. */
  lemma StepResponses(cfg: Config, s: System, a: Act, r: nat, x: Rsp)
    requires cfg.n == |s.reactors| && r < cfg.n && x in Perform(cfg, s, a).reactors[r].responses
    ensures || x in s.reactors[r].responses
            || (a.Serve? && a.r < cfg.n && s.reactors[a.r].handling == Some(x.origin)
                && x.data == ReplyTo(cfg, s, a.r, x.origin.request, a.env))
  {
    hide Owner, Key, DoAll, Tasks, C.Enqueue, C.Sent, C.Taken;
    if a.Deliver? && a.r < cfg.n && s.reactors[a.r].responses != [] {
      assert forall y :: y in s.reactors[a.r].responses[1..] ==> y in s.reactors[a.r].responses;
    }
  }

  /** Every response that waits is the answer its target gave to the request. */
  lemma {:induction false} WaitingResponsesAreAnswers(cfg: Config, acts: seq<Act>, r: nat, x: Rsp)
    requires r < cfg.n && x in Interleave(cfg, acts).reactors[r].responses
    ensures IsAnswer(cfg, acts, x.origin, x.data)
    decreases |acts|
  {
    hide Perform, IsAnswer, ReplyTo, Boot;
    if acts == [] {
      BootQuiet(cfg, r);
    } else {
      var n := |acts| - 1;
      var s := Interleave(cfg, acts[..n]);
      StepResponses(cfg, s, acts[n], r, x);
      if x in s.reactors[r].responses {
        WaitingResponsesAreAnswers(cfg, acts[..n], r, x);
        AnswerStays(cfg, acts, n, x.origin, x.data);
      } else {
        ServesNow(cfg, acts, x);
      }
    }
  }

  lemma BootQuiet(cfg: Config, r: nat)
    requires r < cfg.n
    ensures Boot(cfg).reactors[r].responses == []
  {
  }

  lemma ServesNow(cfg: Config, acts: seq<Act>, x: Rsp)
    requires acts != []
    requires var n := |acts| - 1;
             var s, a := Interleave(cfg, acts[..n]), acts[n];
             a.Serve? && a.r < cfg.n && s.reactors[a.r].handling == Some(x.origin) && x.data == ReplyTo(cfg, s, a.r, x.origin.request, a.env)
    ensures IsAnswer(cfg, acts, x.origin, x.data)
  {
    hide Interleave, ReplyTo, Numbered, InLanes;
    var n := |acts| - 1;
    RunKeepsFlow(cfg, acts[..n]);
    assert ServedAt(cfg, acts, n, x.origin) && x.data == AnswerAt(cfg, acts, n, x.origin);
  }

  /** And so is every response that a connection was given. */
  lemma {:induction false} DeliveredResponsesAreAnswers(cfg: Config, acts: seq<Act>, r: nat, fd: int, f: Fwd, data: bytes)
    requires r < cfg.n && Delivered(f, data) in OrNone(Story(cfg, acts, r, fd))
    ensures IsAnswer(cfg, acts, f, data)
    decreases |acts|
  {
    hide Interleave, IsAnswer, ReplyTo, Server;
    var n := |acts| - 1;
    var s, rs := Interleave(cfg, acts[..n]), Interleave(cfg, acts[..n]).reactors[r].responses;
    if Delivered(f, data) in OrNone(Story(cfg, acts[..n], r, fd)) {
      DeliveredResponsesAreAnswers(cfg, acts[..n], r, fd, f, data);
    } else {
      assert rs != [] && rs[0] == Rsp(f, data) && rs[0] in rs;
      WaitingResponsesAreAnswers(cfg, acts[..n], r, rs[0]);
    }
    AnswerStays(cfg, acts, n, f, data);
  }

  // ---- each forwarded request is served once ----

  /** How often `f` counts as answered: delivered, or waiting in the response queue of its source. */
  ghost function AnsweredCount(s: System, f: Fwd): nat
    requires f.source < |s.reactors|
  {
    multiset(s.delivered)[f] + multiset(Origins(s.reactors[f.source].responses))[f]
  }

  lemma StepKeepsAnswered(cfg: Config, s: System, a: Act, f: Fwd)
    requires cfg.n == |s.reactors| && f.source < cfg.n && Placed(s)
    ensures AnsweredCount(Perform(cfg, s, a), f) >= AnsweredCount(s, f)
    ensures a.Serve? && a.r < cfg.n && s.reactors[a.r].handling == Some(f) ==> AnsweredCount(Perform(cfg, s, a), f) > AnsweredCount(s, f)
  {
    hide OnReceive, OnServe, OnDeliver, Origins, C.Sent, C.Taken;
    if a.r < cfg.n {
      if a.Receive? {
        ReceiveAnswers(cfg, s, a.r, a.fd, a.request, a.env, f);
      } else if a.Serve? && s.reactors[a.r].handling.Some? {
        ServeAnswers(cfg, s, a.r, a.env, f);
      } else if a.Deliver? && s.reactors[a.r].responses != [] {
        DeliverAnswers(s, a.r, f);
      }
    }
  }

  lemma ReceiveAnswers(cfg: Config, s: System, r: nat, fd: int, req: Request, env: Env, f: Fwd)
    requires cfg.n == |s.reactors| && r < cfg.n && f.source < cfg.n
    ensures AnsweredCount(OnReceive(cfg, s, r, fd, req, env), f) == AnsweredCount(s, f)
  {
    hide Owner, Key, DoAll, Tasks, C.Enqueue, Origins;
  }

  lemma ServeAnswers(cfg: Config, s: System, r: nat, env: Env, f: Fwd)
    requires cfg.n == |s.reactors| && r < cfg.n && s.reactors[r].handling.Some? && f.source < cfg.n
    ensures AnsweredCount(OnServe(cfg, s, r, env), f) ==
            AnsweredCount(s, f) + if s.reactors[r].handling.value == f then 1 else 0
  {
    hide DoAll, Tasks, Origins;
    var g, s' := s.reactors[r].handling.value, OnServe(cfg, s, r, env);
    if g.source == f.source {
      var rs := s.reactors[f.source].responses;
      var x := s'.reactors[f.source].responses[|rs|];
      assert s'.reactors[f.source].responses == rs + [x] && x.origin == g;
      OriginsSnoc(rs, x);
    }
  }

  lemma DeliverAnswers(s: System, r: nat, f: Fwd)
    requires r < |s.reactors| && s.reactors[r].responses != [] && f.source < |s.reactors| && Placed(s)
    ensures AnsweredCount(OnDeliver(s, r), f) == AnsweredCount(s, f)
  {
    hide Origins, C.Enqueue;
    var rs := s.reactors[r].responses;
    var o := rs[0].origin;
    assert rs[0] in rs;
    OriginsCons(rs);
    assert Origins(rs) == [o] + Origins(rs[1..]);
  }

  lemma {:induction false} AnsweredStays(cfg: Config, acts: seq<Act>, j: nat, n: nat, f: Fwd)
    requires ServedAt(cfg, acts, j, f) && f.source < cfg.n && j < n <= |acts|
    ensures AnsweredCount(Interleave(cfg, acts[..n]), f) > 0
    decreases n
  {
    hide Perform, AnsweredCount, Numbered, InLanes, Placed;
    assert acts[..n][..n - 1] == acts[..n - 1];
    RunKeepsFlow(cfg, acts[..n - 1]);
    StepKeepsAnswered(cfg, Interleave(cfg, acts[..n - 1]), acts[n - 1], f);
    if j < n - 1 {
      AnsweredStays(cfg, acts, j, n - 1, f);
    }
  }

  /** What a reactor is handling was forwarded to it. */
  lemma HandledWasForwarded(cfg: Config, acts: seq<Act>, r: nat) returns (i: nat)
    requires r < cfg.n && Interleave(cfg, acts).reactors[r].handling.Some?
    ensures var s := Interleave(cfg, acts);
            i < |s.forwarded| && s.forwarded[i] == s.reactors[r].handling.value && s.forwarded[i].target == r && s.forwarded[i].source < cfg.n
  {
    hide Interleave, Sel, Origins, Numbered, InLanes;
    RunKeepsFlow(cfg, acts);
    var s := Interleave(cfg, acts);
    var f := s.reactors[r].handling.value;
    LanesAreFifo(cfg, acts, f.source, r);
    SelOne(f, f.source, r);
    assert f in Sel(s.forwarded, f.source, r) by {
      assert f in Sel(Held(s.reactors[r].handling), f.source, r);
    }
    SelCount(s.forwarded, f);
    assert f in s.forwarded by { CountedIsThere(s.forwarded, Sel(s.forwarded, f.source, r), f); }
    i :| 0 <= i < |s.forwarded| && s.forwarded[i] == f;
  }

  lemma CountedIsThere(fs: seq<Fwd>, sel: seq<Fwd>, f: Fwd)
    requires f in sel && multiset(sel)[f] == multiset(fs)[f]
    ensures f in fs
  {
    assert f in multiset(sel);
    assert f in multiset(fs);
  }

  /** No forwarded request is served twice, so its answer is one. */
  lemma ServedOnce(cfg: Config, acts: seq<Act>, i: nat, j: nat, f: Fwd)
    requires ServedAt(cfg, acts, i, f) && ServedAt(cfg, acts, j, f)
    ensures i == j
  {
    hide Interleave, Origins, Held, AnsweredCount;
    if i < j {
      NotTwice(cfg, acts, i, j, f);
    } else if j < i {
      NotTwice(cfg, acts, j, i, f);
    }
  }

  lemma NotTwice(cfg: Config, acts: seq<Act>, i: nat, j: nat, f: Fwd)
    requires ServedAt(cfg, acts, i, f) && i < j < |acts|
    ensures !ServedAt(cfg, acts, j, f)
  {
    hide Interleave, Origins;
    var s := Interleave(cfg, acts[..j]);
    if s.reactors[f.target].handling == Some(f) {
      var k := HandledWasForwarded(cfg, acts[..j], f.target);
      ForwardedCountedOnce(cfg, acts[..j], k);
      assert multiset(Held(s.reactors[f.target].handling))[f] == 1;
      AnsweredStays(cfg, acts, i, j, f);
    }
  }

  /** Step `k` takes the response to `f` off the queue of its source and appends it, as the answer that an earlier step gave,
      to the story of the connection behind its descriptor. */
  ghost predicate AppendsAt(cfg: Config, acts: seq<Act>, k: nat, f: Fwd)
  {
    && k < |acts| && f.source < cfg.n && acts[k] == Deliver(f.source)
    && var before := Story(cfg, acts[..k], f.source, f.clientFd);
       && before.Some?
       && exists j :: 0 <= j < k && ServedAt(cfg, acts, j, f)
                      && Story(cfg, acts[..k + 1], f.source, f.clientFd) == Some(before.value + [Delivered(f, AnswerAt(cfg, acts, j, f))])
  }

  /** Step `k` takes the response to `f` off the queue of its source and finds no connection behind its descriptor. */
  ghost predicate DropsAt(cfg: Config, acts: seq<Act>, k: nat, f: Fwd)
  {
    && k < |acts| && f.source < cfg.n && acts[k] == Deliver(f.source)
    && DeliveredBy(Interleave(cfg, acts[..k]), acts[k]) == Some(f)
    && Story(cfg, acts[..k], f.source, f.clientFd).None?
  }

  lemma {:induction false} EndedAt(cfg: Config, acts: seq<Act>, open: bool, f: Fwd)
    ensures f in Ended(cfg, acts, open) <==>
            exists k :: 0 <= k < |acts| && DeliveredBy(Interleave(cfg, acts[..k]), acts[k]) == Some(f)
                        && IsOpen(Interleave(cfg, acts[..k]), acts[k].r, f.clientFd) == open
    decreases |acts|
  {
    hide Interleave, DeliveredBy, IsOpen;
    if acts != [] {
      var n := |acts| - 1;
      EndedAt(cfg, acts[..n], open, f);
      assert forall k :: 0 <= k < n ==> acts[..n][..k] == acts[..k] && acts[..n][k] == acts[k];
    }
  }

  lemma DeliveredFrom(cfg: Config, acts: seq<Act>, k: nat)
    requires k < |acts| && DeliveredBy(Interleave(cfg, acts[..k]), acts[k]).Some?
    ensures var f := DeliveredBy(Interleave(cfg, acts[..k]), acts[k]).value;
            acts[k] == Deliver(f.source) && f.source < cfg.n
  {
    hide Interleave;
    RunKeepsFlow(cfg, acts[..k]);
    var rs := Interleave(cfg, acts[..k]).reactors[acts[k].r].responses;
    assert rs[0] in rs;
  }

  lemma StoryNext(cfg: Config, acts: seq<Act>, k: nat, r: nat, fd: int)
    requires k < |acts| && r < cfg.n
    ensures Story(cfg, acts[..k + 1], r, fd) == StoryStep(cfg, Interleave(cfg, acts[..k]), acts[k], r, fd, Story(cfg, acts[..k], r, fd))
  {
    hide Interleave, StoryStep;
    assert acts[..k + 1][..k] == acts[..k];
  }

  lemma DeliverAppends(cfg: Config, s: System, es: seq<Event>, f: Fwd, data: bytes)
    requires cfg.n == |s.reactors| && f.source < cfg.n
    ensures StoryStep(cfg, s, Deliver(f.source), f.source, f.clientFd, Some(es)) == Some(es + [Delivered(f, data)])
       <==> s.reactors[f.source].responses != [] && s.reactors[f.source].responses[0] == Rsp(f, data)
  {
    var rs, next := s.reactors[f.source].responses, StoryStep(cfg, s, Deliver(f.source), f.source, f.clientFd, Some(es));
    if rs != [] && rs[0].origin.clientFd == f.clientFd {
      assert next.value[|es|] == Delivered(rs[0].origin, rs[0].data);
      assert (es + [Delivered(f, data)])[|es|] == Delivered(f, data);
    } else {
      assert |next.value| == |es|;
    }
  }

  lemma AppendsExactly(cfg: Config, acts: seq<Act>, k: nat, f: Fwd)
    requires k < |acts|
    ensures AppendsAt(cfg, acts, k, f) <==>
            DeliveredBy(Interleave(cfg, acts[..k]), acts[k]) == Some(f) && IsOpen(Interleave(cfg, acts[..k]), acts[k].r, f.clientFd)
    ensures DropsAt(cfg, acts, k, f) <==>
            DeliveredBy(Interleave(cfg, acts[..k]), acts[k]) == Some(f) && !IsOpen(Interleave(cfg, acts[..k]), acts[k].r, f.clientFd)
  {
    hide Interleave, Story, StoryStep, ReplyTo;
    var s := Interleave(cfg, acts[..k]);
    if DeliveredBy(s, acts[k]).Some? {
      DeliveredFrom(cfg, acts, k);
    }
    if f.source < cfg.n && acts[k] == Deliver(f.source) {
      StoryTells(cfg, acts[..k], f.source, f.clientFd);
      StoryNext(cfg, acts, k, f.source, f.clientFd);
      if Story(cfg, acts[..k], f.source, f.clientFd).Some? {
        var es := Story(cfg, acts[..k], f.source, f.clientFd).value;
        forall data ensures StoryStep(cfg, s, Deliver(f.source), f.source, f.clientFd, Some(es)) == Some(es + [Delivered(f, data)])
                       <==> s.reactors[f.source].responses != [] && s.reactors[f.source].responses[0] == Rsp(f, data) {
          DeliverAppends(cfg, s, es, f, data);
        }
        if DeliveredBy(s, acts[k]) == Some(f) {
          AnsweredBefore(cfg, acts, k, f);
        }
      }
    }
  }

  lemma AnsweredBefore(cfg: Config, acts: seq<Act>, k: nat, f: Fwd)
    requires k < |acts| && f.source < cfg.n && Interleave(cfg, acts[..k]).reactors[f.source].responses != []
    requires Interleave(cfg, acts[..k]).reactors[f.source].responses[0].origin == f
    ensures exists j :: 0 <= j < k && ServedAt(cfg, acts, j, f)
                        && Interleave(cfg, acts[..k]).reactors[f.source].responses[0].data == AnswerAt(cfg, acts, j, f)
  {
    hide Interleave, ReplyTo;
    var rs := Interleave(cfg, acts[..k]).reactors[f.source].responses;
    assert rs[0] in rs;
    WaitingResponsesAreAnswers(cfg, acts[..k], f.source, rs[0]);
    var j: nat :| ServedAt(cfg, acts[..k], j, f) && rs[0].data == AnswerAt(cfg, acts[..k], j, f);
    assert acts[..k][..j] == acts[..j] && acts[..k][j] == acts[j];
    assert ServedAt(cfg, acts, j, f) && rs[0].data == AnswerAt(cfg, acts, j, f);
  }

  /** A request counts as ended in an open connection exactly when some step appended its response to the story of the
      connection behind its descriptor, and as dropped exactly when some step found none open. */
  lemma EndsAreReal(cfg: Config, acts: seq<Act>, f: Fwd)
    ensures f in Ended(cfg, acts, true) <==> exists k: nat :: AppendsAt(cfg, acts, k, f)
    ensures f in Ended(cfg, acts, false) <==> exists k: nat :: DropsAt(cfg, acts, k, f)
  {
    hide Interleave, Story, Ended, DeliveredBy, IsOpen, AppendsAt, DropsAt;
    EndedAt(cfg, acts, true, f);
    EndedAt(cfg, acts, false, f);
    forall k: nat | k < |acts|
      ensures AppendsAt(cfg, acts, k, f) <==>
              DeliveredBy(Interleave(cfg, acts[..k]), acts[k]) == Some(f) && IsOpen(Interleave(cfg, acts[..k]), acts[k].r, f.clientFd)
      ensures DropsAt(cfg, acts, k, f) <==>
              DeliveredBy(Interleave(cfg, acts[..k]), acts[k]) == Some(f) && !IsOpen(Interleave(cfg, acts[..k]), acts[k].r, f.clientFd)
    {
      AppendsExactly(cfg, acts, k, f);
    }
    InRange(cfg, acts, f);
  }

  lemma InRange(cfg: Config, acts: seq<Act>, f: Fwd)
    ensures forall k: nat :: AppendsAt(cfg, acts, k, f) || DropsAt(cfg, acts, k, f) ==> k < |acts|
  {
  }
}
