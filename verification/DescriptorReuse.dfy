/** Responses find their connection by descriptor alone.  A descriptor that is closed and accepted again while a request is
    away belongs to another client, who then gets the response. */
module DescriptorReuse {
  import opened Bytes
  import opened Protocol
  import opened PartitionLog
  import opened Shard
  import opened ShardDelivery
  import C = Connection

  /** The step that opened the connection now behind `fd`, which tells connections on one descriptor apart. */
  ghost function Born(cfg: Config, acts: seq<Act>, r: nat, fd: int): (b: Option<nat>)
    requires r < cfg.n
    ensures b.Some? ==> b.value < |acts|
    ensures b.Some? <==> fd in Interleave(cfg, acts).reactors[r].conns
  {
    if acts == [] || fd !in Interleave(cfg, acts).reactors[r].conns then None
    else
      var n := |acts| - 1;
      var before := Born(cfg, acts[..n], r, fd);
      if before.None? || acts[n] == Accept(r, fd) then Some(n) else before
  }

  /** The step closes the connection behind `fd` or puts another in its place. */
  ghost predicate Ends(cfg: Config, s: System, a: Act, r: nat, fd: int)
    requires cfg.n == |s.reactors| && r < cfg.n
  {
    || a == Accept(r, fd)
    || a == Close(r, fd)
    || (a.Receive? && a.r == r && a.fd == fd && Server(cfg, r, a.request) == r && |ReplyTo(cfg, s, r, a.request, a.env)| > cfg.maxWrite)
  }

  lemma StaysOpen(cfg: Config, s: System, a: Act, r: nat, fd: int, es: seq<Event>)
    requires cfg.n == |s.reactors| && r < cfg.n && Tells(Some(es), s.reactors[r].conns, fd)
    ensures Ends(cfg, s, a, r, fd) <==> a == Accept(r, fd) || fd !in Perform(cfg, s, a).reactors[r].conns
  {
    hide Perform, Server, ReplyTo, Ops, C.RunOut;
    StepTells(cfg, s, a, r, fd, Some(es));
  }

  lemma BornNext(cfg: Config, acts: seq<Act>, k: nat, r: nat, fd: int)
    requires r < cfg.n && k < |acts| && Born(cfg, acts[..k], r, fd).Some?
    ensures Born(cfg, acts[..k + 1], r, fd) ==
            if !Ends(cfg, Interleave(cfg, acts[..k]), acts[k], r, fd) then Born(cfg, acts[..k], r, fd)
            else if acts[k] == Accept(r, fd) then Some(k) else None
  {
    hide Perform, Ends, Story;
    StoryTells(cfg, acts[..k], r, fd);
    StaysOpen(cfg, Interleave(cfg, acts[..k]), acts[k], r, fd, Story(cfg, acts[..k], r, fd).value);
    assert acts[..k + 1][..k] == acts[..k];
    AcceptOpens(cfg, Interleave(cfg, acts[..k]), r, fd);
  }

  lemma AcceptOpens(cfg: Config, s: System, r: nat, fd: int)
    requires cfg.n == |s.reactors| && r < cfg.n
    ensures fd in Perform(cfg, s, Accept(r, fd)).reactors[r].conns
  {
  }

  /** Nothing between steps `i` and `j` ends the connection behind `fd`. */
  ghost predicate Undisturbed(cfg: Config, acts: seq<Act>, i: nat, j: nat, r: nat, fd: int)
    requires r < cfg.n && i <= j <= |acts|
  {
    forall k :: i <= k < j ==> !Ends(cfg, Interleave(cfg, acts[..k]), acts[k], r, fd)
  }

  /** The connection behind a descriptor is the same at two points of a run exactly when nothing in between ended it. */
  lemma {:induction false} SameConnectionExactly(cfg: Config, acts: seq<Act>, i: nat, j: nat, r: nat, fd: int)
    requires r < cfg.n && i <= j <= |acts| && Born(cfg, acts[..i], r, fd).Some?
    ensures Born(cfg, acts[..j], r, fd) == Born(cfg, acts[..i], r, fd) <==> Undisturbed(cfg, acts, i, j, r, fd)
    decreases j
  {
    hide Interleave, Ends, Born;
    if i < j {
      SameConnectionExactly(cfg, acts, i, j - 1, r, fd);
      if Born(cfg, acts[..j - 1], r, fd).Some? {
        BornNext(cfg, acts, j - 1, r, fd);
      } else {
        BornAgain(cfg, acts, j - 1, r, fd);
      }
    }
  }

  lemma BornAgain(cfg: Config, acts: seq<Act>, k: nat, r: nat, fd: int)
    requires r < cfg.n && k < |acts| && Born(cfg, acts[..k], r, fd).None?
    ensures Born(cfg, acts[..k + 1], r, fd) in {None, Some(k)}
  {
    hide Perform;
    assert acts[..k + 1][..k] == acts[..k];
  }

  /** Step `i` forwards `f`. */
  ghost predicate ForwardsAt(cfg: Config, acts: seq<Act>, i: nat, f: Fwd)
  {
    && i < |acts| && f.source < cfg.n && acts[i].Receive? && acts[i].r == f.source && acts[i].fd == f.clientFd
    && Interleave(cfg, acts[..i + 1]).forwarded == Interleave(cfg, acts[..i]).forwarded + [f]
  }

  lemma AskerIsOpen(cfg: Config, acts: seq<Act>, i: nat, f: Fwd)
    requires ForwardsAt(cfg, acts, i, f)
    ensures f.clientFd in Interleave(cfg, acts[..i + 1]).reactors[f.source].conns
  {
    hide Perform, Server, ReplyTo;
    var s, a := Interleave(cfg, acts[..i]), acts[i];
    assert acts[..i + 1][..i] == acts[..i];
    assert Interleave(cfg, acts[..i + 1]) == Perform(cfg, s, a);
    ForwardsElsewhere(cfg, s, a.r, a.fd, a.request, a.env);
  }

  lemma ForwardsElsewhere(cfg: Config, s: System, r: nat, fd: int, req: Request, env: Env)
    requires cfg.n == |s.reactors| && r < cfg.n
    ensures var s' := Perform(cfg, s, Receive(r, fd, req, env));
            && (Server(cfg, r, req) == r ==> s'.forwarded == s.forwarded)
            && (Server(cfg, r, req) != r ==> fd in s'.reactors[r].conns && s'.reactors[r].conns[fd] == ConnAt(s.reactors[r].conns, fd))
  {
    hide Owner, Key, DoAll, Tasks, C.Enqueue;
  }

  /** The response to a request forwarded at step `i` and appended at step `j` goes to the connection that asked for it
      exactly when that was neither closed nor replaced in between. */
  lemma ReachesItsAskerExactly(cfg: Config, acts: seq<Act>, i: nat, j: nat, f: Fwd)
    requires ForwardsAt(cfg, acts, i, f) && AppendsAt(cfg, acts, j, f) && i < j
    ensures Born(cfg, acts[..j], f.source, f.clientFd) == Born(cfg, acts[..i + 1], f.source, f.clientFd)
       <==> Undisturbed(cfg, acts, i + 1, j, f.source, f.clientFd)
  {
    hide Interleave, Story, Ends, Undisturbed;
    AskerIsOpen(cfg, acts, i, f);
    SameConnectionExactly(cfg, acts, i + 1, j, f.source, f.clientFd);
  }

  // ---- a run in which another client gets the response ----

  /** Accept, forward, serve elsewhere, close, accept again, deliver. */
  function Reuse(cfg: Config, r: nat, fd: int, req: Request, env: Env): seq<Act>
    requires r < cfg.n
  {
    var q := Server(cfg, r, req);
    [Accept(r, fd), Receive(r, fd, req, env), Take(q), Serve(q, env), Close(r, fd), Accept(r, fd), Deliver(r)]
  }

  lemma Next(cfg: Config, acts: seq<Act>, k: nat)
    requires k < |acts|
    ensures Interleave(cfg, acts[..k + 1]) == Perform(cfg, Interleave(cfg, acts[..k]), acts[k])
  {
    hide Perform;
    assert acts[..k + 1][..k] == acts[..k];
  }

  lemma AfterForward(cfg: Config, r: nat, fd: int, req: Request, env: Env)
    requires r < cfg.n && Server(cfg, r, req) != r
    ensures var q, s := Server(cfg, r, req), Interleave(cfg, Reuse(cfg, r, fd, req, env)[..2]);
            && s.reactors[q].requests == [Fwd(0, fd, r, q, req)] && s.reactors[q].handling.None?
            && s.reactors[r].responses == [] && s.forwarded == [Fwd(0, fd, r, q, req)]
  {
    hide Owner, Key, DoAll, Tasks, C.Enqueue;
    var acts := Reuse(cfg, r, fd, req, env);
    assert acts[..0] == [];
    Next(cfg, acts, 0);
    Next(cfg, acts, 1);
  }

  /** The answer the first client was to get. */
  lemma AfterServe(cfg: Config, r: nat, fd: int, req: Request, env: Env)
    requires r < cfg.n && Server(cfg, r, req) != r
    ensures var acts, f := Reuse(cfg, r, fd, req, env), Fwd(0, fd, r, Server(cfg, r, req), req);
            ServedAt(cfg, acts, 3, f) && Interleave(cfg, acts[..4]).reactors[r].responses == [Rsp(f, AnswerAt(cfg, acts, 3, f))]
  {
    hide Server, DoAll, Tasks, Interleave;
    var acts := Reuse(cfg, r, fd, req, env);
    AfterForward(cfg, r, fd, req, env);
    Next(cfg, acts, 2);
    Next(cfg, acts, 3);
  }

  /** The second client on the descriptor is handed the answer to the first one's request, and nothing else. */
  lemma AnotherClientGetsIt(cfg: Config, r: nat, fd: int, req: Request, env: Env)
    requires r < cfg.n && Server(cfg, r, req) != r
    ensures var acts, f := Reuse(cfg, r, fd, req, env), Fwd(0, fd, r, Server(cfg, r, req), req);
            && ServedAt(cfg, acts, 3, f) && Story(cfg, acts, r, fd) == Some([Delivered(f, AnswerAt(cfg, acts, 3, f))])
            && ForwardsAt(cfg, acts, 1, f) && AppendsAt(cfg, acts, 6, f)
            && Born(cfg, acts[..2], r, fd) == Some(0) && Born(cfg, acts[..6], r, fd) == Some(5)
  {
    hide Server, Interleave, Perform, Born, Ends, Story, StoryStep, ServedAt, AnswerAt, ForwardsAt;
    var acts, f := Reuse(cfg, r, fd, req, env), Fwd(0, fd, r, Server(cfg, r, req), req);
    assert acts[..7] == acts;
    AfterServe(cfg, r, fd, req, env);
    SecondClient(cfg, r, fd, req, env);
    StoryNext(cfg, acts, 6, r, fd);
    var data := AnswerAt(cfg, acts, 3, f);
    DeliverToSecond(cfg, Interleave(cfg, acts[..6]), r, fd, f, data);
    FirstClient(cfg, r, fd, req, env);
    assert [] + [Delivered(f, data)] == [Delivered(f, data)];
  }

  lemma DeliverToSecond(cfg: Config, s: System, r: nat, fd: int, f: Fwd, data: bytes)
    requires cfg.n == |s.reactors| && r < cfg.n && s.reactors[r].responses == [Rsp(f, data)] && f.clientFd == fd
    ensures StoryStep(cfg, s, Deliver(r), r, fd, Some([])) == Some([Delivered(f, data)])
  {
    assert [] + [Delivered(f, data)] == [Delivered(f, data)];
  }

  lemma FirstClient(cfg: Config, r: nat, fd: int, req: Request, env: Env)
    requires r < cfg.n && Server(cfg, r, req) != r
    ensures var acts := Reuse(cfg, r, fd, req, env);
            Born(cfg, acts[..2], r, fd) == Some(0) && ForwardsAt(cfg, acts, 1, Fwd(0, fd, r, Server(cfg, r, req), req))
  {
    hide Server, Perform, Ends;
    var acts := Reuse(cfg, r, fd, req, env);
    assert acts[..0] == [] && acts[..1][..0] == [] && acts[..2][..1] == acts[..1];
    assert Interleave(cfg, []) == Boot(cfg);
    Next(cfg, acts, 0);
    Next(cfg, acts, 1);
    AcceptOpens(cfg, Boot(cfg), r, fd);
    AcceptForwardsNothing(cfg, Boot(cfg), r, fd);
    AfterForward(cfg, r, fd, req, env);
    ForwardsElsewhere(cfg, Interleave(cfg, acts[..1]), r, fd, req, env);
  }

  lemma AcceptForwardsNothing(cfg: Config, s: System, r: nat, fd: int)
    requires cfg.n == |s.reactors| && r < cfg.n
    ensures Perform(cfg, s, Accept(r, fd)).forwarded == s.forwarded
  {
  }

  lemma SecondClient(cfg: Config, r: nat, fd: int, req: Request, env: Env)
    requires r < cfg.n
    ensures var acts := Reuse(cfg, r, fd, req, env);
            && Born(cfg, acts[..6], r, fd) == Some(5) && Story(cfg, acts[..6], r, fd) == Some([])
            && Interleave(cfg, acts[..6]).reactors[r].responses == Interleave(cfg, acts[..4]).reactors[r].responses
  {
    hide Server, Ends, OnReceive, OnServe, OnDeliver;
    var acts := Reuse(cfg, r, fd, req, env);
    assert acts[..6][..5] == acts[..5];
    Next(cfg, acts, 4);
    Next(cfg, acts, 5);
  }
}
