/** Every partition has one owner in every interleaving, so its offsets have no gaps. */
module ShardOwnership {
  import opened Bytes
  import opened Text
  import opened Protocol
  import opened RecordBatch
  import opened PartitionLog
  import opened Shard
  import C = Connection

  /** The records accepted so far for one partition. */
  function Total(accepted: seq<Accepted>, topic: bytes, partition: int32): int
  {
    if accepted == [] then 0
    else
      var last := accepted[|accepted| - 1];
      Total(accepted[..|accepted| - 1], topic, partition)
      + (if last.topic == topic && last.partition == partition then last.count else 0)
  }

  /** Each base offset is the sum of the counts accepted before it for the same partition. */
  ghost predicate RunningSums(accepted: seq<Accepted>)
  {
    forall i :: 0 <= i < |accepted| ==> accepted[i].base == Total(accepted[..i], accepted[i].topic, accepted[i].partition)
  }

  /** The contexts of reactor `r`: only partitions it owns, each at the offset its history gives. */
  ghost predicate Consistent(cfg: Config, r: nat, contexts: map<bytes, Log>, accepted: seq<Accepted>)
    requires cfg.n > 0
  {
    && (forall t: bytes, p: int32 :: ContextKey(t, p) in contexts ==> Owner(cfg, t, p) == r)
    && (forall t: bytes, p: int32 :: Owner(cfg, t, p) == r ==> Context(cfg, contexts, t, p).nextOffset == Total(accepted, t, p))
  }

  /** `more` extends `accepted` by batches of partitions that `r` owns. */
  ghost predicate GrewBy(cfg: Config, r: nat, accepted: seq<Accepted>, more: seq<Accepted>)
    requires cfg.n > 0
  {
    accepted <= more && forall i :: |accepted| <= i < |more| ==> Owner(cfg, more[i].topic, more[i].partition) == r
  }

  // ---- one task ----

  lemma ProduceAdvances(log: Log, blob: bytes, env: Env)
    ensures var (log', base) := Produce(log, blob, env);
            if base.Some? then base.value == log.nextOffset && log'.nextOffset == log.nextOffset + RecordCount(blob)
            else log'.nextOffset == log.nextOffset
  {
    hide BatchCount;
  }

  lemma FetchAdvancesNothing(log: Log, offset: int, maxBytes: int)
    ensures Fetch(log, offset, maxBytes).0.nextOffset == log.nextOffset
  {
    hide Cut, Lookup;
  }

  lemma TotalSnoc(accepted: seq<Accepted>, a: Accepted, t: bytes, p: int32)
    ensures Total(accepted + [a], t, p) == Total(accepted, t, p) + (if a.topic == t && a.partition == p then a.count else 0)
  {
    assert (accepted + [a])[..|accepted|] == accepted;
  }

  lemma RunningSumsSnoc(accepted: seq<Accepted>, a: Accepted)
    requires RunningSums(accepted) && a.base == Total(accepted, a.topic, a.partition)
    ensures RunningSums(accepted + [a])
  {
    hide Total;
    var more := accepted + [a];
    forall i | 0 <= i < |more|
      ensures more[i].base == Total(more[..i], more[i].topic, more[i].partition)
    {
      assert more[..i] == accepted[..i];
      assert i == |accepted| ==> accepted[..i] == accepted;
    }
  }

  ghost predicate SameElsewhere(accepted: seq<Accepted>, accepted': seq<Accepted>, topic: bytes, partition: int32)
  {
    forall t: bytes, p: int32 :: t != topic || p != partition ==> Total(accepted', t, p) == Total(accepted, t, p)
  }

  /** Replacing the context of one owned partition. */
  lemma ContextUpdate(cfg: Config, r: nat, contexts: map<bytes, Log>, accepted: seq<Accepted>, accepted': seq<Accepted>,
                      topic: bytes, partition: int32, log: Log)
    requires cfg.n > 0 && Consistent(cfg, r, contexts, accepted) && Owner(cfg, topic, partition) == r
    requires log.nextOffset == Total(accepted', topic, partition)
    requires SameElsewhere(accepted, accepted', topic, partition)
    ensures Consistent(cfg, r, contexts[ContextKey(topic, partition) := log], accepted')
  {
    hide Owner, Total, ContextKey;
    var contexts' := contexts[ContextKey(topic, partition) := log];
    forall t: bytes, p: int32
      ensures ContextKey(t, p) == ContextKey(topic, partition) ==> t == topic && p == partition
    {
      if ContextKey(t, p) == ContextKey(topic, partition) {
        ContextKeyInjective(t, p, topic, partition);
      }
    }
    forall t: bytes, p: int32 | Owner(cfg, t, p) == r
      ensures Context(cfg, contexts', t, p).nextOffset == Total(accepted', t, p)
    {
      assert Context(cfg, contexts, t, p).nextOffset == Total(accepted, t, p);
    }
  }

  /** The bookkeeping of a work list, apart from the replies. */
  ghost predicate Sound(cfg: Config, r: nat, w: Work)
    requires cfg.n > 0
  {
    Consistent(cfg, r, w.contexts, w.accepted) && RunningSums(w.accepted)
  }

  lemma ProduceKeeps(cfg: Config, r: nat, w: Work, t: Task, env: Env)
    requires cfg.n > 0 && t.ProduceTask? && Owner(cfg, t.topic, t.partition) == r && Sound(cfg, r, w)
    ensures Sound(cfg, r, DoProduce(cfg, w, t, env)) && GrewBy(cfg, r, w.accepted, DoProduce(cfg, w, t, env).accepted)
  {
    hide Owner, Total, ContextKey, Produce, RecordCount, Consistent, RunningSums;
    if Known(cfg, t.topic, t.partition) && t.records != [] {
      var ctx := Context(cfg, w.contexts, t.topic, t.partition);
      var (log, base) := Produce(ctx, t.records, env);
      ProduceAdvances(ctx, t.records, env);
      OwnOffset(cfg, r, w, t.topic, t.partition);
      if base.Some? {
        var a := Accepted(t.topic, t.partition, base.value, RecordCount(t.records));
        RunningSumsSnoc(w.accepted, a);
        forall u: bytes, p: int32
          ensures Total(w.accepted + [a], u, p) == Total(w.accepted, u, p) + (if a.topic == u && a.partition == p then a.count else 0)
        {
          TotalSnoc(w.accepted, a, u, p);
        }
        ContextUpdate(cfg, r, w.contexts, w.accepted, w.accepted + [a], t.topic, t.partition, log);
      } else {
        ContextUpdate(cfg, r, w.contexts, w.accepted, w.accepted, t.topic, t.partition, log);
      }
    }
  }

  lemma OwnOffset(cfg: Config, r: nat, w: Work, topic: bytes, partition: int32)
    requires cfg.n > 0 && Sound(cfg, r, w) && Owner(cfg, topic, partition) == r
    ensures Context(cfg, w.contexts, topic, partition).nextOffset == Total(w.accepted, topic, partition)
  {
  }

  lemma ReadKeeps(cfg: Config, r: nat, w: Work, t: Task)
    requires cfg.n > 0 && !t.ProduceTask? && Owner(cfg, t.topic, t.partition) == r && Sound(cfg, r, w)
    ensures var w' := if t.FetchTask? then DoFetch(cfg, w, t) else DoList(cfg, w, t);
            Sound(cfg, r, w') && w'.accepted == w.accepted
  {
    hide Owner, Total, ContextKey, Fetch, Lookup, Consistent, RunningSums, Known;
    var ctx := Context(cfg, w.contexts, t.topic, t.partition);
    OwnOffset(cfg, r, w, t.topic, t.partition);
    ContextUpdate(cfg, r, w.contexts, w.accepted, w.accepted, t.topic, t.partition, ctx);
    if t.FetchTask? {
      FetchAdvancesNothing(ctx, t.offset, t.maxBytes);
      ContextUpdate(cfg, r, w.contexts, w.accepted, w.accepted, t.topic, t.partition, Fetch(ctx, t.offset, t.maxBytes).0);
    }
  }

  lemma UntouchedKeeps(cfg: Config, w: Work, t: Task, env: Env)
    requires !Touches(cfg, t)
    ensures Do(cfg, w, t, env).contexts == w.contexts && Do(cfg, w, t, env).accepted == w.accepted
  {
    hide Known;
  }

  lemma {:induction false} DoAllKeeps(cfg: Config, r: nat, w: Work, ts: seq<Task>, env: Env)
    requires cfg.n > 0 && Sound(cfg, r, w)
    requires forall t :: t in ts && Touches(cfg, t) ==> Owner(cfg, t.topic, t.partition) == r
    ensures Sound(cfg, r, DoAll(cfg, w, ts, env)) && GrewBy(cfg, r, w.accepted, DoAll(cfg, w, ts, env).accepted)
    decreases |ts|
  {
    hide Owner, Consistent, RunningSums, Touches, DoProduce, DoFetch, DoList;
    if ts != [] {
      var init, t := ts[..|ts| - 1], ts[|ts| - 1];
      DoAllKeeps(cfg, r, w, init, env);
      if !Touches(cfg, t) {
        UntouchedKeeps(cfg, DoAll(cfg, w, init, env), t, env);
      } else if t.ProduceTask? {
        ProduceKeeps(cfg, r, DoAll(cfg, w, init, env), t, env);
      } else {
        ReadKeeps(cfg, r, DoAll(cfg, w, init, env), t);
      }
    }
  }

  // ---- the whole system ----

  ghost predicate Owns(cfg: Config, s: System)
    requires cfg.n == |s.reactors| > 0
  {
    && RunningSums(s.accepted)
    && forall r :: 0 <= r < cfg.n ==>
         && Consistent(cfg, r, s.reactors[r].contexts, s.accepted)
         && (forall f :: f in s.reactors[r].requests ==> OwnsTouched(cfg, r, f.request))
         && (s.reactors[r].handling.Some? ==> OwnsTouched(cfg, r, s.reactors[r].handling.value.request))
  }

  lemma {:induction false} OthersTotal(cfg: Config, r: nat, accepted: seq<Accepted>, more: seq<Accepted>, t: bytes, p: int32)
    requires cfg.n > 0 && GrewBy(cfg, r, accepted, more) && Owner(cfg, t, p) != r
    ensures Total(more, t, p) == Total(accepted, t, p)
    decreases |more|
  {
    hide Owner;
    if |more| == |accepted| {
      assert more == accepted;
    } else {
      var init := more[..|more| - 1];
      assert GrewBy(cfg, r, accepted, init);
      OthersTotal(cfg, r, accepted, init, t, p);
    }
  }

  lemma OthersConsistent(cfg: Config, r: nat, other: nat, contexts: map<bytes, Log>, accepted: seq<Accepted>, more: seq<Accepted>)
    requires cfg.n > 0 && GrewBy(cfg, r, accepted, more) && other != r && Consistent(cfg, other, contexts, accepted)
    ensures Consistent(cfg, other, contexts, more)
  {
    hide Owner, Total, ContextKey, GrewBy;
    forall t: bytes, p: int32 | Owner(cfg, t, p) == other
      ensures Context(cfg, contexts, t, p).nextOffset == Total(more, t, p)
    {
      OthersTotal(cfg, r, accepted, more, t, p);
    }
  }

  /** Reactor `r` handled a request that belongs to it. */
  lemma HandledKeeps(cfg: Config, s: System, r: nat, req: Request, env: Env)
    requires cfg.n == |s.reactors| && r < cfg.n && Owns(cfg, s) && OwnsTouched(cfg, r, req)
    ensures var w := DoAll(cfg, Work(s.reactors[r].contexts, s.accepted, []), Tasks(cfg, req), env);
            && RunningSums(w.accepted) && Consistent(cfg, r, w.contexts, w.accepted)
            && forall q :: 0 <= q < cfg.n && q != r ==> Consistent(cfg, q, s.reactors[q].contexts, w.accepted)
  {
    hide Owner, RunningSums, Consistent, DoAll, GrewBy, Tasks;
    var w0 := Work(s.reactors[r].contexts, s.accepted, []);
    var w := DoAll(cfg, w0, Tasks(cfg, req), env);
    DoAllKeeps(cfg, r, w0, Tasks(cfg, req), env);
    forall q | 0 <= q < cfg.n && q != r
      ensures Consistent(cfg, q, s.reactors[q].contexts, w.accepted)
    {
      OthersConsistent(cfg, r, q, s.reactors[q].contexts, s.accepted, w.accepted);
    }
  }

  lemma ReceiveKeeps(cfg: Config, s: System, r: nat, fd: int, req: Request, env: Env)
    requires cfg.n == |s.reactors| && r < cfg.n && Owns(cfg, s) && WellRouted(cfg, r, req)
    ensures Owns(cfg, OnReceive(cfg, s, r, fd, req, env))
  {
    hide Owner, RunningSums, Consistent, DoAll, Tasks, Touches, Key, OwnsTouched, C.Enqueue;
    if Server(cfg, r, req) == r {
      HandledKeeps(cfg, s, r, req, env);
    }
  }

  lemma ServeKeeps(cfg: Config, s: System, r: nat, env: Env)
    requires cfg.n == |s.reactors| && r < cfg.n && Owns(cfg, s) && s.reactors[r].handling.Some?
    ensures Owns(cfg, OnServe(cfg, s, r, env))
  {
    hide Owner, RunningSums, Consistent, DoAll, Tasks;
    HandledKeeps(cfg, s, r, s.reactors[r].handling.value.request, env);
  }

  lemma StepKeepsOwnership(cfg: Config, s: System, a: Act)
    requires cfg.n == |s.reactors| > 0 && Owns(cfg, s) && (a.Receive? && a.r < cfg.n ==> WellRouted(cfg, a.r, a.request))
    ensures Owns(cfg, Perform(cfg, s, a))
  {
    hide OwnsTouched, RunningSums, Consistent, OnReceive, OnServe, C.Enqueue, C.Sent, WellRouted;
    if a.r < cfg.n {
      match a {
        case Receive(r, fd, req, env) => ReceiveKeeps(cfg, s, r, fd, req, env);
        case Serve(r, env) => if s.reactors[r].handling.Some? { ServeKeeps(cfg, s, r, env); }
        case _ =>
      }
    }
  }

  ghost predicate AllWellRouted(cfg: Config, acts: seq<Act>)
  {
    forall a :: a in acts && a.Receive? && a.r < cfg.n ==> WellRouted(cfg, a.r, a.request)
  }

  lemma {:induction false} RunKeepsOwnership(cfg: Config, acts: seq<Act>)
    requires cfg.n > 0 && AllWellRouted(cfg, acts)
    ensures Owns(cfg, Interleave(cfg, acts))
    decreases |acts|
  {
    hide Owns, Perform, WellRouted, Boot;
    if acts == [] {
      BootOwns(cfg);
    } else {
      RunKeepsOwnership(cfg, acts[..|acts| - 1]);
      StepKeepsOwnership(cfg, Interleave(cfg, acts[..|acts| - 1]), acts[|acts| - 1]);
    }
  }

  lemma BootOwns(cfg: Config)
    requires cfg.n > 0
    ensures Owns(cfg, Boot(cfg))
  {
    hide Owner, ContextKey;
  }

  /** In every interleaving of steps, a partition has a context only on the reactor it routes to; the base
      offsets given to its batches are the running sums of their record counts; and its owner's next offset
      is their total. */
  lemma SingleOwnerGapFree(cfg: Config, acts: seq<Act>, topic: bytes, partition: int32)
    requires cfg.n > 0 && AllWellRouted(cfg, acts)
    ensures var s := Interleave(cfg, acts);
            && (forall r :: 0 <= r < cfg.n && ContextKey(topic, partition) in s.reactors[r].contexts ==> r == Owner(cfg, topic, partition))
            && RunningSums(s.accepted)
            && Context(cfg, s.reactors[Owner(cfg, topic, partition)].contexts, topic, partition).nextOffset
               == Total(s.accepted, topic, partition)
  {
    hide Interleave, RunningSums, Total, ContextKey;
    RunKeepsOwnership(cfg, acts);
    var s := Interleave(cfg, acts);
    forall r | 0 <= r < cfg.n && ContextKey(topic, partition) in s.reactors[r].contexts
      ensures r == Owner(cfg, topic, partition)
    {
      assert Consistent(cfg, r, s.reactors[r].contexts, s.accepted);
    }
    assert Consistent(cfg, Owner(cfg, topic, partition), s.reactors[Owner(cfg, topic, partition)].contexts, s.accepted);
  }
}
