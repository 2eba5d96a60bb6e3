/** What a request is answered with, in every interleaving: one reply a task, in order, with the offsets that the batches
    accepted so far give and the records of the partition's own log. */
module ShardAnswers {
  import opened Bytes
  import opened Text
  import opened Protocol
  import opened RecordBatch
  import opened Storage
  import opened PartitionLog
  import opened Shard
  import opened ShardOwnership
  import opened OwnershipExact
  import RolledFetch
  import C = Connection

  // ================ a context is the log of its own operations ================

  /** The range is large enough to be spliced instead of read. */
  predicate Spliced(log: Log, offset: int)
  {
    log.writeOpen && log.segBytes - Lookup(log, if offset > 0 then offset else 0).0 >= 65536
  }

  /** What a task does to the log of its partition. */
  function TaskOps(cfg: Config, log: Log, t: Task, env: Env): seq<Op>
  {
    match t
    case ProduceTask(topic, partition, records) => if Known(cfg, topic, partition) && records != [] then [ProduceOp(records, env)] else []
    case FetchTask(_, _, offset, maxBytes) =>
      if !Spliced(log, offset) && (offset > 0 || maxBytes > 0) then [FetchOp(offset, maxBytes)] else []
    case ListTask(_, _, _) => []
  }

  /** The operations on one partition after those in `ops` and the tasks `ts`. */
  function OpsAfter(cfg: Config, ops: seq<Op>, ts: seq<Task>, env: Env, topic: bytes, partition: int32): seq<Op>
  {
    if ts == [] then ops
    else
      var before, t := OpsAfter(cfg, ops, ts[..|ts| - 1], env, topic, partition), ts[|ts| - 1];
      if t.topic == topic && t.partition == partition then before + TaskOps(cfg, Run(cfg.limit, before).0, t, env) else before
  }

  function EnvOf(a: Act): Env { if a.Receive? || a.Serve? then a.env else Env(true, true) }

  /** The operations on one partition that reactor `q` carried out in a run. */
  ghost function PartitionOps(cfg: Config, acts: seq<Act>, q: nat, topic: bytes, partition: int32): seq<Op>
  {
    if acts == [] then []
    else
      var init, a := acts[..|acts| - 1], acts[|acts| - 1];
      var ops, visits := PartitionOps(cfg, init, q, topic, partition), HandledBy(cfg, Interleave(cfg, init), a);
      if visits != [] && visits[0].0 == q then OpsAfter(cfg, ops, Tasks(cfg, visits[0].1), EnvOf(a), topic, partition) else ops
  }

  ghost predicate IsRun(cfg: Config, contexts: map<bytes, Log>, topic: bytes, partition: int32, ops: seq<Op>)
  {
    Context(cfg, contexts, topic, partition) == Run(cfg.limit, ops).0
  }

  lemma DoRuns(cfg: Config, w: Work, t: Task, env: Env, topic: bytes, partition: int32, ops: seq<Op>)
    requires IsRun(cfg, w.contexts, topic, partition, ops)
    ensures IsRun(cfg, Do(cfg, w, t, env).contexts, topic, partition, OpsAfter(cfg, ops, [t], env, topic, partition))
  {
    hide Run, Produce, Fetch, Lookup, Known, ContextKey, FetchAll, RecordCount;
    assert [t][..0] == [] && OpsAfter(cfg, ops, [], env, topic, partition) == ops;
    assert ops + [] == ops;
    if ContextKey(t.topic, t.partition) == ContextKey(topic, partition) {
      ContextKeyInjective(t.topic, t.partition, topic, partition);
    }
    var more := TaskOps(cfg, Run(cfg.limit, ops).0, t, env);
    if more != [] {
      RolledFetch.RunSnoc(cfg.limit, ops, more[0]);
    }
  }

  lemma OpsAfterSnoc(cfg: Config, ops: seq<Op>, ts: seq<Task>, t: Task, env: Env, topic: bytes, partition: int32)
    ensures OpsAfter(cfg, ops, ts + [t], env, topic, partition) ==
            OpsAfter(cfg, OpsAfter(cfg, ops, ts, env, topic, partition), [t], env, topic, partition)
  {
    hide TaskOps;
    assert (ts + [t])[..|ts|] == ts && [t][..0] == [];
    var before := OpsAfter(cfg, ops, ts, env, topic, partition);
    assert OpsAfter(cfg, before, [], env, topic, partition) == before;
  }

  lemma {:induction false} DoAllRuns(cfg: Config, w: Work, ts: seq<Task>, env: Env, topic: bytes, partition: int32, ops: seq<Op>)
    requires IsRun(cfg, w.contexts, topic, partition, ops)
    ensures IsRun(cfg, DoAll(cfg, w, ts, env).contexts, topic, partition, OpsAfter(cfg, ops, ts, env, topic, partition))
    decreases |ts|
  {
    hide Do, IsRun;
    if ts != [] {
      var init, t := ts[..|ts| - 1], ts[|ts| - 1];
      assert ts == init + [t];
      DoAllRuns(cfg, w, init, env, topic, partition, ops);
      OpsAfterSnoc(cfg, ops, init, t, env, topic, partition);
      DoRuns(cfg, DoAll(cfg, w, init, env), t, env, topic, partition, OpsAfter(cfg, ops, init, env, topic, partition));
    }
  }

  /** A step leaves the contexts of a reactor alone unless it handles a request there. */
  lemma StepContexts(cfg: Config, s: System, a: Act, q: nat)
    requires cfg.n == |s.reactors| && q < cfg.n
    ensures var visits := HandledBy(cfg, s, a);
            Perform(cfg, s, a).reactors[q].contexts ==
            if visits != [] && visits[0].0 == q
            then DoAll(cfg, Work(s.reactors[q].contexts, s.accepted, []), Tasks(cfg, visits[0].1), EnvOf(a)).contexts
            else s.reactors[q].contexts
  {
    hide Owner, Key, DoAll, Tasks, C.Enqueue, C.Sent, C.Taken;
  }

  /** In every interleaving, the context of a partition on a reactor is the log after the operations that reactor carried out
      on it: everything proved of runs of one log holds of every context of the system. */
  lemma {:induction false} ContextIsItsRun(cfg: Config, acts: seq<Act>, q: nat, topic: bytes, partition: int32)
    requires q < cfg.n
    ensures Context(cfg, Interleave(cfg, acts).reactors[q].contexts, topic, partition)
            == Run(cfg.limit, PartitionOps(cfg, acts, q, topic, partition)).0
    decreases |acts|
  {
    hide Perform, HandledBy, DoAll, Tasks, OpsAfter, ContextKey;
    if acts != [] {
      var init, a := acts[..|acts| - 1], acts[|acts| - 1];
      var s, ops := Interleave(cfg, init), PartitionOps(cfg, init, q, topic, partition);
      ContextIsItsRun(cfg, init, q, topic, partition);
      StepContexts(cfg, s, a, q);
      var visits := HandledBy(cfg, s, a);
      if visits != [] && visits[0].0 == q {
        DoAllRuns(cfg, Work(s.reactors[q].contexts, s.accepted, []), Tasks(cfg, visits[0].1), EnvOf(a), topic, partition, ops);
      }
    }
  }

  // ================ one reply a task ================

  lemma DoReplies(cfg: Config, w: Work, t: Task, env: Env)
    ensures var rs := Do(cfg, w, t, env).replies;
            |rs| == |w.replies| + 1 && w.replies <= rs && rs[|w.replies|].topic == t.topic && rs[|w.replies|].partition == t.partition
  {
    hide Produce, Fetch, Lookup, Known, ContextKey, FetchAll, RecordCount;
  }

  /** The reply to task `i` of a list, as that task leaves it. */
  ghost function ReplyAt(cfg: Config, w: Work, ts: seq<Task>, env: Env, i: nat): PartReply
    requires i < |ts|
  {
    DoReplies(cfg, DoAll(cfg, w, ts[..i], env), ts[i], env);
    var rs := Do(cfg, DoAll(cfg, w, ts[..i], env), ts[i], env).replies;
    rs[|rs| - 1]
  }

  lemma {:induction false} DoAllReplies(cfg: Config, w: Work, ts: seq<Task>, env: Env)
    ensures var rs := DoAll(cfg, w, ts, env).replies;
            |rs| == |w.replies| + |ts| && w.replies <= rs && forall i :: 0 <= i < |ts| ==> rs[|w.replies| + i] == ReplyAt(cfg, w, ts, env, i)
    decreases |ts|
  {
    hide Do;
    if ts != [] {
      var n := |ts| - 1;
      DoAllReplies(cfg, w, ts[..n], env);
      DoReplies(cfg, DoAll(cfg, w, ts[..n], env), ts[n], env);
      forall i | 0 <= i < n
        ensures ReplyAt(cfg, w, ts, env, i) == ReplyAt(cfg, w, ts[..n], env, i)
      {
        assert ts[..n][..i] == ts[..i];
      }
    }
  }

  // ================ what it says ================

  /** The reply to a task on a log, where `next` is the offset of the next record of its partition. */
  ghost predicate RightReply(cfg: Config, log: Log, next: int, t: Task, env: Env, p: PartReply)
  {
    && p.topic == t.topic && p.partition == t.partition
    && match t
       case ProduceTask(topic, partition, records) =>
         && p.records == Data([])
         && (p.errorCode, p.offset) ==
            (if !Known(cfg, topic, partition) then (3, -1)
             else if records == [] then (0, 0)
             else if Produce(log, records, env).1.None? then (56, -1)
             else (if next < 0 then 56 else 0, next))
       case ListTask(topic, partition, timestamp) =>
         && p.records == Data([])
         && (p.errorCode, p.offset) ==
            (if !Known(cfg, topic, partition) then (3, -1)
             else if timestamp == -2 then (0, 0)
             else if timestamp == -1 then (0, next)
             else (-1, -1))
       case FetchTask(_, _, offset, maxBytes) =>
         && (p.errorCode, p.offset) == (0, 0)
         && p.records ==
            if Spliced(log, offset) then Data([])
            else if offset > 0 || maxBytes > 0 then Fetch(log, offset, maxBytes).1
            else Data(FetchAll(log))
  }

  lemma DoIsRight(cfg: Config, w: Work, t: Task, env: Env)
    ensures var log, rs := Context(cfg, w.contexts, t.topic, t.partition), Do(cfg, w, t, env).replies;
            |rs| == |w.replies| + 1 && RightReply(cfg, log, log.nextOffset, t, env, rs[|w.replies|])
  {
    hide Fetch, Lookup, Known, ContextKey, FetchAll, RecordCount, BatchCount;
  }

  /** What task `t` adds to the accepted batches: one with the next offset of its partition, if it is a produce that the log
      accepts. */
  ghost predicate RightGrowth(cfg: Config, log: Log, next: int, t: Task, env: Env, before: seq<Accepted>, after: seq<Accepted>)
  {
    if t.ProduceTask? && Known(cfg, t.topic, t.partition) && t.records != [] && Produce(log, t.records, env).1.Some?
    then BatchCount(t.records).Some? && after == before + [Accepted(t.topic, t.partition, next, BatchCount(t.records).value)]
    else after == before
  }

  lemma DoGrows(cfg: Config, w: Work, t: Task, env: Env)
    ensures var log := Context(cfg, w.contexts, t.topic, t.partition);
            RightGrowth(cfg, log, log.nextOffset, t, env, w.accepted, Do(cfg, w, t, env).accepted)
  {
    hide Fetch, Lookup, Known, ContextKey, FetchAll, BatchCount;
  }

  /** The replies a reactor gives to a request. */
  ghost function RepliesTo(cfg: Config, s: System, q: nat, req: Request, env: Env): seq<PartReply>
    requires q < |s.reactors|
  {
    DoAll(cfg, Work(s.reactors[q].contexts, s.accepted, []), Tasks(cfg, req), env).replies
  }

  /** The batches accepted in the system when a reactor has done the first `i` tasks of a request. */
  ghost function AcceptedAfter(cfg: Config, s: System, q: nat, req: Request, env: Env, i: nat): seq<Accepted>
    requires q < |s.reactors| && i <= |Tasks(cfg, req)|
  {
    DoAll(cfg, Work(s.reactors[q].contexts, s.accepted, []), Tasks(cfg, req)[..i], env).accepted
  }

  /** The log task `i` of a request meets. */
  ghost function LogAt(cfg: Config, acts: seq<Act>, q: nat, req: Request, env: Env, i: nat): Log
    requires i < |Tasks(cfg, req)|
  {
    var ts := Tasks(cfg, req);
    Run(cfg.limit, OpsAfter(cfg, PartitionOps(cfg, acts, q, ts[i].topic, ts[i].partition), ts[..i], env, ts[i].topic, ts[i].partition)).0
  }

  lemma LogAtIsContext(cfg: Config, acts: seq<Act>, q: nat, req: Request, env: Env, i: nat)
    requires q < cfg.n && i < |Tasks(cfg, req)|
    ensures var s, ts := Interleave(cfg, acts), Tasks(cfg, req);
            LogAt(cfg, acts, q, req, env, i) ==
            Context(cfg, DoAll(cfg, Work(s.reactors[q].contexts, s.accepted, []), ts[..i], env).contexts, ts[i].topic, ts[i].partition)
  {
    hide Interleave, Tasks, DoAll, Run, PartitionOps, OpsAfter, Context;
    var s, ts := Interleave(cfg, acts), Tasks(cfg, req);
    ContextIsItsRun(cfg, acts, q, ts[i].topic, ts[i].partition);
    DoAllRuns(cfg, Work(s.reactors[q].contexts, s.accepted, []), ts[..i], env, ts[i].topic, ts[i].partition,
              PartitionOps(cfg, acts, q, ts[i].topic, ts[i].partition));
  }

  lemma WorkIsSound(cfg: Config, acts: seq<Act>, q: nat, req: Request, env: Env, i: nat)
    requires q < cfg.n && AllWellRouted(cfg, acts) && OwnsTouched(cfg, q, req) && i <= |Tasks(cfg, req)|
    ensures var s := Interleave(cfg, acts);
            Sound(cfg, q, DoAll(cfg, Work(s.reactors[q].contexts, s.accepted, []), Tasks(cfg, req)[..i], env))
  {
    hide Interleave, Tasks, DoAll, Consistent, RunningSums, Touches, Owner, AllWellRouted;
    RunKeepsOwnership(cfg, acts);
    var s, ts := Interleave(cfg, acts), Tasks(cfg, req);
    assert forall t :: t in ts[..i] ==> t in ts;
    DoAllKeeps(cfg, q, Work(s.reactors[q].contexts, s.accepted, []), ts[..i], env);
  }

  /** In every interleaving of well-routed requests, a reactor that owns what a request looks up answers it with one reply a
      task, in order.  Reply `i` is right for the log of that partition and its next offset, which for a task that looks its
      context up is the total of the batches accepted for that partition before it; and exactly the produces that the log
      accepts grow that total. */
  lemma AnswersAreRight(cfg: Config, acts: seq<Act>, q: nat, req: Request, env: Env, i: nat)
    requires q < cfg.n && AllWellRouted(cfg, acts) && OwnsTouched(cfg, q, req) && i < |Tasks(cfg, req)|
    ensures var s, t, log := Interleave(cfg, acts), Tasks(cfg, req)[i], LogAt(cfg, acts, q, req, env, i);
            var before, after := AcceptedAfter(cfg, s, q, req, env, i), AcceptedAfter(cfg, s, q, req, env, i + 1);
            && |RepliesTo(cfg, s, q, req, env)| == |Tasks(cfg, req)|
            && RightReply(cfg, log, log.nextOffset, t, env, RepliesTo(cfg, s, q, req, env)[i])
            && RightGrowth(cfg, log, log.nextOffset, t, env, before, after)
            && (Touches(cfg, t) ==> log.nextOffset == Total(before, t.topic, t.partition))
  {
    hide Interleave, Tasks, Do, Run, Total, Touches, Owner, AllWellRouted, RightReply, RightGrowth, LogAt, Consistent, RunningSums;
    var s, ts := Interleave(cfg, acts), Tasks(cfg, req);
    var w0 := Work(s.reactors[q].contexts, s.accepted, []);
    var w := DoAll(cfg, w0, ts[..i], env);
    LogAtIsContext(cfg, acts, q, req, env, i);
    DoAllReplies(cfg, w0, ts, env);
    DoReplies(cfg, w, ts[i], env);
    DoIsRight(cfg, w, ts[i], env);
    DoGrows(cfg, w, ts[i], env);
    var rs := DoAll(cfg, w0, ts, env).replies;
    assert rs[|w0.replies| + i] == ReplyAt(cfg, w0, ts, env, i) && |w0.replies| + i == i;
    assert ts[..i + 1][..i] == ts[..i] && ts[..i + 1][i] == ts[i];
    assert DoAll(cfg, w0, ts[..i + 1], env) == Do(cfg, w, ts[i], env);
    if Touches(cfg, ts[i]) {
      WorkIsSound(cfg, acts, q, req, env, i);
      assert ts[i] in ts;
      OwnOffset(cfg, q, w, ts[i].topic, ts[i].partition);
    }
  }

  // ================ the answers spelled out ================

  /** A produce to a known partition is answered with the number of records accepted for that partition before it, when both
      the directory and the file can be opened and the batch header can be read, and with error 56 and -1 when not. */
  lemma ProduceAnswer(cfg: Config, acts: seq<Act>, q: nat, req: Request, env: Env, i: nat)
    requires q < cfg.n && AllWellRouted(cfg, acts) && OwnsTouched(cfg, q, req) && i < |Tasks(cfg, req)|
    requires Tasks(cfg, req)[i].ProduceTask? && Known(cfg, Tasks(cfg, req)[i].topic, Tasks(cfg, req)[i].partition) && Tasks(cfg, req)[i].records != []
    ensures |RepliesTo(cfg, Interleave(cfg, acts), q, req, env)| == |Tasks(cfg, req)|
    ensures var s, t := Interleave(cfg, acts), Tasks(cfg, req)[i];
            var before, after := AcceptedAfter(cfg, s, q, req, env, i), AcceptedAfter(cfg, s, q, req, env, i + 1);
            var p, base := RepliesTo(cfg, s, q, req, env)[i], Total(before, t.topic, t.partition);
            && p.topic == t.topic && p.partition == t.partition
            && (if after == before then p.errorCode == 56 && p.offset == -1
                else BatchCount(t.records).Some? && after == before + [Accepted(t.topic, t.partition, base, BatchCount(t.records).value)]
                     && p.offset == base && p.errorCode == if base < 0 then 56 else 0)
            && (BatchCount(t.records).None? || !env.dirOk ==> after == before)
            && (BatchCount(t.records).Some? && env.dirOk && env.openOk ==> after != before)
  {
    hide Interleave, Tasks, DoAll, Run, Total, Owner, AllWellRouted, LogAt, Known, BatchCount, OwnsTouched, AcceptedAfter, RepliesTo;
    AnswersAreRight(cfg, acts, q, req, env, i);
  }

  /** ListOffsets of a known partition answers the latest offset, the earliest, or an error. */
  lemma ListAnswer(cfg: Config, acts: seq<Act>, q: nat, req: Request, env: Env, i: nat)
    requires q < cfg.n && AllWellRouted(cfg, acts) && OwnsTouched(cfg, q, req) && i < |Tasks(cfg, req)| && Tasks(cfg, req)[i].ListTask?
    ensures |RepliesTo(cfg, Interleave(cfg, acts), q, req, env)| == |Tasks(cfg, req)|
    ensures var s, t := Interleave(cfg, acts), Tasks(cfg, req)[i];
            var p := RepliesTo(cfg, s, q, req, env)[i];
            && p.topic == t.topic && p.partition == t.partition
            && (p.errorCode, p.offset) ==
               (if !Known(cfg, t.topic, t.partition) then (3, -1)
                else if t.timestamp == -1 then (0, Total(s.accepted, t.topic, t.partition))
                else if t.timestamp == -2 then (0, 0) else (-1, -1))
  {
    hide Interleave, DoAll, Run, Total, Owner, AllWellRouted, LogAt, Known, OwnsTouched, AcceptedAfter, RepliesTo;
    AnswersAreRight(cfg, acts, q, req, env, i);
    ListingAcceptsNothing(cfg, Interleave(cfg, acts), q, req, env, i);
  }

  /** A request that lists offsets has no other tasks, so nothing is accepted while it is handled. */
  lemma ListingAcceptsNothing(cfg: Config, s: System, q: nat, req: Request, env: Env, i: nat)
    requires q < |s.reactors| && i < |Tasks(cfg, req)| && Tasks(cfg, req)[i].ListTask?
    ensures AcceptedAfter(cfg, s, q, req, env, i) == s.accepted
  {
    hide DoAll;
    TasksOfAKind(cfg, req);
    assert forall t :: t in Tasks(cfg, req)[..i] ==> t.ListTask?;
    ListsAccept(cfg, Work(s.reactors[q].contexts, s.accepted, []), Tasks(cfg, req)[..i], env);
  }

  lemma {:induction false} ListsAccept(cfg: Config, w: Work, ts: seq<Task>, env: Env)
    requires forall t :: t in ts ==> t.ListTask?
    ensures DoAll(cfg, w, ts, env).accepted == w.accepted
    decreases |ts|
  {
    hide ContextKey, Known;
    if ts != [] {
      assert ts[|ts| - 1] in ts;
      ListsAccept(cfg, w, ts[..|ts| - 1], env);
    }
  }

  lemma {:induction false} ListKind(ts: seq<ListOffsetsTopicRequest>)
    ensures forall t :: t in ListTasks(ts) ==> t.ListTask?
  {
    if ts != [] {
      ListKind(ts[1..]);
    }
  }

  lemma {:induction false} ProduceKind(ts: seq<ProduceTopicRequest>)
    ensures forall t :: t in ProduceTasks(ts) ==> t.ProduceTask?
  {
    if ts != [] {
      ProduceKind(ts[1..]);
    }
  }

  lemma {:induction false} FetchKind(cfg: Config, ts: seq<FetchTopicRequest>)
    ensures forall t :: t in FetchTasks(cfg, ts) ==> t.FetchTask?
  {
    if ts != [] {
      FetchKind(cfg, ts[1..]);
    }
  }

  lemma TasksOfAKind(cfg: Config, req: Request)
    ensures forall t :: t in Tasks(cfg, req) ==>
              if req.ProduceRequest? then t.ProduceTask? else if req.FetchRequest? then t.FetchTask? else t.ListTask?
  {
    match req {
      case ProduceRequest(_, ts) => ProduceKind(ts);
      case FetchRequest(_, ts, _) => FetchKind(cfg, ts);
      case ListOffsetsRequest(_, _, _, ts) => ListKind(ts);
      case _ =>
    }
  }

  /** A fetch without a range, of a partition too small to splice, answers with everything its log accepted, in order. */
  lemma FullFetchAnswer(cfg: Config, acts: seq<Act>, q: nat, req: Request, env: Env, i: nat)
    requires q < cfg.n && AllWellRouted(cfg, acts) && OwnsTouched(cfg, q, req) && i < |Tasks(cfg, req)| && Tasks(cfg, req)[i].FetchTask?
    requires Tasks(cfg, req)[i].offset <= 0 && Tasks(cfg, req)[i].maxBytes <= 0 && !Spliced(LogAt(cfg, acts, q, req, env, i), 0)
    requires var t := Tasks(cfg, req)[i];
             forall op :: op in OpsAfter(cfg, PartitionOps(cfg, acts, q, t.topic, t.partition), Tasks(cfg, req)[..i], env, t.topic, t.partition)
                          ==> Positive(op)
    ensures |RepliesTo(cfg, Interleave(cfg, acts), q, req, env)| == |Tasks(cfg, req)|
    ensures var t := Tasks(cfg, req)[i];
            var ops := OpsAfter(cfg, PartitionOps(cfg, acts, q, t.topic, t.partition), Tasks(cfg, req)[..i], env, t.topic, t.partition);
            RepliesTo(cfg, Interleave(cfg, acts), q, req, env)[i].records == Data(Blobs(Run(cfg.limit, ops).1.all))
  {
    hide Interleave, Tasks, DoAll, Run, Total, Owner, AllWellRouted, OwnsTouched, AcceptedAfter, RepliesTo, OpsAfter, PartitionOps, FetchAll,
         Blobs, Fetch, Lookup;
    AnswersAreRight(cfg, acts, q, req, env, i);
    var t := Tasks(cfg, req)[i];
    var ops := OpsAfter(cfg, PartitionOps(cfg, acts, q, t.topic, t.partition), Tasks(cfg, req)[..i], env, t.topic, t.partition);
    FullReadIsAcceptanceOrder(cfg.limit, ops);
  }
}
