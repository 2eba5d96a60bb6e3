/** The sharded reactors as one system of interleaved steps (src/net/reactor.cpp, src/shard,
    src/broker/record_handler.cpp).  Each reactor owns partition contexts, connections and a pair of
    queues; requests are routed by topic and partition. */
module Shard {
  import opened Bytes
  import opened Text
  import opened Protocol
  import opened Cluster
  import opened RecordBatch
  import opened PartitionLog
  import C = Connection

  // ---- routing ----

  /** The hash combined with the partition, in wrapping 64-bit arithmetic. */
  function Mix(hash: bv64, p: bv64): bv64 { hash ^ (p + 0x9e3779b9 + (hash << 6) + (hash >> 2)) }

  /** `ShardRouter::route`, on the hash of the topic name. */
  function Route(hash: bv64, partition: int32, reactorCount: nat): (r: nat)
    requires reactorCount > 0
    ensures r < reactorCount
  {
    (Mix(hash, (partition as int % TWO_64) as bv64) as nat) % reactorCount
  }

  /** `hash` is std::hash of strings, `render` the serializer applied to a reply. */
  datatype Config = Config(n: nat, hash: bytes -> bv64, meta: ClusterMetadata, limit: nat, maxWrite: nat,
                           render: seq<PartReply> -> bytes)

  function Owner(cfg: Config, topic: bytes, partition: int32): (r: nat)
    requires cfg.n > 0
    ensures r < cfg.n
  {
    Route(cfg.hash(topic), partition, cfg.n)
  }

  /** `extract_partition_key`: the first partition of the first topic, of the three partition requests. */
  function Key(cfg: Config, req: Request): Option<(bytes, int32)>
  {
    match req
    case ProduceRequest(_, ts) =>
      if ts != [] && ts[0].partitions != [] then Some((ts[0].topicName, ts[0].partitions[0].partitionIndex)) else None
    case FetchRequest(_, ts, _) =>
      if ts != [] && ts[0].partitions != [] then
        var info :- TopicByUuid(cfg.meta, ts[0].topicId);
        Some((info.name, ts[0].partitions[0].partitionIndex))
      else None
    case ListOffsetsRequest(_, _, _, ts) =>
      if ts != [] && ts[0].partitions != [] then Some((ts[0].topicName, ts[0].partitions[0].partitionIndex)) else None
    case _ => None
  }

  // ---- handling a request on one reactor's contexts ----

  /** What a request asks of one partition; a request is the list of these in the order of its loops. */
  datatype Task =
    | ProduceTask(topic: bytes, partition: int32, records: bytes)
    | FetchTask(topic: bytes, partition: int32, offset: int64, maxBytes: int32)
    | ListTask(topic: bytes, partition: int32, timestamp: int64)

  datatype PartReply = PartReply(topic: bytes, partition: int32, errorCode: int, offset: int, records: Fetched)

  /** A batch a partition context accepted. */
  datatype Accepted = Accepted(topic: bytes, partition: int32, base: int, count: int)

  datatype Work = Work(contexts: map<bytes, Log>, accepted: seq<Accepted>, replies: seq<PartReply>)

  /** `get_or_create_context`. */
  function Context(cfg: Config, contexts: map<bytes, Log>, topic: bytes, partition: int32): Log
  {
    var key := ContextKey(topic, partition);
    if key in contexts then contexts[key] else Empty(cfg.limit)
  }

  /** The record count the batch header announces. */
  function RecordCount(records: bytes): int { if BatchCount(records).Some? then BatchCount(records).value else 0 }

  predicate Known(cfg: Config, topic: bytes, partition: int32)
  {
    TopicByName(cfg.meta, topic).Some? && partition in TopicByName(cfg.meta, topic).value.partitions
  }

  function DoProduce(cfg: Config, w: Work, t: Task, env: Env): Work
    requires t.ProduceTask?
  {
    if !Known(cfg, t.topic, t.partition) then w.(replies := w.replies + [PartReply(t.topic, t.partition, 3, -1, Data([]))])
    else if t.records == [] then w.(replies := w.replies + [PartReply(t.topic, t.partition, 0, 0, Data([]))])
    else
      var ctx := Context(cfg, w.contexts, t.topic, t.partition);
      var (log, base) := Produce(ctx, t.records, env);
      var offset := if base.Some? then base.value else -1;
      Work(w.contexts[ContextKey(t.topic, t.partition) := log],
           if base.Some? then w.accepted + [Accepted(t.topic, t.partition, base.value, RecordCount(t.records))] else w.accepted,
           w.replies + [PartReply(t.topic, t.partition, if offset < 0 then 56 else 0, offset, Data([]))])
  }

  /** Large enough ranges are spliced and carry no records; the others are fetched. */
  ghost function DoFetch(cfg: Config, w: Work, t: Task): Work
    requires t.FetchTask?
  {
    var ctx := Context(cfg, w.contexts, t.topic, t.partition);
    var from: int := if t.offset > 0 then t.offset else 0;
    var (log, data) :=
      if ctx.writeOpen && ctx.segBytes - Lookup(ctx, from).0 >= MIN_SPLICE then (ctx, Data([]))
      else if t.offset > 0 || t.maxBytes > 0 then Fetch(ctx, t.offset, t.maxBytes)
      else (ctx, Data(FetchAll(ctx)));
    Work(w.contexts[ContextKey(t.topic, t.partition) := log], w.accepted,
         w.replies + [PartReply(t.topic, t.partition, 0, 0, data)])
  }

  function DoList(cfg: Config, w: Work, t: Task): Work
    requires t.ListTask?
  {
    if !Known(cfg, t.topic, t.partition) then w.(replies := w.replies + [PartReply(t.topic, t.partition, 3, -1, Data([]))])
    else if t.timestamp == -2 then w.(replies := w.replies + [PartReply(t.topic, t.partition, 0, 0, Data([]))])
    else if t.timestamp == -1 then
      var ctx := Context(cfg, w.contexts, t.topic, t.partition);
      Work(w.contexts[ContextKey(t.topic, t.partition) := ctx], w.accepted,
           w.replies + [PartReply(t.topic, t.partition, 0, ctx.nextOffset, Data([]))])
    else w.(replies := w.replies + [PartReply(t.topic, t.partition, -1, -1, Data([]))])
  }

  ghost function Do(cfg: Config, w: Work, t: Task, env: Env): Work
  {
    match t
    case ProduceTask(_, _, _) => DoProduce(cfg, w, t, env)
    case FetchTask(_, _, _, _) => DoFetch(cfg, w, t)
    case ListTask(_, _, _) => DoList(cfg, w, t)
  }

  ghost function DoAll(cfg: Config, w: Work, ts: seq<Task>, env: Env): Work
  {
    if ts == [] then w else Do(cfg, DoAll(cfg, w, ts[..|ts| - 1], env), ts[|ts| - 1], env)
  }

  function ProduceTasks(ts: seq<ProduceTopicRequest>): seq<Task>
  {
    if ts == [] then []
    else seq(|ts[0].partitions|, i requires 0 <= i < |ts[0].partitions| =>
               ProduceTask(ts[0].topicName, ts[0].partitions[i].partitionIndex, ts[0].partitions[i].records))
         + ProduceTasks(ts[1..])
  }

  /** Topics with an unknown id are answered without touching a context. */
  function FetchTasks(cfg: Config, ts: seq<FetchTopicRequest>): seq<Task>
  {
    if ts == [] then []
    else
      var info := TopicByUuid(cfg.meta, ts[0].topicId);
      (if info.None? then [] else FetchTopicTasks(info.value.name, ts[0].partitions)) + FetchTasks(cfg, ts[1..])
  }

  function FetchTopicTasks(topic: bytes, ps: seq<FetchPartitionRequest>): seq<Task>
  {
    seq(|ps|, i requires 0 <= i < |ps| => FetchTask(topic, ps[i].partitionIndex, ps[i].fetchOffset, ps[i].maxBytes))
  }

  function ListTasks(ts: seq<ListOffsetsTopicRequest>): seq<Task>
  {
    if ts == [] then []
    else seq(|ts[0].partitions|, i requires 0 <= i < |ts[0].partitions| =>
               ListTask(ts[0].topicName, ts[0].partitions[i].partitionIndex, ts[0].partitions[i].timestamp))
         + ListTasks(ts[1..])
  }

  /** Requests of other kinds touch no partition context. */
  function Tasks(cfg: Config, req: Request): seq<Task>
  {
    match req
    case ProduceRequest(_, ts) => ProduceTasks(ts)
    case FetchRequest(_, ts, _) => FetchTasks(cfg, ts)
    case ListOffsetsRequest(_, _, _, ts) => ListTasks(ts)
    case _ => []
  }

  /** The tasks that look their partition's context up, and so create it. */
  predicate Touches(cfg: Config, t: Task)
  {
    match t
    case ProduceTask(topic, partition, records) => Known(cfg, topic, partition) && records != []
    case FetchTask(_, _, _, _) => true
    case ListTask(topic, partition, timestamp) => Known(cfg, topic, partition) && timestamp == -1
  }

  /** The reactor that serves a request received at `r`: the owner of its first partition, or `r` itself when it
      names none that can be resolved. */
  function Server(cfg: Config, r: nat, req: Request): (q: nat)
    requires r < cfg.n
    ensures q < cfg.n
  {
    match Key(cfg, req)
    case None => r
    case Some((topic, partition)) => Owner(cfg, topic, partition)
  }

  /** Reactor `q` owns every partition whose context the request looks up. */
  ghost predicate OwnsTouched(cfg: Config, q: nat, req: Request)
    requires cfg.n > 0
  {
    forall t :: t in Tasks(cfg, req) && Touches(cfg, t) ==> Owner(cfg, t.topic, t.partition) == q
  }

  ghost predicate WellRouted(cfg: Config, r: nat, req: Request)
    requires r < cfg.n
  {
    OwnsTouched(cfg, Server(cfg, r, req), req)
  }

  /** In particular a request that names exactly one partition. */
  ghost predicate SinglePartition(req: Request)
  {
    match req
    case ProduceRequest(_, ts) => |ts| == 1 && |ts[0].partitions| == 1
    case FetchRequest(_, ts, _) => |ts| == 1 && |ts[0].partitions| == 1
    case ListOffsetsRequest(_, _, _, ts) => |ts| == 1 && |ts[0].partitions| == 1
    case _ => true
  }

  lemma SinglePartitionHasOneOwner(cfg: Config, r: nat, req: Request)
    requires r < cfg.n && SinglePartition(req)
    ensures WellRouted(cfg, r, req)
  {
    hide Owner;
    match req {
      case ProduceRequest(_, ts) =>
        assert ProduceTasks(ts[1..]) == [];
        assert Tasks(cfg, req) == [ProduceTask(ts[0].topicName, ts[0].partitions[0].partitionIndex, ts[0].partitions[0].records)];
      case FetchRequest(_, ts, _) =>
        assert FetchTasks(cfg, ts[1..]) == [];
        var info := TopicByUuid(cfg.meta, ts[0].topicId);
        if info.Some? {
          var p := ts[0].partitions[0];
          assert Tasks(cfg, req) == [FetchTask(info.value.name, p.partitionIndex, p.fetchOffset, p.maxBytes)];
        }
      case ListOffsetsRequest(_, _, _, ts) =>
        assert ListTasks(ts[1..]) == [];
        assert Tasks(cfg, req) == [ListTask(ts[0].topicName, ts[0].partitions[0].partitionIndex, ts[0].partitions[0].timestamp)];
      case _ =>
    }
  }

  // ---- the system ----

  /** A forwarded request.  `id` and `target` are history: the code carries the descriptor, the source and the request. */
  datatype Fwd = Fwd(id: nat, clientFd: int, source: nat, target: nat, request: Request)

  datatype Rsp = Rsp(origin: Fwd, data: bytes)

  datatype Reactor = Reactor(contexts: map<bytes, Log>, conns: map<int, C.Out>, requests: seq<Fwd>, responses: seq<Rsp>,
                             handling: Option<Fwd>)

  const IDLE := Reactor(map[], map[], [], [], None)

  /** `accepted`, `forwarded` and `delivered` record what happened. */
  datatype System = System(reactors: seq<Reactor>, accepted: seq<Accepted>, forwarded: seq<Fwd>, delivered: seq<Fwd>)

  function Boot(cfg: Config): System
  {
    System(seq(cfg.n, i => IDLE), [], [], [])
  }

  datatype Act =
    | Accept(r: nat, fd: int)
    | Receive(r: nat, fd: int, request: Request, env: Env)
    | Take(r: nat)
    | Serve(r: nat, env: Env)
    | Deliver(r: nat)
    | Flush(r: nat, fd: int, k: nat)
    | Close(r: nat, fd: int)

  /** `connections_[fd]`: looking a descriptor up creates it. */
  function ConnAt(conns: map<int, C.Out>, fd: int): C.Out { if fd in conns then conns[fd] else C.FRESH }

  function Set(s: System, r: nat, x: Reactor): System
    requires r < |s.reactors|
  {
    s.(reactors := s.reactors[r := x])
  }

  /** handle_read after a whole frame was parsed. */
  ghost function OnReceive(cfg: Config, s: System, r: nat, fd: int, req: Request, env: Env): System
    requires cfg.n == |s.reactors| && r < cfg.n
  {
    var here := s.reactors[r].(conns := s.reactors[r].conns[fd := ConnAt(s.reactors[r].conns, fd)]);
    var key := Key(cfg, req);
    if key.Some? && Owner(cfg, key.value.0, key.value.1) != r then
      var target := Owner(cfg, key.value.0, key.value.1);
      var f := Fwd(|s.forwarded|, fd, r, target, req);
      var there := s.reactors[target];
      System(s.reactors[r := here][target := there.(requests := there.requests + [f])], s.accepted, s.forwarded + [f], s.delivered)
    else
      var w := DoAll(cfg, Work(here.contexts, s.accepted, []), Tasks(cfg, req), env);
      var data := cfg.render(w.replies);
      var conns := if |data| > cfg.maxWrite then here.conns - {fd} else here.conns[fd := C.Enqueue(here.conns[fd], data)];
      System(s.reactors[r := here.(contexts := w.contexts, conns := conns)], w.accepted, s.forwarded, s.delivered)
  }

  /** The middle of drain_cross_reactor_requests: handle the popped request and queue its response. */
  ghost function OnServe(cfg: Config, s: System, r: nat, env: Env): System
    requires cfg.n == |s.reactors| && r < cfg.n && s.reactors[r].handling.Some?
  {
    var f := s.reactors[r].handling.value;
    var w := DoAll(cfg, Work(s.reactors[r].contexts, s.accepted, []), Tasks(cfg, f.request), env);
    var s1 := Set(s, r, s.reactors[r].(contexts := w.contexts, handling := None)).(accepted := w.accepted);
    if f.source < cfg.n
    then Set(s1, f.source, s1.reactors[f.source].(responses := s1.reactors[f.source].responses + [Rsp(f, cfg.render(w.replies))]))
    else s1
  }

  /** One turn of drain_cross_reactor_responses: a response to a closed connection is dropped. */
  function OnDeliver(s: System, r: nat): System
    requires r < |s.reactors| && s.reactors[r].responses != []
  {
    var x := s.reactors[r];
    var rsp := x.responses[0];
    var fd := rsp.origin.clientFd;
    var conns := if fd in x.conns then x.conns[fd := C.Enqueue(x.conns[fd], rsp.data)] else x.conns;
    Set(s, r, x.(responses := x.responses[1..], conns := conns)).(delivered := s.delivered + [rsp.origin])
  }

  /** One step of the system; a step that is not enabled changes nothing. */
  ghost function Perform(cfg: Config, s: System, a: Act): (s': System)
    requires cfg.n == |s.reactors|
    ensures cfg.n == |s'.reactors|
  {
    if a.r >= cfg.n then s
    else
      var x := s.reactors[a.r];
      match a
      case Accept(r, fd) => Set(s, r, x.(conns := x.conns[fd := C.FRESH]))
      case Receive(r, fd, req, env) => OnReceive(cfg, s, r, fd, req, env)
      case Take(r) =>
        if x.requests == [] || x.handling.Some? then s
        else Set(s, r, x.(requests := x.requests[1..], handling := Some(x.requests[0])))
      case Serve(r, env) => if x.handling.None? then s else OnServe(cfg, s, r, env)
      case Deliver(r) => if x.responses == [] then s else OnDeliver(s, r)
      case Flush(r, fd, k) =>
        var o := ConnAt(x.conns, fd);
        Set(s, r, x.(conns := x.conns[fd := C.Sent(o, C.Taken(o, k))]))
      case Close(r, fd) => Set(s, r, x.(conns := x.conns - {fd}))
  }

  ghost function Interleave(cfg: Config, acts: seq<Act>): (s: System)
    ensures |s.reactors| == cfg.n
  {
    if acts == [] then Boot(cfg) else Perform(cfg, Interleave(cfg, acts[..|acts| - 1]), acts[|acts| - 1])
  }
}
