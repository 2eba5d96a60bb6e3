/** The record handlers of one reactor (src/broker/record_handler.cpp): nested loops over topics and
    partitions that do exactly the flat list of tasks of the request, in order. */
module RecordHandler {
  import opened Bytes
  import opened Text
  import opened Protocol
  import opened Cluster
  import opened Storage
  import opened PartitionLog
  import opened Shard

  // ---- task lists grow at the end as the loops advance ----

  lemma DoAllSnoc(cfg: Config, w: Work, ts: seq<Task>, t: Task, env: Env)
    ensures DoAll(cfg, w, ts + [t], env) == Do(cfg, DoAll(cfg, w, ts, env), t, env)
  {
    hide Do;
    assert (ts + [t])[..|ts|] == ts;
  }

  function ProduceParts(t: ProduceTopicRequest): seq<Task> { ProduceTasks([t]) }
  function FetchParts(cfg: Config, t: FetchTopicRequest): seq<Task> { FetchTasks(cfg, [t]) }
  function ListParts(t: ListOffsetsTopicRequest): seq<Task> { ListTasks([t]) }

  lemma {:induction false} ProduceTasksAppend(a: seq<ProduceTopicRequest>, b: seq<ProduceTopicRequest>)
    ensures ProduceTasks(a + b) == ProduceTasks(a) + ProduceTasks(b)
  {
    if a == [] {
      assert a + b == b;
    } else {
      assert (a + b)[1..] == a[1..] + b;
      ProduceTasksAppend(a[1..], b);
    }
  }

  lemma {:induction false} FetchTasksAppend(cfg: Config, a: seq<FetchTopicRequest>, b: seq<FetchTopicRequest>)
    ensures FetchTasks(cfg, a + b) == FetchTasks(cfg, a) + FetchTasks(cfg, b)
  {
    hide FetchTopicTasks;
    if a == [] {
      assert a + b == b;
    } else {
      assert (a + b)[1..] == a[1..] + b;
      FetchTasksAppend(cfg, a[1..], b);
    }
  }

  lemma {:induction false} ListTasksAppend(a: seq<ListOffsetsTopicRequest>, b: seq<ListOffsetsTopicRequest>)
    ensures ListTasks(a + b) == ListTasks(a) + ListTasks(b)
  {
    if a == [] {
      assert a + b == b;
    } else {
      assert (a + b)[1..] == a[1..] + b;
      ListTasksAppend(a[1..], b);
    }
  }

  lemma ProduceTopic(t: ProduceTopicRequest)
    ensures |ProduceParts(t)| == |t.partitions|
    ensures forall j :: 0 <= j < |t.partitions| ==>
              ProduceParts(t)[j] == ProduceTask(t.topicName, t.partitions[j].partitionIndex, t.partitions[j].records)
  {
    assert ProduceTasks([t][1..]) == [];
  }

  lemma ListTopic(t: ListOffsetsTopicRequest)
    ensures |ListParts(t)| == |t.partitions|
    ensures forall j :: 0 <= j < |t.partitions| ==>
              ListParts(t)[j] == ListTask(t.topicName, t.partitions[j].partitionIndex, t.partitions[j].timestamp)
  {
    assert ListTasks([t][1..]) == [];
  }

  lemma FetchTopic(cfg: Config, t: FetchTopicRequest)
    ensures var info := TopicByUuid(cfg.meta, t.topicId);
            if info.None? then FetchParts(cfg, t) == [] else
            && |FetchParts(cfg, t)| == |t.partitions|
            && forall j :: 0 <= j < |t.partitions| ==>
                 FetchParts(cfg, t)[j] == FetchTask(info.value.name, t.partitions[j].partitionIndex,
                                                    t.partitions[j].fetchOffset, t.partitions[j].maxBytes)
  {
    assert FetchTasks(cfg, [t][1..]) == [];
  }

  // ---- the handlers ----

  class RecordHandler {
    const cfg: Config
    var contexts: map<bytes, Log>
    ghost var accepted: seq<Accepted>
    var replies: seq<PartReply>

    ghost function State(): Work
      reads this
    {
      Work(contexts, accepted, replies)
    }

    constructor (cfg: Config)
      ensures this.cfg == cfg && State() == Work(map[], [], [])
    {
      this.cfg := cfg;
      contexts, accepted, replies := map[], [], [];
    }

    method ProducePartition(topic: bytes, p: ProducePartitionRequest, env: Env)
      modifies this
      ensures State() == DoProduce(cfg, old(State()), ProduceTask(topic, p.partitionIndex, p.records), env)
    {
      hide Produce, ContextKey, RecordCount;
      var info := TopicByName(cfg.meta, topic);
      if info.Some? && p.partitionIndex in info.value.partitions {
        var errorCode, baseOffset := 0, 0;
        if p.records != [] {
          var ctx := Context(cfg, contexts, topic, p.partitionIndex);
          var (log, base) := Produce(ctx, p.records, env);
          contexts := contexts[ContextKey(topic, p.partitionIndex) := log];
          baseOffset := if base.Some? then base.value else -1;
          if base.Some? {
            accepted := accepted + [Accepted(topic, p.partitionIndex, base.value, RecordCount(p.records))];
          }
          if baseOffset < 0 {
            errorCode := 56;
          }
        }
        replies := replies + [PartReply(topic, p.partitionIndex, errorCode, baseOffset, Data([]))];
      } else {
        replies := replies + [PartReply(topic, p.partitionIndex, 3, -1, Data([]))];
      }
    }

    method HandleProduce(topics: seq<ProduceTopicRequest>, env: Env)
      modifies this
      ensures State() == DoAll(cfg, old(State()), ProduceTasks(topics), env)
    {
      hide ProduceTasks, DoProduce, DoAll;
      ghost var w, done := State(), ProduceTasks([]);
      DoAllNothing(w, env);
      for i := 0 to |topics|
        invariant done == ProduceTasks(topics[..i]) && State() == DoAll(cfg, w, done, env)
      {
        var t := topics[i];
        ProduceTopic(t);
        assert topics[..i + 1] == topics[..i] + [t];
        ProduceTasksAppend(topics[..i], [t]);
        assert done + ProduceParts(t)[..0] == done;
        for j := 0 to |t.partitions|
          invariant State() == DoAll(cfg, w, done + ProduceParts(t)[..j], env)
        {
          ProducePartition(t.topicName, t.partitions[j], env);
          DoAllSnoc(cfg, w, done + ProduceParts(t)[..j], ProduceParts(t)[j], env);
          assert done + ProduceParts(t)[..j] + [ProduceParts(t)[j]] == done + ProduceParts(t)[..j + 1];
        }
        assert ProduceParts(t)[..|t.partitions|] == ProduceParts(t);
        done := done + ProduceParts(t);
      }
      assert topics[..|topics|] == topics;
    }

    lemma DoAllNothing(w: Work, env: Env)
      ensures DoAll(cfg, w, [], env) == w && ProduceTasks([]) == [] && ListTasks([]) == [] && FetchTasks(cfg, []) == []
    {
    }

    method ListPartition(topic: bytes, p: ListOffsetsPartitionRequest)
      modifies this
      ensures State() == DoList(cfg, old(State()), ListTask(topic, p.partitionIndex, p.timestamp))
    {
      hide ContextKey;
      var info := TopicByName(cfg.meta, topic);
      var errorCode, offset := 0, -1;
      if info.Some? && p.partitionIndex in info.value.partitions {
        if p.timestamp == -2 {
          offset := 0;
        } else if p.timestamp == -1 {
          var ctx := Context(cfg, contexts, topic, p.partitionIndex);
          contexts := contexts[ContextKey(topic, p.partitionIndex) := ctx];
          offset := ctx.nextOffset;
        } else {
          errorCode := -1;
        }
      } else {
        errorCode := 3;
      }
      replies := replies + [PartReply(topic, p.partitionIndex, errorCode, offset, Data([]))];
    }

    method HandleListOffsets(topics: seq<ListOffsetsTopicRequest>, ghost env: Env)
      modifies this
      ensures State() == DoAll(cfg, old(State()), ListTasks(topics), env)
    {
      hide ListTasks, DoList, DoAll;
      ghost var w, done := State(), ListTasks([]);
      DoAllNothing(w, env);
      for i := 0 to |topics|
        invariant done == ListTasks(topics[..i]) && State() == DoAll(cfg, w, done, env)
      {
        var t := topics[i];
        ListTopic(t);
        assert topics[..i + 1] == topics[..i] + [t];
        ListTasksAppend(topics[..i], [t]);
        assert done + ListParts(t)[..0] == done;
        for j := 0 to |t.partitions|
          invariant State() == DoAll(cfg, w, done + ListParts(t)[..j], env)
        {
          ListPartition(t.topicName, t.partitions[j]);
          DoAllSnoc(cfg, w, done + ListParts(t)[..j], ListParts(t)[j], env);
          assert done + ListParts(t)[..j] + [ListParts(t)[j]] == done + ListParts(t)[..j + 1];
        }
        assert ListParts(t)[..|t.partitions|] == ListParts(t);
        done := done + ListParts(t);
      }
      assert topics[..|topics|] == topics;
    }

    method FetchPartition(topic: bytes, p: FetchPartitionRequest)
      modifies this
      ensures State() == DoFetch(cfg, old(State()), FetchTask(topic, p.partitionIndex, p.fetchOffset, p.maxBytes))
    {
      hide ContextKey, Fetch, Lookup;
      var ctx := Context(cfg, contexts, topic, p.partitionIndex);
      var from: int := if p.fetchOffset > 0 then p.fetchOffset else 0;
      var log, data := ctx, Data([]);
      if ctx.writeOpen && ctx.segBytes - Lookup(ctx, from).0 >= MIN_SPLICE {
      } else if p.fetchOffset > 0 || p.maxBytes > 0 {
        var f := Fetch(ctx, p.fetchOffset, p.maxBytes);
        log, data := f.0, f.1;
      } else {
        var all := ConcatSegments(ctx.files);
        data := Data(all);
      }
      contexts := contexts[ContextKey(topic, p.partitionIndex) := log];
      replies := replies + [PartReply(topic, p.partitionIndex, 0, 0, data)];
    }

    method HandleFetch(topics: seq<FetchTopicRequest>, ghost env: Env)
      modifies this
      ensures State() == DoAll(cfg, old(State()), FetchTasks(cfg, topics), env)
    {
      hide FetchTasks, DoFetch, DoAll;
      ghost var w, done := State(), FetchTasks(cfg, []);
      DoAllNothing(w, env);
      for i := 0 to |topics|
        invariant done == FetchTasks(cfg, topics[..i]) && State() == DoAll(cfg, w, done, env)
      {
        var t := topics[i];
        FetchTopic(cfg, t);
        assert topics[..i + 1] == topics[..i] + [t];
        FetchTasksAppend(cfg, topics[..i], [t]);
        var info := TopicByUuid(cfg.meta, t.topicId);
        if info.Some? {
          assert done + FetchParts(cfg, t)[..0] == done;
          for j := 0 to |t.partitions|
            invariant State() == DoAll(cfg, w, done + FetchParts(cfg, t)[..j], env)
          {
            FetchPartition(info.value.name, t.partitions[j]);
            DoAllSnoc(cfg, w, done + FetchParts(cfg, t)[..j], FetchParts(cfg, t)[j], env);
            assert done + FetchParts(cfg, t)[..j] + [FetchParts(cfg, t)[j]] == done + FetchParts(cfg, t)[..j + 1];
          }
          assert FetchParts(cfg, t)[..|t.partitions|] == FetchParts(cfg, t);
        } else {
          assert done + FetchParts(cfg, t) == done;
        }
        done := done + FetchParts(cfg, t);
      }
      assert topics[..|topics|] == topics;
    }
  }
}
