/** How a request becomes tasks and where it is routed: the tasks stand in the order of the request's nested lists, and the
    routing key is that of the first. */
module Routing {
  import opened Bytes
  import opened Protocol
  import opened Cluster
  import opened Shard

  /** How many items the first `i` lists hold. */
  function Sum(sizes: seq<nat>, i: nat): nat
    requires i <= |sizes|
  {
    if i == 0 then 0 else sizes[0] + Sum(sizes[1..], i - 1)
  }

  function ProduceSizes(ts: seq<ProduceTopicRequest>): (ns: seq<nat>)
    ensures |ns| == |ts| && forall i :: 0 <= i < |ts| ==> ns[i] == |ts[i].partitions|
  {
    seq(|ts|, i requires 0 <= i < |ts| => |ts[i].partitions|)
  }

  function ListSizes(ts: seq<ListOffsetsTopicRequest>): (ns: seq<nat>)
    ensures |ns| == |ts| && forall i :: 0 <= i < |ts| ==> ns[i] == |ts[i].partitions|
  {
    seq(|ts|, i requires 0 <= i < |ts| => |ts[i].partitions|)
  }

  /** Topics with an unknown id have no tasks. */
  function FetchSizes(cfg: Config, ts: seq<FetchTopicRequest>): (ns: seq<nat>)
    ensures |ns| == |ts|
    ensures forall i :: 0 <= i < |ts| ==> ns[i] == if TopicByUuid(cfg.meta, ts[i].topicId).Some? then |ts[i].partitions| else 0
  {
    seq(|ts|, i requires 0 <= i < |ts| => if TopicByUuid(cfg.meta, ts[i].topicId).Some? then |ts[i].partitions| else 0)
  }

  lemma {:induction false} ProduceTaskAt(ts: seq<ProduceTopicRequest>, i: nat, j: nat)
    requires i < |ts| && j < |ts[i].partitions|
    ensures |ProduceTasks(ts)| == Sum(ProduceSizes(ts), |ts|) && Sum(ProduceSizes(ts), i) + j < |ProduceTasks(ts)|
    ensures ProduceTasks(ts)[Sum(ProduceSizes(ts), i) + j] ==
            ProduceTask(ts[i].topicName, ts[i].partitions[j].partitionIndex, ts[i].partitions[j].records)
    decreases |ts|
  {
    ProduceTotal(ts);
    assert ProduceSizes(ts)[1..] == ProduceSizes(ts[1..]);
    if i > 0 {
      ProduceTaskAt(ts[1..], i - 1, j);
    } else {
      ProduceTotal(ts[1..]);
    }
  }

  lemma {:induction false} ProduceTotal(ts: seq<ProduceTopicRequest>)
    ensures |ProduceTasks(ts)| == Sum(ProduceSizes(ts), |ts|)
  {
    if ts != [] {
      ProduceTotal(ts[1..]);
      assert ProduceSizes(ts)[1..] == ProduceSizes(ts[1..]);
    }
  }

  lemma {:induction false} ListTaskAt(ts: seq<ListOffsetsTopicRequest>, i: nat, j: nat)
    requires i < |ts| && j < |ts[i].partitions|
    ensures |ListTasks(ts)| == Sum(ListSizes(ts), |ts|) && Sum(ListSizes(ts), i) + j < |ListTasks(ts)|
    ensures ListTasks(ts)[Sum(ListSizes(ts), i) + j] ==
            ListTask(ts[i].topicName, ts[i].partitions[j].partitionIndex, ts[i].partitions[j].timestamp)
    decreases |ts|
  {
    ListTotal(ts);
    assert ListSizes(ts)[1..] == ListSizes(ts[1..]);
    if i > 0 {
      ListTaskAt(ts[1..], i - 1, j);
    } else {
      ListTotal(ts[1..]);
    }
  }

  lemma {:induction false} ListTotal(ts: seq<ListOffsetsTopicRequest>)
    ensures |ListTasks(ts)| == Sum(ListSizes(ts), |ts|)
  {
    if ts != [] {
      ListTotal(ts[1..]);
      assert ListSizes(ts)[1..] == ListSizes(ts[1..]);
    }
  }

  /** The sizes of the later topics, and sums over them. */
  lemma FetchSums(cfg: Config, ts: seq<FetchTopicRequest>, i: nat)
    requires 0 < i <= |ts|
    ensures Sum(FetchSizes(cfg, ts), i) == FetchSizes(cfg, ts)[0] + Sum(FetchSizes(cfg, ts[1..]), i - 1)
  {
    hide TopicByUuid;
    assert FetchSizes(cfg, ts)[1..] == FetchSizes(cfg, ts[1..]);
  }

  /** The tasks of the first topic come first. */
  lemma FetchSplit(cfg: Config, ts: seq<FetchTopicRequest>) returns (first: seq<Task>)
    requires ts != []
    ensures FetchTasks(cfg, ts) == first + FetchTasks(cfg, ts[1..]) && |first| == FetchSizes(cfg, ts)[0]
    ensures var info, ps := TopicByUuid(cfg.meta, ts[0].topicId), ts[0].partitions;
            info.Some? ==>
              && |first| == |ps|
              && forall j :: 0 <= j < |ps| ==>
                   first[j] == FetchTask(info.value.name, ps[j].partitionIndex, ps[j].fetchOffset, ps[j].maxBytes)
  {
    hide TopicByUuid;
    var info := TopicByUuid(cfg.meta, ts[0].topicId);
    first := if info.None? then [] else FetchTopicTasks(info.value.name, ts[0].partitions);
  }

  lemma {:induction false} FetchTaskAt(cfg: Config, ts: seq<FetchTopicRequest>, i: nat, j: nat)
    requires i < |ts| && j < |ts[i].partitions| && TopicByUuid(cfg.meta, ts[i].topicId).Some?
    ensures |FetchTasks(cfg, ts)| == Sum(FetchSizes(cfg, ts), |ts|) && Sum(FetchSizes(cfg, ts), i) + j < |FetchTasks(cfg, ts)|
    ensures var name, p := TopicByUuid(cfg.meta, ts[i].topicId).value.name, ts[i].partitions[j];
            FetchTasks(cfg, ts)[Sum(FetchSizes(cfg, ts), i) + j] == FetchTask(name, p.partitionIndex, p.fetchOffset, p.maxBytes)
    decreases |ts|
  {
    hide TopicByUuid, FetchSizes, FetchTasks;
    FetchTotal(cfg, ts);
    var first := FetchSplit(cfg, ts);
    if i > 0 {
      hide Sum;
      FetchSums(cfg, ts, i);
      FetchTaskAt(cfg, ts[1..], i - 1, j);
    }
  }

  lemma {:induction false} FetchTotal(cfg: Config, ts: seq<FetchTopicRequest>)
    ensures |FetchTasks(cfg, ts)| == Sum(FetchSizes(cfg, ts), |ts|)
  {
    hide TopicByUuid, FetchSizes;
    if ts != [] {
      hide Sum, FetchTasks;
      var first := FetchSplit(cfg, ts);
      FetchTotal(cfg, ts[1..]);
      FetchSums(cfg, ts, |ts|);
    }
  }

  /** A request has a routing key exactly when its first topic names a partition, and for a fetch has a known id; the key is
      then the topic and partition of its first task. */
  lemma KeyIsThatOfTheFirstTask(cfg: Config, req: Request)
    ensures Key(cfg, req).Some? ==>
              |Tasks(cfg, req)| > 0 && Key(cfg, req).value == (Tasks(cfg, req)[0].topic, Tasks(cfg, req)[0].partition)
    ensures Key(cfg, req).None? <==>
              match req
              case ProduceRequest(_, ts) => ts == [] || ts[0].partitions == []
              case ListOffsetsRequest(_, _, _, ts) => ts == [] || ts[0].partitions == []
              case FetchRequest(_, ts, _) => ts == [] || ts[0].partitions == [] || TopicByUuid(cfg.meta, ts[0].topicId).None?
              case _ => true
  {
    hide TopicByUuid;
    if Key(cfg, req).Some? {
      match req {
        case ProduceRequest(_, ts) => ProduceTaskAt(ts, 0, 0);
        case ListOffsetsRequest(_, _, _, ts) => ListTaskAt(ts, 0, 0);
        case FetchRequest(_, ts, _) => FetchTaskAt(cfg, ts, 0, 0);
      }
    }
  }

  /** The mix at three inputs; a partition of -1 counts as its two's complement. */
  lemma MixExamples()
    ensures Mix(0x0123_4567_89AB_CDEF, 3) == 0x4839_6E5B_623E_2518
    ensures Mix(0xFEDC_BA98_7654_3210, 0xFFFF_FFFF_FFFF_FFFF) == 0x0839_6E5C_268D_382C
    ensures Mix(0xCBF2_9CE4_8422_2325, 0x7FFF_FFFF) == 0xE451_7CBF_C3EA_E8E4
  {
  }
}
