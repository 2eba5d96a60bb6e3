/** The partition log of src/broker/partition_context.hpp as a value: what produce, fetch and
    splice_info do to it, and what every run of them keeps. */
module PartitionLog {
  import opened Bytes
  import opened Storage
  import opened RecordBatch

  const SPARSE_INDEX_INTERVAL := 1000
  const MAX_FETCH_CHUNK := 10 * 1024 * 1024
  const MIN_SPLICE := 65536

  datatype IndexEntry = IndexEntry(offset: int, position: nat)

  /** `files` is the partition directory by base offset; `readSegment` is the segment behind `read_fd_`. */
  datatype Log = Log(limit: nat, nextOffset: int, segBase: int, segBytes: nat, index: seq<IndexEntry>,
                     files: map<int, bytes>, writeOpen: bool, readSegment: Option<int>)

  function Empty(limit: nat): Log { Log(limit, 0, 0, 0, [], map[], false, None) }

  // ---- produce ----

  /** Whether creating the directory and opening a segment for writing succeed. */
  datatype Env = Env(dirOk: bool, openOk: bool)

  predicate Rolls(log: Log, blob: bytes) { log.limit > 0 && log.segBytes + |blob| > log.limit }

  function Rolled(log: Log, blob: bytes): Log
  {
    if Rolls(log, blob)
    then log.(segBase := log.nextOffset, segBytes := 0, index := [], writeOpen := false, readSegment := None)
    else log
  }

  function Append(log: Log, blob: bytes, count: int): Log
  {
    log.(index := if log.nextOffset % SPARSE_INDEX_INTERVAL == 0
                  then log.index + [IndexEntry(log.nextOffset, log.segBytes)] else log.index,
         files := log.files[log.segBase := Content(log.files, log.segBase) + blob],
         writeOpen := true,
         segBytes := log.segBytes + |blob|,
         nextOffset := log.nextOffset + count)
  }

  /** The new log and the base offset given to the blob, if it was accepted. */
  function Produce(log: Log, blob: bytes, env: Env): (Log, Option<int>)
  {
    match BatchCount(blob)
    case None => (log, None)
    case Some(count) =>
      if !env.dirOk then (log, None)
      else
        var rolled := Rolled(log, blob);
        if !rolled.writeOpen && !env.openOk then (rolled, None)
        else (Append(rolled, blob, count), Some(rolled.nextOffset))
  }

  // ---- fetch ----

  datatype Fetched = Data(d: bytes) | Threw

  function Take(s: bytes, n: nat): bytes { if n < |s| then s[..n] else s }

  function Drop<T>(s: seq<T>, n: int): seq<T> { if n <= 0 then s else if n < |s| then s[n..] else [] }

  /** The last entry of the leading run of entries at or before `offset`. */
  function Best(index: seq<IndexEntry>, offset: int): Option<IndexEntry>
  {
    if index == [] || index[0].offset > offset then None
    else
      var later := Best(index[1..], offset);
      if later.Some? then later else Some(index[0])
  }

  /** Where to start reading: file position, offset of the first record there, and segment. */
  function Lookup(log: Log, offset: int): (nat, int, int)
  {
    var best := Best(log.index, offset);
    if best.Some? then (best.value.position, best.value.offset, log.segBase) else (0, 0, 0)
  }

  /** `ensure_read_fd`: a segment that is already open stays open. */
  function OpenRead(log: Log, segment: int): Log
  {
    if log.readSegment.None? && segment in log.files then log.(readSegment := Some(segment)) else log
  }

  function ReadLimit(maxBytes: nat): nat { if 2 * maxBytes > MAX_FETCH_CHUNK then MAX_FETCH_CHUNK else 2 * maxBytes }

  function Window(file: bytes, position: nat, maxBytes: nat): bytes { Take(Drop(file, position), ReadLimit(maxBytes)) }

  /** The records of a window from the `skip`-th on, cut to `maxBytes`; the raw bytes if none is whole. */
  function Cut(raw: bytes, skip: int, maxBytes: nat): Fetched
  {
    match ParseFrom(raw, [])
    case Malformed => Data(Take(raw, maxBytes))
    case LengthError => Threw
    case Values(vs) => Data(Take(Concat(Drop(vs, skip)), maxBytes))
  }

  function Fetch(log: Log, offset: int, maxBytes: int): (Log, Fetched)
  {
    if maxBytes <= 0 then (log, Data([]))
    else
      var (position, entryOffset, segment) := Lookup(log, offset);
      var readable := OpenRead(log, segment);
      if readable.readSegment.None? then (readable, Data([]))
      else (readable, Cut(Window(Content(readable.files, readable.readSegment.value), position, maxBytes),
                        offset - entryOffset, maxBytes))
  }

  /** `fetch()` without a range: every segment, in order of base offset. */
  ghost function FetchAll(log: Log): bytes { Ascending(log.files) }

  /** The file range `splice_info` offers; `maxBytes` is cast to size_t as it stands. */
  function SpliceInfo(log: Log, offset: int, maxBytes: int32): Option<(nat, nat)>
    requires Lookup(log, offset).0 <= log.segBytes
  {
    var position := Lookup(log, offset).0;
    var available := log.segBytes - position;
    if !log.writeOpen || available < MIN_SPLICE then None
    else
      var limit := maxBytes as int % TWO_64;
      Some((position, if available < limit then available else limit))
  }

  // ---- runs ----

  datatype Op = ProduceOp(blob: bytes, env: Env) | FetchOp(offset: int, maxBytes: int)

  function Step(log: Log, op: Op): Log
  {
    match op
    case ProduceOp(blob, env) => Produce(log, blob, env).0
    case FetchOp(offset, maxBytes) => Fetch(log, offset, maxBytes).0
  }

  /** A blob the log accepted, with the base offset it was given. */
  datatype Entry = Entry(base: int, blob: bytes)

  function CountOf(e: Entry): int { if BatchCount(e.blob).Some? then BatchCount(e.blob).value else 0 }

  /** Everything accepted so far, and how much of it lies before the current segment. */
  datatype History = History(all: seq<Entry>, start: nat) {
    function Current(): seq<Entry> { if start <= |all| then all[start..] else [] }
  }

  function Track(h: History, log: Log, op: Op): History
  {
    match op
    case FetchOp(_, _) => h
    case ProduceOp(blob, env) =>
      if BatchCount(blob).None? || !env.dirOk then h
      else
        var start := if Rolls(log, blob) then |h.all| else h.start;
        match Produce(log, blob, env).1
        case None => h.(start := start)
        case Some(base) => History(h.all + [Entry(base, blob)], start)
  }

  function Run(limit: nat, ops: seq<Op>): (Log, History)
  {
    if ops == [] then (Empty(limit), History([], 0))
    else
      var (log, h) := Run(limit, ops[..|ops| - 1]);
      var op := ops[|ops| - 1];
      (Step(log, op), Track(h, log, op))
  }

  /** Record counts are at least one, as Kafka requires of a batch. */
  predicate Positive(op: Op)
  {
    op.ProduceOp? && BatchCount(op.blob).Some? ==> BatchCount(op.blob).value >= 1
  }

  // ---- what the history says ----

  function Blobs(es: seq<Entry>): bytes
  {
    if es == [] then [] else Blobs(es[..|es| - 1]) + es[|es| - 1].blob
  }

  /** The sum of the record counts: the offset after the last record. */
  function Next(es: seq<Entry>): int
  {
    if es == [] then 0 else Next(es[..|es| - 1]) + CountOf(es[|es| - 1])
  }

  /** Base offsets are the running sums of the record counts. */
  ghost predicate GapFree(es: seq<Entry>)
  {
    forall i :: 0 <= i < |es| ==> es[i].base == Next(es[..i]) && CountOf(es[i]) >= 1 && es[i].blob != []
  }

  /** The index entries of exactly the batches whose base offset is a multiple of the interval. */
  function IndexOf(es: seq<Entry>): seq<IndexEntry>
  {
    if es == [] then []
    else
      var init, last := es[..|es| - 1], es[|es| - 1];
      if last.base % SPARSE_INDEX_INTERVAL == 0
      then IndexOf(init) + [IndexEntry(last.base, |Blobs(init)|)] else IndexOf(init)
  }

  ghost predicate Inv(log: Log, h: History)
  {
    && h.start <= |h.all| && GapFree(h.all)
    && log.nextOffset == Next(h.all) && log.segBase == Next(h.all[..h.start])
    && CurrentSegment(log, h.Current())
    && (forall k :: k in log.files ==> k <= log.segBase)
    && Ascending(log.files) == Blobs(h.all)
    && (log.readSegment.Some? ==> log.readSegment.value in log.files && (log.segBase == 0 ==> log.readSegment == Some(0)))
  }

  ghost predicate CurrentSegment(log: Log, current: seq<Entry>)
  {
    && Content(log.files, log.segBase) == Blobs(current)
    && (log.segBase in log.files <==> current != [])
    && (log.writeOpen <==> current != [])
    && log.segBytes == |Blobs(current)|
    && log.index == IndexOf(current)
    && (log.limit > 0 && log.segBytes > log.limit ==> |current| == 1)
  }

  // ---- every run keeps it ----

  lemma Snoc(es: seq<Entry>, e: Entry)
    ensures Blobs(es + [e]) == Blobs(es) + e.blob
    ensures Next(es + [e]) == Next(es) + CountOf(e)
    ensures IndexOf(es + [e]) == if e.base % SPARSE_INDEX_INTERVAL == 0
                                 then IndexOf(es) + [IndexEntry(e.base, |Blobs(es)|)] else IndexOf(es)
  {
    assert (es + [e])[..|es|] == es;
  }

  lemma GapFreeSnoc(es: seq<Entry>, e: Entry)
    requires GapFree(es) && e.base == Next(es) && CountOf(e) >= 1 && e.blob != []
    ensures GapFree(es + [e])
  {
    hide Next, CountOf;
    forall i | 0 <= i < |es + [e]|
      ensures (es + [e])[i].base == Next((es + [e])[..i]) && CountOf((es + [e])[i]) >= 1 && (es + [e])[i].blob != []
    {
      assert (es + [e])[..i] == es[..i];
      assert i == |es| ==> es[..i] == es;
    }
  }

  lemma {:induction false} NextGrows(es: seq<Entry>, i: nat)
    requires GapFree(es) && i <= |es|
    ensures Next(es[..i]) <= Next(es) && (i < |es| ==> Next(es[..i]) < Next(es))
    ensures 0 <= Next(es)
    decreases |es|
  {
    hide CountOf;
    if i == |es| {
      assert es[..i] == es;
    }
    if es != [] {
      var init := es[..|es| - 1];
      GapFreePrefix(es, |es| - 1);
      if i < |es| {
        assert es[..i] == init[..i];
        NextGrows(init, i);
      } else {
        NextGrows(init, 0);
      }
    }
  }

  lemma GapFreePrefix(es: seq<Entry>, i: nat)
    requires GapFree(es) && i <= |es|
    ensures GapFree(es[..i])
  {
    hide Next, CountOf;
    forall j | 0 <= j < i
      ensures es[..i][j].base == Next(es[..i][..j]) && CountOf(es[..i][j]) >= 1 && es[..i][j].blob != []
    {
      assert es[..i][..j] == es[..j];
    }
  }

  lemma RollKeeps(log: Log, h: History, blob: bytes)
    requires Inv(log, h) && Rolls(log, blob)
    ensures Inv(Rolled(log, blob), h.(start := |h.all|))
  {
    hide GapFree, Next, BatchCount, Ascending;
    var h' := h.(start := |h.all|);
    assert h.all[..|h.all|] == h.all && h'.Current() == [];
    NextGrows(h.all, h.start);
    if h.start == |h.all| {
      assert h.Current() == [];
    }
  }

  /** The segment does not overflow by a second batch: with batches in it, the limit was checked. */
  predicate Fits(log: Log, blob: bytes) { log.limit > 0 && log.segBytes > 0 ==> log.segBytes + |blob| <= log.limit }

  lemma AppendKeepsSegment(log: Log, current: seq<Entry>, blob: bytes, count: int)
    requires CurrentSegment(log, current) && Fits(log, blob) && blob != []
    requires current != [] ==> Blobs(current) != []
    ensures CurrentSegment(Append(log, blob, count), current + [Entry(log.nextOffset, blob)])
  {
    hide IndexOf, Blobs, Next;
    Snoc(current, Entry(log.nextOffset, blob));
    if current == [] {
      NoBlobs();
    }
  }

  lemma NoBlobs()
    ensures Blobs([]) == []
  {
  }

  lemma AppendKeeps(log: Log, h: History, blob: bytes, count: int)
    requires Inv(log, h) && Fits(log, blob) && BatchCount(blob) == Some(count) && count >= 1
    ensures Inv(Append(log, blob, count), History(h.all + [Entry(log.nextOffset, blob)], h.start))
  {
    hide IndexOf, Blobs, Next, GapFree, BatchCount, CurrentSegment, Ascending;
    var e := Entry(log.nextOffset, blob);
    var h' := History(h.all + [e], h.start);
    AcceptedBlob(e);
    Snoc(h.all, e);
    GapFreeSnoc(h.all, e);
    assert h'.Current() == h.Current() + [e] && h'.all[..h.start] == h.all[..h.start];
    CurrentBlobs(h);
    AppendKeepsSegment(log, h.Current(), blob, count);
    AscendingAppend(log.files, log.segBase, blob);
  }

  lemma AcceptedBlob(e: Entry)
    requires BatchCount(e.blob).Some?
    ensures e.blob != [] && CountOf(e) == BatchCount(e.blob).value
  {
  }

  lemma CurrentBlobs(h: History)
    requires GapFree(h.all) && h.start <= |h.all|
    ensures h.Current() != [] ==> Blobs(h.Current()) != []
  {
    hide CountOf;
    if h.Current() != [] {
      assert h.Current()[|h.Current()| - 1] == h.all[|h.all| - 1];
    }
  }

  lemma StepKeeps(log: Log, h: History, op: Op)
    requires Inv(log, h) && Positive(op)
    ensures Inv(Step(log, op), Track(h, log, op))
  {
    hide Inv, BatchCount, Append, Fetch;
    match op {
      case FetchOp(offset, maxBytes) => FetchKeeps(log, h, offset, maxBytes);
      case ProduceOp(blob, env) =>
        if BatchCount(blob).Some? && env.dirOk {
          var rolled := Rolled(log, blob);
          var h1 := if Rolls(log, blob) then h.(start := |h.all|) else h;
          if Rolls(log, blob) {
            RollKeeps(log, h, blob);
          }
          if rolled.writeOpen || env.openOk {
            AppendKeeps(rolled, h1, blob, BatchCount(blob).value);
          }
        }
    }
  }

  lemma FetchKeeps(log: Log, h: History, offset: int, maxBytes: int)
    requires Inv(log, h)
    ensures Inv(Fetch(log, offset, maxBytes).0, h)
  {
    hide GapFree, Next, IndexOf, Blobs, Ascending, Cut, Best;
  }

  /** In every reachable state the log, the index and the files agree with the accepted blobs. */
  lemma {:induction false} RunKeeps(limit: nat, ops: seq<Op>)
    requires forall op :: op in ops ==> Positive(op)
    ensures Inv(Run(limit, ops).0, Run(limit, ops).1)
    decreases |ops|
  {
    if ops != [] {
      hide Inv, Step, Track, Positive;
      var before := ops[..|ops| - 1];
      RunKeeps(limit, before);
      StepKeeps(Run(limit, before).0, Run(limit, before).1, ops[|ops| - 1]);
    } else {
      StartInv(limit);
    }
  }

  lemma StartInv(limit: nat)
    ensures Inv(Empty(limit), History([], 0))
  {
    AscendingNone();
  }

  // ---- the theorems ----

  /** Segment rolling is invisible to a full read, and base offsets are the running sums of the
      record counts, however often the log rolled. */
  lemma FullReadIsAcceptanceOrder(limit: nat, ops: seq<Op>)
    requires forall op :: op in ops ==> Positive(op)
    ensures var (log, h) := Run(limit, ops);
            && FetchAll(log) == Blobs(h.all)
            && GapFree(h.all) && log.nextOffset == Next(h.all)
  {
    hide Inv, Ascending, Run;
    RunKeeps(limit, ops);
    InvFullRead(Run(limit, ops).0, Run(limit, ops).1);
  }

  lemma InvFullRead(log: Log, h: History)
    requires Inv(log, h)
    ensures FetchAll(log) == Blobs(h.all) && GapFree(h.all) && log.nextOffset == Next(h.all)
  {
  }

  /** A produce that fails leaves the files and the next offset as they were. */
  lemma FailedProduceChangesNothing(log: Log, blob: bytes, env: Env)
    requires Produce(log, blob, env).1.None?
    ensures var log' := Produce(log, blob, env).0;
            log'.files == log.files && log'.nextOffset == log.nextOffset && FetchAll(log') == FetchAll(log)
  {
    hide BatchCount, Ascending;
  }

  lemma {:induction false} RunLimit(limit: nat, ops: seq<Op>)
    ensures Run(limit, ops).0.limit == limit
    decreases |ops|
  {
    hide Cut, BatchCount, Best;
    if ops != [] {
      RunLimit(limit, ops[..|ops| - 1]);
    }
  }

  /** The current segment takes the blob: there is no limit, or it stays within it. */
  predicate TakenByCurrent(limit: nat, current: seq<Entry>, blob: bytes) { limit == 0 || |Blobs(current)| + |blob| <= limit }

  /** After every run: a blob is accepted exactly when its header can be read and the file can be written, which needs no
      opening when the current segment has batches and takes it; it is given the next offset; it goes behind the current
      segment if that takes it and is a file of its own otherwise, and every other file stays as it is.  A blob that the
      current segment does not take also leaves no segment open for reading. */
  lemma ProduceExactly(limit: nat, ops: seq<Op>, blob: bytes, env: Env)
    requires forall op :: op in ops ==> Positive(op)
    ensures var (log, h) := Run(limit, ops);
            var current, (log', base) := h.Current(), Produce(log, blob, env);
            var fits := TakenByCurrent(limit, current, blob);
            && (base.Some? <==> BatchCount(blob).Some? && env.dirOk && (env.openOk || (current != [] && fits)))
            && (base.Some? ==>
                  && base.value == Next(h.all) && log'.nextOffset == Next(h.all) + BatchCount(blob).value
                  && log'.files == if fits then log.files[log.segBase := Blobs(current) + blob] else log.files[Next(h.all) := blob])
            && (base.None? ==> log'.files == log.files && log'.nextOffset == Next(h.all))
            && (BatchCount(blob).Some? && env.dirOk && !fits ==> log'.readSegment.None?)
  {
    hide Run, BatchCount, Blobs, Next, GapFree, IndexOf, Ascending;
    RunKeeps(limit, ops);
    RunLimit(limit, ops);
    var (log, h) := Run(limit, ops);
    assert h.all[..|h.all|] == h.all;
    if !TakenByCurrent(limit, h.Current(), blob) {
      RollKeeps(log, h, blob);
      assert h.(start := |h.all|).Current() == [];
      NoBlobs();
      assert [] + blob == blob;
    }
  }

  lemma {:induction false} IndexMembers(es: seq<Entry>, e: IndexEntry)
    ensures e in IndexOf(es) <==>
            exists k :: 0 <= k < |es| && es[k].base % SPARSE_INDEX_INTERVAL == 0 && e == IndexEntry(es[k].base, |Blobs(es[..k])|)
    decreases |es|
  {
    if es != [] {
      hide Blobs;
      var n := |es| - 1;
      var init := es[..n];
      IndexMembers(init, e);
      forall k | 0 <= k < n
        ensures es[k] == init[k] && es[..k] == init[..k]
      {
      }
    }
  }

  lemma {:induction false} BlobsGrow(es: seq<Entry>, k: nat)
    requires GapFree(es) && k < |es|
    ensures |Blobs(es[..k])| < |Blobs(es)|
    decreases |es|
  {
    hide CountOf, Next;
    var n := |es| - 1;
    GapFreePrefix(es, n);
    if k < n {
      assert es[..n][..k] == es[..k];
      BlobsGrow(es[..n], k);
    }
  }

  lemma {:induction false} IndexIncreases(es: seq<Entry>)
    requires forall i, j :: 0 <= i < j < |es| ==> es[i].base < es[j].base
    ensures Increasing(IndexOf(es))
    ensures forall i :: 0 <= i < |IndexOf(es)| ==> es != [] && IndexOf(es)[i].offset <= es[|es| - 1].base
    decreases |es|
  {
    hide Blobs;
    if es == [] {
      assert IndexOf(es) == [];
    } else {
      var n := |es| - 1;
      var init := es[..n];
      IndexIncreases(init);
      forall i | 0 <= i < |IndexOf(es)|
        ensures IndexOf(es)[i].offset <= es[n].base
      {
        if i < |IndexOf(init)| {
          assert IndexOf(es)[i] == IndexOf(init)[i] && init[n - 1] == es[n - 1];
        }
      }
    }
  }

  lemma BaseBefore(es: seq<Entry>, i: nat, j: nat)
    requires GapFree(es) && i < j < |es|
    ensures es[i].base < es[j].base
  {
    hide CountOf, Next;
    var q := es[..j];
    GapFreePrefix(es, j);
    assert q[..i] == es[..i];
    NextGrows(q, i);
  }

  /** Bases of a gap-free run increase, and so do those of any stretch of it. */
  lemma BasesIncrease(es: seq<Entry>, start: nat)
    requires GapFree(es) && start <= |es|
    ensures forall i, j :: 0 <= i < j < |es[start..]| ==> es[start..][i].base < es[start..][j].base
  {
    hide GapFree;
    forall i, j | 0 <= i < j < |es[start..]|
      ensures es[start..][i].base < es[start..][j].base
    {
      BaseBefore(es, start + i, start + j);
    }
  }

  /** The sparse index of every reachable state: exactly the batches of the current segment whose base
      offset is a multiple of 1000, in increasing order, each at a batch boundary below the segment
      size; and a segment over the limit holds one batch. */
  lemma SparseIndexExact(limit: nat, ops: seq<Op>)
    requires forall op :: op in ops ==> Positive(op)
    ensures var (log, h) := Run(limit, ops);
            var current := h.Current();
            && log.segBytes == |Blobs(current)|
            && (log.limit > 0 && log.segBytes > log.limit ==> |current| == 1)
            && Increasing(log.index)
            && (forall e :: e in log.index <==>
                  exists k :: 0 <= k < |current| && current[k].base % SPARSE_INDEX_INTERVAL == 0
                              && e == IndexEntry(current[k].base, |Blobs(current[..k])|))
            && (forall e :: e in log.index ==> e.position < log.segBytes)
  {
    hide Run, Inv, GapFree, IndexOf, Blobs, Next;
    var (log, h) := Run(limit, ops);
    RunKeeps(limit, ops);
    InvIndex(log, h);
  }

  lemma InvIndex(log: Log, h: History)
    requires Inv(log, h)
    ensures var current := h.Current();
            && log.segBytes == |Blobs(current)|
            && (log.limit > 0 && log.segBytes > log.limit ==> |current| == 1)
            && Increasing(log.index)
            && (forall e :: e in log.index <==>
                  exists k :: 0 <= k < |current| && current[k].base % SPARSE_INDEX_INTERVAL == 0
                              && e == IndexEntry(current[k].base, |Blobs(current[..k])|))
            && (forall e :: e in log.index ==> e.position < log.segBytes)
  {
    hide Next, Ascending, Blobs, IndexOf;
    var current := h.Current();
    BasesIncrease(h.all, h.start);
    IndexIncreases(current);
    forall e { IndexMembers(current, e); }
    forall k | 0 <= k < |current| ensures |Blobs(current[..k])| < |Blobs(current)| { CurrentGrows(h, k); }
  }

  lemma {:induction false} CurrentGrows(h: History, k: nat)
    requires GapFree(h.all) && h.start <= |h.all| && k < |h.Current()|
    ensures |Blobs(h.Current()[..k])| < |Blobs(h.Current())|
    decreases |h.all|
  {
    hide CountOf, Next;
    var n := |h.all| - 1;
    var h1 := History(h.all[..n], h.start);
    GapFreePrefix(h.all, n);
    assert h.Current()[..|h.Current()| - 1] == h1.Current();
    if k < |h1.Current()| {
      assert h.Current()[..k] == h1.Current()[..k];
      CurrentGrows(h1, k);
    } else {
      assert h.Current()[..k] == h1.Current();
    }
  }

  /** So the subtraction in `splice_info` never underflows, at any requested offset. */
  lemma SpliceStaysInBounds(limit: nat, ops: seq<Op>, offset: int)
    requires forall op :: op in ops ==> Positive(op)
    ensures Lookup(Run(limit, ops).0, offset).0 <= Run(limit, ops).0.segBytes
  {
    hide Run, Blobs;
    SparseIndexExact(limit, ops);
    BestIsClosest(Run(limit, ops).0.index, offset);
  }

  ghost predicate Increasing(index: seq<IndexEntry>)
  {
    forall i, j :: 0 <= i < j < |index| ==> index[i].offset < index[j].offset
  }

  /** The lookup picks the entry closest below the offset: there is none exactly when every entry lies above it. */
  lemma {:induction false} BestIsClosest(index: seq<IndexEntry>, offset: int)
    requires Increasing(index)
    ensures Best(index, offset).None? <==> forall e :: e in index ==> e.offset > offset
    ensures Best(index, offset).Some? ==>
              var best := Best(index, offset).value;
              best in index && best.offset <= offset && forall e :: e in index && e.offset <= offset ==> e.offset <= best.offset
  {
    if index != [] {
      BestIsClosest(index[1..], offset);
      assert forall e :: e in index <==> e == index[0] || e in index[1..];
      assert forall e :: e in index[1..] ==> index[0].offset < e.offset;
    }
  }
}
