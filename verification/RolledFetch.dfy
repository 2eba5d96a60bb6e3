/** The indexed fetch of a log that has rolled.  It reads the segment that happens to be open, so it returns records from the
    offset asked for as long as that is the segment the lookup names, and other records otherwise. */
module RolledFetch {
  import opened Bytes
  import opened Varint
  import opened Wire
  import opened Storage
  import opened RecordBatch
  import opened PartitionLog
  import opened IndexedFetch

  // ---- the first segment ----

  /** The first `j` accepted batches are the segment with base 0. */
  ghost predicate First(log: Log, h: History, j: nat)
  {
    && j <= |h.all| && Content(log.files, 0) == Blobs(h.all[..j])
    && (if h.start == 0 then j == |h.all| else 0 < j)
  }

  lemma RollFirst(log: Log, h: History, blob: bytes, j: nat)
    requires First(log, h, j) && Rolls(log, blob)
    ensures First(Rolled(log, blob), h.(start := |h.all|), j)
  {
  }

  lemma BaseIsPositive(log: Log, h: History)
    requires Inv(log, h)
    ensures h.start == 0 <==> log.segBase == 0
  {
    hide CountOf, CurrentSegment, Ascending;
    if h.start > 0 {
      var init := h.all[..h.start];
      GapFreePrefix(h.all, h.start);
      NextGrows(init, 0);
      assert init[..0] == [];
    } else {
      assert h.all[..0] == [];
    }
  }

  lemma AppendFirst(log: Log, h: History, blob: bytes, count: int, j: nat) returns (j': nat)
    requires Inv(log, h) && First(log, h, j)
    ensures First(Append(log, blob, count), History(h.all + [Entry(log.nextOffset, blob)], h.start), j')
  {
    hide Inv, Blobs, IndexOf;
    BaseIsPositive(log, h);
    var e := Entry(log.nextOffset, blob);
    var all := h.all + [e];
    if h.start == 0 {
      j' := j + 1;
      Snoc(h.all, e);
      assert all[..j'] == all && h.all[..j] == h.all;
    } else {
      j' := j;
      assert all[..j] == h.all[..j];
    }
  }

  lemma StepFirst(log: Log, h: History, op: Op, j: nat) returns (j': nat)
    requires Inv(log, h) && Positive(op) && First(log, h, j)
    ensures First(Step(log, op), Track(h, log, op), j')
  {
    hide Inv, First, BatchCount, Append;
    j' := j;
    match op {
      case FetchOp(offset, maxBytes) => FetchFirst(log, h, offset, maxBytes, j);
      case ProduceOp(blob, env) =>
        if BatchCount(blob).Some? && env.dirOk {
          var rolled := Rolled(log, blob);
          var h1 := if Rolls(log, blob) then h.(start := |h.all|) else h;
          if Rolls(log, blob) {
            RollKeeps(log, h, blob);
            RollFirst(log, h, blob, j);
          }
          if rolled.writeOpen || env.openOk {
            j' := AppendFirst(rolled, h1, blob, BatchCount(blob).value, j);
          }
        }
    }
  }

  lemma FetchFirst(log: Log, h: History, offset: int, maxBytes: int, j: nat)
    requires First(log, h, j)
    ensures First(Fetch(log, offset, maxBytes).0, h, j)
  {
    hide Blobs, Cut, Best;
  }

  lemma {:induction false} RunFirst(limit: nat, ops: seq<Op>) returns (j: nat)
    requires forall op :: op in ops ==> Positive(op)
    ensures First(Run(limit, ops).0, Run(limit, ops).1, j)
    decreases |ops|
  {
    if ops != [] {
      hide First, Step, Track, Positive, Inv;
      var before := ops[..|ops| - 1];
      j := RunFirst(limit, before);
      RunKeeps(limit, before);
      j := StepFirst(Run(limit, before).0, Run(limit, before).1, ops[|ops| - 1], j);
    } else {
      j := 0;
    }
  }

  // ---- reading one segment ----

  /** Fetching from a segment that holds the batches `lo, ..., up - 1`, starting at batch `k`, is a scan of the whole stream
      as far as whole batches of the segment lie in the window. */
  lemma SegmentScan(bs: seq<Batch>, lo: nat, k: nat, up: nat, offset: int, maxBytes: nat) returns (n: nat)
    requires Good(bs) && lo <= k <= up <= |bs| && (k == 0 || |AllValues(bs[..k])| <= offset)
    ensures Good(bs[lo..up]) && Good(bs[lo..k]) && Good(bs[k..up])
    ensures k + n <= up && n == Fit(bs[k..up], ReadLimit(maxBytes)) && |AllValues(bs[..k + n])| <= |AllValues(bs)|
    ensures n > 0 ==>
              Cut(Window(EncodeAll(bs[lo..up]), |EncodeAll(bs[lo..k])|, maxBytes), offset - |AllValues(bs[..k])|, maxBytes)
              == Data(Take(Scan(AllValues(bs), offset, |AllValues(bs[..k + n])|), maxBytes))
  {
    hide EncodeAll, AllValues, WellFormed, Encode, Cut, Fit, Concat, Window, Take, Drop;
    SegmentWindow(bs, lo, k, up, maxBytes);
    n := Fit(bs[k..up], ReadLimit(maxBytes));
    CutWindow(bs[k..up], ReadLimit(maxBytes), offset - |AllValues(bs[..k])|, maxBytes);
    SegmentValues(bs, k, up, n, offset);
  }

  lemma SegmentWindow(bs: seq<Batch>, lo: nat, k: nat, up: nat, maxBytes: nat)
    requires Good(bs) && lo <= k <= up <= |bs|
    ensures Good(bs[lo..up]) && Good(bs[lo..k]) && Good(bs[k..up])
    ensures Window(EncodeAll(bs[lo..up]), |EncodeAll(bs[lo..k])|, maxBytes) == Take(EncodeAll(bs[k..up]), ReadLimit(maxBytes))
  {
    hide EncodeAll, AllValues, WellFormed, Encode;
    Split(bs[lo..up], k - lo);
    assert bs[lo..up][..k - lo] == bs[lo..k] && bs[lo..up][k - lo..] == bs[k..up];
    assert Drop(EncodeAll(bs[lo..up]), |EncodeAll(bs[lo..k])|) == EncodeAll(bs[k..up]);
  }

  lemma SegmentValues(bs: seq<Batch>, k: nat, up: nat, n: nat, offset: int)
    requires Good(bs) && k + n <= up <= |bs| && (k == 0 || |AllValues(bs[..k])| <= offset)
    ensures |AllValues(bs[..k + n])| <= |AllValues(bs)|
    ensures Drop(AllValues(bs[k..up][..n]), offset - |AllValues(bs[..k])|) == Drop(AllValues(bs)[..|AllValues(bs[..k + n])|], offset)
  {
    hide EncodeAll, AllValues, WellFormed, Encode, Drop;
    SplitValues(bs, k, n);
    assert bs[k..up][..n] == bs[k..][..n];
    if k == 0 {
      NoValues();
      assert bs[..0] == [];
    }
    DropShift(AllValues(bs), |AllValues(bs[..k])|, |AllValues(bs[..k + n])|, offset);
  }

  /** The segment behind the read descriptor, if one is open, is the one the lookup names. */
  predicate RightSegment(log: Log, offset: int) { log.readSegment.None? || log.readSegment == Some(Lookup(log, offset).2) }

  /** The batch the lookup starts from, by its base offset, ends inside the window. */
  ghost predicate FirstBatchFits(log: Log, bs: seq<Batch>, offset: int, maxBytes: nat)
  {
    Good(bs) && exists k :: 0 <= k < |bs| && |AllValues(bs[..k])| == Lookup(log, offset).1 && |Encode(bs[k])| <= ReadLimit(maxBytes)
  }

  lemma {:induction false} MoreValues(bs: seq<Batch>, i: nat, j: nat)
    requires Good(bs) && i < j <= |bs|
    ensures |AllValues(bs[..i])| < |AllValues(bs[..j])|
  {
    hide AllValues, EncodeAll, WellFormed;
    Split(bs[..j], i);
    assert bs[..j][..i] == bs[..i];
    ManyValues(bs[..j][i..]);
  }

  lemma FitsSome(log: Log, bs: seq<Batch>, k: nat, up: nat, offset: int, maxBytes: nat)
    requires FirstBatchFits(log, bs, offset, maxBytes) && Good(bs) && k < up <= |bs| && |AllValues(bs[..k])| == Lookup(log, offset).1
    ensures Good(bs[k..up]) && Fit(bs[k..up], ReadLimit(maxBytes)) > 0
  {
    hide Encode, WellFormed, Lookup, AllValues;
    var i :| 0 <= i < |bs| && |AllValues(bs[..i])| == Lookup(log, offset).1 && |Encode(bs[i])| <= ReadLimit(maxBytes);
    if i < k {
      MoreValues(bs, i, k);
    } else if k < i {
      MoreValues(bs, k, i);
    }
  }

  /** A fetch returns what a scan of the first `m` batches returns. */
  ghost predicate Scans(log: Log, bs: seq<Batch>, offset: int, maxBytes: nat, m: nat)
  {
    && m <= |bs| && |AllValues(bs[..m])| <= |AllValues(bs)|
    && Fetch(log, offset, maxBytes).1 == Data(Take(Scan(AllValues(bs), offset, |AllValues(bs[..m])|), maxBytes))
  }

  /** With the right segment open, or none, the lookup's segment is the one read. */
  lemma ReadsRight(log: Log, offset: int, maxBytes: nat, file: bytes)
    requires maxBytes > 0 && RightSegment(log, offset) && Lookup(log, offset).2 in log.files && log.files[Lookup(log, offset).2] == file
    ensures Fetch(log, offset, maxBytes).1 ==
            Cut(Window(file, Lookup(log, offset).0, maxBytes), offset - Lookup(log, offset).1, maxBytes)
  {
    hide Lookup, Cut, Window;
  }

  /** When the index has an entry at or below the offset, the lookup names the current segment and a batch of it. */
  lemma HitBatch(log: Log, h: History, bs: seq<Batch>, offset: int) returns (k: nat)
    requires Inv(log, h) && Holds(h.all, bs) && Best(log.index, offset).Some?
    ensures IsStart(bs, h.start, k, offset)
    ensures h.start <= k < |bs| && Good(bs[h.start..k]) && Good(bs[h.start..]) && |AllValues(bs[..k])| <= offset
    ensures Lookup(log, offset) == (|EncodeAll(bs[h.start..k])|, |AllValues(bs[..k])|, log.segBase)
    ensures log.segBase in log.files && log.files[log.segBase] == EncodeAll(bs[h.start..])
  {
    hide EncodeAll, AllValues, WellFormed, Encode, Blobs, Next, IndexOf, Best, Ascending, GapFree;
    BasesIncrease(h.all, h.start);
    var i := StartBatch(h.Current(), offset);
    k := h.start + i;
    forall j | 0 <= j < |h.Current()| ensures h.Current()[j].base == BaseOf(bs, h.start + j) { CurrentBatches(h, bs, j); }
    CurrentBatches(h, bs, i);
    forall j | k < j < |bs| && BaseOf(bs, j) % 1000 == 0
      ensures BaseOf(bs, j) > offset
    {
      assert h.Current()[j - h.start].base == BaseOf(bs, j);
    }
  }

  lemma HitReads(log: Log, h: History, bs: seq<Batch>, offset: int, maxBytes: nat) returns (m: nat)
    requires Inv(log, h) && Holds(h.all, bs) && maxBytes > 0 && Best(log.index, offset).Some? && RightSegment(log, offset)
    requires FirstBatchFits(log, bs, offset, maxBytes)
    ensures Scans(log, bs, offset, maxBytes, m)
  {
    hide Inv, EncodeAll, AllValues, WellFormed, Encode, Cut, Window, Fit, Best, Lookup, Fetch, Concat, Scan, RightSegment;
    var k := HitBatch(log, h, bs, offset);
    assert bs[h.start..|bs|] == bs[h.start..];
    ReadsRight(log, offset, maxBytes, EncodeAll(bs[h.start..]));
    var n := SegmentScan(bs, h.start, k, |bs|, offset, maxBytes);
    FitsSome(log, bs, k, |bs|, offset, maxBytes);
    m := k + n;
  }

  lemma CurrentBatches(h: History, bs: seq<Batch>, i: nat)
    requires Holds(h.all, bs) && GapFree(h.all) && h.start <= |h.all| && i <= |h.Current()|
    ensures Good(bs[h.start..]) && Good(bs[h.start..h.start + i]) && bs[h.start..] == bs[h.start..|bs|]
    ensures Blobs(h.Current()) == EncodeAll(bs[h.start..])
    ensures |Blobs(h.Current()[..i])| == |EncodeAll(bs[h.start..h.start + i])|
    ensures i < |h.Current()| ==> h.Current()[i].base == |AllValues(bs[..h.start + i])|
  {
    hide WellFormed, Encode, CountOf, EncodeAll, AllValues, Blobs, Next;
    var lo := h.start;
    HistoryIsBatches(h.all[lo..], bs[lo..]);
    HistoryIsBatches(h.all[lo..][..i], bs[lo..lo + i]);
    HistoryIsBatches(h.all[..lo + i], bs[..lo + i]);
  }

  /** Otherwise it names the segment with base 0. */
  lemma MissReads(log: Log, h: History, bs: seq<Batch>, offset: int, maxBytes: nat, j: nat) returns (m: nat)
    requires Inv(log, h) && First(log, h, j) && Holds(h.all, bs) && bs != [] && maxBytes > 0
    requires Best(log.index, offset).None? && RightSegment(log, offset) && FirstBatchFits(log, bs, offset, maxBytes)
    ensures Scans(log, bs, offset, maxBytes, m)
  {
    hide Inv, EncodeAll, AllValues, WellFormed, Encode, Cut, Window, Fit, Blobs, Best, Fetch, Concat, Scan, RightSegment;
    FirstBatches(h, bs, j);
    assert bs[0..j] == bs[..j] && bs[0..0] == [] && bs[..0] == [];
    NoValues();
    NothingBefore();
    ReadsRight(log, offset, maxBytes, EncodeAll(bs[..j]));
    m := SegmentScan(bs, 0, 0, j, offset, maxBytes);
    FitsSome(log, bs, 0, j, offset, maxBytes);
  }

  lemma FirstBatches(h: History, bs: seq<Batch>, j: nat)
    requires Holds(h.all, bs) && 0 < j <= |bs|
    ensures Good(bs[..j]) && Blobs(h.all[..j]) == EncodeAll(bs[..j]) && Blobs(h.all[..j]) != []
  {
    hide WellFormed, Encode, CountOf, EncodeAll;
    HistoryIsBatches(h.all[..j], bs[..j]);
    BatchesTakeSpace(bs[..j]);
  }

  lemma NothingBefore()
    ensures |EncodeAll([])| == 0
  {
  }

  lemma ScanIsPrefix(vs: seq<bytes>, offset: int, hi: nat)
    requires hi <= |vs|
    ensures Scan(vs, offset, hi) <= Concat(Drop(vs, offset))
  {
    hide Concat;
    if 0 < offset < hi {
      assert Drop(vs[..hi], offset) == Drop(vs, offset)[..hi - offset];
      ConcatPrefix(Drop(vs, offset), hi - offset);
    } else if offset <= 0 {
      ConcatPrefix(vs, hi);
    } else {
      ConcatNone();
    }
  }

  /** After every run, however often the log rolled: if no segment is open for reading, or the one that is open is the one the
      lookup names, a ranged fetch whose first batch fits the window returns a prefix of the record stream from the offset. */
  lemma RightSegmentGivesPrefix(limit: nat, ops: seq<Op>, bs: seq<Batch>, offset: int, maxBytes: int)
    requires forall op :: op in ops ==> Positive(op)
    requires Holds(Run(limit, ops).1.all, bs) && bs != [] && maxBytes > 0
    requires RightSegment(Run(limit, ops).0, offset) && FirstBatchFits(Run(limit, ops).0, bs, offset, maxBytes)
    ensures Fetch(Run(limit, ops).0, offset, maxBytes).1.Data?
    ensures Fetch(Run(limit, ops).0, offset, maxBytes).1.d <= Concat(Drop(AllValues(bs), offset))
  {
    hide Run, Inv, First, Fetch, AllValues, WellFormed, Encode, Concat, Holds, Scan, RightSegment, FirstBatchFits, Best;
    var (log, h) := Run(limit, ops);
    RunKeeps(limit, ops);
    var m;
    if Best(log.index, offset).Some? {
      m := HitReads(log, h, bs, offset, maxBytes);
    } else {
      var j := RunFirst(limit, ops);
      m := MissReads(log, h, bs, offset, maxBytes, j);
    }
    ScanIsPrefix(AllValues(bs), offset, |AllValues(bs[..m])|);
  }

  // ---- the wrong segment ----

  const OK := Env(true, true)

  /** Two batches with a segment limit of one byte, and a fetch from the start that leaves the first segment open. */
  ghost function TwoSegments(a: Batch, b: Batch, maxBytes: int): seq<Op>
    requires WellFormed(a) && WellFormed(b)
  {
    [ProduceOp(Encode(a), OK), ProduceOp(Encode(b), OK), FetchOp(0, maxBytes)]
  }

  lemma RunSnoc(limit: nat, ops: seq<Op>, op: Op)
    ensures Run(limit, ops + [op]) == (Step(Run(limit, ops).0, op), Track(Run(limit, ops).1, Run(limit, ops).0, op))
  {
    hide Step, Track;
    assert (ops + [op])[..|ops|] == ops;
  }

  /** The log after the first batch, and after the second. */
  function One(x: bytes): Log { Log(1, 1000, 0, |x|, [IndexEntry(0, 0)], map[0 := x], true, None) }

  function Two(x: bytes, y: bytes, n: int): Log
  {
    Log(1, 1000 + n, 1000, |y|, [IndexEntry(1000, 0)], map[0 := x, 1000 := y], true, None)
  }

  lemma FirstProduce(x: bytes)
    requires BatchCount(x) == Some(1000) && |x| > 1
    ensures Run(1, []) == (Empty(1), History([], 0)) && Step(Empty(1), ProduceOp(x, OK)) == One(x)
    ensures Track(History([], 0), Empty(1), ProduceOp(x, OK)) == History([Entry(0, x)], 0)
  {
    hide BatchCount;
    assert [] + x == x;
    assert [] + [Entry(0, x)] == [Entry(0, x)];
    assert Empty(1).index + [IndexEntry(0, 0)] == [IndexEntry(0, 0)];
  }

  lemma SecondProduce(x: bytes, y: bytes, n: int32)
    requires BatchCount(y) == Some(n) && |y| > 1
    ensures Step(One(x), ProduceOp(y, OK)) == Two(x, y, n)
    ensures Track(History([Entry(0, x)], 0), One(x), ProduceOp(y, OK)) == History([Entry(0, x), Entry(1000, y)], 1)
  {
    hide BatchCount;
    assert [] + y == y;
    assert [Entry(0, x)] + [Entry(1000, y)] == [Entry(0, x), Entry(1000, y)];
    assert [] + [IndexEntry(1000, 0)] == [IndexEntry(1000, 0)];
  }

  lemma FetchOpensFirst(x: bytes, y: bytes, n: int, maxBytes: int, h: History)
    requires maxBytes > 0
    ensures Step(Two(x, y, n), FetchOp(0, maxBytes)) == Two(x, y, n).(readSegment := Some(0))
    ensures Track(h, Two(x, y, n), FetchOp(0, maxBytes)) == h
  {
    hide Cut;
  }

  lemma AfterTwo(a: Batch, b: Batch, maxBytes: int)
    requires WellFormed(a) && WellFormed(b) && |a.records| == 1000 && |b.records| >= 1 && maxBytes > 0
    ensures Run(1, TwoSegments(a, b, maxBytes)).0 == Two(Encode(a), Encode(b), |b.records|).(readSegment := Some(0))
    ensures Run(1, TwoSegments(a, b, maxBytes)).1.all == [Entry(0, Encode(a)), Entry(1000, Encode(b))]
  {
    hide Encode, WellFormed, BatchCount, Run;
    SingleBatch(a);
    SingleBatch(b);
    RunThree(Encode(a), Encode(b), |b.records|, maxBytes);
  }

  lemma RunThree(x: bytes, y: bytes, n: int32, maxBytes: int)
    requires BatchCount(x) == Some(1000) && BatchCount(y) == Some(n) && |x| > 1 && |y| > 1 && maxBytes > 0
    ensures Run(1, [ProduceOp(x, OK), ProduceOp(y, OK), FetchOp(0, maxBytes)]) ==
            (Two(x, y, n).(readSegment := Some(0)), History([Entry(0, x), Entry(1000, y)], 1))
  {
    hide BatchCount, Run, Step, Track, One, Two;
    var p, q, f := ProduceOp(x, OK), ProduceOp(y, OK), FetchOp(0, maxBytes);
    assert [] + [p] == [p] && [p] + [q] == [p, q] && [p, q] + [f] == [p, q, f];
    RunSnoc(1, [], p);
    RunSnoc(1, [p], q);
    RunSnoc(1, [p, q], f);
    FirstProduce(x);
    SecondProduce(x, y, n);
    FetchOpensFirst(x, y, n, maxBytes, History([Entry(0, x), Entry(1000, y)], 1));
  }

  lemma WindowOfOne(a: Batch, maxBytes: nat)
    requires WellFormed(a) && |a.records| >= 1 && |Encode(a)| <= ReadLimit(maxBytes)
    ensures Cut(Window(Encode(a), 0, maxBytes), 0, maxBytes) == Data(Take(Concat(ValuesOf(a.records)), maxBytes))
  {
    hide WellFormed, Encode, Cut, ValuesOf, Concat, EncodeAll, AllValues, Fit;
    assert Good([a]) && [a][..1] == [a];
    OneBatch(a);
    CutWindow([a], ReadLimit(maxBytes), 0, maxBytes);
    FitOne(a, ReadLimit(maxBytes));
  }

  lemma FitOne(a: Batch, len: nat)
    requires Good([a]) && |Encode(a)| <= len
    ensures Fit([a], len) == 1
  {
    hide WellFormed, Encode;
    assert Fit([], len - |Encode(a)|) == 0;
  }

  lemma TwoStreams(a: Batch, b: Batch)
    requires WellFormed(a) && WellFormed(b) && |a.records| == 1000 && |b.records| >= 1
    ensures Good([a, b]) && Drop(AllValues([a, b]), 1000) == ValuesOf(b.records)
  {
    hide WellFormed;
    assert AllValues([a, b]) == ValuesOf(a.records) + AllValues([b]);
    assert AllValues([b]) == ValuesOf(b.records) + AllValues([]);
  }

  lemma StartsWith(vs: seq<bytes>)
    requires vs != [] && vs[0] != []
    ensures Concat(vs) != [] && Concat(vs)[0] == vs[0][0]
  {
  }

  /** After that run, a fetch from offset 1000 returns the records at offset 0: not a prefix of the stream from 1000, nor of
      anything that starts with another byte. */
  lemma WrongSegmentGivesOtherRecords(a: Batch, b: Batch, maxBytes: int)
    requires WellFormed(a) && WellFormed(b) && |a.records| == 1000 && |b.records| >= 1
    requires maxBytes > 0 && |Encode(a)| <= ReadLimit(maxBytes)
    requires var x, y := ValuesOf(a.records)[0], ValuesOf(b.records)[0]; x != [] && y != [] && x[0] != y[0]
    ensures var log := Run(1, TwoSegments(a, b, maxBytes)).0;
            && Holds(Run(1, TwoSegments(a, b, maxBytes)).1.all, [a, b])
            && !RightSegment(log, 1000)
            && Fetch(log, 1000, maxBytes).1 == Data(Take(Concat(ValuesOf(a.records)), maxBytes))
            && !(Fetch(log, 1000, maxBytes).1.d <= Concat(Drop(AllValues([a, b]), 1000)))
  {
    hide Run, WellFormed, Encode, Cut, Concat, AllValues, TwoSegments, Window;
    AfterTwo(a, b, maxBytes);
    WindowOfOne(a, maxBytes);
    TwoStreams(a, b);
    StartsWith(ValuesOf(a.records));
    StartsWith(ValuesOf(b.records));
    var log := Run(1, TwoSegments(a, b, maxBytes)).0;
    assert Best([], 1000).None?;
    assert Best(log.index, 1000) == Some(IndexEntry(1000, 0)) && log.index[0].offset == 1000;
  }

  // ---- at one input ----

  /** A record with a one-byte value. */
  function Small(x: byte): Record { Record(8, 0, 0, 0, None, Some([x])) }

  function Smalls(n: nat, x: byte): (rs: seq<Record>)
    ensures |rs| == n && forall i :: 0 <= i < n ==> rs[i] == Small(x)
  {
    if n == 0 then [] else [Small(x)] + Smalls(n - 1, x)
  }

  function SmallBatch(n: nat, x: byte): Batch { Batch(0, 0, 0, 0, 0, 0, 0, 0, 0, Smalls(n, x)) }

  lemma SmallSize(x: byte, rest: bytes)
    ensures |PutRecord(Small(x), rest)| == 8 + |rest|
  {
    hide PutInt8, PutBytes, PutVarint;
    PutSizes();
    assert VarintSize(16) == 1 && VarintSize(2) == 1;
  }

  lemma {:induction false} SmallSizes(n: nat, x: byte)
    ensures |PutItems(PutRecord, Smalls(n, x), [])| == 8 * n
  {
    hide PutRecord, Small;
    if n > 0 {
      assert Smalls(n, x)[1..] == Smalls(n - 1, x);
      SmallSizes(n - 1, x);
      SmallSize(x, PutItems(PutRecord, Smalls(n - 1, x), []));
    }
  }

  lemma SmallBatchSize(n: nat, x: byte)
    requires n <= 1000
    ensures WellFormed(SmallBatch(n, x)) && |Encode(SmallBatch(n, x))| == 57 + 8 * n
  {
    hide PutInt8, PutInt16, PutInt32, PutInt64, PutItems;
    PutSizes();
    SmallSizes(n, x);
  }

  /** A thousand records "a" and one "b": from offset 1000 the fetch returns "a"s. */
  lemma WrongSegmentExample()
    ensures var a, b := SmallBatch(1000, 97), SmallBatch(1, 98);
            && WellFormed(a) && WellFormed(b)
            && var log := Run(1, TwoSegments(a, b, 5000)).0;
               && Fetch(log, 1000, 5000).1.Data?
               && !(Fetch(log, 1000, 5000).1.d <= Concat(Drop(AllValues([a, b]), 1000)))
  {
    hide Run, WellFormed, Encode, Fetch, Concat, AllValues, TwoSegments;
    SmallBatchSize(1000, 97);
    SmallBatchSize(1, 98);
    WrongSegmentGivesOtherRecords(SmallBatch(1000, 97), SmallBatch(1, 98), 5000);
  }
}
