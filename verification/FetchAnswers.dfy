/** What a ranged fetch and a splice answer with, over every run: the record asked for, when the window reaches it, and the
    file range from the last indexed batch at or below the offset. */
module FetchAnswers {
  import opened Bytes
  import opened Storage
  import opened RecordBatch
  import opened PartitionLog
  import opened IndexedFetch
  import opened RolledFetch

  // ---- the record asked for ----

  /** Some batch of the current segment is indexed at or below the offset, so the lookup has an entry. */
  lemma LookupHits(log: Log, h: History, bs: seq<Batch>, k: nat, offset: int)
    requires Inv(log, h) && Holds(h.all, bs) && IsStart(bs, h.start, k, offset)
    ensures Best(log.index, offset).Some?
  {
    hide EncodeAll, AllValues, WellFormed, Encode, Blobs, Next, IndexOf, Best, Ascending, GapFree;
    BasesIncrease(h.all, h.start);
    var i := StartBatch(h.Current(), offset);
    CurrentBatches(h, bs, k - h.start);
    assert h.Current()[k - h.start].base == BaseOf(bs, k);
  }

  lemma StartIsUnique(bs: seq<Batch>, lo: nat, k: nat, i: nat, offset: int)
    requires IsStart(bs, lo, k, offset) && IsStart(bs, lo, i, offset)
    ensures k == i
  {
    hide AllValues;
  }

  /** A batch that ends inside the window is among the whole ones. */
  lemma ReachesBatch(bs: seq<Batch>, k: nat, j: nat, n: nat, maxBytes: nat)
    requires WholeInWindow(bs, k, |bs|, n, maxBytes) && k <= j < |bs| && Good(bs[k..j + 1]) && |EncodeAll(bs[k..j + 1])| <= WindowSize(maxBytes)
    ensures k + n > j
  {
    hide EncodeAll, AllValues, WellFormed, Encode;
    if k + n <= j {
      assert bs[k..j + 1][..n + 1] == bs[k..k + n + 1];
      Split(bs[k..j + 1], n + 1);
    }
  }

  lemma {:induction false} ValuesGrow(bs: seq<Batch>, i: nat, j: nat)
    requires Good(bs) && i <= j <= |bs|
    ensures BaseOf(bs, i) <= BaseOf(bs, j) <= |AllValues(bs)|
  {
    hide AllValues, EncodeAll, WellFormed;
    if i < j {
      MoreValues(bs, i, j);
    }
    if j < |bs| {
      MoreValues(bs, j, |bs|);
    }
    assert bs[..|bs|] == bs;
  }

  /** What a scan from `offset` cut to `maxBytes` looks like from outside. */
  lemma ScanStarts(vs: seq<bytes>, offset: nat, hi: nat, maxBytes: nat)
    requires offset < hi <= |vs|
    ensures var d, v := Take(Scan(vs, offset, hi), maxBytes), vs[offset];
            && d <= Concat(vs[offset..]) && |d| <= maxBytes
            && (if |v| <= maxBytes then v <= d else d == v[..maxBytes])
            && (|d| < maxBytes ==> d == Concat(vs[offset..hi]))
  {
    hide Concat;
    var some, all := vs[offset..hi], vs[offset..];
    assert Drop(vs[..hi], offset) == some && Drop(vs, offset) == all;
    ScanIsPrefix(vs, offset, hi);
    ConcatHead(some);
  }

  lemma ConcatHead(vs: seq<bytes>)
    requires vs != []
    ensures vs[0] <= Concat(vs)
  {
  }

  /** After every run: if the segment the lookup names is the one read and the batch holding `offset` ends inside the window
      that starts at the last indexed batch at or below it, the fetch returns records from `offset` on: the value of record
      `offset` first, then those that follow, up to `maxBytes` bytes or to the end of the last whole batch in the window. */
  lemma FetchFindsTheRecord(limit: nat, ops: seq<Op>, bs: seq<Batch>, k: nat, j: nat, offset: nat, maxBytes: nat) returns (m: nat)
    requires (forall op :: op in ops ==> Positive(op)) && Holds(Run(limit, ops).1.all, bs) && maxBytes > 0
    requires RightSegment(Run(limit, ops).0, offset) && IsStart(bs, Run(limit, ops).1.start, k, offset)
    requires k <= j < |bs| && BaseOf(bs, j) <= offset < BaseOf(bs, j + 1)
    requires Good(bs[k..j + 1]) && |EncodeAll(bs[k..j + 1])| <= WindowSize(maxBytes)
    ensures j < m <= |bs| && WholeInWindow(bs, k, |bs|, m - k, maxBytes) && offset < BaseOf(bs, m) <= |AllValues(bs)|
    ensures Fetch(Run(limit, ops).0, offset, maxBytes).1.Data?
    ensures var d, vs := Fetch(Run(limit, ops).0, offset, maxBytes).1.d, AllValues(bs);
            && d <= Concat(vs[offset..]) && |d| <= maxBytes
            && (if |vs[offset]| <= maxBytes then vs[offset] <= d else d == vs[offset][..maxBytes])
            && (|d| < maxBytes ==> d == Concat(vs[offset..BaseOf(bs, m)]))
  {
    hide Run, Inv, EncodeAll, AllValues, WellFormed, Encode, Cut, Window, Fit, Best, Lookup, Fetch, Concat, Scan, RightSegment,
         IsStart, WholeInWindow, Holds, Take;
    var (log, h) := Run(limit, ops);
    RunKeeps(limit, ops);
    LookupHits(log, h, bs, k, offset);
    m := ReadFrom(log, h, bs, k, offset, maxBytes);
    ReachesBatch(bs, k, j, m - k, maxBytes);
    ValuesGrow(bs, j + 1, m);
    ScanStarts(AllValues(bs), offset, BaseOf(bs, m), maxBytes);
  }

  lemma ReadFrom(log: Log, h: History, bs: seq<Batch>, k: nat, offset: nat, maxBytes: nat) returns (m: nat)
    requires Inv(log, h) && Holds(h.all, bs) && maxBytes > 0 && Best(log.index, offset).Some? && RightSegment(log, offset)
    requires IsStart(bs, h.start, k, offset)
    ensures Good(bs) && k <= m <= |bs| && WholeInWindow(bs, k, |bs|, m - k, maxBytes) && BaseOf(bs, m) <= |AllValues(bs)|
    ensures m > k ==> Fetch(log, offset, maxBytes).1 == Data(Take(Scan(AllValues(bs), offset, BaseOf(bs, m)), maxBytes))
  {
    hide Inv, EncodeAll, AllValues, WellFormed, Encode, Cut, Window, Fit, Best, Lookup, Fetch, Concat, Scan, RightSegment, IsStart,
         WholeInWindow, Take;
    var i := HitBatch(log, h, bs, offset);
    StartIsUnique(bs, h.start, k, i, offset);
    assert bs[h.start..|bs|] == bs[h.start..] && bs[k..|bs|] == bs[k..];
    ReadsRight(log, offset, maxBytes, EncodeAll(bs[h.start..]));
    var n := SegmentScan(bs, h.start, k, |bs|, offset, maxBytes);
    FitIsWindow(bs, k, |bs|, maxBytes);
    m := k + n;
  }

  /** A log that has not rolled always reads the segment the lookup names, and always has an indexed batch to start from. */
  lemma UnrolledStarts(limit: nat, ops: seq<Op>, bs: seq<Batch>, offset: nat) returns (k: nat)
    requires (forall op :: op in ops ==> Positive(op)) && Holds(Run(limit, ops).1.all, bs) && bs != [] && Run(limit, ops).1.start == 0
    ensures RightSegment(Run(limit, ops).0, offset) && IsStart(bs, 0, k, offset)
  {
    hide Run, Inv, Holds, IsStart;
    var (log, h) := Run(limit, ops);
    RunKeeps(limit, ops);
    k := StartOfWhole(log, h, bs, offset);
    WholeFile(log, h, bs);
  }

  // ---- the spliced range ----

  /** After every run and for a positive limit, a splice covers the current file from the last indexed batch at or below the
      offset (its start if there is none), up to `maxBytes` bytes or to its end, and is offered exactly when the file is open
      and at least 65536 bytes lie behind that batch. */
  lemma SpliceCoversFromTheIndex(limit: nat, ops: seq<Op>, offset: int, maxBytes: int32) returns (i: nat)
    requires (forall op :: op in ops ==> Positive(op)) && maxBytes > 0
    ensures Lookup(Run(limit, ops).0, offset).0 <= Run(limit, ops).0.segBytes
    ensures var (log, h) := Run(limit, ops);
            var current := h.Current();
            && i <= |current| && (i > 0 ==> i < |current| && current[i].base % 1000 == 0 && current[i].base <= offset)
            && (forall j :: i < j < |current| && current[j].base % 1000 == 0 ==> current[j].base > offset)
            && var size, p := |Blobs(current)|, |Blobs(current[..i])|;
               match SpliceInfo(log, offset, maxBytes)
               case None => current == [] || size - p < 65536
               case Some((from, len)) =>
                 current != [] && from == p && size - p >= 65536 && len <= maxBytes && p + len <= size && (len == maxBytes || p + len == size)
  {
    hide Run, Blobs, Next, GapFree, IndexOf, Best, Ascending;
    var (log, h) := Run(limit, ops);
    RunKeeps(limit, ops);
    SpliceStaysInBounds(limit, ops, offset);
    BasesIncrease(h.all, h.start);
    i := StartBatch(h.Current(), offset);
    assert h.Current()[..0] == [];
    NoBlobs();
  }
}
