/** The indexed, windowed fetch of a log that has not rolled returns what a scan over all its
    records would. */
module IndexedFetch {
  import opened Bytes
  import opened Storage
  import opened RecordBatch
  import opened PartitionLog

  // ---- batches as a list ----

  ghost predicate Good(bs: seq<Batch>)
  {
    forall b :: b in bs ==> WellFormed(b) && |b.records| >= 1
  }

  /** The accepted blobs are the encodings of `bs`, one batch each. */
  ghost predicate Holds(es: seq<Entry>, bs: seq<Batch>)
  {
    Good(bs) && |es| == |bs| && forall i :: 0 <= i < |es| ==> es[i].blob == Encode(bs[i])
  }

  lemma {:induction false} EncodeAllAppend(a: seq<Batch>, b: seq<Batch>)
    requires Good(a) && Good(b)
    ensures Good(a + b) && EncodeAll(a + b) == EncodeAll(a) + EncodeAll(b)
    ensures AllValues(a + b) == AllValues(a) + AllValues(b)
  {
    hide Encode, WellFormed, ValuesOf;
    if a == [] {
      assert a + b == b;
    } else {
      assert (a + b)[1..] == a[1..] + b;
      EncodeAllAppend(a[1..], b);
    }
  }

  lemma Split(bs: seq<Batch>, k: nat)
    requires Good(bs) && k <= |bs|
    ensures EncodeAll(bs) == EncodeAll(bs[..k]) + EncodeAll(bs[k..])
    ensures AllValues(bs) == AllValues(bs[..k]) + AllValues(bs[k..])
  {
    hide EncodeAll, AllValues, WellFormed;
    assert bs == bs[..k] + bs[k..];
    EncodeAllAppend(bs[..k], bs[k..]);
  }

  lemma OneBatch(b: Batch)
    requires WellFormed(b)
    ensures EncodeAll([b]) == Encode(b) && AllValues([b]) == ValuesOf(b.records)
  {
    hide Encode, WellFormed, ValuesOf;
  }

  lemma LastBatch(bs: seq<Batch>, e: Entry)
    requires Good(bs) && bs != [] && e.blob == Encode(bs[|bs| - 1])
    ensures EncodeAll(bs) == EncodeAll(bs[..|bs| - 1]) + e.blob
    ensures |AllValues(bs)| == |AllValues(bs[..|bs| - 1])| + CountOf(e)
  {
    hide WellFormed, Encode, EncodeAll, AllValues, BatchCount, ValuesOf;
    var n := |bs| - 1;
    Split(bs, n);
    assert bs[n..] == [bs[n]];
    OneBatch(bs[n]);
    SingleBatch(bs[n]);
  }

  /** Positions and offsets of the history are positions and offsets in the list of batches. */
  lemma {:induction false} HistoryIsBatches(es: seq<Entry>, bs: seq<Batch>)
    requires Holds(es, bs)
    ensures Blobs(es) == EncodeAll(bs) && Next(es) == |AllValues(bs)|
    decreases |es|
  {
    hide WellFormed, Encode, CountOf, ValuesOf;
    if es != [] {
      var n := |es| - 1;
      HistoryIsBatches(es[..n], bs[..n]);
      LastBatch(bs, es[n]);
    }
  }

  // ---- the window ----

  /** How many whole batches lie in the first `len` bytes. */
  ghost function Fit(bs: seq<Batch>, len: nat): nat
    requires Good(bs)
  {
    if bs == [] || |Encode(bs[0])| > len then 0 else 1 + Fit(bs[1..], len - |Encode(bs[0])|)
  }

  /** A window over batches is whole batches and a cut one. */
  lemma {:induction false} WindowSplits(bs: seq<Batch>, len: nat) returns (tail: bytes)
    requires Good(bs)
    ensures Fit(bs, len) <= |bs| && Good(bs[..Fit(bs, len)])
    ensures Take(EncodeAll(bs), len) == EncodeAll(bs[..Fit(bs, len)]) + tail && CutBatch(tail)
    decreases |bs|
  {
    hide WellFormed, Encode;
    if bs == [] {
      tail := [];
    } else if |Encode(bs[0])| > len {
      tail := Take(EncodeAll(bs), len);
      assert tail < Encode(bs[0]);
    } else {
      var e, n := Encode(bs[0]), Fit(bs[1..], len - |Encode(bs[0])|);
      tail := WindowSplits(bs[1..], len - |e|);
      assert bs[..1 + n][1..] == bs[1..][..n];
      assert Take(EncodeAll(bs), len) == e + Take(EncodeAll(bs[1..]), len - |e|);
    }
  }

  lemma {:induction false} ManyValues(bs: seq<Batch>)
    requires Good(bs)
    ensures |bs| <= |AllValues(bs)|
  {
    hide WellFormed;
    if bs != [] {
      ManyValues(bs[1..]);
    }
  }

  /** What `Cut` makes of a window that starts at a batch boundary. */
  lemma CutWindow(bs: seq<Batch>, len: nat, skip: int, maxBytes: nat)
    requires Good(bs)
    ensures Fit(bs, len) <= |bs| && Good(bs[..Fit(bs, len)])
    ensures Cut(Take(EncodeAll(bs), len), skip, maxBytes) ==
            if Fit(bs, len) == 0 then Data(Take(Take(EncodeAll(bs), len), maxBytes))
            else Data(Take(Concat(Drop(AllValues(bs[..Fit(bs, len)]), skip)), maxBytes))
  {
    hide EncodeAll, AllValues, WellFormed, Fit;
    var tail := WindowSplits(bs, len);
    var whole := bs[..Fit(bs, len)];
    assert forall b :: b in whole ==> WellFormed(b);
    ParseIsHomomorphic(whole, tail);
    ManyValues(whole);
    if |whole| == 0 {
      NoValues();
    }
  }

  lemma NoValues()
    ensures AllValues([]) == []
  {
  }

  // ---- the start of the window ----

  /** The batch the lookup starts from: of those whose base is a multiple of the interval, the last at or below the offset. */
  lemma StartBatch(es: seq<Entry>, offset: int) returns (k: nat)
    requires forall i, j :: 0 <= i < j < |es| ==> es[i].base < es[j].base
    ensures k <= |es|
    ensures var best := Best(IndexOf(es), offset);
            && (best.None? ==> k == 0 && forall j :: 0 <= j < |es| && es[j].base % SPARSE_INDEX_INTERVAL == 0 ==> es[j].base > offset)
            && (best.Some? ==>
                  && k < |es| && es[k].base == best.value.offset <= offset && es[k].base % SPARSE_INDEX_INTERVAL == 0
                  && best.value.position == |Blobs(es[..k])|
                  && forall j :: k < j < |es| && es[j].base % SPARSE_INDEX_INTERVAL == 0 ==> es[j].base > offset)
  {
    hide Blobs, IndexOf, Best;
    var index, best := IndexOf(es), Best(IndexOf(es), offset);
    IndexIncreases(es);
    BestIsClosest(index, offset);
    k := 0;
    if best.Some? {
      IndexMembers(es, best.value);
      k :| 0 <= k < |es| && es[k].base % SPARSE_INDEX_INTERVAL == 0
           && best.value == IndexEntry(es[k].base, |Blobs(es[..k])|);
    }
    forall j | 0 <= j < |es| && es[j].base % SPARSE_INDEX_INTERVAL == 0
      ensures IndexEntry(es[j].base, |Blobs(es[..j])|) in index
    {
      IndexMembers(es, IndexEntry(es[j].base, |Blobs(es[..j])|));
    }
  }

  /** The offset of the first record of batch `j`. */
  function BaseOf(bs: seq<Batch>, j: nat): nat
    requires j <= |bs|
  {
    |AllValues(bs[..j])|
  }

  /** Batch `k` is the last, from batch `lo` on, whose base offset is a multiple of 1000 and not above `offset`. */
  ghost predicate IsStart(bs: seq<Batch>, lo: nat, k: nat, offset: int)
  {
    && lo <= k < |bs| && BaseOf(bs, k) % 1000 == 0 && BaseOf(bs, k) <= offset
    && forall j :: k < j < |bs| && BaseOf(bs, j) % 1000 == 0 ==> BaseOf(bs, j) > offset
  }

  /** The bytes a fetch reads: twice the limit, at most 10 MiB. */
  function WindowSize(maxBytes: nat): nat { if maxBytes < 5_242_880 then 2 * maxBytes else 10_485_760 }

  /** Exactly `n` batches from batch `k` on lie whole in the window, of those before batch `up`. */
  ghost predicate WholeInWindow(bs: seq<Batch>, k: nat, up: nat, n: nat, maxBytes: nat)
  {
    && Good(bs) && k + n <= up <= |bs|
    && |EncodeAll(bs[k..k + n])| <= WindowSize(maxBytes)
    && (k + n < up ==> |EncodeAll(bs[k..k + n + 1])| > WindowSize(maxBytes))
  }

  lemma {:induction false} FitIsWhole(bs: seq<Batch>, len: nat)
    requires Good(bs)
    ensures Fit(bs, len) <= |bs| && |EncodeAll(bs[..Fit(bs, len)])| <= len
    ensures Fit(bs, len) < |bs| ==> |EncodeAll(bs[..Fit(bs, len) + 1])| > len
  {
    hide Encode, WellFormed;
    if bs == [] {
      assert EncodeAll([]) == [];
    } else if |Encode(bs[0])| > len {
      assert bs[..0] == [] && bs[..1] == [bs[0]];
      assert EncodeAll([]) == [];
      OneBatch(bs[0]);
    } else {
      var n := Fit(bs[1..], len - |Encode(bs[0])|);
      FitIsWhole(bs[1..], len - |Encode(bs[0])|);
      assert bs[..n + 1][1..] == bs[1..][..n];
      if n < |bs| - 1 {
        assert bs[..n + 2][1..] == bs[1..][..n + 1];
      }
    }
  }

  lemma FitIsWindow(bs: seq<Batch>, k: nat, up: nat, maxBytes: nat)
    requires Good(bs) && k <= up <= |bs|
    ensures Good(bs[k..up]) && WholeInWindow(bs, k, up, Fit(bs[k..up], ReadLimit(maxBytes)), maxBytes)
  {
    hide Encode, WellFormed, EncodeAll, Fit;
    FitIsWhole(bs[k..up], ReadLimit(maxBytes));
    var n := Fit(bs[k..up], ReadLimit(maxBytes));
    assert bs[k..up][..n] == bs[k..k + n];
    if k + n < up {
      assert bs[k..up][..n + 1] == bs[k..k + n + 1];
    }
  }

  /** The records `offset, ..., hi - 1` of the stream `vs`. */
  function Scan(vs: seq<bytes>, offset: int, hi: nat): bytes
    requires hi <= |vs|
  {
    Concat(Drop(vs[..hi], offset))
  }

  /** Dropping from the batch on and then the rest is dropping by offset. */
  lemma DropShift(vs: seq<bytes>, before: nat, hi: nat, offset: int)
    requires before <= hi <= |vs| && (before == 0 || before <= offset)
    ensures Drop(vs[before..hi], offset - before) == Drop(vs[..hi], offset)
  {
  }

  /** In any log that has not rolled, holding well-formed single-batch blobs, a ranged fetch starts at the last batch `k`
      with a base that is a multiple of 1000 and not above `offset`, and returns the first `maxBytes` bytes of the records
      from `offset` to the end of the last of the `n` batches that lie whole in the window from there; with none it returns
      raw bytes. */
  lemma IndexedFetchRefinesScan(log: Log, h: History, bs: seq<Batch>, offset: int, maxBytes: int)
    returns (k: nat, n: nat)
    requires Inv(log, h) && h.start == 0 && Holds(h.all, bs) && bs != [] && maxBytes > 0
    ensures if offset < 0 then k == 0 else IsStart(bs, 0, k, offset)
    ensures WholeInWindow(bs, k, |bs|, n, maxBytes) && Good(bs[k..]) && Good(bs[..k + n]) && n == Fit(bs[k..], ReadLimit(maxBytes))
    ensures var file, hi := EncodeAll(bs), |AllValues(bs[..k + n])|;
            && Lookup(log, offset).0 == |EncodeAll(bs[..k])| <= |file|
            && hi <= |AllValues(bs)|
            && Fetch(log, offset, maxBytes).1 ==
               if n > 0 then Data(Take(Scan(AllValues(bs), offset, hi), maxBytes))
               else Data(Take(Window(file, |EncodeAll(bs[..k])|, maxBytes), maxBytes))
  {
    hide EncodeAll, AllValues, WellFormed, Encode, Cut, Fit, Blobs, Next, IndexOf, Best, Ascending, Concat, GapFree, IsStart,
         WholeInWindow, Scan, Take, Drop;
    k := StartOfWhole(log, h, bs, offset);
    WholeFile(log, h, bs);
    PrefixHolds(h, bs, k);
    Split(bs, k);
    assert bs[k..|bs|] == bs[k..];
    n := Fit(bs[k..], ReadLimit(maxBytes));
    FitIsWindow(bs, k, |bs|, maxBytes);
    var position := |EncodeAll(bs[..k])|;
    DropPrefix(EncodeAll(bs[..k]), EncodeAll(bs[k..]));
    CutWindow(bs[k..], ReadLimit(maxBytes), offset - Lookup(log, offset).1, maxBytes);
    WholeBound(bs, k, |bs|, n, maxBytes);
    SplitValues(bs, k, n);
    if n > 0 {
      DropShift(AllValues(bs), |AllValues(bs[..k])|, |AllValues(bs[..k + n])|, offset);
      ScanIsDrop(AllValues(bs), offset, |AllValues(bs[..k + n])|);
    }
  }

  lemma WholeBound(bs: seq<Batch>, k: nat, up: nat, n: nat, maxBytes: nat)
    requires WholeInWindow(bs, k, up, n, maxBytes)
    ensures k + n <= up <= |bs|
  {
  }

  lemma ScanIsDrop(vs: seq<bytes>, offset: int, hi: nat)
    requires hi <= |vs|
    ensures Scan(vs, offset, hi) == Concat(Drop(vs[..hi], offset))
  {
  }

  lemma DropPrefix(a: bytes, b: bytes)
    ensures Drop(a + b, |a|) == b
  {
  }

  lemma StartOfWhole(log: Log, h: History, bs: seq<Batch>, offset: int) returns (k: nat)
    requires Inv(log, h) && h.start == 0 && Holds(h.all, bs) && bs != []
    ensures k < |bs| && (if offset < 0 then k == 0 else IsStart(bs, 0, k, offset))
    ensures Good(bs[..k]) && (k == 0 || BaseOf(bs, k) <= offset)
    ensures Lookup(log, offset).0 == |EncodeAll(bs[..k])| && Lookup(log, offset).1 == BaseOf(bs, k)
  {
    hide EncodeAll, AllValues, WellFormed, Encode, Blobs, Next, IndexOf, Best, Ascending, GapFree;
    assert h.Current() == h.all;
    BasesIncrease(h.all, 0);
    assert h.all[0..] == h.all;
    k := StartBatch(h.all, offset);
    forall j | 0 <= j < |bs|
      ensures h.all[j].base == BaseOf(bs, j) && Good(bs[..j]) && |Blobs(h.all[..j])| == |EncodeAll(bs[..j])|
      ensures j == 0 ==> BaseOf(bs, j) == 0 && |EncodeAll(bs[..j])| == 0
    {
      PrefixHolds(h, bs, j);
    }
    assert h.all[0].base == 0;
  }

  lemma SplitValues(bs: seq<Batch>, k: nat, n: nat)
    requires Good(bs) && k + n <= |bs|
    ensures Good(bs[..k]) && Good(bs[..k + n])
    ensures |AllValues(bs[..k])| <= |AllValues(bs[..k + n])| <= |AllValues(bs)|
    ensures AllValues(bs[k..][..n]) == AllValues(bs)[|AllValues(bs[..k])|..|AllValues(bs[..k + n])|]
  {
    hide AllValues, EncodeAll, WellFormed;
    Split(bs, k + n);
    Split(bs[..k + n], k);
    assert bs[..k + n][..k] == bs[..k] && bs[..k + n][k..] == bs[k..][..n];
  }

  lemma WholeFile(log: Log, h: History, bs: seq<Batch>)
    requires Inv(log, h) && h.start == 0 && Holds(h.all, bs) && bs != []
    ensures log.segBase == 0 && log.index == IndexOf(h.all)
    ensures 0 in log.files && log.files[0] == EncodeAll(bs)
    ensures log.readSegment.None? || log.readSegment == Some(0)
  {
    hide EncodeAll, WellFormed, Encode, Blobs, IndexOf, Ascending, GapFree;
    assert h.Current() == h.all;
    HistoryIsBatches(h.all, bs);
  }

  lemma PrefixHolds(h: History, bs: seq<Batch>, k: nat)
    requires Holds(h.all, bs) && GapFree(h.all) && k <= |bs|
    ensures Good(bs[..k]) && Good(bs[k..])
    ensures |Blobs(h.all[..k])| == |EncodeAll(bs[..k])|
    ensures k < |bs| ==> h.all[k].base == |AllValues(bs[..k])|
    ensures k == 0 ==> |EncodeAll(bs[..k])| == 0 && |AllValues(bs[..k])| == 0
  {
    hide WellFormed, Encode, CountOf;
    HistoryIsBatches(h.all[..k], bs[..k]);
  }

  lemma {:induction false} ConcatPrefix(vs: seq<bytes>, n: nat)
    requires n <= |vs|
    ensures Concat(vs[..n]) <= Concat(vs)
  {
    assert vs == vs[..n] + vs[n..];
    ConcatAppend(vs[..n], vs[n..]);
  }

  /** So the bytes returned are always a prefix of the true record stream from `offset`. */
  lemma FetchIsPrefixOfStream(limit: nat, ops: seq<Op>, bs: seq<Batch>, offset: int, maxBytes: int)
    requires forall op :: op in ops ==> Positive(op)
    requires Run(limit, ops).1.start == 0 && Holds(Run(limit, ops).1.all, bs) && bs != [] && maxBytes > 0
    requires WholeBatchInWindow(Run(limit, ops).0, bs, offset, maxBytes)
    ensures Fetch(Run(limit, ops).0, offset, maxBytes).1.Data?
    ensures Fetch(Run(limit, ops).0, offset, maxBytes).1.d <= Concat(Drop(AllValues(bs), offset))
  {
    hide Run, Inv, Fetch, AllValues, EncodeAll, WellFormed, Encode, Fit, Lookup, Concat, Holds;
    var (log, h) := Run(limit, ops);
    RunKeeps(limit, ops);
    var k, n := IndexedFetchRefinesScan(log, h, bs, offset, maxBytes);
    WindowNotEmpty(bs, k, offset, maxBytes, log);
    var vs, hi := AllValues(bs), |AllValues(bs[..k + n])|;
    if 0 < offset < hi {
      assert Drop(vs[..hi], offset) == Drop(vs, offset)[..hi - offset];
      ConcatPrefix(Drop(vs, offset), hi - offset);
    } else if offset <= 0 {
      ConcatPrefix(vs, hi);
    } else {
      ConcatNone();
    }
  }

  /** The batch at the position looked up ends inside the window. */
  ghost predicate WholeBatchInWindow(log: Log, bs: seq<Batch>, offset: int, maxBytes: int)
    requires maxBytes > 0
  {
    Good(bs) &&
    exists k :: 0 <= k < |bs| && Lookup(log, offset).0 == |EncodeAll(bs[..k])| && |Encode(bs[k])| <= ReadLimit(maxBytes)
  }

  lemma WindowNotEmpty(bs: seq<Batch>, k: nat, offset: int, maxBytes: int, log: Log)
    requires maxBytes > 0 && WholeBatchInWindow(log, bs, offset, maxBytes)
    requires k <= |bs| && Good(bs) && Good(bs[k..]) && Lookup(log, offset).0 == |EncodeAll(bs[..k])|
    ensures Fit(bs[k..], ReadLimit(maxBytes)) > 0
  {
    hide Encode, WellFormed, Lookup, EncodeAll;
    var j :| 0 <= j < |bs| && Lookup(log, offset).0 == |EncodeAll(bs[..j])| && |Encode(bs[j])| <= ReadLimit(maxBytes);
    if j < k {
      Longer(bs, j, k);
    } else if k < j {
      Longer(bs, k, j);
    }
  }

  lemma Longer(bs: seq<Batch>, i: nat, j: nat)
    requires Good(bs) && i < j <= |bs|
    ensures |EncodeAll(bs[..i])| < |EncodeAll(bs[..j])|
  {
    hide EncodeAll, AllValues, WellFormed;
    Split(bs[..j], i);
    assert bs[..j][..i] == bs[..i];
    BatchesTakeSpace(bs[..j][i..]);
  }

  lemma BatchesTakeSpace(bs: seq<Batch>)
    requires Good(bs) && bs != []
    ensures |EncodeAll(bs)| > 0
  {
    hide Encode, WellFormed;
    SingleBatch(bs[0]);
  }
}
