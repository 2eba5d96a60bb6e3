/** `PartitionContext` (src/broker/partition_context.hpp) as the object it is, over a directory of
    named segment files; each method is the step of the same name on `PartitionLog.Log`. */
module PartitionContext {
  import opened Bytes
  import opened Storage
  import opened RecordBatch
  import L = PartitionLog

  /** A 64-bit offset that one more batch cannot overflow. */
  predicate NoOverflow(offset: int) { -TWO_63 + TWO_31 <= offset < TWO_63 - TWO_31 }

  class PartitionContext {
    const segmentBytes: nat
    var nextOffset: int64
    var segBase: int64
    var segBytes: nat
    var index: seq<L.IndexEntry>
    var dir: Directory
    var writeOpen: bool
    var readSegment: Option<int64>

    ghost predicate Valid()
      reads this
    {
      Own(dir)
    }

    ghost function State(): L.Log
      requires Valid()
      reads this
    {
      L.Log(segmentBytes, nextOffset, segBase, segBytes, index, Segments(dir), writeOpen, readSegment)
    }

    constructor (segmentBytes: nat)
      ensures Valid() && State() == L.Empty(segmentBytes) && this.segmentBytes == segmentBytes
    {
      this.segmentBytes := segmentBytes;
      nextOffset, segBase, segBytes, index, dir := 0, 0, 0, [], map[];
      writeOpen, readSegment := false, None;
      new;
      assert Segments(dir) == map[];
    }

    /** Returns the base offset given to the blob, or -1. */
    method Produce(blob: bytes, env: L.Env) returns (base: int64)
      requires Valid() && NoOverflow(nextOffset)
      modifies this
      ensures Valid() && State() == L.Produce(old(State()), blob, env).0
      ensures base == if L.Produce(old(State()), blob, env).1.None? then -1 else L.Produce(old(State()), blob, env).1.value
    {
      hide Segments, Own, BatchCount, SegmentName;
      var count := RecordBatchCount(blob);
      if count.None? || !env.dirOk {
        return -1;
      }
      if segmentBytes > 0 && segBytes + |blob| > segmentBytes {
        writeOpen, readSegment := false, None;
        segBase, segBytes, index := nextOffset, 0, [];
      }
      if !writeOpen {
        if !env.openOk {
          return -1;
        }
        writeOpen := true;
      }
      if nextOffset % L.SPARSE_INDEX_INTERVAL == 0 {
        index := index + [L.IndexEntry(nextOffset, segBytes)];
      }
      AppendToFile(blob);
      base := nextOffset;
      segBytes := segBytes + |blob|;
      nextOffset := nextOffset + count.value;
    }

    /** A write through the descriptor of the current segment. */
    method AppendToFile(blob: bytes)
      requires Valid()
      modifies this`dir
      ensures Valid()
      ensures Segments(dir) == old(Segments(dir))[segBase := Content(old(Segments(dir)), segBase) + blob]
    {
      var name := SegmentName(segBase);
      var content := if name in dir then dir[name] else [];
      SegmentsUpdate(dir, segBase, content + blob);
      dir := dir[name := content + blob];
    }

    method FetchAll() returns (result: bytes)
      requires Valid()
      ensures result == L.FetchAll(State())
    {
      var all := ReadTopicLog(dir);
      result := all.value;
    }

    /** The index scan shared by fetch and splice_info. */
    method FindBest(offset: int) returns (best: Option<L.IndexEntry>)
      requires Valid()
      ensures best == L.Best(index, offset)
    {
      best := None;
      var i := 0;
      while i < |index|
        invariant 0 <= i <= |index|
        invariant L.Best(index, offset) ==
                  if L.Best(index[i..], offset).Some? then L.Best(index[i..], offset) else best
      {
        if index[i].offset > offset {
          break;
        }
        best := Some(index[i]);
        assert index[i..][1..] == index[i + 1..];
        i := i + 1;
      }
    }

    method EnsureReadFd(segment: int64)
      requires Valid()
      modifies this`readSegment
      ensures State() == L.OpenRead(old(State()), segment)
    {
      if readSegment.None? && SegmentName(segment) in dir {
        readSegment := Some(segment);
      }
    }

    method Fetch(offset: int64, maxBytes: int32) returns (r: L.Fetched)
      requires Valid()
      modifies this`readSegment
      ensures Valid() && (State(), r) == L.Fetch(old(State()), offset, maxBytes)
    {
      hide Segments, Own, SegmentName, ParseFrom, L.Best, L.Cut, L.Take, L.Drop;
      if maxBytes <= 0 {
        return L.Data([]);
      }
      var best := FindBest(offset);
      var position := if best.Some? then best.value.position else 0;
      var entryOffset := if best.Some? then best.value.offset else 0;
      EnsureReadFd(if best.Some? then segBase else 0);
      if readSegment.None? {
        return L.Data([]);
      }
      var raw := ReadWindow(readSegment.value, position, maxBytes);
      r := CutRecords(raw, offset - entryOffset, maxBytes);
    }

    /** The pread of at most `ReadLimit` bytes from `position`; past the end it reads nothing. */
    method ReadWindow(segment: int64, position: nat, maxBytes: nat) returns (raw: bytes)
      requires Valid()
      ensures raw == L.Window(Content(Segments(dir), segment), position, maxBytes)
    {
      var name := SegmentName(segment);
      var file := if name in dir then dir[name] else [];
      var limit := if 2 * maxBytes > L.MAX_FETCH_CHUNK then L.MAX_FETCH_CHUNK else 2 * maxBytes;
      if position >= |file| {
        return [];
      }
      var available := |file| - position;
      var size := if limit < available then limit else available;
      raw := file[position..position + size];
      assert raw == file[position..][..size];
    }

    method SpliceInfo(offset: int64, maxBytes: int32) returns (info: Option<(nat, nat)>)
      requires Valid() && L.Lookup(State(), offset).0 <= segBytes
      ensures info == L.SpliceInfo(State(), offset, maxBytes)
    {
      hide L.Best;
      if !writeOpen {
        return None;
      }
      var best := FindBest(offset);
      var position := if best.Some? then best.value.position else 0;
      var available := segBytes - position;
      if available < L.MIN_SPLICE {
        return None;
      }
      var limit := maxBytes as int % TWO_64;
      info := Some((position, if available < limit then available else limit));
    }
  }

  /** The record loop of fetch: append from `skip` on until `maxBytes` are there, then cut. */
  method CutRecords(raw: bytes, skip: int, maxBytes: nat) returns (r: L.Fetched)
    ensures r == L.Cut(raw, skip, maxBytes)
  {
    hide ParseFrom;
    var records := ParseRecordBatch(raw);
    match records {
      case LengthError => return L.Threw;
      case Malformed => return L.Data(if |raw| > maxBytes then raw[..maxBytes] else raw);
      case Values(vs) =>
        var result := Collect(vs, skip, maxBytes);
        return L.Data(result);
    }
  }

  method Collect(vs: seq<bytes>, skip: int, maxBytes: nat) returns (result: bytes)
    ensures result == L.Take(Concat(L.Drop(vs, skip)), maxBytes)
  {
    hide Concat;
    result := [];
    var i := 0;
    ConcatNone();
    while i < |vs|
      invariant 0 <= i <= |vs|
      invariant result == Concat(L.Drop(vs[..i], skip))
    {
      if i >= skip {
        DropStep(vs, skip, i);
        result := result + vs[i];
        if |result| >= maxBytes {
          PrefixOfAll(vs, skip, i + 1);
          break;
        }
      } else {
        assert L.Drop(vs[..i + 1], skip) == [] == L.Drop(vs[..i], skip);
      }
      i := i + 1;
    }
    assert i == |vs| ==> vs[..i] == vs;
    if |result| > maxBytes {
      result := result[..maxBytes];
    }
  }

  lemma DropStep(vs: seq<bytes>, skip: int, i: nat)
    requires skip <= i < |vs|
    ensures Concat(L.Drop(vs[..i + 1], skip)) == Concat(L.Drop(vs[..i], skip)) + vs[i]
  {
    assert L.Drop(vs[..i + 1], skip) == L.Drop(vs[..i], skip) + [vs[i]];
    ConcatAppend(L.Drop(vs[..i], skip), [vs[i]]);
    assert Concat([vs[i]]) == vs[i] + [];
  }

  lemma PrefixOfAll(vs: seq<bytes>, skip: int, i: nat)
    requires skip < i <= |vs|
    ensures Concat(L.Drop(vs[..i], skip)) <= Concat(L.Drop(vs, skip))
  {
    assert L.Drop(vs, skip) == L.Drop(vs[..i], skip) + vs[i..];
    ConcatAppend(L.Drop(vs[..i], skip), vs[i..]);
  }
}
