/** What the record-batch parser makes of batches that are not as they should be, and of records with headers. */
module RecordBatchLaws {
  import opened Bytes
  import opened Varint
  import opened Wire
  import opened RecordBatch

  // ---- headers that are refused ----

  /** The fixed part of a batch by position: magic byte at 16, last offset delta at 23. */
  lemma FrontByPosition(s: bytes)
    ensures ReadHeaderFront(s).Some? <==> |s| >= 27
    ensures |s| >= 27 ==> ReadHeaderFront(s).value == ((s[16], Decode32(s[23..27])), s[27..])
  {
    hide Decode16, Decode32, Decode64;
    if |s| >= 27 {
      assert s[8..][4..] == s[12..] && s[12..][4..] == s[16..] && s[16..][1..] == s[17..] && s[17..][4..] == s[21..] && s[21..][2..] == s[23..];
      assert s[23..][..4] == s[23..27] && s[23..][4..] == s[27..];
    }
  }

  lemma BackByPosition(s: bytes)
    ensures ReadHeaderBack(s).Some? <==> |s| >= 30
  {
    hide Decode16, Decode32, Decode64;
  }

  /** Without 57 bytes, or with a magic byte other than 2, a batch is malformed; with a record count that is negative the parser
      throws.  The header-only count needs 28 bytes and the same magic byte, and is the last offset delta plus one. */
  lemma HeaderChecks(s: bytes)
    ensures |s| < 57 ==> ParseSingle(s) == Malformed
    ensures |s| >= 57 && s[16] != 2 ==> ParseSingle(s) == Malformed
    ensures |s| >= 57 && s[16] == 2 ==> (ParseSingle(s) == LengthError <==> ToInt32(Decode32(s[23..27]) as int + 1) < 0)
    ensures BatchCount(s) == if |s| < 28 || s[16] != 2 then None else Some(ToInt32(Decode32(s[23..27]) as int + 1))
  {
    hide ReadHeaderFront, ReadHeaderBack, ReadItems, ReadRecord, ToInt32, Decode32, Kept;
    FrontByPosition(s);
    if |s| >= 27 {
      BackByPosition(s[27..]);
    }
  }

  // ---- a batch cut off anywhere ----

  lemma SizedExtends()
    ensures Extends(ReadSized) && Extends(ReadRecordHeader)
  {
    hide ReadSignedVarint, ReadBytes;
    ExtendLaws();
  }

  lemma RecordExtends()
    ensures Extends(ReadRecord)
  {
    hide ReadSignedVarint, ReadInt8, ReadSized, ReadRecordHeader, ReadArray;
    ExtendLaws();
    SizedExtends();
    ArrayExtends(ReadRecordHeader);
  }

  lemma HeaderExtends(s: bytes, t: bytes)
    ensures ReadHeaderFront(s).Some? ==> ReadHeaderFront(s + t) == Some((ReadHeaderFront(s).value.0, ReadHeaderFront(s).value.1 + t))
    ensures ReadHeaderBack(s).Some? ==> ReadHeaderBack(s + t) == Some(((), ReadHeaderBack(s).value.1 + t))
  {
    hide ReadInt8, ReadInt16, ReadInt32, ReadInt64;
    ExtendLaws();
  }

  /** Every strict prefix of a well-formed batch is malformed: no record of it is returned. */
  lemma StrictPrefixMalformed(b: Batch, k: nat)
    requires WellFormed(b) && k < |Encode(b)|
    ensures ParseSingle(Encode(b)[..k]) == Malformed
  {
    hide Encode, Tail, ReadHeaderFront, ReadHeaderBack, ReadItems, ReadRecord, Kept, PutItems, PutRecord;
    var s, t := Encode(b)[..k], Encode(b)[k..];
    assert s + t == Encode(b) && t != [];
    HeaderFrontInverts(b);
    HeaderBackInverts(b);
    HeaderExtends(s, t);
    if ReadHeaderFront(s).Some? {
      var s1 := ReadHeaderFront(s).value.1;
      HeaderExtends(s1, t);
      if ReadHeaderBack(s1).Some? {
        var s2 := ReadHeaderBack(s1).value.1;
        NoShorterRecords(b.records, s2, t);
      }
    }
  }

  lemma NoShorterRecords(records: seq<Record>, s: bytes, t: bytes)
    requires s + t == PutItems(PutRecord, records, []) && t != []
    ensures ReadItems(|records|, ReadRecord, s).None?
  {
    hide ReadRecord, PutRecord, PutItems, ReadItems;
    RecordsInvert(records);
    RecordExtends();
    if ReadItems(|records|, ReadRecord, s).Some? {
      Wire.ItemsExtend(|records|, ReadRecord, s, t);
    }
  }

  // ---- records that are passed over, and records with headers ----

  /** A record whose body size is not positive is nothing but that size. */
  function PutEntry(e: Option<Record>, rest: bytes): bytes { if e.None? then PutSignedVarint(0, rest) else PutRecord(e.value, rest) }

  function Present(es: seq<Option<Record>>): seq<Record>
  {
    if es == [] then [] else (if es[0].Some? then [es[0].value] else []) + Present(es[1..])
  }

  /** Records with a body size of zero are passed over and the others returned in order. */
  lemma {:induction false} EmptyRecordsPassedOver(es: seq<Option<Record>>, rest: bytes)
    ensures var read := ReadItems(|es|, ReadRecord, PutItems(PutEntry, es, rest));
            read.Some? && read.value.1 == rest && Kept(read.value.0) == ValuesOf(Present(es))
  {
    hide ReadRecord, PutRecord, PutSignedVarint;
    if es == [] {
      assert Present(es) == [];
    } else {
      var tail := PutItems(PutEntry, es[1..], rest);
      EmptyRecordsPassedOver(es[1..], rest);
      if es[0].Some? {
        RecordInverts(es[0].value, tail);
      } else {
        EmptyRecord(tail);
      }
      var xs := ReadItems(|es| - 1, ReadRecord, tail).value.0;
      var x := ReadRecord(PutEntry(es[0], tail)).value.0;
      assert ([x] + xs)[1..] == xs;
      assert ValuesOf(Present(es)) == (if es[0].Some? then [Value(es[0].value)] else []) + ValuesOf(Present(es[1..]));
    }
  }

  lemma EmptyRecord(rest: bytes)
    ensures ReadRecord(PutSignedVarint(0, rest)) == Some((None, rest))
  {
    SignedVarintInverts(0, rest);
  }

  function PutRecordHeader(h: (Option<bytes>, Option<bytes>), rest: bytes): bytes
  {
    if Sized(h.0) && Sized(h.1) then PutSized(h.0, PutSized(h.1, rest)) else rest
  }

  lemma {:induction false} HeadersPassed(hs: seq<(Option<bytes>, Option<bytes>)>, rest: bytes)
    requires forall h :: h in hs ==> Sized(h.0) && Sized(h.1)
    ensures var read := ReadItems(|hs|, ReadRecordHeader, PutItems(PutRecordHeader, hs, rest)); read.Some? && read.value.1 == rest
  {
    hide ReadSized, PutSized;
    if hs != [] {
      var tail := PutItems(PutRecordHeader, hs[1..], rest);
      HeadersPassed(hs[1..], rest);
      SizedInverts(hs[0].0, PutSized(hs[0].1, tail));
      SizedInverts(hs[0].1, tail);
    }
  }

  /** A record with headers, their number written plus one as an unsigned varint, which is how the parser reads it. */
  function PutRecordWith(r: Record, hs: seq<(Option<bytes>, Option<bytes>)>, rest: bytes): bytes
  {
    PutSignedVarint(r.bodySize, PutInt8(r.attributes,
      PutSignedVarint(r.timestampDelta, PutSignedVarint(r.offsetDelta,
        PutSized(r.key, PutSized(r.value, PutArray(PutRecordHeader, hs, rest)))))))
  }

  /** Such a record is read back, and the next one begins behind its headers. */
  lemma HeadersReadBack(r: Record, hs: seq<(Option<bytes>, Option<bytes>)>, rest: bytes)
    requires Short(hs) && forall h :: h in hs ==> Sized(h.0) && Sized(h.1)
    ensures ReadRecord(PutRecordWith(r, hs, rest)) == Some((Some(Value(r)), rest))
  {
    hide PutItems, ReadItems, ReadRecordHeader, PutRecordHeader, ReadSized, PutSized, ReadVarint, PutVarint, ReadSignedVarint, PutSignedVarint,
         ReadInt8, PutInt8;
    var s6 := PutArray(PutRecordHeader, hs, rest);
    var s5 := PutSized(r.value, s6);
    var s4 := PutSized(r.key, s5);
    InvertLaws();
    SizedInverts(r.key, s5);
    SizedInverts(r.value, s6);
    VarintInverts(|hs| + 1, PutItems(PutRecordHeader, hs, rest));
    HeadersPassed(hs, rest);
    assert Count(|hs|) == |hs| + 1;
  }
}
