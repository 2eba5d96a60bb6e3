/** Segment files: their names (src/storage/partition_log.hpp) and the reader that concatenates
    them (src/storage/log_reader.cpp). */
module Storage {
  import opened Bytes

  // ---- names ----

  function Pow10(w: nat): (p: nat)
    ensures p >= 1
  {
    if w == 0 then 1 else 10 * Pow10(w - 1)
  }

  /** `n` in decimal, padded with zeros to `w` digits. */
  function Digits(w: nat, n: nat): (s: string)
    ensures |s| == w
  {
    if w == 0 then "" else Digits(w - 1, n / 10) + ["0123456789"[n % 10]]
  }

  function Value(s: string): int
  {
    if s == "" then 0 else 10 * Value(s[..|s| - 1]) + (s[|s| - 1] as int - '0' as int)
  }

  lemma {:induction false} ValueOfDigits(w: nat, n: nat)
    requires n < Pow10(w)
    ensures Value(Digits(w, n)) == n
  {
    if w > 0 {
      ValueOfDigits(w - 1, n / 10);
      var s := Digits(w, n);
      assert s[..w - 1] == Digits(w - 1, n / 10);
      assert "0123456789"[n % 10] as int - '0' as int == n % 10;
    }
  }

  /** `{:020d}.log`: the sign counts towards the twenty characters. */
  function SegmentName(base: int64): (s: string)
    ensures |s| == 24
  {
    (if base >= 0 then Digits(20, base) else "-" + Digits(19, 0 - base as int)) + ".log"
  }

  predicate IsSegmentName(name: string) { |name| == 24 && name[20..] == ".log" }

  predicate IsDigit(c: char) { '0' <= c <= '9' }

  predicate IsSpace(c: char) { c == ' ' || 9 <= c as int <= 13 }

  function Trim(s: string): string { if s != "" && IsSpace(s[0]) then Trim(s[1..]) else s }

  /** The digits a string starts with. */
  function Leading(s: string): string { if s != "" && IsDigit(s[0]) then [s[0]] + Leading(s[1..]) else "" }

  /** `std::stoll`: spaces, a sign and digits, whatever follows them; `None` is an exception. */
  function Stoll(s: string): Option<int>
  {
    var t := Trim(s);
    var signed := t != "" && (t[0] == '-' || t[0] == '+');
    var digits := Leading(if signed then t[1..] else t);
    var v := if signed && t[0] == '-' then -Value(digits) else Value(digits);
    if digits == "" || !(-TWO_63 <= v < TWO_63) then None else Some(v)
  }

  /** The base offset a segment-shaped name is listed under. */
  function ParseBase(name: string): Option<int>
    requires |name| == 24
  {
    Stoll(name[..20])
  }

  predicate AllDigits(s: string) { forall i :: 0 <= i < |s| ==> IsDigit(s[i]) }

  lemma {:induction false} DigitsAreDigits(w: nat, n: nat)
    ensures AllDigits(Digits(w, n))
  {
    if w > 0 {
      DigitsAreDigits(w - 1, n / 10);
    }
  }

  lemma {:induction false} LeadingAll(s: string)
    requires AllDigits(s)
    ensures Leading(s) == s
  {
    if s != "" {
      LeadingAll(s[1..]);
      assert s == [s[0]] + s[1..];
    }
  }

  lemma Pow10Of20()
    ensures TWO_63 < Pow10(19) < Pow10(20)
  {
    assert Pow10(5) == 100000;
    assert Pow10(10) == 100000 * Pow10(5);
    assert Pow10(15) == 100000 * Pow10(10);
    assert Pow10(19) == 10000 * Pow10(15);
  }

  /** A sign, if any, and digits read back to their value. */
  lemma StollOfDigits(negative: bool, digits: string)
    requires digits != "" && AllDigits(digits) && -TWO_63 <= (if negative then -Value(digits) else Value(digits)) < TWO_63
    ensures Stoll((if negative then "-" else "") + digits) == Some(if negative then -Value(digits) else Value(digits))
  {
    hide Value;
    var s := (if negative then "-" else "") + digits;
    assert s[0] == (if negative then '-' else digits[0]);
    assert IsDigit(digits[0]) && Trim(s) == s;
    assert (if negative then s[1..] else s) == digits;
    LeadingAll(digits);
  }

  /** The reader recovers every base offset from the name it was written under. */
  lemma NameRoundTrip(base: int64)
    ensures IsSegmentName(SegmentName(base)) && ParseBase(SegmentName(base)) == Some(base)
  {
    hide Digits, Value, Pow10, Stoll;
    Pow10Of20();
    var w, n: nat := if base >= 0 then 20 else 19, if base >= 0 then base else 0 - base as int;
    ValueOfDigits(w, n);
    DigitsAreDigits(w, n);
    StollOfDigits(base < 0, Digits(w, n));
    assert SegmentName(base)[..20] == (if base < 0 then "-" else "") + Digits(w, n);
  }

  // ---- the directory ----

  type Directory = map<string, bytes>

  /** Every segment-shaped name in the directory was produced by `SegmentName`. */
  ghost predicate Own(dir: Directory)
  {
    forall n :: n in dir && IsSegmentName(n) ==> exists b: int64 :: SegmentName(b) == n
  }

  lemma OwnNames(dir: Directory, n: string)
    requires Own(dir) && n in dir && IsSegmentName(n)
    ensures ParseBase(n).Some? && SegmentName(ParseBase(n).value) == n
  {
    var b: int64 :| SegmentName(b) == n;
    NameRoundTrip(b);
  }

  /** The segments of a directory by base offset. */
  ghost function Segments(dir: Directory): map<int, bytes>
    requires Own(dir)
  {
    map b: int | -TWO_63 <= b < TWO_63 && SegmentName(b) in dir :: dir[SegmentName(b)]
  }

  /** Writing one segment file changes that segment and no other. */
  lemma SegmentsUpdate(dir: Directory, base: int64, content: bytes)
    requires Own(dir)
    ensures Own(dir[SegmentName(base) := content])
    ensures Segments(dir[SegmentName(base) := content]) == Segments(dir)[base := content]
  {
    var dir' := dir[SegmentName(base) := content];
    forall n | n in dir' && IsSegmentName(n)
      ensures exists b: int64 :: SegmentName(b) == n
    {
      if n == SegmentName(base) {
        assert SegmentName(base) == n;
      } else {
        assert n in dir;
      }
    }
    forall b: int64
      ensures SegmentName(b) == SegmentName(base) ==> b == base
    {
      NameRoundTrip(b);
      NameRoundTrip(base);
    }
  }

  // ---- ascending concatenation ----

  predicate IsLeast(s: set<int>, k: int) { k in s && forall j :: j in s ==> k <= j }

  ghost function Least(s: set<int>): (k: int)
    requires s != {}
    ensures k in s && forall j :: j in s ==> k <= j
  {
    LeastExists(s);
    var k :| IsLeast(s, k);
    k
  }

  lemma LeastExists(s: set<int>)
    requires s != {}
    ensures exists k :: IsLeast(s, k)
  {
    hide IsLeast;
    assert exists x :: x in s by {
      assert (forall x :: x !in s) ==> s == {};
    }
    var x :| x in s;
    var k := LeastFrom(s, x);
  }

  /** Going down from `x` ends at the least element. */
  lemma {:induction false} LeastFrom(s: set<int>, x: int) returns (k: int)
    requires x in s
    ensures IsLeast(s, k)
    decreases |s|
  {
    if y :| y in s && y < x {
      k := LeastFrom(s - {x}, y);
      LeastWithout(s, x, y, k);
    } else {
      k := x;
    }
  }

  lemma LeastWithout(s: set<int>, x: int, y: int, k: int)
    requires y in s && y < x && IsLeast(s - {x}, k)
    ensures IsLeast(s, k)
  {
    assert y in s - {x};
    forall j | j in s
      ensures k <= j
    {
      assert j == x || j in s - {x};
    }
  }

  /** The contents in ascending order of base offset. */
  ghost function Ascending(files: map<int, bytes>): bytes
    decreases |files.Keys|
  {
    if files.Keys == {} then []
    else
      var k := Least(files.Keys);
      assert (files - {k}).Keys == files.Keys - {k};
      files[k] + Ascending(files - {k})
  }

  function Content(files: map<int, bytes>, base: int): bytes
  {
    if base in files then files[base] else []
  }

  lemma AscendingSingle(base: int, content: bytes)
    ensures Ascending(map[base := content]) == content
  {
    var files := map[base := content];
    assert files.Keys == {base};
    assert Least(files.Keys) == base && (files - {base}).Keys == {};
  }

  lemma AscendingStep(files: map<int, bytes>, k: int)
    requires k in files && forall j :: j in files ==> k <= j
    ensures Ascending(files) == files[k] + Ascending(files - {k})
    ensures (files - {k}).Keys == files.Keys - {k}
  {
  }

  /** Appending to the file with the largest base offset appends to the whole. */
  lemma {:induction false} AscendingAppend(files: map<int, bytes>, base: int, blob: bytes)
    requires forall k :: k in files ==> k <= base
    ensures Ascending(files[base := Content(files, base) + blob]) == Ascending(files) + blob
    decreases |files.Keys|
  {
    hide Ascending;
    var files' := files[base := Content(files, base) + blob];
    if files.Keys <= {base} {
      AppendToOnly(files, base, blob);
    } else {
      assert files.Keys != {};
      var k := Least(files.Keys);
      assert files'.Keys == files.Keys + {base};
      assert k != base;
      AscendingStep(files, k);
      AscendingStep(files', k);
      assert files' - {k} == (files - {k})[base := Content(files - {k}, base) + blob];
      AscendingAppend(files - {k}, base, blob);
      assert files[k] + (Ascending(files - {k}) + blob) == Ascending(files) + blob;
    }
  }

  lemma AppendToOnly(files: map<int, bytes>, base: int, blob: bytes)
    requires files.Keys <= {base}
    ensures Ascending(files[base := Content(files, base) + blob]) == Ascending(files) + blob
  {
    hide Ascending;
    var content := Content(files, base);
    assert files[base := content + blob] == map[base := content + blob];
    AscendingSingle(base, content + blob);
    if base in files {
      assert files == map[base := content];
      AscendingSingle(base, content);
    } else {
      assert files == map[];
      AscendingNone();
    }
  }

  lemma AscendingNone()
    ensures Ascending(map[]) == []
  {
  }

  // ---- the reader ----

  /** Some segment-shaped name is no number that fits 64 bits, so listing the directory throws. */
  ghost predicate Unlistable(dir: Directory)
  {
    exists n :: n in dir && IsSegmentName(n) && ParseBase(n).None?
  }

  /** The listing holds, for every base that a segment-shaped name stands for, the file of such a name.  Which one, when
      several names stand for one base, depends on the order of the directory. */
  ghost predicate Lists(dir: Directory, segments: map<int, bytes>)
  {
    && (forall n :: n in dir && IsSegmentName(n) ==> ParseBase(n).Some? && ParseBase(n).value in segments)
    && (forall b :: b in segments ==> exists n :: n in dir && IsSegmentName(n) && ParseBase(n) == Some(b) && segments[b] == dir[n])
  }

  /** In a directory of the log's own segments there is one listing. */
  lemma OwnListing(dir: Directory, segments: map<int, bytes>)
    requires Own(dir) && Lists(dir, segments)
    ensures segments == Segments(dir)
  {
    hide SegmentName, ParseBase;
    forall b: int64 ensures ParseBase(SegmentName(b)) == Some(b) && IsSegmentName(SegmentName(b)) { NameRoundTrip(b); }
    forall b | b in segments
      ensures -TWO_63 <= b < TWO_63 && SegmentName(b) in dir && segments[b] == dir[SegmentName(b)]
    {
      var n :| n in dir && IsSegmentName(n) && ParseBase(n) == Some(b) && segments[b] == dir[n];
      OwnNames(dir, n);
    }
    assert segments.Keys == Segments(dir).Keys;
  }

  lemma OwnListable(dir: Directory)
    requires Own(dir)
    ensures !Unlistable(dir)
  {
    hide ParseBase, SegmentName;
    forall n | n in dir && IsSegmentName(n) ensures ParseBase(n).Some? { OwnNames(dir, n); }
  }

  /** The directory is listed in any order; only segment-shaped names count. */
  method ListSegments(dir: Directory) returns (segments: Option<map<int, bytes>>)
    ensures segments.None? <==> Unlistable(dir)
    ensures segments.Some? ==> Lists(dir, segments.value)
  {
    hide ParseBase;
    var found: map<int, bytes> := map[];
    var names := dir.Keys;
    while names != {}
      invariant names <= dir.Keys
      invariant forall n :: n in dir && n !in names && IsSegmentName(n) ==> ParseBase(n).Some? && ParseBase(n).value in found
      invariant forall b :: b in found ==> exists n :: n in dir && IsSegmentName(n) && ParseBase(n) == Some(b) && found[b] == dir[n]
      decreases names
    {
      var name :| name in names;
      names := names - {name};
      if IsSegmentName(name) {
        var base := ParseBase(name);
        if base.None? {
          return None;
        }
        found := found[base.value := dir[name]];
      }
    }
    return Some(found);
  }

  /** The segments are read in ascending order. */
  method ConcatSegments(segments: map<int, bytes>) returns (result: bytes)
    ensures result == Ascending(segments)
  {
    hide Ascending;
    var left := segments;
    result := [];
    while left.Keys != {}
      invariant Ascending(segments) == result + Ascending(left)
      decreases |left.Keys|
    {
      LeastExists(left.Keys);
      var k :| IsLeast(left.Keys, k);
      AscendingStep(left, k);
      result := result + left[k];
      left := left - {k};
    }
    assert left == map[];
    AscendingNone();
  }

  /** `read_topic_log`; `None` when listing the directory throws. */
  method ReadTopicLog(dir: Directory) returns (result: Option<bytes>)
    ensures result.None? <==> Unlistable(dir)
    ensures result.Some? ==> exists segments :: Lists(dir, segments) && result.value == Ascending(segments)
    ensures Own(dir) ==> result == Some(Ascending(Segments(dir)))
  {
    hide Segments, Ascending, Lists, Unlistable, Own;
    var segments := ListSegments(dir);
    if Own(dir) {
      OwnListable(dir);
    }
    if segments.None? {
      return None;
    }
    if Own(dir) {
      OwnListing(dir, segments.value);
    }
    var all := ConcatSegments(segments.value);
    return Some(all);
  }
}
