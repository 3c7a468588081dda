/** The log under truncation: reading any prefix of a written log. */
module LogRuns {
  import opened DbFormat
  import opened Coding
  import opened Log

  /** The file after writing these records to a new log. */
  function Written(sum: Checksum, recs: seq<seq<Byte>>): seq<Byte> {
    if recs == [] then []
    else
      var file := Written(sum, recs[..|recs| - 1]);
      file + Emit(sum, |file|, recs[|recs| - 1], true)
  }

  /** Where record i ends: the length of the log once it is written. */
  function EndOf(sum: Checksum, recs: seq<seq<Byte>>, i: nat): nat
    requires i <= |recs|
  {
    |Written(sum, recs[..i])|
  }

  method WriteLog(sum: Checksum, recs: seq<seq<Byte>>) returns (file: seq<Byte>)
    ensures file == Written(sum, recs)
  {
    var w := new Writer(sum, []);
    for i := 0 to |recs|
      invariant fresh(w) && w.Valid() && w.sum == sum && w.dest == Written(sum, recs[..i])
    {
      w.AddRecord(recs[i]);
      assert recs[..i + 1][..i] == recs[..i];
    }
    assert recs[..|recs|] == recs;
    file := w.dest;
  }

  datatype Found = Found(record: seq<Byte>, offset: nat)

  datatype Contents = Contents(found: seq<Found>, reports: seq<nat>)

  function Join(a: Contents, b: Contents): Contents {
    Contents(a.found + b.found, a.reports + b.reports)
  }

  function One(l: Logical): Contents {
    Contents(if l.record.Some? then [Found(l.record.value, l.offset)] else [], l.reports)
  }

  /** Every record read until end of file, and all reports. */
  function ReadAll(sum: Checksum, file: seq<Byte>, p: nat): Contents
    requires p <= |file|
    decreases |file| - p
  {
    var l := Assemble(sum, file, p, NOTHING);
    if l.record.None? then One(l) else Join(One(l), ReadAll(sum, file, l.next))
  }

  method ReadLog(sum: Checksum, file: seq<Byte>) returns (found: seq<Found>, reports: seq<nat>)
    ensures Contents(found, reports) == ReadAll(sum, file, 0)
  {
    hide Assemble, ReadAll, Join, One;
    var r := new Reader(sum, file);
    found := [];
    JoinRules(Contents([], []), ReadAll(sum, file, 0), ReadAll(sum, file, 0));
    while true
      invariant fresh(r) && r.Valid() && r.file == file && r.sum == sum
      invariant ReadAll(sum, file, 0) == Join(Contents(found, r.reports), ReadAll(sum, file, r.Position()))
      decreases |file| - r.Position()
    {
      ghost var p, done := r.Position(), Contents(found, r.reports);
      var record := r.ReadRecord();
      ReadStep(sum, file, p, done);
      if record.None? { break; }
      found := found + [Found(record.value, r.lastRecordOffset)];
    }
    reports := r.reports;
  }

  lemma JoinRules(a: Contents, b: Contents, c: Contents)
    ensures Join(Join(a, b), c) == Join(a, Join(b, c))
    ensures Join(Contents([], []), c) == c
  {
  }

  lemma ReadStep(sum: Checksum, file: seq<Byte>, p: nat, done: Contents)
    requires p <= |file|
    ensures var l := Assemble(sum, file, p, NOTHING);
            Join(done, ReadAll(sum, file, p)) ==
            if l.record.None? then Contents(done.found, done.reports + l.reports)
            else Join(Contents(done.found + [Found(l.record.value, l.offset)], done.reports + l.reports),
                ReadAll(sum, file, l.next))
  {
    hide Assemble;
    var l := Assemble(sum, file, p, NOTHING);
    if l.record.Some? { JoinRules(done, One(l), ReadAll(sum, file, l.next)); }
  }

  // ---- One fragment ----

  ghost predicate At(file: seq<Byte>, q: nat, bytes: seq<Byte>) {
    q + |bytes| <= |file| && file[q..q + |bytes|] == bytes
  }

  lemma HeaderBack(sum: Checksum, t: Byte, payload: seq<Byte>, w: seq<Byte>)
    requires |payload| <= BLOCK_SIZE && HEADER_SIZE + |payload| <= |w| &&
             w[..HEADER_SIZE + |payload|] == Physical(sum, t, payload)
    ensures w[6] == t && Length(w[4], w[5]) == |payload| && DecodeFixed(w[..4]) == Crc(sum, t, payload)
    ensures w[HEADER_SIZE..HEADER_SIZE + |payload|] == payload
  {
    var b := Physical(sum, t, payload);
    Powers256();
    FixedRoundTrip(Crc(sum, t, payload), 4);
    assert b[..4] == Fixed(Crc(sum, t, payload), 4) && b[HEADER_SIZE..] == payload;
    assert w[..4] == b[..4] && w[HEADER_SIZE..HEADER_SIZE + |payload|] == b[HEADER_SIZE..];
    assert w[4] == b[4] && w[5] == b[5] && w[6] == b[6];
  }

  lemma ShortHeader(sum: Checksum, t: Byte, payload: seq<Byte>, w: seq<Byte>)
    requires |payload| <= BLOCK_SIZE && HEADER_SIZE <= |w| < HEADER_SIZE + |payload| &&
             w == Physical(sum, t, payload)[..|w|]
    ensures Length(w[4], w[5]) == |payload|
  {
  }

  // Reading from q reads at the next fragment's start, if the file has room for a header there.
  lemma ReadAtStart(sum: Checksum, file: seq<Byte>, q: nat)
    requires q <= |file|
    ensures HEADER_SIZE <= BlockEnd(NextStart(q)) - NextStart(q)
    ensures ReadAt(sum, file, q) == if NextStart(q) + HEADER_SIZE <= |file| then ParseAt(sum, file, NextStart(q))
            else Eof
  {
  }

  /** A written fragment reads back if the file holds all of it; a truncated one reads as end of file. */
  lemma FragmentBack(sum: Checksum, file: seq<Byte>, m: nat, q: nat, t: Byte, payload: seq<Byte>)
    requires q <= m <= |file| && t != ZERO
    requires var s := NextStart(q); s + HEADER_SIZE + |payload| <= BlockEnd(s) && At(file, s, Physical(sum, t, payload))
    ensures var end := NextStart(q) + HEADER_SIZE + |payload|;
            ReadAt(sum, file[..m], q) == if end <= m then Rec(t, payload, end) else Eof
  {
    hide Physical, BlockEnd, NextStart, ReadAt, DecodeFixed, Crc, Length, Aligned;
    var s := NextStart(q);
    var end := s + HEADER_SIZE + |payload|;
    ReadAtStart(sum, file[..m], q);
    if s + HEADER_SIZE <= m {
      var w := Part(file[..m], s, Min(BlockEnd(s), m));
      Window(file, m, s, Min(BlockEnd(s), m), end);
      if end <= m {
        HeaderBack(sum, t, payload, w);
      } else {
        ShortHeader(sum, t, payload, w);
      }
    }
  }

  lemma Window(file: seq<Byte>, m: nat, s: nat, e: nat, end: nat)
    requires s <= e <= m <= |file| && s <= end <= |file|
    ensures var w := Part(file[..m], s, e); if end <= e then w[..end - s] == file[s..end]
            else w == file[s..end][..e - s]
  {
    assert Part(file[..m], s, e) == file[s..e];
  }

  // ---- One record ----

  lemma AtParts(file: seq<Byte>, q: nat, a: seq<Byte>, b: seq<Byte>)
    requires At(file, q, a + b)
    ensures At(file, q, a) && At(file, q + |a|, b)
  {
    assert file[q..q + |a|] == (a + b)[..|a|] && file[q + |a|..q + |a + b|] == (a + b)[|a|..];
  }

  // What follows the first fragment of a record.
  function Rest(sum: Checksum, q: nat, data: seq<Byte>, begin: bool): seq<Byte> {
    var n := FragmentLength(q, |data|);
    if n == |data| then [] else Emit(sum, q + |Chunk(sum, q, data, begin)|, data[n..], false)
  }

  lemma FirstFragment(sum: Checksum, file: seq<Byte>, m: nat, q: nat, data: seq<Byte>, begin: bool)
    requires q <= m <= |file| && At(file, q, Emit(sum, q, data, begin))
    ensures var n, chunk := FragmentLength(q, |data|), Chunk(sum, q, data, begin);
            && Emit(sum, q, data, begin) == chunk + Rest(sum, q, data, begin)
            && At(file, q + |chunk|, Rest(sum, q, data, begin))
            && ReadAt(sum, file[..m], q) == if q + |chunk| <= m
                 then Rec(TypeOf(begin, n == |data|), data[..n], q + |chunk|) else Eof
  {
    hide ReadAt, Physical, NextStart, BlockEnd, FragmentLength, Zeros, At;
    var n, chunk := FragmentLength(q, |data|), Chunk(sum, q, data, begin);
    assert Emit(sum, q, data, begin) == chunk + Rest(sum, q, data, begin);
    AtParts(file, q, chunk, Rest(sum, q, data, begin));
    AtParts(file, q, Zeros(NextStart(q) - q), Physical(sum, TypeOf(begin, n == |data|), data[..n]));
    Fits(q, |data|);
    FragmentBack(sum, file, m, q, TypeOf(begin, n == |data|), data[..n]);
  }

  lemma TakeEof(a: Partial)
    ensures Take(Eof, a) == Stop(None, 0, [])
  {
  }

  lemma TakeWritten(begin: bool, end: bool, d: seq<Byte>, next: nat, a: Partial)
    requires HEADER_SIZE + |d| <= next && (if begin then a == NOTHING else a.inFragment)
    ensures var start := if begin then next - HEADER_SIZE - |d| else a.start;
            Take(Rec(TypeOf(begin, end), d, next), a) ==
            if end then Stop(Some(a.scratch + d), start, []) else More(Partial(true, a.scratch + d, start), [])
  {
    assert [] + d == d;
  }

  /** Reading what AddRecord wrote, possibly truncated at m. */
  lemma {:induction false} RecordBack(sum: Checksum, file: seq<Byte>, m: nat, q: nat, data: seq<Byte>, begin: bool,
                                      a: Partial)
    requires q <= m <= |file| && At(file, q, Emit(sum, q, data, begin)) &&
             (if begin then a == NOTHING else a.inFragment)
    ensures var end := q + |Emit(sum, q, data, begin)|; var l := Assemble(sum, file[..m], q, a);
            if end <= m then l == Logical(Some(a.scratch + data), if begin then NextStart(q) else a.start, end, [])
            else l.record == None && l.reports == []
    decreases |data|, NoRoom(q)
  {
    hide ReadAt, NextStart, FragmentLength, Chunk, Emit, At, Take, TypeOf, NoRoom;
    var n, next := FragmentLength(q, |data|), q + |Chunk(sum, q, data, begin)|;
    FirstFragment(sum, file, m, q, data, begin);
    TakeEof(a);
    if next <= m {
      TakeWritten(begin, n == |data|, data[..n], next, a);
      if n < |data| {
        Progress(q, |data|);
        RecordBack(sum, file, m, next, data[n..], false,
            Partial(true, a.scratch + data[..n], if begin then NextStart(q) else a.start));
        assert a.scratch + data[..n] + data[n..] == a.scratch + data;
      } else {
        assert data[..n] == data;
      }
    }
  }

  lemma Fits(q: nat, n: nat)
    ensures NextStart(q) + HEADER_SIZE + FragmentLength(q, n) <= BlockEnd(NextStart(q))
  {
  }

  // ---- The whole log ----

  // How many records lie wholly within the first m bytes.
  ghost predicate WhollyWithin(sum: Checksum, recs: seq<seq<Byte>>, m: nat, c: nat) {
    && c <= |recs| && EndOf(sum, recs, c) <= m
    && (c < |recs| ==> m < EndOf(sum, recs, c + 1))
  }

  function Expected(sum: Checksum, recs: seq<seq<Byte>>, i: nat, c: nat): seq<Found>
    requires i <= c <= |recs|
    decreases c - i
  {
    if i == c then [] else [Found(recs[i], NextStart(EndOf(sum, recs, i)))] + Expected(sum, recs, i + 1, c)
  }

  lemma {:induction false} RecordAt(sum: Checksum, recs: seq<seq<Byte>>, i: nat)
    requires i < |recs|
    ensures At(Written(sum, recs), EndOf(sum, recs, i), Emit(sum, EndOf(sum, recs, i), recs[i], true))
    ensures EndOf(sum, recs, i + 1) == EndOf(sum, recs, i) + |Emit(sum, EndOf(sum, recs, i), recs[i], true)|
    ensures EndOf(sum, recs, i + 1) <= |Written(sum, recs)|
  {
    hide Emit;
    var init := recs[..|recs| - 1];
    assert recs[..i + 1][..i] == recs[..i] && recs[..i + 1][i] == recs[i];
    if i == |recs| - 1 {
      assert recs[..i + 1] == recs;
    } else {
      RecordAt(sum, init, i);
      assert init[..i] == recs[..i] && init[..i + 1] == recs[..i + 1];
    }
  }

  lemma {:induction false} ReadFrom(sum: Checksum, recs: seq<seq<Byte>>, m: nat, i: nat, c: nat)
    requires m <= |Written(sum, recs)| && WhollyWithin(sum, recs, m, c) && i <= c && EndOf(sum, recs, i) <= m
    ensures ReadAll(sum, Written(sum, recs)[..m], EndOf(sum, recs, i)) == Contents(Expected(sum, recs, i, c), [])
    decreases c - i
  {
    hide Emit, Assemble, Written;
    var file, q := Written(sum, recs), EndOf(sum, recs, i);
    if i < |recs| {
      RecordAt(sum, recs, i);
      RecordBack(sum, file, m, q, recs[i], true, NOTHING);
      assert NOTHING.scratch + recs[i] == recs[i];
    } else {
      AtEnd(sum, recs);
      NothingLeft(sum, file[..m]);
    }
    if i < c {
      Earlier(sum, recs, i + 1, c);
      ReadFrom(sum, recs, m, i + 1, c);
    }
    ReadStep(sum, file[..m], q, Contents([], []));
    JoinRules(Contents([], []), Contents([], []), ReadAll(sum, file[..m], q));
  }

  lemma AtEnd(sum: Checksum, recs: seq<seq<Byte>>)
    ensures EndOf(sum, recs, |recs|) == |Written(sum, recs)|
  {
    assert recs[..|recs|] == recs;
  }

  lemma NothingLeft(sum: Checksum, file: seq<Byte>)
    ensures Assemble(sum, file, |file|, NOTHING) == Logical(None, 0, |file|, [])
  {
  }

  lemma {:induction false} Earlier(sum: Checksum, recs: seq<seq<Byte>>, i: nat, c: nat)
    requires i <= c <= |recs|
    ensures EndOf(sum, recs, i) <= EndOf(sum, recs, c)
    decreases c - i
  {
    if i < c {
      hide Emit, Written;
      RecordAt(sum, recs, i);
      Earlier(sum, recs, i + 1, c);
    }
  }

  /**
   * Whatever the records and wherever a crash cut the file, the reader returns exactly the records wholly written,
   * in order and with their offsets, then end of file, and reports no corruption.
   */
  lemma TruncatedLog(sum: Checksum, recs: seq<seq<Byte>>, m: nat) returns (c: nat)
    requires m <= |Written(sum, recs)|
    ensures WhollyWithin(sum, recs, m, c)
    ensures ReadAll(sum, Written(sum, recs)[..m], 0) == Contents(Expected(sum, recs, 0, c), [])
    ensures |Expected(sum, recs, 0, c)| == c
    ensures forall i :: 0 <= i < c ==> Expected(sum, recs, 0, c)[i] == Found(recs[i], NextStart(EndOf(sum, recs, i)))
  {
    hide ReadAll, Expected, Emit, EndOf, Written, NextStart;
    StartsAtZero(sum, recs);
    c := SomeWholeRecords(sum, recs, m, 0);
    ReadFrom(sum, recs, m, 0, c);
    ExpectedAt(sum, recs, 0, c);
  }

  lemma StartsAtZero(sum: Checksum, recs: seq<seq<Byte>>)
    ensures EndOf(sum, recs, 0) == 0
  {
  }

  lemma {:induction false} ExpectedAt(sum: Checksum, recs: seq<seq<Byte>>, i: nat, c: nat)
    requires i <= c <= |recs|
    ensures |Expected(sum, recs, i, c)| == c - i
    ensures forall j :: i <= j < c ==>
            Expected(sum, recs, i, c)[j - i] == Found(recs[j], NextStart(EndOf(sum, recs, j)))
    decreases c - i
  {
    hide EndOf, NextStart;
    if i < c {
      ExpectedAt(sum, recs, i + 1, c);
      var rest, all := Expected(sum, recs, i + 1, c), Expected(sum, recs, i, c);
      forall j | i < j < c ensures all[j - i] == Found(recs[j], NextStart(EndOf(sum, recs, j))) {
        assert all[j - i] == rest[j - (i + 1)];
      }
    }
  }

  /** Every truncation point leaves some number of whole records. */
  lemma {:induction false} SomeWholeRecords(sum: Checksum, recs: seq<seq<Byte>>, m: nat, i: nat) returns (c: nat)
    requires i <= |recs| && EndOf(sum, recs, i) <= m
    ensures WhollyWithin(sum, recs, m, c)
    decreases |recs| - i
  {
    hide Written;
    if i < |recs| && EndOf(sum, recs, i + 1) <= m {
      c := SomeWholeRecords(sum, recs, m, i + 1);
    } else {
      c := i;
    }
  }
}
