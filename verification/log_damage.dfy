/** The log under damage: what the checksum guarantees of any file, and what a damaged fragment costs. */
module LogDamage {
  import opened Coding
  import opened Log
  import opened LogRuns

  // ---- Only fragments with a right checksum are returned ----

  /** The bytes at s are a fragment of this type and payload, with the checksum of both. */
  ghost predicate Genuine(sum: Checksum, file: seq<Byte>, s: nat, t: Byte, d: seq<Byte>) {
    && s + HEADER_SIZE + |d| <= |file|
    && DecodeFixed(file[s..s + 4]) == Crc(sum, t, d)
    && Length(file[s + 4], file[s + 5]) == |d| && file[s + 6] == t
    && file[s + HEADER_SIZE..s + HEADER_SIZE + |d|] == d
  }

  lemma PartSlice(file: seq<Byte>, s: nat, e: nat, a: nat, b: nat)
    requires s <= e <= |file| && a <= b <= e - s
    ensures file[s..e][a..b] == file[s + a..s + b]
  {
    var x, y := file[s..e][a..b], file[s + a..s + b];
    forall i | 0 <= i < b - a ensures x[i] == y[i] {
      assert x[i] == file[s..e][a + i];
    }
  }

  lemma ParsedIsGenuine(sum: Checksum, file: seq<Byte>, s: nat)
    requires s + HEADER_SIZE <= Min(BlockEnd(s), |file|)
    ensures var r := ParseAt(sum, file, s);
            r.Rec? ==> r.next == s + HEADER_SIZE + |r.payload| <= BlockEnd(s) && Genuine(sum, file, s, r.t, r.payload)
  {
    hide DecodeFixed, Crc, Length, BlockEnd;
    var e := Min(BlockEnd(s), |file|);
    var w := Part(file, s, e);
    assert w[..4] == file[s..s + 4] && w[4] == file[s + 4] && w[5] == file[s + 5] && w[6] == file[s + 6];
    var n := Length(w[4], w[5]);
    if HEADER_SIZE + n <= |w| { PartSlice(file, s, e, HEADER_SIZE, HEADER_SIZE + n); }
  }

  /** On any file whatever: a fragment that is returned has the checksum stored for it. */
  lemma ReturnedIsGenuine(sum: Checksum, file: seq<Byte>, p: nat)
    requires p <= |file|
    ensures var r := ReadAt(sum, file, p);
            r.Rec? ==> r.next == NextStart(p) + HEADER_SIZE + |r.payload|
                       && Genuine(sum, file, NextStart(p), r.t, r.payload)
  {
    hide ParseAt, Genuine, BlockEnd, NextStart, ReadAt;
    ReadAtStart(sum, file, p);
    if NextStart(p) + HEADER_SIZE <= |file| { ParsedIsGenuine(sum, file, NextStart(p)); }
  }

  // A record as its fragments in the file: payloads in order, typed first to last.
  datatype Piece = Piece(at: nat, t: Byte, payload: seq<Byte>)

  function Payloads(ps: seq<Piece>): seq<Byte> {
    if ps == [] then [] else Payloads(ps[..|ps| - 1]) + ps[|ps| - 1].payload
  }

  ghost predicate GenuinePieces(sum: Checksum, file: seq<Byte>, ps: seq<Piece>) {
    && (forall i :: 0 <= i < |ps| ==> Genuine(sum, file, ps[i].at, ps[i].t, ps[i].payload))
    && (forall i, j :: 0 <= i < j < |ps| ==> ps[i].at + HEADER_SIZE + |ps[i].payload| <= ps[j].at)
  }

  // The fragments of a record that is not complete yet.
  ghost predicate Begun(sum: Checksum, file: seq<Byte>, ps: seq<Piece>, p: nat) {
    && ps != [] && GenuinePieces(sum, file, ps) && ps[0].t == FIRST
    && (forall i :: 0 < i < |ps| ==> ps[i].t == MIDDLE)
    && (forall i :: 0 <= i < |ps| ==> ps[i].at + HEADER_SIZE + |ps[i].payload| <= p)
  }

  ghost predicate Whole(sum: Checksum, file: seq<Byte>, ps: seq<Piece>) {
    && ps != [] && GenuinePieces(sum, file, ps)
    && if |ps| == 1 then ps[0].t == FULL
       else ps[0].t == FIRST && ps[|ps| - 1].t == LAST && forall i :: 0 < i < |ps| - 1 ==> ps[i].t == MIDDLE
  }

  ghost predicate StandsIn(sum: Checksum, file: seq<Byte>, record: seq<Byte>, offset: nat) {
    exists ps: seq<Piece> :: Whole(sum, file, ps) && record == Payloads(ps) && offset == ps[0].at
  }

  ghost predicate UnderWay(sum: Checksum, file: seq<Byte>, a: Partial, p: nat) {
    a.inFragment ==>
      exists ps: seq<Piece> :: Begun(sum, file, ps, p) && a.scratch == Payloads(ps) && a.start == ps[0].at
  }

  lemma PayloadsOne(x: Piece)
    ensures Payloads([x]) == x.payload
  {
    assert Payloads([]) == [];
  }

  lemma AddPiece(sum: Checksum, file: seq<Byte>, ps: seq<Piece>, p: nat, x: Piece)
    requires Begun(sum, file, ps, p) && p <= x.at && Genuine(sum, file, x.at, x.t, x.payload)
    ensures Payloads(ps + [x]) == Payloads(ps) + x.payload
    ensures x.t == MIDDLE ==> Begun(sum, file, ps + [x], x.at + HEADER_SIZE + |x.payload|)
    ensures x.t == LAST ==> Whole(sum, file, ps + [x])
  {
    hide Genuine;
    var qs := ps + [x];
    assert qs[..|qs| - 1] == ps;
    assert forall i :: 0 <= i < |ps| ==> qs[i] == ps[i];
  }

  lemma StartPiece(sum: Checksum, file: seq<Byte>, x: Piece)
    requires Genuine(sum, file, x.at, x.t, x.payload)
    ensures x.t == FULL ==> StandsIn(sum, file, x.payload, x.at)
    ensures x.t == FIRST ==>
              UnderWay(sum, file, Partial(true, x.payload, x.at), x.at + HEADER_SIZE + |x.payload|)
  {
    hide Genuine;
    PayloadsOne(x);
    if x.t == FULL { assert Whole(sum, file, [x]); }
    if x.t == FIRST { assert Begun(sum, file, [x], x.at + HEADER_SIZE + |x.payload|); }
  }

  /** One fragment keeps the record under assembly made of genuine fragments. */
  lemma TakeKeepsGenuine(sum: Checksum, file: seq<Byte>, p: nat, a: Partial)
    requires p <= |file| && UnderWay(sum, file, a, p)
    ensures var f := ReadAt(sum, file, p); var turn := Take(f, a);
            && (turn.Stop? && turn.record.Some? ==> StandsIn(sum, file, turn.record.value, turn.offset))
            && (turn.More? ==> UnderWay(sum, file, turn.partial, f.next))
  {
    hide Genuine, ReadAt, NextStart, Whole, Payloads;
    var f := ReadAt(sum, file, p);
    ReturnedIsGenuine(sum, file, p);
    if f.Rec? {
      var x := Piece(NextStart(p), f.t, f.payload);
      StartPiece(sum, file, x);
      if a.inFragment {
        var ps: seq<Piece> :| Begun(sum, file, ps, p) && a.scratch == Payloads(ps) && a.start == ps[0].at;
        AddPiece(sum, file, ps, p, x);
        assert (ps + [x])[0] == ps[0];
      }
    }
  }

  lemma {:induction false} AssembledIsGenuine(sum: Checksum, file: seq<Byte>, p: nat, a: Partial)
    requires p <= |file| && UnderWay(sum, file, a, p)
    ensures var l := Assemble(sum, file, p, a); l.record.Some? ==> StandsIn(sum, file, l.record.value, l.offset)
    decreases |file| - p
  {
    hide ReadAt, Take, UnderWay, StandsIn;
    TakeKeepsGenuine(sum, file, p, a);
    var f := ReadAt(sum, file, p);
    var turn := Take(f, a);
    if turn.More? { AssembledIsGenuine(sum, file, f.next, turn.partial); }
  }

  /** On any file whatever, every record the reader returns stands in the file as fragments whose checksums are right,
      at the offset it says. */
  lemma {:induction false} EveryRecordIsGenuine(sum: Checksum, file: seq<Byte>, p: nat, i: nat)
    requires p <= |file| && i < |ReadAll(sum, file, p).found|
    ensures var x := ReadAll(sum, file, p).found[i]; StandsIn(sum, file, x.record, x.offset)
    decreases |file| - p
  {
    hide Assemble, StandsIn;
    var l := Assemble(sum, file, p, NOTHING);
    NothingUnderWay(sum, file, p);
    AssembledIsGenuine(sum, file, p, NOTHING);
    if i > 0 { EveryRecordIsGenuine(sum, file, l.next, i - 1); }
  }

  lemma NothingUnderWay(sum: Checksum, file: seq<Byte>, p: nat)
    ensures UnderWay(sum, file, NOTHING, p)
  {
  }

  // ---- A damaged fragment ----

  // Where the window of the fragment at s ends.
  function WindowEnd(file: seq<Byte>, s: nat): nat {
    Min(BlockEnd(s), |file|)
  }

  /** The bytes at s say how long a fragment they are, and their checksum is wrong. */
  ghost predicate Mismatch(sum: Checksum, file: seq<Byte>, s: nat) {
    && s + HEADER_SIZE <= WindowEnd(file, s)
    && var n := Length(file[s + 4], file[s + 5]);
    && s + HEADER_SIZE + n <= WindowEnd(file, s) && !(file[s + 6] == ZERO && n == 0)
    && DecodeFixed(file[s..s + 4]) != Crc(sum, file[s + 6], file[s + HEADER_SIZE..s + HEADER_SIZE + n])
  }

  /** It yields no record and one report, of the rest of its block. */
  lemma MismatchIsReported(sum: Checksum, file: seq<Byte>, q: nat)
    requires q <= |file| && Mismatch(sum, file, NextStart(q))
    ensures var s := NextStart(q);
            ReadAt(sum, file, q) == Bad(WindowEnd(file, s), true, WindowEnd(file, s) - s)
  {
    hide DecodeFixed, Crc, Length, BlockEnd, NextStart, ReadAt;
    ReadAtStart(sum, file, q);
    var s := NextStart(q);
    var w := Part(file, s, WindowEnd(file, s));
    assert w[..4] == file[s..s + 4] && w[4] == file[s + 4] && w[5] == file[s + 5] && w[6] == file[s + 6];
    var n := Length(w[4], w[5]);
    PartSlice(file, s, WindowEnd(file, s), HEADER_SIZE, HEADER_SIZE + n);
  }

  /** A fragment among those that AddRecord writes for a record. */
  predicate PieceOf(q: nat, data: seq<Byte>, s: nat, d: seq<Byte>)
    decreases |data|, NoRoom(q)
  {
    var n := FragmentLength(q, |data|);
    var end := NextStart(q) + HEADER_SIZE + n;
    || (s == NextStart(q) && d == data[..n])
    || (n < |data| && PieceOf(end, data[n..], s, d))
  }

  lemma PieceAfter(q: nat, data: seq<Byte>, s: nat, d: seq<Byte>)
    requires PieceOf(q, data, s, d)
    ensures NextStart(q) <= s
    decreases |data|, NoRoom(q)
  {
    hide NextStart, FragmentLength, NoRoom;
    var n := FragmentLength(q, |data|);
    if n < |data| && s != NextStart(q) {
      Progress(q, |data|);
      PieceAfter(NextStart(q) + HEADER_SIZE + n, data[n..], s, d);
    }
  }

  // The first fragment of a record, intact in a file.
  lemma FirstIntact(sum: Checksum, file: seq<Byte>, q: nat, data: seq<Byte>, begin: bool)
    requires q <= |file| && At(file, q, Chunk(sum, q, data, begin))
    ensures var n := FragmentLength(q, |data|);
            ReadAt(sum, file, q) == Rec(TypeOf(begin, n == |data|), data[..n], NextStart(q) + HEADER_SIZE + n)
  {
    hide ReadAt, Physical, NextStart, BlockEnd, FragmentLength, Zeros, At;
    var n := FragmentLength(q, |data|);
    AtParts(file, q, Zeros(NextStart(q) - q), Physical(sum, TypeOf(begin, n == |data|), data[..n]));
    Fits(q, |data|);
    AtFits(file, NextStart(q), Physical(sum, TypeOf(begin, n == |data|), data[..n]));
    FragmentBack(sum, file, |file|, q, TypeOf(begin, n == |data|), data[..n]);
    assert file[..|file|] == file;
  }

  lemma AtFits(file: seq<Byte>, q: nat, bytes: seq<Byte>)
    requires At(file, q, bytes)
    ensures q + |bytes| <= |file|
  {
  }

  lemma AtSame(file: seq<Byte>, file': seq<Byte>, from: nat, upTo: nat, q: nat, bytes: seq<Byte>)
    requires At(file, q, bytes) && |file'| == |file| && from <= q && q + |bytes| <= upTo <= |file|
    requires file'[from..upTo] == file[from..upTo]
    ensures At(file', q, bytes)
  {
    PartSlice(file, from, upTo, q - from, q - from + |bytes|);
    PartSlice(file', from, upTo, q - from, q - from + |bytes|);
  }

  // ---- With no record under assembly, what went before does not matter ----

  lemma {:induction false} IdleReads(sum: Checksum, file: seq<Byte>, p: nat, a: Partial)
    requires p <= |file| && !a.inFragment
    ensures Assemble(sum, file, p, a) == Assemble(sum, file, p, NOTHING)
    decreases |file| - p
  {
    hide ReadAt;
    var f := ReadAt(sum, file, p);
    var turn, turn' := Take(f, a), Take(f, NOTHING);
    if turn.More? && !turn.partial.inFragment {
      IdleReads(sum, file, f.next, turn.partial);
      IdleReads(sum, file, f.next, turn'.partial);
    }
  }

  // Only a trailer lies between q and s.
  lemma TrailerSkipped(sum: Checksum, file: seq<Byte>, q: nat, s: nat, a: Partial)
    requires q <= s <= |file| && NextStart(q) == s
    ensures Assemble(sum, file, q, a) == Assemble(sum, file, s, a)
  {
    hide ParseAt, Take;
    ReadAtStart(sum, file, q);
    ReadAtStart(sum, file, s);
    StartOfStart(q);
  }

  lemma StartOfStart(q: nat)
    ensures NextStart(NextStart(q)) == NextStart(q)
  {
  }

  // ---- What follows a damaged fragment ----

  lemma TakeStray(t: Byte, d: seq<Byte>, next: nat)
    requires HEADER_SIZE + |d| <= next && (t == MIDDLE || t == LAST)
    ensures Take(Rec(t, d, next), NOTHING) == More(NOTHING, [|d|])
  {
  }

  lemma EmitSplits(sum: Checksum, q: nat, data: seq<Byte>, begin: bool)
    ensures var n, chunk := FragmentLength(q, |data|), Chunk(sum, q, data, begin);
            && Emit(sum, q, data, begin) == chunk + Rest(sum, q, data, begin)
            && q + |chunk| == NextStart(q) + HEADER_SIZE + n
            && Rest(sum, q, data, begin) == if n == |data| then [] else Emit(sum, q + |chunk|, data[n..], false)
  {
    hide Chunk, FragmentLength, NextStart;
  }

  // A turn that goes on.
  lemma AssembleOn(sum: Checksum, file: seq<Byte>, p: nat, a: Partial, b: Partial, rs: seq<nat>)
    requires p <= |file|
    requires var f := ReadAt(sum, file, p); !f.Eof? && Take(f, a) == More(b, rs)
    ensures var f := ReadAt(sum, file, p);
            Assemble(sum, file, p, a) == Reported(Own(f) + rs, Assemble(sum, file, f.next, b))
  {
    hide ReadAt, Take, Own;
  }

  /** The rest of a record whose beginning was lost is reported fragment by fragment. */
  lemma {:induction false} TailSkipped(sum: Checksum, file: seq<Byte>, q: nat, data: seq<Byte>) returns (rs: seq<nat>)
    requires q <= |file| && At(file, q, Emit(sum, q, data, false))
    ensures q + |Emit(sum, q, data, false)| <= |file|
    ensures Assemble(sum, file, q, NOTHING) ==
            Reported(rs, Assemble(sum, file, q + |Emit(sum, q, data, false)|, NOTHING))
    decreases |data|, NoRoom(q)
  {
    hide ReadAt, NextStart, FragmentLength, Take, NoRoom, At, Chunk, Emit, Assemble, Rest;
    var n, chunk := FragmentLength(q, |data|), Chunk(sum, q, data, false);
    EmitSplits(sum, q, data, false);
    AtParts(file, q, chunk, Rest(sum, q, data, false));
    AtFits(file, q, Emit(sum, q, data, false));
    FirstIntact(sum, file, q, data, false);
    TakeStray(TypeOf(false, n == |data|), data[..n], q + |chunk|);
    AssembleOn(sum, file, q, NOTHING, NOTHING, [n]);
    rs := [n];
    if n < |data| {
      Progress(q, |data|);
      var more := TailSkipped(sum, file, q + |chunk|, data[n..]);
      rs := [n] + more;
      ReportedTwice([n], more, Assemble(sum, file, q + |Emit(sum, q, data, false)|, NOTHING));
    }
  }

  /** Up to the damaged fragment all is as written; then what was under assembly is given up. */
  lemma {:induction false} ReadToDamage(sum: Checksum, file: seq<Byte>, file': seq<Byte>, q: nat, data: seq<Byte>,
                                        begin: bool, a: Partial, s: nat, d: seq<Byte>) returns (rs: seq<nat>)
    requires q <= s <= |file'| == |file| && file'[..s] == file[..s] && At(file, q, Emit(sum, q, data, begin))
    requires PieceOf(q, data, s, d) && Mismatch(sum, file', s) && (if begin then a == NOTHING else a.inFragment)
    ensures rs != [] && rs[0] == WindowEnd(file', s) - s
    ensures Assemble(sum, file', q, a) == Reported(rs, Assemble(sum, file', WindowEnd(file', s), NOTHING))
    decreases |data|, NoRoom(q)
  {
    hide ReadAt, NextStart, FragmentLength, NoRoom, At, Chunk, Mismatch, BlockEnd, Assemble, Emit, Take, Rest;
    var n, chunk := FragmentLength(q, |data|), Chunk(sum, q, data, begin);
    if s == NextStart(q) {
      rs := GiveUp(sum, file', q, a);
    } else {
      EmitSplits(sum, q, data, begin);
      AtParts(file, q, chunk, Rest(sum, q, data, begin));
      PieceAfter(q + |chunk|, data[n..], s, d);
      StartsLater(q + |chunk|);
      AtSame(file, file', 0, s, q, chunk);
      FirstIntact(sum, file', q, data, begin);
      TakeWritten(begin, false, data[..n], q + |chunk|, a);
      Progress(q, |data|);
      var b := Partial(true, a.scratch + data[..n], if begin then NextStart(q) else a.start);
      AssembleOn(sum, file', q, a, b, []);
      ReportedNothing(Assemble(sum, file', q + |chunk|, b));
      rs := ReadToDamage(sum, file, file', q + |chunk|, data[n..], false, b, s, d);
    }
  }

  lemma GiveUp(sum: Checksum, file: seq<Byte>, q: nat, a: Partial) returns (rs: seq<nat>)
    requires q <= |file| && Mismatch(sum, file, NextStart(q))
    ensures var s := NextStart(q);
            && rs != [] && rs[0] == WindowEnd(file, s) - s
            && Assemble(sum, file, q, a) == Reported(rs, Assemble(sum, file, WindowEnd(file, s), NOTHING))
  {
    hide ReadAt, NextStart, Mismatch, BlockEnd, Assemble;
    MismatchIsReported(sum, file, q);
    var turn := Spoiled(a);
    AssembleOn(sum, file, q, a, turn.partial, turn.reports);
    IdleReads(sum, file, WindowEnd(file, NextStart(q)), turn.partial);
    rs := [WindowEnd(file, NextStart(q)) - NextStart(q)] + turn.reports;
  }

  lemma StartsLater(q: nat)
    ensures q <= NextStart(q)
  {
  }

  // A fragment that is not the record's last fills its block.
  lemma FillsBlock(q: nat, n: nat)
    requires FragmentLength(q, n) < n
    ensures NextStart(q) + HEADER_SIZE + FragmentLength(q, n) == BlockEnd(NextStart(q))
  {
  }

  /** A fragment ends its record, or its block, where the rest of the record goes on. */
  lemma {:induction false} AfterPiece(sum: Checksum, file: seq<Byte>, q: nat, data: seq<Byte>, begin: bool, s: nat,
                                      d: seq<Byte>) returns (rest: seq<Byte>)
    requires At(file, q, Emit(sum, q, data, begin)) && PieceOf(q, data, s, d)
    ensures var end, last := s + HEADER_SIZE + |d|, q + |Emit(sum, q, data, begin)|;
            && q <= s && end <= BlockEnd(s) && end <= last <= |file|
            && if rest == [] then end == last
               else end == BlockEnd(s) && At(file, end, Emit(sum, end, rest, false))
                    && last == end + |Emit(sum, end, rest, false)|
    decreases |data|, NoRoom(q)
  {
    hide NextStart, FragmentLength, NoRoom, At, Chunk, BlockEnd;
    var n, chunk := FragmentLength(q, |data|), Chunk(sum, q, data, begin);
    AtFits(file, q, Emit(sum, q, data, begin));
    Fits(q, |data|);
    StartsLater(q);
    if n < |data| {
      var more := Emit(sum, q + |chunk|, data[n..], false);
      assert Emit(sum, q, data, begin) == chunk + more;
      AtParts(file, q, chunk, more);
      FillsBlock(q, |data|);
      if s == NextStart(q) && d == data[..n] {
        rest := data[n..];
      } else {
        Progress(q, |data|);
        rest := AfterPiece(sum, file, q + |chunk|, data[n..], false, s, d);
      }
    } else {
      rest := [];
    }
  }

  // The first record from k on that starts at or after e, if there is one.
  ghost predicate FirstFrom(sum: Checksum, recs: seq<seq<Byte>>, k: nat, e: nat, j: nat) {
    && k <= j <= |recs| && (j < |recs| ==> e <= NextStart(EndOf(sum, recs, j)))
    && forall x :: k <= x < j ==> NextStart(EndOf(sum, recs, x)) < e
  }

  lemma SameBlock(s: nat, q: nat)
    requires s < q <= BlockEnd(s)
    ensures NextStart(q) < BlockEnd(s) ==> BlockEnd(NextStart(q)) == BlockEnd(s)
    ensures q <= NextStart(q) <= BlockEnd(s)
  {
  }

  // The first fragment of a record lies within the file.
  lemma RecordHasHeader(sum: Checksum, recs: seq<seq<Byte>>, k: nat)
    requires k < |recs|
    ensures NextStart(EndOf(sum, recs, k)) + HEADER_SIZE <= EndOf(sum, recs, k + 1) <= |Written(sum, recs)|
  {
    hide NextStart, FragmentLength;
    RecordAt(sum, recs, k);
  }

  lemma Suffix(file: seq<Byte>, file': seq<Byte>, a: nat, b: nat)
    requires a <= b <= |file| == |file'| && file'[a..] == file[a..]
    ensures file'[b..] == file[b..]
  {
    assert file'[b..] == file'[a..][b - a..] && file[b..] == file[a..][b - a..];
  }

  lemma AtSuffix(file: seq<Byte>, file': seq<Byte>, from: nat, q: nat, bytes: seq<Byte>)
    requires At(file, q, bytes) && |file'| == |file| && from <= q && file'[from..] == file[from..]
    ensures At(file', q, bytes)
  {
    assert file'[from..] == file'[from..|file|] && file[from..] == file[from..|file|];
    AtSame(file, file', from, |file|, q, bytes);
  }

  /** From the end of the block on, records that began in it are passed over. */
  lemma {:induction false} RestSkipped(sum: Checksum, recs: seq<seq<Byte>>, file': seq<Byte>, k: nat, s: nat)
    returns (j: nat, rs: seq<nat>)
    requires var file := Written(sum, recs); k <= |recs| && |file'| == |file| && s < EndOf(sum, recs, k) <= |file|
    requires EndOf(sum, recs, k) <= BlockEnd(s)
    requires file'[EndOf(sum, recs, k)..] == Written(sum, recs)[EndOf(sum, recs, k)..]
    ensures var e := WindowEnd(file', s);
            && FirstFrom(sum, recs, k, e, j) && EndOf(sum, recs, k) <= EndOf(sum, recs, j) <= |file'|
            && Assemble(sum, file', e, NOTHING) == Reported(rs, Assemble(sum, file', EndOf(sum, recs, j), NOTHING))
    decreases |recs| - k
  {
    hide Emit, Assemble, Written, NextStart, BlockEnd, EndOf, FragmentLength, At;
    var file, q, e := Written(sum, recs), EndOf(sum, recs, k), WindowEnd(file', s);
    j, rs := k, [];
    SameBlock(s, q);
    if k == |recs| {
      AtEnd(sum, recs);
      ReportedNothing(Assemble(sum, file', e, NOTHING));
    } else {
      RecordHasHeader(sum, recs, k);
      if NextStart(q) >= e {
        TrailerSkipped(sum, file', q, e, NOTHING);
        ReportedNothing(Assemble(sum, file', e, NOTHING));
      } else {
        RecordAt(sum, recs, k);
        var data := recs[k];
        var n := FragmentLength(q, |data|);
        Suffix(file, file', q, EndOf(sum, recs, k + 1));
        if n == |data| {
          WholeInBlock(sum, q, data);
          j, rs := RestSkipped(sum, recs, file', k + 1, s);
        } else {
          AtSuffix(file, file', q, q, Emit(sum, q, data, true));
          rs := TailOfBegun(sum, file', q, data);
          j := k + 1;
          StartsLater(EndOf(sum, recs, j));
        }
      }
    }
  }

  lemma WholeInBlock(sum: Checksum, q: nat, data: seq<Byte>)
    requires FragmentLength(q, |data|) == |data|
    ensures q + |Emit(sum, q, data, true)| <= BlockEnd(NextStart(q))
  {
    hide NextStart, BlockEnd, FragmentLength;
    Fits(q, |data|);
  }

  lemma TailOfBegun(sum: Checksum, file: seq<Byte>, q: nat, data: seq<Byte>) returns (rs: seq<nat>)
    requires q <= |file| && At(file, q, Emit(sum, q, data, true)) && FragmentLength(q, |data|) < |data|
    ensures var e, next := BlockEnd(NextStart(q)), q + |Emit(sum, q, data, true)|;
            && e <= next <= |file|
            && Assemble(sum, file, e, NOTHING) == Reported(rs, Assemble(sum, file, next, NOTHING))
  {
    hide NextStart, BlockEnd, FragmentLength, Assemble, At, Chunk;
    var n, chunk := FragmentLength(q, |data|), Chunk(sum, q, data, true);
    FillsBlock(q, |data|);
    var more := Emit(sum, q + |chunk|, data[n..], false);
    assert Emit(sum, q, data, true) == chunk + more;
    AtParts(file, q, chunk, more);
    AtFits(file, q, Emit(sum, q, data, true));
    rs := TailSkipped(sum, file, q + |chunk|, data[n..]);
  }

  // ---- The whole log ----

  ghost predicate InPlace(sum: Checksum, recs: seq<seq<Byte>>, file: seq<Byte>, x: nat)
    requires x < |recs|
  {
    At(file, EndOf(sum, recs, x), Emit(sum, EndOf(sum, recs, x), recs[x], true))
  }

  lemma OneIntact(sum: Checksum, recs: seq<seq<Byte>>, file: seq<Byte>, k: nat)
    requires k < |recs| && InPlace(sum, recs, file, k)
    ensures EndOf(sum, recs, k) <= EndOf(sum, recs, k + 1) <= |file|
    ensures var q := EndOf(sum, recs, k);
            ReadAll(sum, file, q) ==
            Join(Contents([Found(recs[k], NextStart(q))], []), ReadAll(sum, file, EndOf(sum, recs, k + 1)))
  {
    hide Emit, Assemble, Written, EndOf, At, ReadAll, NextStart;
    var q := EndOf(sum, recs, k);
    RecordAt(sum, recs, k);
    AtFits(file, q, Emit(sum, q, recs[k], true));
    RecordBack(sum, file, |file|, q, recs[k], true, NOTHING);
    assert file[..|file|] == file && NOTHING.scratch + recs[k] == recs[k];
    ReadStep(sum, file, q, Contents([], []));
    JoinRules(Contents([], []), Contents([], []), ReadAll(sum, file, q));
  }

  // While records are in place the reader returns them.
  lemma {:induction false} IntactRecords(sum: Checksum, recs: seq<seq<Byte>>, file: seq<Byte>, k: nat, i: nat)
    requires k <= i <= |recs| && EndOf(sum, recs, k) <= |file| && EndOf(sum, recs, i) <= |file|
    requires forall x :: k <= x < i ==> InPlace(sum, recs, file, x)
    ensures ReadAll(sum, file, EndOf(sum, recs, k)) ==
            Join(Contents(Expected(sum, recs, k, i), []), ReadAll(sum, file, EndOf(sum, recs, i)))
    decreases i - k
  {
    hide EndOf, ReadAll, InPlace, NextStart, Join;
    var q, after := EndOf(sum, recs, k), ReadAll(sum, file, EndOf(sum, recs, i));
    if k == i {
      JoinRules(Contents([], []), Contents([], []), after);
    } else {
      OneIntact(sum, recs, file, k);
      IntactRecords(sum, recs, file, k + 1, i);
      JoinExpected(Found(recs[k], NextStart(q)), Expected(sum, recs, k + 1, i), after);
    }
  }

  lemma JoinExpected(x: Found, xs: seq<Found>, after: Contents)
    ensures Join(Contents([x], []), Join(Contents(xs, []), after)) == Join(Contents([x] + xs, []), after)
  {
    JoinRules(Contents([x], []), Contents(xs, []), after);
  }

  lemma NothingAfterEnd(sum: Checksum, file: seq<Byte>)
    ensures ReadAll(sum, file, |file|) == Contents([], [])
  {
    NothingLeft(sum, file);
  }

  // Reports on the way to the next record.
  lemma ReportedFirst(sum: Checksum, file: seq<Byte>, p: nat, p': nat, rs: seq<nat>)
    requires p <= |file| && p' <= |file|
    requires Assemble(sum, file, p, NOTHING) == Reported(rs, Assemble(sum, file, p', NOTHING))
    ensures ReadAll(sum, file, p) == Join(Contents([], rs), ReadAll(sum, file, p'))
  {
    hide Assemble;
    var l := Assemble(sum, file, p', NOTHING);
    if l.record.Some? { JoinRules(Contents([], rs), One(l), ReadAll(sum, file, l.next)); }
  }

  lemma {:induction false} ReadIntactEnd(sum: Checksum, recs: seq<seq<Byte>>, file': seq<Byte>, j: nat)
    requires j <= |recs| && |file'| == |Written(sum, recs)| && EndOf(sum, recs, j) <= |file'|
    requires file'[EndOf(sum, recs, j)..] == Written(sum, recs)[EndOf(sum, recs, j)..]
    ensures ReadAll(sum, file', EndOf(sum, recs, j)) == Contents(Expected(sum, recs, j, |recs|), [])
  {
    hide Emit, Written, EndOf, At, ReadAll, Expected;
    var file := Written(sum, recs);
    forall x | j <= x < |recs| ensures InPlace(sum, recs, file', x) {
      RecordAt(sum, recs, x);
      Earlier(sum, recs, j, x);
      AtFits(file, EndOf(sum, recs, x), Emit(sum, EndOf(sum, recs, x), recs[x], true));
      AtSuffix(file, file', EndOf(sum, recs, j), EndOf(sum, recs, x), Emit(sum, EndOf(sum, recs, x), recs[x], true));
    }
    AtEnd(sum, recs);
    IntactRecords(sum, recs, file', j, |recs|);
    NothingAfterEnd(sum, file');
    JoinNothing(Contents(Expected(sum, recs, j, |recs|), []));
  }

  lemma JoinNothing(a: Contents)
    ensures Join(a, Contents([], [])) == a
  {
  }

  lemma {:induction false} ReadIntactStart(sum: Checksum, recs: seq<seq<Byte>>, file': seq<Byte>, i: nat, s: nat)
    requires i <= |recs| && |file'| == |Written(sum, recs)| && EndOf(sum, recs, i) <= s <= |file'|
    requires file'[..s] == Written(sum, recs)[..s]
    ensures ReadAll(sum, file', 0) ==
            Join(Contents(Expected(sum, recs, 0, i), []), ReadAll(sum, file', EndOf(sum, recs, i)))
  {
    hide Emit, Written, EndOf, At, ReadAll, Expected;
    var file := Written(sum, recs);
    forall x | 0 <= x < i ensures InPlace(sum, recs, file', x) {
      RecordAt(sum, recs, x);
      Earlier(sum, recs, x + 1, i);
      AtFits(file, EndOf(sum, recs, x), Emit(sum, EndOf(sum, recs, x), recs[x], true));
      AtSame(file, file', 0, s, EndOf(sum, recs, x), Emit(sum, EndOf(sum, recs, x), recs[x], true));
    }
    StartsAtZero(sum, recs);
    IntactRecords(sum, recs, file', 0, i);
  }

  /** A log as it was written but for one fragment of record i, at s. */
  ghost predicate DamagedAt(sum: Checksum, recs: seq<seq<Byte>>, file': seq<Byte>, i: nat, s: nat, d: seq<Byte>) {
    var file := Written(sum, recs);
    && i < |recs| && PieceOf(EndOf(sum, recs, i), recs[i], s, d)
    && |file'| == |file| && s + HEADER_SIZE + |d| <= |file|
    && file'[..s] == file[..s] && file'[s + HEADER_SIZE + |d|..] == file[s + HEADER_SIZE + |d|..]
    && Mismatch(sum, file', s)
  }

  lemma DamageSkipped(sum: Checksum, recs: seq<seq<Byte>>, file': seq<Byte>, i: nat, s: nat, d: seq<Byte>)
    returns (j: nat, rs: seq<nat>)
    requires DamagedAt(sum, recs, file', i, s, d)
    ensures EndOf(sum, recs, i) <= s && FirstFrom(sum, recs, i + 1, WindowEnd(file', s), j)
    ensures rs != [] && rs[0] == WindowEnd(file', s) - s
    ensures EndOf(sum, recs, j) <= |file'| && s + HEADER_SIZE + |d| <= EndOf(sum, recs, j)
    ensures Assemble(sum, file', EndOf(sum, recs, i), NOTHING) ==
            Reported(rs, Assemble(sum, file', EndOf(sum, recs, j), NOTHING))
  {
    hide Emit, Assemble, Written, NextStart, BlockEnd, EndOf, FragmentLength, At, Mismatch, PieceOf;
    var file, q, end := Written(sum, recs), EndOf(sum, recs, i), s + HEADER_SIZE + |d|;
    RecordAt(sum, recs, i);
    var rest := AfterPiece(sum, file, q, recs[i], true, s, d);
    var first := ReadToDamage(sum, file, file', q, recs[i], true, NOTHING, s, d);
    var more;
    if rest == [] {
      j, more := RestSkipped(sum, recs, file', i + 1, s);
    } else {
      AtSuffix(file, file', end, end, Emit(sum, end, rest, false));
      more := TailSkipped(sum, file', end, rest);
      j := i + 1;
      StartsLater(EndOf(sum, recs, j));
    }
    rs := first + more;
    ReportedTwice(first, more, Assemble(sum, file', EndOf(sum, recs, j), NOTHING));
  }

  lemma ReportedTwice(a: seq<nat>, b: seq<nat>, l: Logical)
    ensures Reported(a, Reported(b, l)) == Reported(a + b, l)
  {
  }

  /** Whatever the records, and whichever fragment of record i is damaged so that its checksum is wrong: the reader
      returns exactly the records before it and those from the first one on that starts after the damaged block, in
      order and with their offsets, and its first report is of the damaged fragment and the rest of its block. */
  lemma DamagedLog(sum: Checksum, recs: seq<seq<Byte>>, file': seq<Byte>, i: nat, s: nat, d: seq<Byte>)
    returns (j: nat)
    requires DamagedAt(sum, recs, file', i, s, d)
    ensures FirstFrom(sum, recs, i + 1, WindowEnd(file', s), j)
    ensures var all := ReadAll(sum, file', 0);
            && all.found == Expected(sum, recs, 0, i) + Expected(sum, recs, j, |recs|)
            && all.reports != [] && all.reports[0] == WindowEnd(file', s) - s
  {
    hide Emit, Assemble, Written, NextStart, BlockEnd, EndOf, FragmentLength, At, Mismatch, PieceOf, ReadAll, Expected;
    var rs;
    j, rs := DamageSkipped(sum, recs, file', i, s, d);
    var q, q' := EndOf(sum, recs, i), EndOf(sum, recs, j);
    ReadIntactStart(sum, recs, file', i, s);
    ReportedFirst(sum, file', q, q', rs);
    Suffix(Written(sum, recs), file', s + HEADER_SIZE + |d|, q');
    ReadIntactEnd(sum, recs, file', j);
    JoinRules(Contents(Expected(sum, recs, 0, i), []), Contents([], rs), ReadAll(sum, file', q'));
  }
}
