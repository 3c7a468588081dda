/** The write-ahead log: records cut into fragments that never cross a 32 KB block. */
module Log {
  import opened DbFormat
  import opened Coding

  const BLOCK_SIZE: nat := 32768
  const HEADER_SIZE: nat := 7

  const ZERO: Byte := 0
  const FULL: Byte := 1
  const FIRST: Byte := 2
  const MIDDLE: Byte := 3
  const LAST: Byte := 4
  // Codes the reader adds to the types of the format; a fragment that carries one is taken for what the code means.
  const EOF_CODE: Byte := 5
  const BAD_CODE: Byte := 6

  // The masked CRC of a type byte and a payload: any function the writer and the reader share.
  type Checksum = (Byte, seq<Byte>) -> nat

  function Crc(sum: Checksum, t: Byte, payload: seq<Byte>): nat {
    sum(t, payload) % MOD32
  }

  predicate Aligned(q: nat) {
    q % BLOCK_SIZE == 0
  }

  function BlockEnd(q: nat): (r: nat)
    ensures q < r <= q + BLOCK_SIZE && Aligned(r)
  {
    (q / BLOCK_SIZE + 1) * BLOCK_SIZE
  }

  /** Where the next fragment after position q starts: a header never straddles a block. */
  function NextStart(q: nat): (r: nat)
    ensures q <= r && BlockEnd(r) - r >= HEADER_SIZE
  {
    if BlockEnd(q) - q < HEADER_SIZE then BlockEnd(q) else q
  }

  // ---- Writing ----

  function Physical(sum: Checksum, t: Byte, payload: seq<Byte>): (r: seq<Byte>)
    ensures |r| == HEADER_SIZE + |payload|
  {
    Fixed(Crc(sum, t, payload), 4) + [|payload| % 256, |payload| / 256 % 256, t] + payload
  }

  function TypeOf(begin: bool, end: bool): Byte {
    if begin && end then FULL else if begin then FIRST else if end then LAST else MIDDLE
  }

  function Zeros(n: nat): (r: seq<Byte>)
    ensures |r| == n
  {
    seq(n, _ => 0)
  }

  function FragmentLength(q: nat, n: nat): (r: nat)
    ensures r <= n
  {
    var avail := BlockEnd(NextStart(q)) - NextStart(q) - HEADER_SIZE;
    if n < avail then n else avail
  }

  // Padding to a new block if needed, then one fragment.
  function Chunk(sum: Checksum, q: nat, data: seq<Byte>, begin: bool): (r: seq<Byte>)
    ensures q + |r| == NextStart(q) + HEADER_SIZE + FragmentLength(q, |data|)
  {
    var n := FragmentLength(q, |data|);
    Zeros(NextStart(q) - q) + Physical(sum, TypeOf(begin, n == |data|), data[..n])
  }

  /** What AddRecord appends to a file of length q. */
  function Emit(sum: Checksum, q: nat, data: seq<Byte>, begin: bool): seq<Byte>
    decreases |data|, NoRoom(q)
  {
    var n, chunk := FragmentLength(q, |data|), Chunk(sum, q, data, begin);
    if n == |data| then chunk else chunk + Emit(sum, q + |chunk|, data[n..], false)
  }

  // The offset within its block of the end of a file of length q.
  predicate SameOffset(off: nat, q: nat) {
    off <= BLOCK_SIZE && off % BLOCK_SIZE == q % BLOCK_SIZE
  }

  class Writer {
    const sum: Checksum
    var dest: seq<Byte>
    var blockOffset: nat

    ghost predicate Valid()
      reads this
    {
      SameOffset(blockOffset, |dest|)
    }

    constructor (sum: Checksum, dest: seq<Byte>)
      ensures Valid() && this.dest == dest && this.sum == sum
    {
      this.sum, this.dest := sum, dest;
      blockOffset := |dest| % BLOCK_SIZE;
    }

    method EmitPhysicalRecord(t: Byte, payload: seq<Byte>)
      requires Valid() && blockOffset + HEADER_SIZE + |payload| <= BLOCK_SIZE
      modifies this
      ensures Valid() && dest == old(dest) + Physical(sum, t, payload) &&
              blockOffset == old(blockOffset) + HEADER_SIZE + |payload|
    {
      hide Physical, SameOffset;
      OffsetAdds(blockOffset, |dest|, HEADER_SIZE + |payload|);
      dest := dest + Physical(sum, t, payload);
      blockOffset := blockOffset + HEADER_SIZE + |payload|;
    }

    // One turn of AddRecord's loop: pad to a new block if needed, then emit as much as fits.
    method AddFragment(rest: seq<Byte>, begin: bool) returns (n: nat)
      requires Valid()
      modifies this
      ensures Valid() && n == FragmentLength(|old(dest)|, |rest|)
      ensures dest == old(dest) + Chunk(sum, |old(dest)|, rest, begin)
    {
      hide Physical, NextStart, BlockEnd, Zeros, TypeOf, SameOffset;
      Offsets(|dest|, blockOffset);
      var leftover := BLOCK_SIZE - blockOffset;
      ghost var q := |dest|;
      if leftover < HEADER_SIZE {
        dest := dest + Zeros(leftover);
        blockOffset := 0;
      } else {
        assert dest == dest + Zeros(0);
      }
      var avail := BLOCK_SIZE - blockOffset - HEADER_SIZE;
      n := if |rest| < avail then |rest| else avail;
      EmitPhysicalRecord(TypeOf(begin, |rest| == n), rest[..n]);
    }

    method AddRecord(data: seq<Byte>)
      requires Valid()
      modifies this
      ensures Valid() && dest == old(dest) + Emit(sum, |old(dest)|, data, true)
    {
      var rest, begin, more := data, true, true;
      hide *;
      ghost var goal := dest + Emit(sum, |dest|, data, true);
      while more
        invariant Valid()
        invariant goal == if more then dest + Emit(sum, |dest|, rest, begin) else dest
        decreases more, |rest|, NoRoom(|dest|)
      {
        Piece(sum, dest, rest, begin);
        Progress(|dest|, |rest|);
        var n := AddFragment(rest, begin);
        rest := rest[n..];
        begin := false;
        more := |rest| > 0;
      }
    }
  }

  // Only an empty fragment fits.
  predicate NoRoom(q: nat) {
    BlockEnd(NextStart(q)) - NextStart(q) == HEADER_SIZE
  }

  lemma Progress(q: nat, n: nat)
    ensures FragmentLength(q, n) == 0 < n ==> NoRoom(q) && !NoRoom(NextStart(q) + HEADER_SIZE)
  {
  }

  lemma Piece(sum: Checksum, start: seq<Byte>, rest: seq<Byte>, begin: bool)
    ensures var n, d := FragmentLength(|start|, |rest|), start + Chunk(sum, |start|, rest, begin);
            start + Emit(sum, |start|, rest, begin) == if n == |rest| then d else d + Emit(sum, |d|, rest[n..], false)
  {
    hide Chunk, FragmentLength;
  }

  lemma OffsetAdds(off: nat, q: nat, n: nat)
    requires SameOffset(off, q) && off + n <= BLOCK_SIZE
    ensures SameOffset(off + n, q + n)
  {
  }

  // The writer's block offset says where the next fragment starts and how much fits.
  lemma Offsets(q: nat, off: nat)
    requires SameOffset(off, q)
    ensures off <= BLOCK_SIZE
    ensures var o := if BLOCK_SIZE - off < HEADER_SIZE then 0 else off;
            && NextStart(q) - q == (if BLOCK_SIZE - off < HEADER_SIZE then BLOCK_SIZE - off else 0)
            && SameOffset(o, NextStart(q)) && BlockEnd(NextStart(q)) - NextStart(q) == BLOCK_SIZE - o
  {
  }

  // ---- Reading one fragment ----

  datatype Fragment =
    | Eof
    | Bad(next: nat, reported: bool, bytes: nat)
    | Rec(t: Byte, payload: seq<Byte>, next: nat)

  function Length(lo: Byte, hi: Byte): nat {
    lo + 256 * hi
  }

  function Min(a: nat, b: nat): nat { if a < b then a else b }

  // Parses the fragment at the head of w, the rest of a block that ends at file position e.
  function Parse(sum: Checksum, w: seq<Byte>, e: nat, wholeBlock: bool): (r: Fragment)
    requires HEADER_SIZE <= |w| <= e
    ensures r.Rec? ==> r.next == e - |w| + HEADER_SIZE + |r.payload|
  {
    var t, n := w[6], Length(w[4], w[5]);
    if HEADER_SIZE + n > |w| then
      if wholeBlock then Bad(e, true, |w|) else Eof
    else if t == ZERO && n == 0 then Bad(e, false, 0)
    else if DecodeFixed(w[..4]) != Crc(sum, t, w[HEADER_SIZE..HEADER_SIZE + n]) then Bad(e, true, |w|)
    else Rec(t, w[HEADER_SIZE..HEADER_SIZE + n], e - |w| + HEADER_SIZE + n)
  }

  function Part(file: seq<Byte>, a: nat, e: nat): (r: seq<Byte>)
    requires a <= e <= |file|
    ensures |r| == e - a
  {
    file[a..e]
  }

  function ParseAt(sum: Checksum, file: seq<Byte>, s: nat): Fragment
    requires s + HEADER_SIZE <= Min(BlockEnd(s), |file|)
  {
    var e := Min(BlockEnd(s), |file|);
    Parse(sum, Part(file, s, e), e, BlockEnd(s) <= |file|)
  }

  /** The next fragment of any file whatever, from position p. */
  function ReadAt(sum: Checksum, file: seq<Byte>, p: nat): (r: Fragment)
    requires p <= |file|
    ensures !r.Eof? ==> p < r.next <= |file|
    ensures r.Rec? ==> p + HEADER_SIZE + |r.payload| <= r.next
  {
    var here := Min(BlockEnd(p), |file|) - p;
    if here >= HEADER_SIZE then ParseAt(sum, file, p)
    else if BlockEnd(p) > |file| then Eof
    else if |file| - BlockEnd(p) < HEADER_SIZE then Eof
    else ParseAt(sum, file, BlockEnd(p))
  }

  lemma Blocks(s: nat, e: nat)
    ensures s <= e < BlockEnd(s) ==> BlockEnd(e) == BlockEnd(s)
    ensures s < e <= BlockEnd(s) && Aligned(e) ==> e == BlockEnd(s)
    ensures Aligned(e) ==> BlockEnd(e) == e + BLOCK_SIZE && Aligned(e + BLOCK_SIZE)
  {
  }

  lemma ReadCases(sum: Checksum, file: seq<Byte>, p: nat)
    requires p <= |file|
    ensures HEADER_SIZE <= Min(BlockEnd(p), |file|) - p ==> ReadAt(sum, file, p) == ParseAt(sum, file, p)
    ensures BlockEnd(p) - p < HEADER_SIZE && BlockEnd(p) <= |file| ==>
            ReadAt(sum, file, p) == ReadAt(sum, file, BlockEnd(p))
    ensures |file| - p < HEADER_SIZE && |file| < BlockEnd(p) ==> ReadAt(sum, file, p) == Eof
  {
  }

  // The buffer is the part of the file that ends at e.
  ghost predicate Holds(file: seq<Byte>, buffer: seq<Byte>, e: nat) {
    |buffer| <= e <= |file| && buffer == Part(file, e - |buffer|, e)
  }

  lemma HoldsNothing(file: seq<Byte>, e: nat)
    requires e <= |file|
    ensures Holds(file, [], e)
  {
  }

  lemma HoldsPart(file: seq<Byte>, a: nat, e: nat)
    requires a <= e <= |file|
    ensures Holds(file, Part(file, a, e), e)
  {
  }

  lemma HoldsRest(file: seq<Byte>, buffer: seq<Byte>, e: nat, n: nat)
    requires Holds(file, buffer, e) && n <= |buffer|
    ensures Holds(file, buffer[n..], e)
  {
  }

  // ---- Assembling fragments ----

  datatype Partial = Partial(inFragment: bool, scratch: seq<Byte>, start: nat)

  const NOTHING := Partial(false, [], 0)

  datatype Turn =
    | Stop(record: Option<seq<Byte>>, offset: nat, reports: seq<nat>)
    | More(partial: Partial, reports: seq<nat>)

  // Reported while reading the fragment itself.
  function Own(f: Fragment): seq<nat> {
    if f.Bad? && f.reported then [f.bytes] else []
  }

  // A bad fragment ends the record under assembly.
  function Spoiled(a: Partial): Turn {
    if a.inFragment then More(a.(inFragment := false, scratch := []), [|a.scratch|]) else More(a, [])
  }

  /** What one fragment does to the record under assembly, and the corruption reports that causes. */
  function Take(f: Fragment, a: Partial): (r: Turn)
    requires f.Rec? ==> HEADER_SIZE + |f.payload| <= f.next
    ensures f.Eof? ==> r.Stop?
    ensures r.Stop? && r.record.Some? ==> f.Rec?
  {
    var unfinished := if a.inFragment && a.scratch != [] then [|a.scratch|] else [];
    match f
    case Eof => Stop(None, 0, [])
    case Bad(_, _, _) => Spoiled(a)
    case Rec(t, payload, next) =>
      var offset := next - HEADER_SIZE - |payload|;
      if t == FULL then Stop(Some(payload), offset, unfinished)
      else if t == FIRST then More(Partial(true, payload, offset), unfinished)
      else if t == MIDDLE then
        if a.inFragment then More(a.(scratch := a.scratch + payload), []) else More(a, [|payload|])
      else if t == LAST then
        if a.inFragment then Stop(Some(a.scratch + payload), a.start, []) else More(a, [|payload|])
      else if t == EOF_CODE then Stop(None, 0, [])
      else if t == BAD_CODE then Spoiled(a)
      else More(a.(inFragment := false, scratch := []), [|payload| + if a.inFragment then |a.scratch| else 0])
  }

  datatype Logical = Logical(record: Option<seq<Byte>>, offset: nat, next: nat, reports: seq<nat>)

  function Reported(rs: seq<nat>, l: Logical): Logical {
    l.(reports := rs + l.reports)
  }

  /** The next logical record of any file whatever. */
  function Assemble(sum: Checksum, file: seq<Byte>, p: nat, a: Partial): (r: Logical)
    requires p <= |file|
    ensures r.next <= |file| && (r.record.Some? ==> p < r.next)
    decreases |file| - p
  {
    var f := ReadAt(sum, file, p);
    match Take(f, a)
    case Stop(record, offset, reports) => Logical(record, offset, if f.Eof? then |file| else f.next, Own(f) + reports)
    case More(b, reports) => Reported(Own(f) + reports, Assemble(sum, file, f.next, b))
  }

  lemma ParseIsAt(sum: Checksum, file: seq<Byte>, buffer: seq<Byte>, e: nat)
    requires Holds(file, buffer, e) && HEADER_SIZE <= |buffer| && e == Min(BlockEnd(e - |buffer|), |file|)
    ensures ParseAt(sum, file, e - |buffer|) == Parse(sum, buffer, e, BlockEnd(e - |buffer|) <= |file|)
  {
  }

  class Reader {
    const sum: Checksum
    const file: seq<Byte>
    var buffer: seq<Byte>
    var eof: bool
    var endOfBuffer: nat
    var lastRecordOffset: nat
    var reports: seq<nat>

    // The buffer is the unread rest of the block last read.
    ghost predicate Valid()
      reads this
    {
      && |buffer| <= endOfBuffer <= |file| && Holds(file, buffer, endOfBuffer)
      && (buffer != [] ==> endOfBuffer == Min(BlockEnd(Position()), |file|))
      && (if eof then endOfBuffer == |file| && (buffer == [] || !Aligned(|file|)) else Aligned(endOfBuffer))
    }

    /** How far the file has been consumed. */
    function Position(): int
      reads this
    {
      endOfBuffer - |buffer|
    }

    constructor (sum: Checksum, file: seq<Byte>)
      ensures Valid() && Position() == 0 && reports == [] && this.file == file && this.sum == sum
    {
      this.sum, this.file := sum, file;
      buffer, eof, endOfBuffer, lastRecordOffset, reports := [], false, 0, 0, [];
    }

    // Reads the next block; what is left in the buffer is a trailer to skip.
    method ReadBlock()
      requires Valid() && !eof && |buffer| < HEADER_SIZE
      modifies this`buffer, this`endOfBuffer, this`eof
      ensures Valid() && (eof || |buffer| == BLOCK_SIZE)
      ensures ReadAt(sum, file, Position()) == ReadAt(sum, file, old(Position()))
    {
      hide ReadAt, BlockEnd, Part, Holds, Aligned;
      ReadCases(sum, file, Position());
      Blocks(Position(), endOfBuffer);
      var n := Min(BLOCK_SIZE, |file| - endOfBuffer);
      HoldsPart(file, endOfBuffer, endOfBuffer + n);
      Blocks(endOfBuffer, endOfBuffer + n);
      buffer := Part(file, endOfBuffer, endOfBuffer + n);
      endOfBuffer := endOfBuffer + n;
      if n < BLOCK_SIZE { eof := true; }
    }

    // Reads blocks until the buffer holds a header; false if the file ends first.
    method FillBuffer() returns (more: bool)
      requires Valid()
      modifies this`buffer, this`endOfBuffer, this`eof
      ensures Valid()
      ensures !more ==> Position() == |file| && ReadAt(sum, file, old(Position())) == Eof
      ensures more ==> HEADER_SIZE <= |buffer| && ReadAt(sum, file, old(Position())) == ParseAt(sum, file, Position())
    {
      ghost var p := Position();
      hide ParseAt, BlockEnd, ReadAt, Holds, Aligned;
      while |buffer| < HEADER_SIZE
        invariant Valid() && ReadAt(sum, file, p) == ReadAt(sum, file, Position())
        decreases !eof
      {
        if !eof {
          ReadBlock();
          if |buffer| >= HEADER_SIZE { break; }
        } else {
          ReadCases(sum, file, Position());
          HoldsNothing(file, endOfBuffer);
          buffer := [];
          return false;
        }
      }
      ReadCases(sum, file, Position());
      return true;
    }

    /** ReadPhysicalRecord, with initial offset 0. */
    method ReadPhysicalRecord() returns (r: Fragment)
      requires Valid()
      modifies this
      ensures Valid() && lastRecordOffset == old(lastRecordOffset)
      ensures r == ReadAt(sum, file, old(Position()))
      ensures if r.Eof? then Position() == |file| else Position() == r.next
      ensures reports == old(reports) + Own(r)
    {
      var more := FillBuffer();
      if !more { return Eof; }
      r := ParseBuffer();
    }

    method ParseBuffer() returns (r: Fragment)
      requires Valid() && HEADER_SIZE <= |buffer|
      modifies this
      ensures Valid() && lastRecordOffset == old(lastRecordOffset)
      ensures r == ParseAt(sum, file, old(Position()))
      ensures if r.Eof? then Position() == |file| else Position() == r.next
      ensures reports == old(reports) + Own(r)
    {
      hide BlockEnd, DecodeFixed, Crc, Holds, Length, Aligned, ParseAt;
      var t, n := buffer[6], Length(buffer[4], buffer[5]);
      Blocks(Position(), endOfBuffer);
      Blocks(Position(), Position() + HEADER_SIZE + n);
      HoldsNothing(file, endOfBuffer);
      ParseIsAt(sum, file, buffer, endOfBuffer);
      if HEADER_SIZE + n > |buffer| {
        var dropSize := |buffer|;
        buffer := [];
        if !eof {
          reports := reports + [dropSize];
          return Bad(endOfBuffer, true, dropSize);
        }
        return Eof;
      }
      if t == ZERO && n == 0 {
        buffer := [];
        return Bad(endOfBuffer, false, 0);
      }
      HoldsRest(file, buffer, endOfBuffer, HEADER_SIZE + n);
      if DecodeFixed(buffer[..4]) != Crc(sum, t, buffer[HEADER_SIZE..HEADER_SIZE + n]) {
        var dropSize := |buffer|;
        buffer := [];
        reports := reports + [dropSize];
        return Bad(endOfBuffer, true, dropSize);
      }
      r := Rec(t, buffer[HEADER_SIZE..HEADER_SIZE + n], endOfBuffer - |buffer| + HEADER_SIZE + n);
      buffer := buffer[HEADER_SIZE + n..];
    }

    // The body of ReadRecord's switch.
    method Consume(f: Fragment, a: Partial) returns (turn: Turn)
      requires f.Rec? ==> f.next == Position() && HEADER_SIZE + |f.payload| <= f.next
      modifies this`reports, this`lastRecordOffset
      ensures turn == Take(f, a)
      ensures reports == old(reports) + turn.reports
      ensures lastRecordOffset == if turn.Stop? && turn.record.Some? then turn.offset else old(lastRecordOffset)
    {
      match f {
        case Rec(t, payload, _) =>
          var offset := endOfBuffer - |buffer| - HEADER_SIZE - |payload|;
          if t == FULL || t == FIRST {
            var unfinished := if a.inFragment && a.scratch != [] then [|a.scratch|] else [];
            reports := reports + unfinished;
            if t == FIRST { return More(Partial(true, payload, offset), unfinished); }
            lastRecordOffset := offset;
            return Stop(Some(payload), offset, unfinished);
          } else if t == MIDDLE || t == LAST {
            if !a.inFragment {
              reports := reports + [|payload|];
              return More(a, [|payload|]);
            }
            if t == MIDDLE { return More(a.(scratch := a.scratch + payload), []); }
            lastRecordOffset := a.start;
            return Stop(Some(a.scratch + payload), a.start, []);
          } else if t == EOF_CODE {
            return Stop(None, 0, []);
          } else if t == BAD_CODE {
            turn := Spoil(a);
            return;
          } else {
            var bytes := |payload| + if a.inFragment then |a.scratch| else 0;
            reports := reports + [bytes];
            return More(a.(inFragment := false, scratch := []), [bytes]);
          }
        case Eof =>
          return Stop(None, 0, []);
        case Bad(_, _, _) =>
          turn := Spoil(a);
      }
    }

    method Spoil(a: Partial) returns (turn: Turn)
      modifies this`reports
      ensures turn == Spoiled(a) && reports == old(reports) + turn.reports
    {
      if !a.inFragment { return More(a, []); }
      reports := reports + [|a.scratch|];
      return More(a.(inFragment := false, scratch := []), [|a.scratch|]);
    }

    /** ReadRecord: the next logical record, or None when the reader stops. */
    method ReadRecord() returns (record: Option<seq<Byte>>)
      requires Valid()
      modifies this
      ensures Valid()
      ensures var l := Assemble(sum, file, old(Position()), NOTHING);
              && record == l.record && Position() == l.next && reports == old(reports) + l.reports
              && lastRecordOffset == if record.Some? then l.offset else old(lastRecordOffset)
    {
      hide ReadAt, Holds, BlockEnd, Take, Aligned, Own, Assemble, Parse, Min, Reported;
      var a := NOTHING;
      ghost var l, done: seq<nat> := Assemble(sum, file, Position(), NOTHING), [];
      ReportedNothing(l);
      while true
        invariant Valid() && lastRecordOffset == old(lastRecordOffset) && reports == old(reports) + done
        invariant l == Reported(done, Assemble(sum, file, Position(), a))
        decreases |file| - Position()
      {
        ghost var p := Position();
        var f := ReadPhysicalRecord();
        var turn := Consume(f, a);
        Chain(sum, file, p, a, done);
        done := done + Own(f) + turn.reports;
        if turn.Stop? { return turn.record; }
        a := turn.partial;
      }
    }
  }

  lemma ReportedNothing(l: Logical)
    ensures Reported([], l) == l
  {
  }

  lemma Chain(sum: Checksum, file: seq<Byte>, p: nat, a: Partial, done: seq<nat>)
    requires p <= |file|
    ensures var f := ReadAt(sum, file, p); var turn := Take(f, a);
            Reported(done, Assemble(sum, file, p, a)) ==
            if turn.Stop? then Logical(turn.record, turn.offset, if f.Eof? then |file| else f.next,
                done + Own(f) + turn.reports)
            else Reported(done + Own(f) + turn.reports, Assemble(sum, file, f.next, turn.partial))
  {
    hide ReadAt, Take, Own;
  }
}
