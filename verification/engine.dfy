/** The storage engine as a state machine over its memtables, its versions and its snapshots (db/db_impl). */
module Engine {
  import opened DbFormat
  import opened Files
  import opened Versions
  import opened Picking
  import opened CompactionLoop

  // A compaction between the choice of its inputs and the install of its outputs.
  datatype Pending = Pending(level: nat, in0: seq<File>, in1: seq<File>, snap: nat, base: Version)

  /** `hist` is the specification: every entry ever written. */
  datatype State = State(mem: seq<Entry>, imm: Option<seq<Entry>>, v: Version, lastSeq: nat, nextFile: nat,
                         snapshots: seq<nat>, pending: Option<Pending>, hist: set<Entry>)

  ghost function VersionEntries(v: Version): set<Entry> {
    set l, f, e | 0 <= l < NUM_LEVELS && f in v[l] && e in f.entries :: e
  }

  function ImmElems(imm: Option<seq<Entry>>): set<Entry> {
    if imm.Some? then Elems(imm.value) else {}
  }

  ghost function All(st: State): set<Entry> {
    Elems(st.mem) + ImmElems(st.imm) + VersionEntries(st.v)
  }

  // ---- Steps ----

  predicate Init(st: State) {
    st == State([], None, [[], [], [], [], [], [], []], 0, 0, [], None, {})
  }

  /** The entries of a batch whose first operation gets sequence number `first` (MemTableInserter). */
  function BatchEntries(ops: seq<(UserKey, Op)>, first: nat): seq<Entry>
    requires first + |ops| <= MAX_SEQUENCE
  {
    seq(|ops|, i requires 0 <= i < |ops| => Entry(ops[i].0, first + i, ops[i].1))
  }

  ghost predicate Write(st: State, st': State, ops: seq<(UserKey, Op)>) {
    && st.lastSeq + |ops| + 1 <= MAX_SEQUENCE
    && var added := Elems(BatchEntries(ops, st.lastSeq + 1));
    && Sorted(st'.mem) && Elems(st'.mem) == Elems(st.mem) + added
    && st' == st.(mem := st'.mem, lastSeq := st.lastSeq + |ops|, hist := st.hist + added)
  }

  predicate SwitchMemTable(st: State, st': State) {
    st.imm.None? && st' == st.(imm := Some(st.mem), mem := [])
  }

  // A level after removing files by number and adding others, kept in order of the smallest key (Builder::SaveTo).
  ghost predicate Rearranged(fs: seq<File>, drop: set<nat>, add: seq<File>, fs': seq<File>) {
    && (forall f :: f in fs' <==> (f in fs && f.number !in drop) || f in add)
    && (forall i, j :: 0 <= i < j < |fs'| ==> fs'[i] != fs'[j] && !Before(Smallest(fs'[j]), Smallest(fs'[i])))
  }

  /** CompactMemTable: the immutable memtable becomes a table in a level PickLevelForMemTableOutput may choose. */
  ghost predicate Flush(st: State, st': State, level: nat, f: File) {
    && st.imm.Some? && st.nextFile <= st'.nextFile
    && if st.imm.value == [] then st' == st.(imm := None, nextFile := st'.nextFile)
       else
         && st.nextFile <= f.number < st'.nextFile && f.entries == st.imm.value
         && Placeable(st.v, Lo(f), Hi(f), level)
         && Rearranged(st.v[level], {}, [f], st'.v[level])
         && st' == st.(imm := None, nextFile := st'.nextFile, v := st.v[level := st'.v[level]])
  }

  function OldestReadable(st: State): nat {
    if st.snapshots == [] then st.lastSeq else st.snapshots[0]
  }

  /** PickCompaction and the reading of the oldest snapshot, done in one hold of the mutex. */
  ghost predicate Pick(st: State, st': State, p: Pending) {
    && st.pending.None?
    && ValidPick(st.v, p.level, p.in0, p.in1)
    && p.snap == OldestReadable(st) && p.base == st.v
    && st' == st.(pending := Some(p))
  }

  function Numbers(fs: seq<File>): set<nat> {
    set f | f in fs :: f.number
  }

  function Contents(outs: seq<File>): seq<seq<Entry>> {
    seq(|outs|, i requires 0 <= i < |outs| => outs[i].entries)
  }

  ghost predicate FreshNumbers(v: Version, next: nat, outs: seq<File>, next': nat) {
    && next <= next'
    && (forall o :: o in outs ==> o.number < next')
    && (forall i, j :: 0 <= i < j < |outs| ==> outs[i].number != outs[j].number)
    && (forall o, l, f :: o in outs && 0 <= l < NUM_LEVELS && f in v[l] ==> f.number != o.number)
  }

  // The merging iterator's stream over the input files.
  ghost predicate Merged(m: seq<Entry>, files: seq<File>) {
    Sorted(m) && Elems(m) == FileEntries(files)
  }

  /** The end of DoCompactionWork and InstallCompactionResults. */
  ghost predicate Install(st: State, st': State, m: seq<Entry>, outs: seq<File>) {
    && st.pending.Some?
    && var p := st.pending.value;
    && p.level + 1 < NUM_LEVELS
    && Merged(m, p.in0 + p.in1)
    && Flat(Contents(outs)) == Survivors(m, |m|, p.snap, p.base[p.level + 2..])
    && FreshNumbers(st.v, st.nextFile, outs, st'.nextFile)
    && Rearranged(st.v[p.level], Numbers(p.in0), [], st'.v[p.level])
    && Rearranged(st.v[p.level + 1], Numbers(p.in1), outs, st'.v[p.level + 1])
    && st' == st.(v := st.v[p.level := st'.v[p.level]][p.level + 1 := st'.v[p.level + 1]], nextFile := st'.nextFile,
                  pending := None)
  }

  /** A trivial move: one input file, nothing below it to merge with. */
  ghost predicate Move(st: State, st': State, level: nat, f: File) {
    && st.pending.None?
    && ValidPick(st.v, level, [f], [])
    && Moved(st.v, level, f, st'.v)
    && st' == st.(v := st'.v)
  }

  ghost predicate Moved(v: Version, level: nat, f: File, v': Version) {
    && level + 1 < NUM_LEVELS
    && Rearranged(v[level], {f.number}, [], v'[level])
    && Rearranged(v[level + 1], {}, [f], v'[level + 1])
    && v' == v[level := v'[level]][level + 1 := v'[level + 1]]
  }

  predicate TakeSnapshot(st: State, st': State) {
    st' == st.(snapshots := st.snapshots + [st.lastSeq])
  }

  predicate ReleaseSnapshot(st: State, st': State, i: nat) {
    i < |st.snapshots| && st' == st.(snapshots := st.snapshots[..i] + st.snapshots[i + 1..])
  }

  // Tables written one after the other, each with writes newer than all before.
  ghost predicate AscendingFiles(fs: seq<File>) {
    forall i, j :: 0 <= i < j < |fs| ==>
        fs[i].number < fs[j].number && AllNewer(Elems(fs[j].entries), Elems(fs[i].entries))
  }

  /** A crash and the next DB::Open: snapshots and the compaction under way are gone, and the logs, which hold what the
      memtables held, are replayed in order into new level-0 tables. */
  ghost predicate Reopen(st: State, st': State, fs: seq<File>) {
    && FileEntries(fs) == Elems(st.mem) + ImmElems(st.imm) && AscendingFiles(fs)
    && st.nextFile <= st'.nextFile && (forall f :: f in fs ==> st.nextFile <= f.number < st'.nextFile)
    && Rearranged(st.v[0], {}, fs, st'.v[0])
    && st' == st.(mem := [], imm := None, v := st.v[0 := st'.v[0]], nextFile := st'.nextFile, snapshots := [],
         pending := None)
  }

  datatype Event =
    | EvWrite(ops: seq<(UserKey, Op)>)
    | EvSwitch
    | EvFlush(level: nat, file: File)
    | EvPick(p: Pending)
    | EvInstall(m: seq<Entry>, outs: seq<File>)
    | EvMove(level: nat, file: File)
    | EvSnapshot
    | EvRelease(i: nat)
    | EvReopen(files: seq<File>)

  ghost predicate Step(st: State, st': State, ev: Event) {
    match ev
    case EvWrite(ops) => Write(st, st', ops)
    case EvSwitch => SwitchMemTable(st, st')
    case EvFlush(level, f) => Flush(st, st', level, f)
    case EvPick(p) => Pick(st, st', p)
    case EvInstall(m, outs) => Install(st, st', m, outs)
    case EvMove(level, f) => Move(st, st', level, f)
    case EvSnapshot => TakeSnapshot(st, st')
    case EvRelease(i) => ReleaseSnapshot(st, st', i)
    case EvReopen(fs) => Reopen(st, st', fs)
  }

  // ---- What readers can see ----

  // The sequence numbers a client can still read at: its snapshots, the last one, and those to come.
  datatype Readers = Readers(snapshots: seq<nat>, last: nat)

  predicate Readable(rs: Readers, s: nat) {
    s in rs.snapshots || s >= rs.last
  }

  function ReadersOf(st: State): Readers {
    Readers(st.snapshots, st.lastSeq)
  }

  ghost predicate Seen(es: set<Entry>, rs: Readers, y: Entry) {
    exists s :: Readable(rs, s) && Newest(es, y.key, s, y)
  }

  /** The entries that are the right answer to some read still possible. */
  ghost function Live(es: set<Entry>, rs: Readers): set<Entry> {
    set y | y in es && Seen(es, rs, y)
  }

  // ---- Invariant ----

  ghost predicate AllNewer(a: set<Entry>, b: set<Entry>) {
    forall x, y :: x in a && y in b ==> x.sn > y.sn
  }

  ghost predicate NewerFile(f: File, g: File) {
    forall x, y :: x in f.entries && y in g.entries && x.key == y.key ==> x.sn > y.sn
  }

  // What a search meets first.
  predicate Above(i: nat, f: File, j: nat, g: File) {
    i < j || (i == 0 && j == 0 && f.number > g.number)
  }

  // Nothing in `f` is an older version of a live entry of `g`.
  ghost predicate ShowsLive(f: File, g: File, live: set<Entry>) {
    forall x, y :: x in f.entries && y in g.entries && x.key == y.key && y in live ==> x.sn > y.sn
  }

  /** No live entry lies below an older entry of its user key. */
  ghost predicate OlderWithDepth(v: Version, live: set<Entry>) {
    forall i, j, f, g :: 0 <= i < NUM_LEVELS && 0 <= j < NUM_LEVELS && f in v[i] && g in v[j] && Above(i, f, j, g) ==>
      ShowsLive(f, g, live)
  }

  ghost predicate UniqueNumbers(v: Version, next: nat) {
    && (forall i, f :: 0 <= i < NUM_LEVELS && f in v[i] ==> f.number < next)
    && (forall i, j, f, g ::
          0 <= i < NUM_LEVELS && 0 <= j < NUM_LEVELS && f in v[i] && g in v[j] && f.number == g.number ==>
            i == j && f == g)
  }

  ghost predicate Disjoint(f: File, g: File) {
    forall e :: e in f.entries ==> e !in g.entries
  }

  ghost predicate EachOnce(v: Version) {
    forall i, j, f, g :: 0 <= i < NUM_LEVELS && 0 <= j < NUM_LEVELS && f in v[i] && g in v[j] && !(i == j && f == g) ==>
      Disjoint(f, g)
  }

  ghost predicate Shape(v: Version, next: nat) {
    LevelsSorted(v) && UniqueNumbers(v, next) && EachOnce(v)
  }

  ghost predicate VersionInv(v: Version, next: nat, live: set<Entry>) {
    Shape(v, next) && OlderWithDepth(v, live)
  }

  /** The database holds the same answers as the history, for every sequence number still readable. */
  ghost predicate Faithful(all: set<Entry>, hist: set<Entry>, rs: Readers) {
    forall k, s :: Readable(rs, s) ==> Matches(Find(all, k, s), Find(hist, k, s))
  }

  ghost predicate SnapshotInv(snapshots: seq<nat>, lastSeq: nat) {
    && lastSeq < MAX_SEQUENCE
    && (forall i :: 0 <= i < |snapshots| ==> snapshots[i] <= lastSeq)
    && (forall i, j :: 0 <= i < j < |snapshots| ==> snapshots[i] <= snapshots[j])
  }

  predicate Meet(f: File, g: File) {
    Overlaps(f, Lo(g), Hi(g))
  }

  /** What the inputs of a compaction keep while flushes go on. */
  ghost predicate PendingInv(v: Version, p: Pending) {
    var all := p.in0 + p.in1;
    && p.level + 1 < NUM_LEVELS && p.in0 != []
    && (forall f :: f in p.in0 ==> f in v[p.level])
    && NextOf(v, p.level, p.in0, p.in1)
    && Covers(all, MinLo(all), MaxHi(all))
    && (p.level == 0 ==> forall f, g :: f in p.in0 && g in v[0] && g !in p.in0 ==> NewerFile(g, f))
    && (forall j, g :: p.level + 2 <= j < NUM_LEVELS && g in v[j] && g !in p.base[j] ==>
         !Overlaps(g, MinLo(all), MaxHi(all)))
  }

  ghost predicate PendingSnapInv(snap: nat, snapshots: seq<nat>, lastSeq: nat) {
    snap <= lastSeq && forall i :: 0 <= i < |snapshots| ==> snap <= snapshots[i]
  }

  ghost predicate MemInv(mem: seq<Entry>, imm: Option<seq<Entry>>, files: set<Entry>) {
    && Sorted(mem) && (imm.Some? ==> Sorted(imm.value))
    && AllNewer(Elems(mem), ImmElems(imm) + files)
    && AllNewer(ImmElems(imm), files)
  }

  ghost predicate HistoryInv(all: set<Entry>, hist: set<Entry>, rs: Readers) {
    && Versioned(hist) && (forall e :: e in hist ==> e.sn <= rs.last)
    && all <= hist
    && Faithful(all, hist, rs)
  }

  ghost predicate Inv(st: State) {
    && HistoryInv(All(st), st.hist, ReadersOf(st))
    && MemInv(st.mem, st.imm, VersionEntries(st.v))
    && VersionInv(st.v, st.nextFile, Live(All(st), ReadersOf(st)))
    && SnapshotInv(st.snapshots, st.lastSeq)
    && (st.pending.Some? ==>
          && PendingInv(st.v, st.pending.value)
          && PendingSnapInv(st.pending.value.snap, st.snapshots, st.lastSeq))
  }

  // ---- The check missing from the code ----

  // The next file goes on with the user key this one ends with.
  predicate Continues(f: File, g: File) {
    Lo(g) == Hi(f) && Before(Largest(f), Smallest(g))
  }

  // A version, in the first file, of the user key that goes on in the second.
  predicate Straddles(f: File, g: File, y: Entry) {
    Continues(f, g) && y in f.entries && y.key == Hi(f)
  }

  predicate DropsDeletion(p: Pending, y: Entry)
    requires p.level + 1 < NUM_LEVELS
  {
    y.op.Delete? && y.sn <= p.snap && BaseLevel(p.base[p.level + 2..], y.key)
  }

  /** No live version of a user key sinks below older versions left behind in its level, and none that is a deletion
      is dropped while the next level keeps older versions. */
  ghost predicate KeyClosed(v: Version, p: Pending, live: set<Entry>)
    requires p.level + 1 < NUM_LEVELS
  {
    && (forall f, g, y :: f in p.in0 && g in v[p.level] && g !in p.in0 && Straddles(f, g, y) ==> y !in live)
    && (forall f, g, y ::
          f in p.in1 && g in v[p.level + 1] && g !in p.in1 && Straddles(f, g, y) && DropsDeletion(p, y) ==> y !in live)
  }

  // A trivial move as a compaction of one file that drops nothing.
  function MoveOf(v: Version, level: nat, f: File): Pending {
    Pending(level, [f], [], 0, v)
  }

  ghost predicate ClosedEvent(st: State, ev: Event) {
    var live := Live(All(st), ReadersOf(st));
    match ev
    case EvInstall(_, _) =>
      st.pending.Some? && st.pending.value.level + 1 < NUM_LEVELS ==> KeyClosed(st.v, st.pending.value, live)
    case EvMove(level, f) =>
      level + 1 < NUM_LEVELS ==> KeyClosed(st.v, MoveOf(st.v, level, f), live)
    case _ => true
  }
}
