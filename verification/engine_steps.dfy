/** Every step of the engine keeps its invariant. */
module EngineSteps {
  import opened DbFormat
  import opened Files
  import opened Versions
  import opened Picking
  import opened Engine

  lemma InitInv(st: State)
    requires Init(st)
    ensures Inv(st)
  {
    assert forall l :: 0 <= l < NUM_LEVELS ==> st.v[l] == [];
    assert All(st) == st.hist;
  }

  // ---- Readers only ever lose entries ----

  lemma LiveShrinks(es: set<Entry>, rs: Readers, es': set<Entry>, rs': Readers)
    requires es <= es' && forall s :: Readable(rs', s) ==> Readable(rs, s)
    ensures forall y :: y in es && y in Live(es', rs') ==> y in Live(es, rs)
  {
    forall y | y in es && y in Live(es', rs') ensures y in Live(es, rs) {
      var s :| Readable(rs', s) && Newest(es', y.key, s, y);
      assert Newest(es, y.key, s, y);
    }
  }

  lemma DepthWeakens(v: Version, live: set<Entry>, live': set<Entry>)
    requires OlderWithDepth(v, live) && forall y :: y in VersionEntries(v) && y in live' ==> y in live
    ensures OlderWithDepth(v, live')
  {
    forall i, j, f, g | 0 <= i < NUM_LEVELS && 0 <= j < NUM_LEVELS && f in v[i] && g in v[j] && Above(i, f, j, g)
      ensures ShowsLive(f, g, live')
    {
      assert ShowsLive(f, g, live);
      assert forall y :: y in g.entries ==> y in VersionEntries(v);
    }
  }

  lemma ReadersShrink(v: Version, es: set<Entry>, rs: Readers, es': set<Entry>, rs': Readers)
    requires OlderWithDepth(v, Live(es, rs)) && VersionEntries(v) <= es <= es'
    requires forall s :: Readable(rs', s) ==> Readable(rs, s)
    ensures OlderWithDepth(v, Live(es', rs'))
  {
    hide OlderWithDepth;
    LiveShrinks(es, rs, es', rs');
    DepthWeakens(v, Live(es, rs), Live(es', rs'));
  }

  // ---- Writes, switches, snapshots ----

  lemma BatchIsNew(ops: seq<(UserKey, Op)>, first: nat)
    requires first + |ops| <= MAX_SEQUENCE
    ensures var es := Elems(BatchEntries(ops, first));
            Versioned(es) && forall e :: e in es ==> first <= e.sn < first + |ops|
  {
  }

  lemma FaithfulGrows(all: set<Entry>, hist: set<Entry>, rs: Readers, added: set<Entry>, rs': Readers)
    requires Faithful(all, hist, rs) && all <= hist
    requires Versioned(added + hist) && Newer(added, hist)
    requires forall s :: Readable(rs', s) ==> Readable(rs, s)
    ensures Faithful(added + all, added + hist, rs')
  {
    forall k, s | Readable(rs', s) ensures Matches(Find(added + all, k, s), Find(added + hist, k, s)) {
      assert Matches(Find(all, k, s), Find(hist, k, s));
      assert added + all <= added + hist;
      FindLayered(added, all, k, s);
      FindLayered(added, hist, k, s);
    }
  }

  lemma WriteKeepsMem(mem: seq<Entry>, imm: Option<seq<Entry>>, files: set<Entry>, lastSeq: nat, added: set<Entry>,
                      mem': seq<Entry>)
    requires MemInv(mem, imm, files) && Sorted(mem') && Elems(mem') == Elems(mem) + added
    requires forall e :: e in ImmElems(imm) + files ==> e.sn <= lastSeq
    requires forall e :: e in added ==> e.sn > lastSeq
    ensures MemInv(mem', imm, files)
  {
  }

  lemma WriteKeepsInv(st: State, st': State, ops: seq<(UserKey, Op)>)
    requires Inv(st) && Write(st, st', ops)
    ensures Inv(st')
  {
    hide Shape, OlderWithDepth, PendingInv, BatchEntries, Live, Faithful;
    var added := Elems(BatchEntries(ops, st.lastSeq + 1));
    BatchIsNew(ops, st.lastSeq + 1);
    assert All(st') == added + All(st);
    assert st'.hist == added + st.hist;
    FaithfulGrows(All(st), st.hist, ReadersOf(st), added, ReadersOf(st'));
    WriteKeepsMem(st.mem, st.imm, VersionEntries(st.v), st.lastSeq, added, st'.mem);
    ReadersShrink(st.v, All(st), ReadersOf(st), All(st'), ReadersOf(st'));
  }

  lemma SwitchKeepsInv(st: State, st': State)
    requires Inv(st) && SwitchMemTable(st, st')
    ensures Inv(st')
  {
    hide VersionInv, PendingInv, HistoryInv, Live;
    assert All(st') == All(st);
  }

  lemma SnapshotKeepsInv(st: State, st': State)
    requires Inv(st) && TakeSnapshot(st, st')
    ensures Inv(st')
  {
    hide Shape, OlderWithDepth, PendingInv, MemInv, Live;
    assert All(st') == All(st);
    ReadersShrink(st.v, All(st), ReadersOf(st), All(st'), ReadersOf(st'));
  }

  lemma ReleaseKeepsInv(st: State, st': State, i: nat)
    requires Inv(st) && ReleaseSnapshot(st, st', i)
    ensures Inv(st')
  {
    hide Shape, OlderWithDepth, PendingInv, MemInv, Live;
    assert All(st') == All(st);
    forall j | 0 <= j < |st'.snapshots| ensures st'.snapshots[j] == st.snapshots[if j < i then j else j + 1] {}
    assert forall s :: s in st'.snapshots ==> s in st.snapshots;
    ReadersShrink(st.v, All(st), ReadersOf(st), All(st'), ReadersOf(st'));
  }

  // ---- Files ----

  lemma LevelApart(fs: seq<File>, f: File, g: File)
    requires LevelSorted(fs) && f in fs && g in fs && f != g
    ensures Before(Largest(f), Smallest(g)) || Before(Largest(g), Smallest(f))
  {
  }

  predicate Apart(f: File, g: File) {
    Before(Largest(f), Smallest(g)) || Before(Largest(g), Smallest(f))
  }

  lemma NotMeetApart(f: File, g: File)
    requires !Meet(f, g)
    ensures Apart(f, g) && NewerFile(f, g)
  {
  }

  /** Distinct files that are pairwise apart, listed by smallest key, form a sorted level. */
  lemma RearrangedSorted(fs: seq<File>, drop: set<nat>, add: seq<File>, fs': seq<File>)
    requires Rearranged(fs, drop, add, fs')
    requires forall f, g :: f in fs' && g in fs' && f != g ==> Apart(f, g)
    ensures LevelSorted(fs')
  {
  }

  /** A file that meets none of the inputs lies outside the span they cover. */
  lemma OutsideSpan(all: seq<File>, g: File)
    requires all != [] && Covers(all, MinLo(all), MaxHi(all))
    requires forall f :: f in all ==> !Meet(f, g)
    ensures !Overlaps(g, MinLo(all), MaxHi(all))
  {
    LoHi(g);
    var a :| a in all && Hi(a) == MaxHi(all);
    LoHi(a);
    var k := if Lo(g) < MinLo(all) then MinLo(all) else Lo(g);
    assert Overlaps(g, MinLo(all), MaxHi(all)) ==> Covered(all, k);
  }

  // ---- Picking a compaction ----

  lemma MembersMeetSpan(fs: seq<File>, f: File, g: File)
    requires f in fs && !Overlaps(g, MinLo(fs), MaxHi(fs))
    ensures !Meet(f, g)
  {
  }

  /** Behind a file of a sorted level, older versions of a key are left only by a file that goes on with it. */
  lemma LeftBehindContinues(fs: seq<File>, f: File, g: File, x: Entry, y: Entry)
    requires LevelSorted(fs) && f in fs && g in fs && f != g
    requires y in f.entries && x in g.entries && x.key == y.key && x.sn <= y.sn
    ensures Straddles(f, g, y)
  {
    LevelApart(fs, f, g);
    InsideFile(f, y);
    InsideFile(g, x);
  }

  lemma InsideFile(f: File, e: Entry)
    requires e in f.entries
    ensures e == Smallest(f) || Before(Smallest(f), e)
    ensures e == Largest(f) || Before(e, Largest(f))
  {
  }

  lemma PickEstablishes(v: Version, p: Pending)
    requires ValidPick(v, p.level, p.in0, p.in1) && p.base == v
    ensures PendingInv(v, p)
  {
    hide NewerFile, Covers;
    if p.level == 0 {
      forall f, g | f in p.in0 && g in v[0] && g !in p.in0 ensures NewerFile(g, f) {
        MembersMeetSpan(p.in0, f, g);
        NotMeetApart(g, f);
      }
    }
  }

  lemma PickKeepsInv(st: State, st': State, p: Pending)
    requires Inv(st) && Pick(st, st', p)
    ensures Inv(st')
  {
    hide VersionInv, HistoryInv, MemInv, PendingInv, ValidPick, Live;
    PickEstablishes(st.v, p);
    assert All(st') == All(st);
  }

  // ---- Flushing ----

  lemma FlushKeepsDepth(v: Version, level: nat, f: File, v': Version, live: set<Entry>)
    requires OlderWithDepth(v, live)
    requires AllNewer(Elems(f.entries), VersionEntries(v))
    requires Placeable(v, Lo(f), Hi(f), level)
    requires forall g :: g in v[0] ==> g.number < f.number
    requires v' == v[level := v'[level]] && Rearranged(v[level], {}, [f], v'[level])
    ensures OlderWithDepth(v', live)
  {
    forall j, h | 0 <= j < NUM_LEVELS && h in v[j] ensures ShowsLive(f, h, live) {
      assert forall y :: y in h.entries ==> y in VersionEntries(v);
    }
    if level > 0 {
      forall i, g | 0 <= i < level && g in v[i] ensures ShowsLive(g, f, live) {
        assert !Meet(g, f);
        NotMeetApart(g, f);
      }
    }
  }

  lemma FlushKeepsOnce(v: Version, level: nat, f: File, v': Version)
    requires EachOnce(v) && AllNewer(Elems(f.entries), VersionEntries(v)) && level < NUM_LEVELS
    requires v' == v[level := v'[level]] && Rearranged(v[level], {}, [f], v'[level])
    ensures EachOnce(v')
  {
    forall j, h | 0 <= j < NUM_LEVELS && h in v[j] ensures Disjoint(f, h) && Disjoint(h, f) {
      assert forall y :: y in h.entries ==> y in VersionEntries(v);
    }
  }

  lemma FlushAddsEntries(v: Version, level: nat, f: File, v': Version)
    requires level < NUM_LEVELS
    requires v' == v[level := v'[level]] && Rearranged(v[level], {}, [f], v'[level])
    ensures VersionEntries(v') == VersionEntries(v) + Elems(f.entries)
  {
    assert f in v'[level];
    assert forall l, g :: 0 <= l < NUM_LEVELS && g in v[l] ==> g in v'[l];
    assert forall l, g :: 0 <= l < NUM_LEVELS && g in v'[l] ==> g in v[l] || g == f;
  }

  /** A table of data newer than every file may be added wherever it is placeable. */
  lemma FlushKeepsVersion(v: Version, next: nat, level: nat, f: File, v': Version, next': nat, live: set<Entry>)
    requires VersionInv(v, next, live) && next <= f.number < next'
    requires AllNewer(Elems(f.entries), VersionEntries(v))
    requires Placeable(v, Lo(f), Hi(f), level)
    requires v' == v[level := v'[level]] && Rearranged(v[level], {}, [f], v'[level])
    ensures VersionInv(v', next', live)
  {
    FlushKeepsLevels(v, next, level, f, v');
    assert forall g :: g in v[0] ==> g.number < f.number;
    hide OlderWithDepth, LevelsSorted, UniqueNumbers, EachOnce, Rearranged, AllNewer;
    FlushKeepsDepth(v, level, f, v', live);
    FlushKeepsOnce(v, level, f, v');
    FlushKeepsNumbers(v, next, level, f, v', next');
  }

  lemma FlushKeepsNumbers(v: Version, next: nat, level: nat, f: File, v': Version, next': nat)
    requires UniqueNumbers(v, next) && next <= f.number < next' && level < NUM_LEVELS
    requires v' == v[level := v'[level]] && Rearranged(v[level], {}, [f], v'[level])
    ensures UniqueNumbers(v', next')
  {
  }

  lemma FlushKeepsLevels(v: Version, next: nat, level: nat, f: File, v': Version)
    requires LevelsSorted(v) && UniqueNumbers(v, next) && next <= f.number
    requires Placeable(v, Lo(f), Hi(f), level)
    requires v' == v[level := v'[level]] && Rearranged(v[level], {}, [f], v'[level])
    ensures LevelsSorted(v')
  {
    if level > 0 {
      forall g, h | g in v'[level] && h in v'[level] && g != h ensures Apart(g, h) {
        if g != f && h != f { LevelApart(v[level], g, h); }
        else if g == f { assert !Meet(h, f); NotMeetApart(h, f); }
        else { NotMeetApart(g, f); }
      }
      RearrangedSorted(v[level], {}, [f], v'[level]);
    }
  }

  lemma SpanWidens(in0: seq<File>, in1: seq<File>)
    requires in0 != []
    ensures MinLo(in0 + in1) <= MinLo(in0) && MaxHi(in0) <= MaxHi(in0 + in1)
  {
    var lo, hi := MinLo(in0), MaxHi(in0);
    var a :| a in in0 && Lo(a) == lo;
    var b :| b in in0 && Hi(b) == hi;
    assert a in in0 + in1 && b in in0 + in1;
  }

  lemma FlushKeepsPending(v: Version, p: Pending, level: nat, f: File, v': Version)
    requires PendingInv(v, p)
    requires AllNewer(Elems(f.entries), VersionEntries(v))
    requires Placeable(v, Lo(f), Hi(f), level)
    requires v' == v[level := v'[level]] && Rearranged(v[level], {}, [f], v'[level])
    ensures PendingInv(v', p)
  {
    hide Covers, NewerFile, AllNewer, Overlaps, NoOverlap, Rearranged, MinLo, MaxHi;
    FlushedFiles(v, level, f, v');
    if level > p.level {
      FlushOutsideSpan(v, p, level, f);
    }
    FlushIsNewer(v, p, f);
  }

  lemma FlushedFiles(v: Version, level: nat, f: File, v': Version)
    requires level < NUM_LEVELS && v' == v[level := v'[level]] && Rearranged(v[level], {}, [f], v'[level])
    ensures forall l, g :: 0 <= l < NUM_LEVELS ==> (g in v'[l] <==> g in v[l] || (g == f && l == level))
  {
  }

  lemma InputsStored(v: Version, p: Pending)
    requires PendingInv(v, p)
    ensures p.level + 1 < NUM_LEVELS && p.in0 != []
    ensures forall f :: f in p.in0 ==> f in v[p.level]
    ensures forall f :: f in p.in1 ==> f in v[p.level + 1]
  {
  }

  lemma FlushOutsideSpan(v: Version, p: Pending, level: nat, f: File)
    requires PendingInv(v, p) && p.level < level && Placeable(v, Lo(f), Hi(f), level)
    ensures !Overlaps(f, MinLo(p.in0), MaxHi(p.in0))
    ensures !Overlaps(f, MinLo(p.in0 + p.in1), MaxHi(p.in0 + p.in1))
  {
    var all := p.in0 + p.in1;
    assert Covers(all, MinLo(all), MaxHi(all));
    InputsStored(v, p);
    hide PendingInv, Covers;
    forall g | g in all ensures !Meet(g, f) {
      assert g in v[p.level] || g in v[p.level + 1];
    }
    OutsideSpan(all, f);
    SpanWidens(p.in0, p.in1);
  }

  lemma FlushIsNewer(v: Version, p: Pending, f: File)
    requires PendingInv(v, p) && AllNewer(Elems(f.entries), VersionEntries(v))
    ensures forall g :: g in p.in0 ==> NewerFile(f, g)
  {
    InputsStored(v, p);
    hide PendingInv;
    forall g | g in p.in0 ensures NewerFile(f, g) {
      assert forall y :: y in g.entries ==> y in VersionEntries(v);
    }
  }

  lemma FlushKeepsMem(mem: seq<Entry>, imm: seq<Entry>, files: set<Entry>)
    requires MemInv(mem, Some(imm), files)
    ensures MemInv(mem, None, files + Elems(imm)) && AllNewer(Elems(imm), files)
  {
  }

  lemma FlushKeepsAll(st: State, st': State)
    requires st.imm.Some? && st'.imm.None? && st'.mem == st.mem
    requires VersionEntries(st'.v) == VersionEntries(st.v) + Elems(st.imm.value)
    ensures All(st') == All(st)
  {
  }

  lemma FlushKeepsInv(st: State, st': State, level: nat, f: File)
    requires Inv(st) && Flush(st, st', level, f)
    ensures Inv(st')
  {
    hide Shape, OlderWithDepth, PendingInv, HistoryInv, MemInv, Live, Rearranged, NoOverlap;
    FlushKeepsMem(st.mem, st.imm.value, VersionEntries(st.v));
    if st.imm.value == [] {
      assert VersionEntries(st'.v) == VersionEntries(st.v) + Elems(st.imm.value);
      ShapeAfter(st.v, st.nextFile, st'.nextFile);
    } else {
      FlushKeepsVersion(st.v, st.nextFile, level, f, st'.v, st'.nextFile, Live(All(st), ReadersOf(st)));
      FlushAddsEntries(st.v, level, f, st'.v);
      if st.pending.Some? {
        FlushKeepsPending(st.v, st.pending.value, level, f, st'.v);
      }
    }
    FlushKeepsAll(st, st');
  }

  lemma ShapeAfter(v: Version, next: nat, next': nat)
    requires Shape(v, next) && next <= next'
    ensures Shape(v, next')
  {
  }

  // ---- Reopening ----

  // What replaying the logs leaves of a version: the new tables are in level 0, newer than everything.
  ghost predicate Replayed(v: Version, next: nat, fs: seq<File>, v': Version, next': nat) {
    && AscendingFiles(fs) && AllNewer(FileEntries(fs), VersionEntries(v))
    && next <= next' && (forall f :: f in fs ==> next <= f.number < next')
    && v' == v[0 := v'[0]] && Rearranged(v[0], {}, fs, v'[0])
  }

  lemma ReplayedFiles(v: Version, next: nat, fs: seq<File>, v': Version, next': nat)
    requires Replayed(v, next, fs, v', next')
    ensures forall l, g :: 0 <= l < NUM_LEVELS ==> (g in v'[l] <==> g in v[l] || (l == 0 && g in fs))
    ensures forall l :: 1 <= l < NUM_LEVELS ==> v'[l] == v[l]
  {
  }

  lemma ReplayedIsNewer(v: Version, next: nat, fs: seq<File>, v': Version, next': nat, f: File, l: nat, g: File)
    requires Replayed(v, next, fs, v', next') && f in fs && l < NUM_LEVELS && g in v[l]
    ensures AllNewer(Elems(f.entries), Elems(g.entries)) && Disjoint(f, g) && Disjoint(g, f)
  {
    forall x, y | x in f.entries && y in g.entries ensures x.sn > y.sn {
      assert x in FileEntries(fs) && y in VersionEntries(v);
    }
  }

  lemma ReplayedInOrder(fs: seq<File>, f: File, g: File)
    requires AscendingFiles(fs) && f in fs && g in fs && f != g
    ensures Disjoint(f, g) && f.number != g.number && (f.number > g.number ==>
            AllNewer(Elems(f.entries), Elems(g.entries)))
  {
    var i :| 0 <= i < |fs| && fs[i] == f;
    var j :| 0 <= j < |fs| && fs[j] == g;
    if i < j {
      NewerDisjoint(g, f);
    } else {
      NewerDisjoint(f, g);
    }
  }

  lemma NewerDisjoint(f: File, g: File)
    requires AllNewer(Elems(f.entries), Elems(g.entries))
    ensures Disjoint(f, g) && Disjoint(g, f)
  {
    assert forall e :: e in f.entries ==> e in Elems(f.entries);
    assert forall e :: e in g.entries ==> e in Elems(g.entries);
  }

  lemma ReopenKeepsDepth(v: Version, next: nat, fs: seq<File>, v': Version, next': nat, live: set<Entry>)
    requires OlderWithDepth(v, live) && UniqueNumbers(v, next) && Replayed(v, next, fs, v', next')
    ensures OlderWithDepth(v', live)
  {
    hide Rearranged, AllNewer, AscendingFiles;
    ReplayedFiles(v, next, fs, v', next');
    forall i, j, f, g | 0 <= i < NUM_LEVELS && 0 <= j < NUM_LEVELS && f in v'[i] && g in v'[j] && Above(i, f, j, g)
      ensures ShowsLive(f, g, live)
    {
      if f in v[i] {
        assert f.number < next;
      } else if g in v[j] {
        ReplayedIsNewer(v, next, fs, v', next', f, j, g);
        NewerShows(f, g, live);
      } else {
        ReplayedInOrder(fs, f, g);
        NewerShows(f, g, live);
      }
    }
  }

  lemma NewerShows(f: File, g: File, live: set<Entry>)
    requires AllNewer(Elems(f.entries), Elems(g.entries))
    ensures ShowsLive(f, g, live)
  {
  }

  lemma ReopenKeepsOnce(v: Version, next: nat, fs: seq<File>, v': Version, next': nat)
    requires EachOnce(v) && Replayed(v, next, fs, v', next')
    ensures EachOnce(v')
  {
    hide Rearranged, AllNewer, AscendingFiles, Disjoint;
    ReplayedFiles(v, next, fs, v', next');
    forall i, j, f, g | 0 <= i < NUM_LEVELS && 0 <= j < NUM_LEVELS && f in v'[i] && g in v'[j] && !(i == j && f == g)
      ensures Disjoint(f, g)
    {
      if f in v[i] {
        if g !in v[j] { ReplayedIsNewer(v, next, fs, v', next', g, i, f); }
      } else if g in v[j] {
        ReplayedIsNewer(v, next, fs, v', next', f, j, g);
      } else {
        ReplayedInOrder(fs, f, g);
      }
    }
  }

  lemma ReopenKeepsNumbers(v: Version, next: nat, fs: seq<File>, v': Version, next': nat)
    requires UniqueNumbers(v, next) && Replayed(v, next, fs, v', next')
    ensures UniqueNumbers(v', next')
  {
    hide UniqueNumbers, Replayed;
    ReplayedFiles(v, next, fs, v', next');
    ReplayedBelow(v, next, fs, v', next');
    forall i, j, f, g | 0 <= i < NUM_LEVELS && 0 <= j < NUM_LEVELS && f in v'[i] && g in v'[j] && f.number == g.number
      ensures i == j && f == g
    {
      if f in v[i] && g in v[j] {
        StoredNumbers(v, next, i, f, j, g);
      } else {
        ReplayedNumbers(fs, f, g);
      }
    }
    NumbersAre(v', next');
  }

  // Old files have old numbers and new files new ones.
  lemma ReplayedBelow(v: Version, next: nat, fs: seq<File>, v': Version, next': nat)
    requires UniqueNumbers(v, next) && Replayed(v, next, fs, v', next')
    ensures AscendingFiles(fs)
    ensures forall l, f :: 0 <= l < NUM_LEVELS && f in v'[l] ==> f.number < next'
    ensures forall l, f :: 0 <= l < NUM_LEVELS && f in v[l] ==> f.number < next
    ensures forall f :: f in fs ==> next <= f.number
  {
  }

  lemma StoredNumbers(v: Version, next: nat, i: nat, f: File, j: nat, g: File)
    requires UniqueNumbers(v, next) && i < NUM_LEVELS && j < NUM_LEVELS
    requires f in v[i] && g in v[j] && f.number == g.number
    ensures i == j && f == g
  {
  }

  lemma NumbersAre(v: Version, next: nat)
    requires forall l, f :: 0 <= l < NUM_LEVELS && f in v[l] ==> f.number < next
    requires forall i, j, f, g ::
               0 <= i < NUM_LEVELS && 0 <= j < NUM_LEVELS && f in v[i] && g in v[j] && f.number == g.number ==>
                 i == j && f == g
    ensures UniqueNumbers(v, next)
  {
  }

  lemma ReplayedNumbers(fs: seq<File>, f: File, g: File)
    requires AscendingFiles(fs) && f in fs && g in fs && f.number == g.number
    ensures f == g
  {
    if f != g { ReplayedInOrder(fs, f, g); }
  }

  lemma ReopenKeepsVersion(v: Version, next: nat, fs: seq<File>, v': Version, next': nat, live: set<Entry>)
    requires VersionInv(v, next, live) && Replayed(v, next, fs, v', next')
    ensures VersionInv(v', next', live)
  {
    hide OlderWithDepth, UniqueNumbers, EachOnce, Replayed, LevelSorted;
    ReplayedFiles(v, next, fs, v', next');
    ReopenKeepsNumbers(v, next, fs, v', next');
    ReopenKeepsOnce(v, next, fs, v', next');
    ReopenKeepsDepth(v, next, fs, v', next', live);
  }

  lemma ReopenReplays(st: State, st': State, fs: seq<File>)
    requires MemInv(st.mem, st.imm, VersionEntries(st.v)) && Reopen(st, st', fs)
    ensures Replayed(st.v, st.nextFile, fs, st'.v, st'.nextFile)
    ensures All(st') == All(st) && MemInv(st'.mem, st'.imm, VersionEntries(st'.v))
  {
    hide Rearranged, AscendingFiles;
    ReplayedFiles(st.v, st.nextFile, fs, st'.v, st'.nextFile);
    assert VersionEntries(st'.v) == VersionEntries(st.v) + FileEntries(fs) by {
      forall e | e in VersionEntries(st'.v) ensures e in VersionEntries(st.v) + FileEntries(fs) {
        var l, g :| 0 <= l < NUM_LEVELS && g in st'.v[l] && e in g.entries;
      }
      forall e | e in FileEntries(fs) ensures e in VersionEntries(st'.v) {
        var g :| g in fs && e in g.entries;
        assert g in st'.v[0];
      }
      forall e | e in VersionEntries(st.v) ensures e in VersionEntries(st'.v) {
        var l, g :| 0 <= l < NUM_LEVELS && g in st.v[l] && e in g.entries;
        assert g in st'.v[l];
      }
    }
  }

  /** A crash loses no write and keeps the order of age. */
  lemma ReopenKeepsInv(st: State, st': State, fs: seq<File>)
    requires Inv(st) && Reopen(st, st', fs)
    ensures Inv(st')
  {
    hide Shape, OlderWithDepth, PendingInv, Live, MemInv, Replayed, Rearranged, AscendingFiles, All;
    ReopenReplays(st, st', fs);
    ReopenKeepsVersion(st.v, st.nextFile, fs, st'.v, st'.nextFile, Live(All(st), ReadersOf(st)));
    FilesAreStored(st');
    ReadersShrink(st'.v, All(st), ReadersOf(st), All(st'), ReadersOf(st'));
  }

  lemma FilesAreStored(st: State)
    ensures VersionEntries(st.v) <= All(st)
  {
  }

  // ---- Replacing inputs by outputs ----

  predicate Input(p: Pending, l: nat, f: File) {
    (l == p.level && f in p.in0) || (l == p.level + 1 && f in p.in1)
  }

  predicate Output(p: Pending, l: nat, outs: seq<File>, f: File) {
    l == p.level + 1 && f in outs
  }

  /** The outputs replace exactly the inputs. */
  ghost predicate Swapped(v: Version, p: Pending, outs: seq<File>, v': Version) {
    && (forall l, g :: 0 <= l < NUM_LEVELS && g in v'[l] ==> (g in v[l] && !Input(p, l, g)) || Output(p, l, outs, g))
    && (forall l, g :: 0 <= l < NUM_LEVELS && g in v[l] && !Input(p, l, g) ==> g in v'[l])
    && (p.level + 1 < NUM_LEVELS ==> forall g :: g in outs ==> g in v'[p.level + 1])
  }

  ghost predicate InSome(fs: seq<File>, e: Entry) {
    exists f :: f in fs && e in f.entries
  }

  // Outputs carry nothing but entries of the inputs, in files that stay apart.
  ghost predicate FromInputs(p: Pending, outs: seq<File>) {
    && (forall o, e :: o in outs && e in o.entries ==> InSome(p.in0 + p.in1, e))
    && (forall o, o' :: o in outs && o' in outs && o != o' ==> Apart(o, o'))
  }

  lemma OutputInSpan(p: Pending, outs: seq<File>, o: File)
    requires FromInputs(p, outs) && o in outs && p.in0 != []
    ensures MinLo(p.in0 + p.in1) <= Lo(o) && Hi(o) <= MaxHi(p.in0 + p.in1)
  {
    var all := p.in0 + p.in1;
    assert Smallest(o) in o.entries && Largest(o) in o.entries;
    assert InSome(all, Smallest(o)) && InSome(all, Largest(o));
    var f :| f in all && Smallest(o) in f.entries;
    var g :| g in all && Largest(o) in g.entries;
    EntriesInRange(f);
    EntriesInRange(g);
  }

  lemma SwappedBelow(v: Version, p: Pending, outs: seq<File>, v': Version, j: nat, h: File)
    requires Swapped(v, p, outs, v') && p.level + 1 < j < NUM_LEVELS && h in v'[j]
    ensures h in v[j]
  {
  }

  /** Outputs stay below what is newer and above what is older, as far as readers can see, in a closed compaction. */
  lemma SwapKeepsDepth(v: Version, p: Pending, outs: seq<File>, v': Version, live: set<Entry>)
    requires LevelsSorted(v) && OlderWithDepth(v, live) && PendingInv(v, p) && KeyClosed(v, p, live)
    requires FromInputs(p, outs) && Swapped(v, p, outs, v')
    ensures OlderWithDepth(v', live)
  {
    hide PendingInv, KeyClosed, LevelsSorted, ShowsLive, FromInputs;
    forall i, j, g, h | 0 <= i < NUM_LEVELS && 0 <= j < NUM_LEVELS && g in v'[i] && h in v'[j] && Above(i, g, j, h)
      ensures ShowsLive(g, h, live)
    {
      if Output(p, i, outs, g) {
        SwappedBelow(v, p, outs, v', j, h);
        OutputsAboveDeeper(v, p, outs, g, j, h, live);
      } else if Output(p, j, outs, h) {
        OthersAboveOutputs(v, p, outs, i, g, h, live);
      }
    }
  }

  lemma OutputsAboveDeeper(v: Version, p: Pending, outs: seq<File>, o: File, j: nat, h: File, live: set<Entry>)
    requires OlderWithDepth(v, live) && PendingInv(v, p) && FromInputs(p, outs) && o in outs
    requires p.level + 1 < j < NUM_LEVELS && h in v[j]
    ensures ShowsLive(o, h, live)
  {
    InputsStored(v, p);
    hide PendingInv;
    forall x, y | x in o.entries && y in h.entries && x.key == y.key && y in live ensures x.sn > y.sn {
      assert InSome(p.in0 + p.in1, x);
      var f :| f in p.in0 + p.in1 && x in f.entries;
      if f in p.in0 { assert Above(p.level, f, j, h); } else { assert Above(p.level + 1, f, j, h); }
    }
  }

  lemma NewerInLevel0(v: Version, p: Pending, g: File, f: File, live: set<Entry>)
    requires PendingInv(v, p) && p.level == 0 && g in v[0] && g !in p.in0 && f in p.in0
    ensures ShowsLive(g, f, live)
  {
    hide Covers, NextOf;
    assert NewerFile(g, f);
  }

  lemma NewerInLevel(v: Version, p: Pending, g: File, f: File, live: set<Entry>)
    requires LevelsSorted(v) && 0 < p.level && p.level + 1 < NUM_LEVELS && KeyClosed(v, p, live)
    requires f in p.in0 && f in v[p.level] && g in v[p.level] && g !in p.in0
    ensures ShowsLive(g, f, live)
  {
    forall x, y | x in g.entries && y in f.entries && x.key == y.key && y in live ensures x.sn > y.sn {
      if x.sn <= y.sn {
        LeftBehindContinues(v[p.level], f, g, x, y);
      }
    }
  }

  lemma AboveInput(v: Version, p: Pending, l: nat, g: File, f: File, live: set<Entry>)
    requires LevelsSorted(v) && OlderWithDepth(v, live) && PendingInv(v, p) && KeyClosed(v, p, live)
    requires l <= p.level && g in v[l] && !Input(p, l, g) && f in p.in0 + p.in1
    ensures ShowsLive(g, f, live)
  {
    hide PendingInv, LevelsSorted, KeyClosed, ShowsLive;
    InputsStored(v, p);
    if f in p.in1 {
      assert Above(l, g, p.level + 1, f);
    } else if l < p.level {
      assert Above(l, g, p.level, f);
    } else if p.level > 0 {
      NewerInLevel(v, p, g, f, live);
    } else {
      NewerInLevel0(v, p, g, f, live);
    }
  }

  lemma OthersAboveOutputs(v: Version, p: Pending, outs: seq<File>, i: nat, g: File, o: File, live: set<Entry>)
    requires LevelsSorted(v) && OlderWithDepth(v, live) && PendingInv(v, p) && KeyClosed(v, p, live)
    requires FromInputs(p, outs) && o in outs
    requires i <= p.level && g in v[i] && !Input(p, i, g)
    ensures ShowsLive(g, o, live)
  {
    hide PendingInv, OlderWithDepth, KeyClosed, LevelsSorted;
    forall x, y | x in g.entries && y in o.entries && x.key == y.key && y in live ensures x.sn > y.sn {
      assert InSome(p.in0 + p.in1, y);
      var f :| f in p.in0 + p.in1 && y in f.entries;
      AboveInput(v, p, i, g, f, live);
    }
  }

  /** A file left behind in the next level lies before or after everything the compaction takes. */
  ghost predicate Beside(p: Pending, g: File) {
    || (forall x :: x in FileEntries(p.in0 + p.in1) ==> Before(x, Smallest(g)))
    || (forall x :: x in FileEntries(p.in0 + p.in1) ==> Before(Largest(g), x))
  }

  lemma InputBeside(v: Version, p: Pending, f: File, g: File, x: Entry)
    requires LevelsSorted(v) && PendingInv(v, p) && g in v[p.level + 1] && g !in p.in1
    requires f in p.in0 + p.in1 && x in f.entries
    ensures if Lo(g) > MaxHi(p.in0) then Before(x, Smallest(g)) else Before(Largest(g), x)
  {
    hide Covers;
    LoHi(g);
    EntriesInRange(f);
    if f in p.in1 {
      LevelApart(v[p.level + 1], f, g);
      InsideFile(f, x);
    }
  }

  lemma NextLevelBeside(v: Version, p: Pending, g: File)
    requires LevelsSorted(v) && PendingInv(v, p) && g in v[p.level + 1] && g !in p.in1
    ensures Beside(p, g)
  {
    hide PendingInv, LevelsSorted;
    var all := p.in0 + p.in1;
    InputsStored(v, p);
    forall x | x in FileEntries(all) ensures if Lo(g) > MaxHi(p.in0) then Before(x, Smallest(g))
        else Before(Largest(g), x) {
      var f :| f in all && x in f.entries;
      InputBeside(v, p, f, g, x);
    }
  }

  lemma OutputBeside(p: Pending, outs: seq<File>, o: File, g: File)
    requires FromInputs(p, outs) && o in outs && Beside(p, g)
    ensures Apart(o, g)
  {
    var all := p.in0 + p.in1;
    assert Smallest(o) in o.entries && Largest(o) in o.entries;
    assert InSome(all, Smallest(o)) && InSome(all, Largest(o));
    assert Smallest(o) in FileEntries(all) && Largest(o) in FileEntries(all);
  }

  lemma SwapKeepsLevel0(v: Version, p: Pending, fs': seq<File>, d0: set<nat>)
    requires LevelsSorted(v) && 0 < p.level < NUM_LEVELS
    requires Rearranged(v[p.level], d0, [], fs')
    ensures LevelSorted(fs')
  {
  }

  lemma SwapKeepsLevel1(v: Version, p: Pending, outs: seq<File>, fs': seq<File>, d1: set<nat>)
    requires LevelsSorted(v) && PendingInv(v, p) && FromInputs(p, outs)
    requires Rearranged(v[p.level + 1], d1, outs, fs')
    requires forall f :: f in fs' && f in p.in1 ==> f in outs
    ensures LevelSorted(fs')
  {
    var l := p.level + 1;
    InputsStored(v, p);
    hide PendingInv, Beside;
    forall f, g | f in fs' && g in fs' && f != g ensures Apart(f, g) {
      if f in outs && g in outs {
      } else if f in outs {
        NextLevelBeside(v, p, g);
        OutputBeside(p, outs, f, g);
      } else if g in outs {
        NextLevelBeside(v, p, f);
        OutputBeside(p, outs, g, f);
      } else {
        LevelApart(v[l], f, g);
      }
    }
    RearrangedSorted(v[l], d1, outs, fs');
  }

  lemma ApartDisjoint(f: File, g: File)
    requires Apart(f, g)
    ensures Disjoint(f, g)
  {
    forall e | e in f.entries ensures e !in g.entries {
      InsideFile(f, e);
      if e in g.entries { InsideFile(g, e); }
    }
  }

  lemma KeptDisjoint(v: Version, p: Pending, outs: seq<File>, o: File, l: nat, g: File)
    requires EachOnce(v) && PendingInv(v, p) && FromInputs(p, outs) && o in outs
    requires l < NUM_LEVELS && g in v[l] && !Input(p, l, g)
    ensures Disjoint(o, g) && Disjoint(g, o)
  {
    hide Covers;
    forall e | e in o.entries ensures e !in g.entries {
      assert InSome(p.in0 + p.in1, e);
      var f :| f in p.in0 + p.in1 && e in f.entries;
      if f in p.in0 { assert Disjoint(f, g); } else { assert Disjoint(f, g); }
    }
  }

  lemma SwapKeepsOnce(v: Version, p: Pending, outs: seq<File>, v': Version)
    requires EachOnce(v) && PendingInv(v, p) && FromInputs(p, outs) && Swapped(v, p, outs, v')
    ensures EachOnce(v')
  {
    forall i, j, g, h | 0 <= i < NUM_LEVELS && 0 <= j < NUM_LEVELS && g in v'[i] && h in v'[j] && !(i == j && g == h)
      ensures Disjoint(g, h)
    {
      assert (g in v[i] && !Input(p, i, g)) || Output(p, i, outs, g);
      assert (h in v[j] && !Input(p, j, h)) || Output(p, j, outs, h);
      if Output(p, i, outs, g) && Output(p, j, outs, h) {
        assert Apart(g, h);
        ApartDisjoint(g, h);
      } else if Output(p, i, outs, g) {
        KeptDisjoint(v, p, outs, g, j, h);
      } else if Output(p, j, outs, h) {
        KeptDisjoint(v, p, outs, h, i, g);
      }
    }
  }

  /** The entries of the files that are not inputs. */
  ghost function KeptEntries(v: Version, p: Pending): set<Entry> {
    set l, f, e | 0 <= l < NUM_LEVELS && f in v[l] && !Input(p, l, f) && e in f.entries :: e
  }

  lemma SwapEntries(v: Version, p: Pending, outs: seq<File>, v': Version)
    requires PendingInv(v, p) && Swapped(v, p, outs, v')
    ensures VersionEntries(v) == FileEntries(p.in0 + p.in1) + KeptEntries(v, p)
    ensures VersionEntries(v') == FileEntries(outs) + KeptEntries(v, p)
  {
    var all := p.in0 + p.in1;
    forall e | e in VersionEntries(v) ensures e in FileEntries(all) + KeptEntries(v, p) {
      var l, f :| 0 <= l < NUM_LEVELS && f in v[l] && e in f.entries;
      if Input(p, l, f) { assert f in all; }
    }
    forall e | e in FileEntries(all) ensures e in VersionEntries(v) {
      var f :| f in all && e in f.entries;
      assert f in v[p.level] || f in v[p.level + 1];
    }
    forall e | e in FileEntries(outs) ensures e in VersionEntries(v') {
      var f :| f in outs && e in f.entries;
      assert f in v'[p.level + 1];
    }
    forall e | e in VersionEntries(v') ensures e in FileEntries(outs) + KeptEntries(v, p) {
      var l, f :| 0 <= l < NUM_LEVELS && f in v'[l] && e in f.entries;
    }
    forall e | e in KeptEntries(v, p) ensures e in VersionEntries(v') && e in VersionEntries(v) {
      var l, f :| 0 <= l < NUM_LEVELS && f in v[l] && !Input(p, l, f) && e in f.entries;
      assert f in v'[l];
    }
  }
}
