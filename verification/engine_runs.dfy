/** Whole runs of the engine: what a read returns in every reachable state. */
module EngineRuns {
  import opened DbFormat
  import opened Files
  import opened Versions
  import opened Picking
  import opened CompactionLoop
  import opened Engine
  import opened EngineSteps
  import opened EngineInstall
  import opened Reading

  // ---- Reads ----

  lemma HitIsVisible(f: File, k: UserKey, s: nat)
    ensures Hit(f, k, s) <==> exists e :: e in f.entries && Visible(e, k, s)
    ensures Hit(f, k, s) ==> Newest(Elems(f.entries), k, s, Lookup(f.entries, k, s).value)
  {
    LookupIsFind(f.entries, k, s);
    FindNone(Elems(f.entries), k, s);
    if Hit(f, k, s) {
      FindSome(Elems(f.entries), k, s);
    }
  }

  lemma FirstHitIsNewest(v: Version, next: nat, live: set<Entry>, k: UserKey, s: nat, l: nat, f: File, i: nat,
                         g: File, d: Entry)
    requires VersionInv(v, next, live) && FirstHit(v, k, s, l, f)
    requires i < NUM_LEVELS && g in v[i] && d in g.entries && Visible(d, k, s) && d in live
    ensures d.sn <= Lookup(f.entries, k, s).value.sn
  {
    HitIsVisible(f, k, s);
    HitIsVisible(g, k, s);
    var e := Lookup(f.entries, k, s).value;
    assert !Above(i, g, l, f);
    if g != f {
      if Above(l, f, i, g) {
        assert ShowsLive(f, g, live);
      } else {
        assert i == l;
        assert l > 0;
        InsideFile(f, e);
        InsideFile(g, d);
      }
    }
  }

  /** Where no live entry lies below an older one of its key, the early-exit search finds every live answer. */
  lemma SearchIsFind(v: Version, next: nat, live: set<Entry>, k: UserKey, s: nat, r: Option<Entry>)
    requires VersionInv(v, next, live) && Versioned(VersionEntries(v)) && SearchAnswer(v, k, s, r)
    requires Find(VersionEntries(v), k, s).Some? ==> Find(VersionEntries(v), k, s).value in live
    ensures r == Find(VersionEntries(v), k, s)
  {
    hide VersionInv;
    FindNone(VersionEntries(v), k, s);
    if r.None? {
      forall e | e in VersionEntries(v) ensures !Visible(e, k, s) {
        var l, f :| 0 <= l < NUM_LEVELS && f in v[l] && e in f.entries;
        HitIsVisible(f, k, s);
      }
    } else {
      var l, f :| FirstHit(v, k, s, l, f) && Lookup(f.entries, k, s) == r;
      HitIsVisible(f, k, s);
      assert r.value in VersionEntries(v);
      FindSome(VersionEntries(v), k, s);
      var d := Find(VersionEntries(v), k, s).value;
      var i, g :| 0 <= i < NUM_LEVELS && g in v[i] && d in g.entries;
      FirstHitIsNewest(v, next, live, k, s, l, f, i, g, d);
    }
  }

  /** The entry DBImpl::Get finds in the memtables and the version it captured. */
  ghost predicate FoundEntry(mem: seq<Entry>, imm: Option<seq<Entry>>, v: Version, k: UserKey, s: nat,
                             e: Option<Entry>) {
    if Lookup(mem, k, s).Some? then e == Lookup(mem, k, s)
    else if imm.Some? && Lookup(imm.value, k, s).Some? then e == Lookup(imm.value, k, s)
    else SearchAnswer(v, k, s, e)
  }

  ghost predicate GetAnswer(mem: seq<Entry>, imm: Option<seq<Entry>>, v: Version, k: UserKey, s: nat,
                            r: Option<Value>) {
    exists e :: FoundEntry(mem, imm, v, k, s, e) && r == Result(e)
  }

  /** DBImpl::Get. */
  method DbGet(mem: seq<Entry>, imm: Option<seq<Entry>>, v: Version, k: UserKey, s: nat) returns (r: Option<Value>)
    requires LevelsSorted(v)
    requires forall i, j :: 0 <= i < j < |v[0]| ==> v[0][i].number != v[0][j].number
    ensures GetAnswer(mem, imm, v, k, s, r)
  {
    var e := Lookup(mem, k, s);
    if e.None? && imm.Some? {
      e := Lookup(imm.value, k, s);
    }
    if e.None? {
      e := VersionGet(v, k, s);
    }
    r := Result(e);
  }

  // The memtable as a reader without the mutex may find it later: only newer entries were added.
  ghost predicate LaterMem(mem: seq<Entry>, mem': seq<Entry>, s: nat) {
    && Sorted(mem') && Elems(mem) <= Elems(mem')
    && forall e :: e in Elems(mem') && e !in Elems(mem) ==> e.sn > s
  }

  lemma LaterMemLookup(mem: seq<Entry>, mem': seq<Entry>, k: UserKey, s: nat)
    requires Sorted(mem) && LaterMem(mem, mem', s)
    ensures Lookup(mem', k, s) == Lookup(mem, k, s)
  {
    LookupIsFind(mem, k, s);
    LookupIsFind(mem', k, s);
    FindNone(Elems(mem), k, s);
    FindNone(Elems(mem'), k, s);
    if Find(Elems(mem'), k, s).Some? {
      FindSome(Elems(mem'), k, s);
      FindSome(Elems(mem), k, s);
      SortedOneNewest(mem, k, s, Find(Elems(mem), k, s).value, Find(Elems(mem'), k, s).value);
    }
  }

  lemma MemFirst(mem: seq<Entry>, imm: Option<seq<Entry>>, files: set<Entry>, k: UserKey, s: nat)
    requires MemInv(mem, imm, files) && Versioned(Elems(mem) + ImmElems(imm) + files)
    ensures Find(Elems(mem) + ImmElems(imm) + files, k, s) ==
            if Lookup(mem, k, s).Some? then Lookup(mem, k, s)
            else if imm.Some? && Lookup(imm.value, k, s).Some? then Lookup(imm.value, k, s)
            else Find(files, k, s)
  {
    LookupIsFind(mem, k, s);
    if imm.Some? {
      LookupIsFind(imm.value, k, s);
    } else {
      FindNone({}, k, s);
    }
    assert Elems(mem) + ImmElems(imm) + files == Elems(mem) + (ImmElems(imm) + files);
    FindLayered(Elems(mem), ImmElems(imm) + files, k, s);
    FindLayered(ImmElems(imm), files, k, s);
  }

  lemma FoundIsFind(st: State, mem': seq<Entry>, k: UserKey, s: nat, e: Option<Entry>)
    requires Inv(st) && Readable(ReadersOf(st), s) && LaterMem(st.mem, mem', s)
    requires FoundEntry(mem', st.imm, st.v, k, s, e)
    ensures e == Find(All(st), k, s) && Matches(e, Find(st.hist, k, s))
  {
    hide VersionInv, SnapshotInv, PendingInv;
    LaterMemLookup(st.mem, mem', k, s);
    MemFirst(st.mem, st.imm, VersionEntries(st.v), k, s);
    assert Matches(Find(All(st), k, s), Find(st.hist, k, s));
    if SearchAnswer(st.v, k, s, e) && Find(All(st), k, s) == Find(VersionEntries(st.v), k, s) {
      if Find(All(st), k, s).Some? {
        FindSome(All(st), k, s);
      }
      SearchIsFind(st.v, st.nextFile, Live(All(st), ReadersOf(st)), k, s, e);
    }
  }

  /** In every good state a Get at any sequence number still readable answers from the whole history, even if
      writers add to the memtable while it runs. */
  lemma GetIsRead(st: State, mem': seq<Entry>, k: UserKey, s: nat, r: Option<Value>)
    requires Inv(st) && Readable(ReadersOf(st), s) && LaterMem(st.mem, mem', s)
    requires GetAnswer(mem', st.imm, st.v, k, s, r)
    ensures r == Read(st.hist, k, s)
  {
    hide Inv, FoundEntry;
    var e :| FoundEntry(mem', st.imm, st.v, k, s, e) && r == Result(e);
    FoundIsFind(st, mem', k, s, e);
  }

  /** At every readable sequence number Get finds the newest entry ever written, or nothing where that is a deletion. */
  ghost predicate GetsRight(st: State) {
    forall k, s, e :: Readable(ReadersOf(st), s) && FoundEntry(st.mem, st.imm, st.v, k, s, e) ==>
      Matches(e, Find(st.hist, k, s))
  }

  lemma GoodStateGetsRight(st: State)
    requires Inv(st)
    ensures GetsRight(st)
  {
    forall k, s, e | Readable(ReadersOf(st), s) && FoundEntry(st.mem, st.imm, st.v, k, s, e)
      ensures Matches(e, Find(st.hist, k, s))
    {
      assert LaterMem(st.mem, st.mem, s);
      hide Inv, FoundEntry, Matches;
      FoundIsFind(st, st.mem, k, s, e);
    }
  }

  // ---- Runs ----

  ghost predicate Run(sts: seq<State>, evs: seq<Event>) {
    && |sts| == |evs| + 1
    && Init(sts[0])
    && forall i :: 0 <= i < |evs| ==> Step(sts[i], sts[i + 1], evs[i])
  }

  lemma StepKeepsInv(st: State, st': State, ev: Event)
    requires Inv(st) && Step(st, st', ev) && ClosedEvent(st, ev)
    ensures Inv(st')
  {
    hide Inv;
    match ev
    case EvWrite(ops) => WriteKeepsInv(st, st', ops);
    case EvSwitch => SwitchKeepsInv(st, st');
    case EvFlush(level, f) => FlushKeepsInv(st, st', level, f);
    case EvPick(p) => PickKeepsInv(st, st', p);
    case EvInstall(m, outs) => InstallKeepsInv(st, st', m, outs);
    case EvMove(level, f) => MoveKeepsInv(st, st', level, f);
    case EvSnapshot => SnapshotKeepsInv(st, st');
    case EvRelease(i) => ReleaseKeepsInv(st, st', i);
    case EvReopen(fs) => ReopenKeepsInv(st, st', fs);
  }

  /** With any snapshots held, runs whose compactions are closed under user key stay good. */
  lemma {:induction false} ClosedRunsKeepInv(sts: seq<State>, evs: seq<Event>, n: nat)
    requires Run(sts, evs) && n <= |evs|
    requires forall i :: 0 <= i < n ==> ClosedEvent(sts[i], evs[i])
    ensures Inv(sts[n])
  {
    hide Inv, Step, ClosedEvent;
    if n == 0 {
      InitInv(sts[0]);
    } else {
      ClosedRunsKeepInv(sts, evs, n - 1);
      StepKeepsInv(sts[n - 1], sts[n], evs[n - 1]);
    }
  }

  /** Every live snapshot, and the latest sequence number, stays readable. */
  lemma ClosedRunsReadSnapshots(sts: seq<State>, evs: seq<Event>, n: nat, i: nat, k: UserKey, r: Option<Value>,
                                r': Option<Value>)
    requires Run(sts, evs) && n <= |evs| && i < |sts[n].snapshots|
    requires forall j :: 0 <= j < n ==> ClosedEvent(sts[j], evs[j])
    requires GetAnswer(sts[n].mem, sts[n].imm, sts[n].v, k, sts[n].snapshots[i], r)
    requires GetAnswer(sts[n].mem, sts[n].imm, sts[n].v, k, sts[n].lastSeq, r')
    ensures r == Read(sts[n].hist, k, sts[n].snapshots[i])
    ensures r' == Read(sts[n].hist, k, sts[n].lastSeq)
  {
    ClosedRunsKeepInv(sts, evs, n);
    var st := sts[n];
    hide VersionInv, PendingInv, HistoryInv;
    GetIsRead(st, st.mem, k, st.snapshots[i], r);
    GetIsRead(st, st.mem, k, st.lastSeq, r');
  }

  // ---- Without snapshots ----

  /** Files of a level below level 0 share no user key. */
  ghost predicate StrictLevels(v: Version) {
    forall l, f, g :: 1 <= l < NUM_LEVELS && f in v[l] && g in v[l] && f != g ==> !Meet(f, g)
  }

  // A compaction under way reads the oldest data as if no snapshot existed.
  ghost predicate PendingAllOld(p: Pending) {
    forall e :: e in FileEntries(p.in0 + p.in1) ==> e.sn <= p.snap
  }

  ghost predicate Free(st: State) {
    && st.snapshots == []
    && StrictLevels(st.v) && OlderWithDepth(st.v, st.hist)
    && (st.pending.Some? ==> PendingAllOld(st.pending.value))
  }

  lemma StrictIsClosed(v: Version, p: Pending, live: set<Entry>)
    requires StrictLevels(v) && PendingInv(v, p)
    ensures KeyClosed(v, p, live)
  {
    hide Covers;
    forall f, g | f in p.in0 && g in v[p.level] && g !in p.in0 ensures !Continues(f, g) {
      if p.level == 0 {
        assert NewerFile(g, f) && Largest(f) in f.entries && Smallest(g) in g.entries;
      } else {
        assert !Meet(f, g);
        LoHi(f);
        LoHi(g);
      }
    }
    forall f, g | f in p.in1 && g in v[p.level + 1] && g !in p.in1 ensures !Continues(f, g) {
      assert !Meet(f, g);
      LoHi(f);
      LoHi(g);
    }
  }

  lemma FlushKeepsStrict(v: Version, level: nat, f: File, v': Version)
    requires StrictLevels(v) && Placeable(v, Lo(f), Hi(f), level)
    requires v' == v[level := v'[level]] && Rearranged(v[level], {}, [f], v'[level])
    ensures StrictLevels(v')
  {
  }

  lemma PickReadsOld(st: State, p: Pending)
    requires HistoryInv(All(st), st.hist, ReadersOf(st)) && ValidPick(st.v, p.level, p.in0, p.in1)
    requires p.snap == st.lastSeq
    ensures PendingAllOld(p)
  {
    forall e | e in FileEntries(p.in0 + p.in1) ensures e.sn <= p.snap {
      var f :| f in p.in0 + p.in1 && e in f.entries;
      assert f in st.v[p.level] || f in st.v[p.level + 1];
      assert e in VersionEntries(st.v);
    }
  }

  lemma OutputsStrict(outs: seq<File>, r: seq<Entry>)
    requires Flat(Contents(outs)) == r && Sorted(r) && KeysAscend(r)
    ensures forall o, o' :: o in outs && o' in outs && o != o' ==> !Meet(o, o')
  {
    OutputsApart(outs);
    OutputEntries(outs, r);
    forall o, o' | o in outs && o' in outs && o != o' ensures !Meet(o, o') {
      assert Largest(o) in o.entries && Smallest(o) in o.entries && Largest(o') in o'.entries &&
          Smallest(o') in o'.entries;
      assert Largest(o) in FileEntries(outs) && Smallest(o) in FileEntries(outs);
      assert Largest(o') in FileEntries(outs) && Smallest(o') in FileEntries(outs);
      if Before(Largest(o), Smallest(o')) {
        AscendingKeys(r, Largest(o), Smallest(o'));
      } else {
        AscendingKeys(r, Largest(o'), Smallest(o));
      }
    }
  }

  lemma AscendingKeys(r: seq<Entry>, x: Entry, y: Entry)
    requires KeysAscend(r) && x in r && y in r && Before(x, y)
    ensures x.key < y.key
  {
  }

  lemma OutputMeetsNoneKept(v: Version, p: Pending, outs: seq<File>, o: File, g: File)
    requires StrictLevels(v) && PendingInv(v, p) && FromInputs(p, outs) && o in outs
    requires g in v[p.level + 1] && g !in p.in1
    ensures !Meet(o, g) && !Meet(g, o)
  {
    hide Covers;
    var all := p.in0 + p.in1;
    forall f | f in all ensures !Meet(f, g) {
      if f in p.in0 { MembersMeetSpan(p.in0, f, g); }
    }
    OutsideSpan(all, g);
    OutputInSpan(p, outs, o);
  }

  lemma SwapKeepsStrict(v: Version, p: Pending, outs: seq<File>, v': Version)
    requires StrictLevels(v) && PendingInv(v, p) && FromInputs(p, outs) && Swapped(v, p, outs, v')
    requires forall o, o' :: o in outs && o' in outs && o != o' ==> !Meet(o, o')
    ensures StrictLevels(v')
  {
    hide PendingInv, FromInputs, Meet;
    InputsStored(v, p);
    forall l, f, g | 1 <= l < NUM_LEVELS && f in v'[l] && g in v'[l] && f != g ensures !Meet(f, g) {
      assert (f in v[l] && !Input(p, l, f)) || Output(p, l, outs, f);
      assert (g in v[l] && !Input(p, l, g)) || Output(p, l, outs, g);
      if Output(p, l, outs, f) && !Output(p, l, outs, g) {
        OutputMeetsNoneKept(v, p, outs, f, g);
      } else if !Output(p, l, outs, f) && Output(p, l, outs, g) {
        OutputMeetsNoneKept(v, p, outs, g, f);
      }
    }
  }

  lemma InstallKeepsStrict(st: State, st': State, m: seq<Entry>, outs: seq<File>)
    requires Inv(st) && Free(st) && Install(st, st', m, outs)
    ensures StrictLevels(st'.v) && OlderWithDepth(st'.v, st'.hist)
  {
    hide HistoryInv, MemInv, SnapshotInv, Shape, OlderWithDepth, PendingInv, StrictLevels, Survivors, Rearranged,
      FreshNumbers, KeyClosed, Live;
    var p := st.pending.value;
    var deeper := p.base[p.level + 2..];
    InstallKeepsShape(st, st', m, outs);
    SurvivorsSorted(m, |m|, p.snap, deeper);
    OneVersionSurvives(m, |m|, p.snap, deeper);
    OutputsStrict(outs, Survivors(m, |m|, p.snap, deeper));
    SwapKeepsStrict(st.v, p, outs, st'.v);
    StrictIsClosed(st.v, p, st.hist);
    ShapeIsSorted(st.v, st.nextFile);
    SwapKeepsDepth(st.v, p, outs, st'.v, st.hist);
  }

  lemma ShapeIsSorted(v: Version, next: nat)
    requires Shape(v, next)
    ensures LevelsSorted(v)
  {
  }

  lemma MoveKeepsStrict(v: Version, next: nat, level: nat, f: File, v': Version, live: set<Entry>)
    requires Shape(v, next) && StrictLevels(v) && OlderWithDepth(v, live)
    requires ValidPick(v, level, [f], []) && Moved(v, level, f, v')
    ensures KeyClosed(v, MoveOf(v, level, f), live)
    ensures StrictLevels(v') && OlderWithDepth(v', live)
  {
    hide Shape, OlderWithDepth, PendingInv, KeyClosed, ValidPick, Moved, FromInputs, Swapped, StrictLevels;
    var p := MoveOf(v, level, f);
    MoveKeepsShape(v, next, level, f, v');
    StrictIsClosed(v, p, live);
    ShapeIsSorted(v, next);
    MoveFromInputs(v, level, f);
    SwapKeepsStrict(v, p, [f], v');
    SwapKeepsDepth(v, p, [f], v', live);
  }

  lemma FlushKeepsFree(st: State, st': State, level: nat, f: File)
    requires Inv(st) && Free(st) && Flush(st, st', level, f)
    ensures StrictLevels(st'.v) && OlderWithDepth(st'.v, st'.hist)
  {
    hide HistoryInv, PendingInv, Live, StrictLevels, OlderWithDepth, EachOnce, LevelsSorted, Rearranged;
    if st.imm.value != [] {
      assert forall g :: g in st.v[0] ==> g.number < f.number;
      FlushKeepsStrict(st.v, level, f, st'.v);
      FlushKeepsDepth(st.v, level, f, st'.v, st.hist);
    }
  }

  lemma WriteKeepsFree(st: State, st': State, ops: seq<(UserKey, Op)>)
    requires Inv(st) && Free(st) && Write(st, st', ops)
    ensures Free(st')
  {
    hide VersionInv, PendingInv, MemInv, Faithful, OlderWithDepth, Live;
    DepthWeakens(st.v, st.hist, st'.hist);
  }

  lemma ReopenKeepsFree(st: State, st': State, fs: seq<File>)
    requires Inv(st) && Free(st) && Reopen(st, st', fs)
    ensures Free(st')
  {
    hide OlderWithDepth, EachOnce, LevelsSorted, PendingInv, HistoryInv, Live, MemInv, UniqueNumbers, Replayed;
    ReopenReplays(st, st', fs);
    ReplayedFiles(st.v, st.nextFile, fs, st'.v, st'.nextFile);
    ReopenKeepsDepth(st.v, st.nextFile, fs, st'.v, st'.nextFile, st.hist);
  }

  lemma StepKeepsFree(st: State, st': State, ev: Event)
    requires Inv(st) && Free(st) && Step(st, st', ev) && !ev.EvSnapshot?
    ensures ClosedEvent(st, ev) && Free(st')
  {
    hide HistoryInv, MemInv, SnapshotInv, Shape, OlderWithDepth, PendingInv, StrictLevels, PendingAllOld, ValidPick,
      KeyClosed, Moved, Rearranged, Placeable, Live;
    var live := Live(All(st), ReadersOf(st));
    match ev
    case EvWrite(ops) =>
      WriteKeepsFree(st, st', ops);
    case EvSwitch =>
    case EvFlush(level, f) =>
      FlushKeepsFree(st, st', level, f);
    case EvPick(p) =>
      PickReadsOld(st, p);
    case EvInstall(m, outs) =>
      StrictIsClosed(st.v, st.pending.value, live);
      InstallKeepsStrict(st, st', m, outs);
    case EvMove(level, f) =>
      PickEstablishes(st.v, MoveOf(st.v, level, f));
      StrictIsClosed(st.v, MoveOf(st.v, level, f), live);
      MoveKeepsStrict(st.v, st.nextFile, level, f, st'.v, st.hist);
    case EvRelease(i) =>
    case EvReopen(fs) =>
      ReopenKeepsFree(st, st', fs);
  }

  /** The whole-run theorem.  In every run that takes no snapshot, crashes included: levels below 0 stay sorted and
      share no user key, entries get older with depth, and Get returns the latest write. */
  lemma {:induction false} SnapshotFreeRuns(sts: seq<State>, evs: seq<Event>, n: nat)
    requires Run(sts, evs) && n <= |evs| && forall i :: 0 <= i < |evs| ==> !evs[i].EvSnapshot?
    ensures Inv(sts[n]) && Free(sts[n])
    ensures forall i :: 0 <= i < n ==> ClosedEvent(sts[i], evs[i])
  {
    hide Inv, Step, ClosedEvent, Free;
    if n == 0 {
      InitInv(sts[0]);
      InitFree(sts[0]);
    } else {
      SnapshotFreeRuns(sts, evs, n - 1);
      StepKeepsFree(sts[n - 1], sts[n], evs[n - 1]);
      StepKeepsInv(sts[n - 1], sts[n], evs[n - 1]);
    }
  }

  lemma InitFree(st: State)
    requires Init(st)
    ensures Free(st)
  {
  }

  lemma SnapshotFreeGet(sts: seq<State>, evs: seq<Event>, n: nat, k: UserKey, r: Option<Value>)
    requires Run(sts, evs) && n <= |evs| && forall i :: 0 <= i < |evs| ==> !evs[i].EvSnapshot?
    requires GetAnswer(sts[n].mem, sts[n].imm, sts[n].v, k, sts[n].lastSeq, r)
    ensures LevelsSorted(sts[n].v) && StrictLevels(sts[n].v) && OlderWithDepth(sts[n].v, VersionEntries(sts[n].v))
    ensures r == Read(sts[n].hist, k, sts[n].lastSeq)
  {
    hide Step, PendingInv, OlderWithDepth, StrictLevels, Live;
    SnapshotFreeRuns(sts, evs, n);
    assert VersionInv(sts[n].v, sts[n].nextFile, Live(All(sts[n]), ReadersOf(sts[n])));
    assert VersionEntries(sts[n].v) <= All(sts[n]) <= sts[n].hist;
    DepthWeakens(sts[n].v, sts[n].hist, VersionEntries(sts[n].v));
    GetIsRead(sts[n], sts[n].mem, k, sts[n].lastSeq, r);
  }
}
