/** One user key across two files: exactly when moving or merging one of them alone makes reads go back in time. */
module Straddle {
  import opened DbFormat
  import opened Files
  import opened Versions
  import opened Picking
  import opened CompactionLoop
  import opened Engine
  import opened EngineSteps
  import opened EngineInstall
  import opened EngineRuns
  import opened Reading

  // ---- Every search that meets a hit stops at one ----

  lemma {:induction false} FirstIndexHit(fs: seq<File>, k: UserKey, s: nat, j: nat) returns (i: nat)
    requires j < |fs| && Hit(fs[j], k, s)
    ensures i <= j && Hit(fs[i], k, s) && forall a :: 0 <= a < i ==> !Hit(fs[a], k, s)
  {
    if a :| 0 <= a < j && Hit(fs[a], k, s) {
      i := FirstIndexHit(fs, k, s, a);
    } else {
      i := j;
    }
  }

  // The first hit of a sorted level, when no level above has one.
  lemma FirstInLevel(v: Version, k: UserKey, s: nat, l: nat, g: File) returns (f: File)
    requires LevelsSorted(v) && 0 < l < NUM_LEVELS && g in v[l] && Hit(g, k, s)
    requires forall i, h :: 0 <= i < l && h in v[i] ==> !Hit(h, k, s)
    ensures FirstHit(v, k, s, l, f)
  {
    hide Hit;
    var j :| 0 <= j < |v[l]| && v[l][j] == g;
    var a := FirstIndexHit(v[l], k, s, j);
    f := v[l][a];
    assert LevelSorted(v[l]);
  }

  lemma {:induction false} FirstHitExists(v: Version, next: nat, k: UserKey, s: nat, l: nat, g: File)
    returns (i: nat, f: File)
    requires LevelsSorted(v) && UniqueNumbers(v, next) && l < NUM_LEVELS && g in v[l] && Hit(g, k, s)
    ensures i <= l && FirstHit(v, k, s, i, f)
    decreases l, next - g.number
  {
    hide Hit, LevelsSorted;
    if l', h :| 0 <= l' < l && h in v[l'] && Hit(h, k, s) {
      i, f := FirstHitExists(v, next, k, s, l', h);
    } else if l > 0 {
      i := l;
      f := FirstInLevel(v, k, s, l, g);
    } else if h :| h in v[0] && Hit(h, k, s) && h.number > g.number {
      i, f := FirstHitExists(v, next, k, s, 0, h);
    } else {
      i, f := 0, g;
    }
  }

  lemma MemMisses(st: State, k: UserKey, s: nat, y: Entry)
    requires MemInv(st.mem, st.imm, VersionEntries(st.v)) && y in VersionEntries(st.v) && Newest(All(st), k, s, y)
    ensures Lookup(st.mem, k, s).None? && (st.imm.Some? ==> Lookup(st.imm.value, k, s).None?)
  {
    LookupIsFind(st.mem, k, s);
    FindNone(Elems(st.mem), k, s);
    if st.imm.Some? {
      LookupIsFind(st.imm.value, k, s);
      FindNone(Elems(st.imm.value), k, s);
    }
  }

  lemma AnswerOf(v: Version, k: UserKey, s: nat, l: nat, f: File)
    requires FirstHit(v, k, s, l, f)
    ensures Hit(f, k, s) && Lookup(f.entries, k, s).Some? && SearchAnswer(v, k, s, Lookup(f.entries, k, s))
  {
  }

  lemma ContinuesIsHit(f: File, g: File, y: Entry, s: nat)
    requires Straddles(f, g, y) && y.sn <= s
    ensures Hit(g, y.key, s)
  {
    InsideFile(f, y);
    HitIsVisible(g, y.key, s);
    assert Smallest(g) in g.entries;
  }

  /** A search that can stop above the right entry does. */
  lemma WrongAnswer(v: Version, next: nat, k: UserKey, s: nat, y: Entry, l: nat, g: File) returns (e: Entry)
    requires Shape(v, next) && l < NUM_LEVELS && g in v[l] && Hit(g, k, s)
    requires forall i, h :: 0 <= i <= l && h in v[i] ==> y !in h.entries
    ensures SearchAnswer(v, k, s, Some(e)) && e != y
  {
    hide FirstHit, SearchAnswer, Hit, LevelsSorted, UniqueNumbers, EachOnce;
    var i, f := FirstHitExists(v, next, k, s, l, g);
    AnswerOf(v, k, s, i, f);
    HitIsVisible(f, k, s);
    FirstHitStored(v, k, s, i, f);
    e := Lookup(f.entries, k, s).value;
  }

  lemma FirstHitStored(v: Version, k: UserKey, s: nat, l: nat, f: File)
    requires FirstHit(v, k, s, l, f)
    ensures l < NUM_LEVELS && f in v[l]
  {
  }

  /** A state whose search stops above the newest entry at a readable sequence number does not answer right. */
  lemma GetsWrong(st: State, st': State, s: nat, y: Entry, l: nat, g: File)
    requires Inv(st) && y in VersionEntries(st.v) && Readable(ReadersOf(st), s) && Newest(All(st), y.key, s, y)
    requires st'.mem == st.mem && st'.imm == st.imm && st'.hist == st.hist && ReadersOf(st') == ReadersOf(st)
    requires Shape(st'.v, st'.nextFile) && l < NUM_LEVELS && g in st'.v[l] && Hit(g, y.key, s)
    requires forall i, h :: 0 <= i <= l && h in st'.v[i] ==> y !in h.entries
    ensures !GetsRight(st')
  {
    hide VersionInv, Shape, PendingInv, SnapshotInv, MemInv, Hit, SearchAnswer, Live;
    MemMisses(st, y.key, s, y);
    FindNewest(All(st), y.key, s, y);
    assert Matches(Find(All(st), y.key, s), Find(st.hist, y.key, s));
    var e := WrongAnswer(st'.v, st'.nextFile, y.key, s, y, l, g);
    assert FoundEntry(st'.mem, st'.imm, st'.v, y.key, s, Some(e));
  }

  // ---- Merges ----

  /** Above the outputs no file holds an entry of an input. */
  lemma NotAboveOutputs(v: Version, p: Pending, outs: seq<File>, v': Version, f: File, y: Entry, i: nat, h: File)
    requires EachOnce(v) && PendingInv(v, p) && Swapped(v, p, outs, v')
    requires f in p.in0 && y in f.entries && i <= p.level && h in v'[i]
    ensures y !in h.entries
  {
    hide Covers;
    assert h in v[i] && !Input(p, i, h);
    assert Disjoint(f, h);
  }

  lemma SinkingIsWrong(st: State, st': State, p: Pending, outs: seq<File>, f: File, g: File, y: Entry)
    requires Inv(st) && PendingInv(st.v, p) && Swapped(st.v, p, outs, st'.v) && Shape(st'.v, st'.nextFile)
    requires st'.mem == st.mem && st'.imm == st.imm && st'.hist == st.hist && ReadersOf(st') == ReadersOf(st)
    requires f in p.in0 && g in st.v[p.level] && g !in p.in0 && Straddles(f, g, y) && y in Live(All(st), ReadersOf(st))
    ensures !GetsRight(st')
  {
    InputsStored(st.v, p);
    assert g in st'.v[p.level] by { assert !Input(p, p.level, g); }
    assert EachOnce(st.v);
    hide HistoryInv, MemInv, Shape, OlderWithDepth, PendingInv, EachOnce, Swapped, SnapshotInv, GetsRight, All;
    assert y in VersionEntries(st.v);
    var s :| Readable(ReadersOf(st), s) && Newest(All(st), y.key, s, y);
    ContinuesIsHit(f, g, y, s);
    forall i, h | 0 <= i <= p.level && h in st'.v[i] ensures y !in h.entries {
      NotAboveOutputs(st.v, p, outs, st'.v, f, y, i, h);
    }
    GetsWrong(st, st', s, y, p.level, g);
  }

  lemma DroppedIsGone(v: Version, p: Pending, m: seq<Entry>, outs: seq<File>, v': Version, f: File, y: Entry, i: nat,
                      h: File)
    requires EachOnce(v) && PendingInv(v, p) && Swapped(v, p, outs, v') && Merged(m, p.in0 + p.in1)
    requires FileEntries(outs) == Elems(Survivors(m, |m|, p.snap, p.base[p.level + 2..]))
    requires f in p.in1 && y in f.entries && DropsDeletion(p, y) && i < NUM_LEVELS && h in v'[i]
    ensures y !in h.entries
  {
    hide Covers, BaseLevel, Survivors;
    if Output(p, i, outs, h) {
      var deeper := p.base[p.level + 2..];
      SurvivorsIn(m, |m|, p.snap, deeper, y);
      forall j | 0 <= j < |m| && m[j] == y ensures !Kept(m, j, p.snap, deeper) {
        assert Obsolete(m, j, p.snap, deeper);
      }
      assert y !in FileEntries(outs);
    } else {
      assert h in v[i] && !Input(p, i, h);
      assert Disjoint(f, h);
    }
  }

  lemma DroppingIsWrong(st: State, st': State, m: seq<Entry>, outs: seq<File>, f: File, g: File, y: Entry)
    requires Inv(st) && Install(st, st', m, outs)
    requires var p := st.pending.value;
             && f in p.in1 && g in st.v[p.level + 1] && g !in p.in1 && Straddles(f, g, y) && DropsDeletion(p, y)
             && y in Live(All(st), ReadersOf(st))
    ensures !GetsRight(st')
  {
    hide Inv, Install, PendingInv, EachOnce, Swapped, Shape, GetsRight, All, DropsDeletion, Survivors, FromInputs,
      Merged, Hit, Live, VersionEntries, FileEntries;
    InstallWrites(st, st', m, outs);
    PendingParts(st);
    InstallKeepsShape(st, st', m, outs);
    var p := st.pending.value;
    InputsStored(st.v, p);
    KeptStays(st.v, p, outs, st'.v, p.level + 1, g);
    StoredIn(st.v, p.level + 1, f, y);
    var s := ReadAt(All(st), ReadersOf(st), y);
    ContinuesIsHit(f, g, y, s);
    forall i, h | 0 <= i <= p.level + 1 && h in st'.v[i] ensures y !in h.entries {
      DroppedIsGone(st.v, p, m, outs, st'.v, f, y, i, h);
    }
    GetsWrong(st, st', s, y, p.level + 1, g);
  }

  lemma PendingParts(st: State)
    requires Inv(st) && st.pending.Some?
    ensures Shape(st.v, st.nextFile) && EachOnce(st.v) && PendingInv(st.v, st.pending.value)
  {
  }

  lemma StoredIn(v: Version, l: nat, f: File, y: Entry)
    requires l < NUM_LEVELS && f in v[l] && y in f.entries
    ensures y in VersionEntries(v)
  {
  }

  lemma ReadAt(es: set<Entry>, rs: Readers, y: Entry) returns (s: nat)
    requires y in Live(es, rs)
    ensures Readable(rs, s) && Newest(es, y.key, s, y)
  {
    s :| Readable(rs, s) && Newest(es, y.key, s, y);
  }

  lemma InstallWrites(st: State, st': State, m: seq<Entry>, outs: seq<File>)
    requires Install(st, st', m, outs)
    ensures st.pending.Some?
    ensures var p := st.pending.value;
            && Merged(m, p.in0 + p.in1)
            && FileEntries(outs) == Elems(Survivors(m, |m|, p.snap, p.base[p.level + 2..]))
    ensures st'.mem == st.mem && st'.imm == st.imm && st'.hist == st.hist && ReadersOf(st') == ReadersOf(st)
  {
    hide Survivors, Rearranged, FreshNumbers;
    SurvivorsFromInputs(st.pending.value, m, outs);
  }

  lemma KeptStays(v: Version, p: Pending, outs: seq<File>, v': Version, l: nat, g: File)
    requires Swapped(v, p, outs, v') && l < NUM_LEVELS && g in v[l] && !Input(p, l, g)
    ensures g in v'[l]
  {
  }

  /** A merge leaves every readable sequence number with the right answers if and only if it is closed: no live
      version of a key sinks below older ones its level keeps, and no live deletion is dropped above older versions the
      next level keeps. */
  lemma MergeIsCorrectExactlyIf(st: State, st': State, m: seq<Entry>, outs: seq<File>)
    requires Inv(st) && Install(st, st', m, outs)
    ensures GetsRight(st') <==> KeyClosed(st.v, st.pending.value, Live(All(st), ReadersOf(st)))
  {
    var p, live := st.pending.value, Live(All(st), ReadersOf(st));
    if KeyClosed(st.v, p, live) {
      hide Inv, Install, KeyClosed, GetsRight, Live;
      InstallKeepsInv(st, st', m, outs);
      GoodStateGetsRight(st');
    } else {
      hide Inv, Install, GetsRight, Live, Straddles, DropsDeletion;
      OpenMergeIsWrong(st, st', m, outs);
    }
  }

  lemma OpenMergeIsWrong(st: State, st': State, m: seq<Entry>, outs: seq<File>)
    requires Inv(st) && Install(st, st', m, outs)
    requires !KeyClosed(st.v, st.pending.value, Live(All(st), ReadersOf(st)))
    ensures !GetsRight(st')
  {
    hide HistoryInv, MemInv, VersionInv, Shape, PendingInv, SnapshotInv, Swapped, GetsRight, Live, Straddles,
      DropsDeletion, Survivors, Rearranged, FreshNumbers, FromInputs, All;
    var p, live := st.pending.value, Live(All(st), ReadersOf(st));
    if f, g, y :| f in p.in0 && g in st.v[p.level] && g !in p.in0 && Straddles(f, g, y) && y in live {
      PendingParts(st);
      InstallKeepsShape(st, st', m, outs);
      SinkingIsWrong(st, st', p, outs, f, g, y);
    } else {
      var f, g, y :| f in p.in1 && g in st.v[p.level + 1] && g !in p.in1 && Straddles(f, g, y) &&
          DropsDeletion(p, y) && y in live;
      DroppingIsWrong(st, st', m, outs, f, g, y);
    }
  }

  // ---- Moves ----

  /** A trivial move leaves every readable sequence number with the right answers if and only if the moved file holds no
      live version of a user key that another file of its level goes on with. */
  lemma MoveIsCorrectExactlyIf(st: State, st': State, level: nat, f: File)
    requires Inv(st) && Move(st, st', level, f)
    ensures GetsRight(st') <==>
            forall g, y :: g in st.v[level] && g != f && Straddles(f, g, y) ==> y !in Live(All(st), ReadersOf(st))
  {
    var p, live := MoveOf(st.v, level, f), Live(All(st), ReadersOf(st));
    assert level + 1 < NUM_LEVELS && f in st.v[level];
    MoveClosed(st.v, level, f, live);
    hide HistoryInv, MemInv, OlderWithDepth, Shape, PendingInv, SnapshotInv, GetsRight, Live, Straddles, ValidPick,
      Moved, KeyClosed, Swapped;
    if KeyClosed(st.v, p, live) {
      MoveKeepsInv(st, st', level, f);
      GoodStateGetsRight(st');
    } else {
      var g, y :| g in st.v[level] && g != f && Straddles(f, g, y) && y in live;
      MoveKeepsShape(st.v, st.nextFile, level, f, st'.v);
      SinkingIsWrong(st, st', p, [f], f, g, y);
    }
  }

  lemma MoveClosed(v: Version, level: nat, f: File, live: set<Entry>)
    requires level + 1 < NUM_LEVELS
    ensures KeyClosed(v, MoveOf(v, level, f), live) <==>
            forall g, y :: g in v[level] && g != f && Straddles(f, g, y) ==> y !in live
  {
    var p := MoveOf(v, level, f);
    assert f in p.in0 && p.in1 == [] && forall h :: h in p.in0 ==> h == f;
  }

  // ---- Runs ----

  lemma OpenEventIsWrong(st: State, st': State, ev: Event)
    requires Inv(st) && Step(st, st', ev) && !ClosedEvent(st, ev)
    ensures !GetsRight(st')
  {
    hide Inv, GetsRight, Live, KeyClosed;
    match ev
    case EvInstall(m, outs) =>
      MergeIsCorrectExactlyIf(st, st', m, outs);
    case EvMove(level, f) =>
      MoveClosed(st.v, level, f, Live(All(st), ReadersOf(st)));
      MoveIsCorrectExactlyIf(st, st', level, f);
    case _ =>
  }

  /** Whole runs, with any snapshots held: Get is right in every state up to the n-th if and only if every merge and
      move before it was closed. */
  lemma RunIsCorrectExactlyIf(sts: seq<State>, evs: seq<Event>, n: nat)
    requires Run(sts, evs) && n <= |evs|
    ensures (forall i :: 0 <= i <= n ==> GetsRight(sts[i])) <==>
            (forall i :: 0 <= i < n ==> ClosedEvent(sts[i], evs[i]))
  {
    hide Inv, Step, Init, GetsRight, ClosedEvent;
    if forall i :: 0 <= i < n ==> ClosedEvent(sts[i], evs[i]) {
      forall i | 0 <= i <= n ensures GetsRight(sts[i]) {
        ClosedRunsKeepInv(sts, evs, i);
        GoodStateGetsRight(sts[i]);
      }
    } else {
      var i :| 0 <= i < n && !ClosedEvent(sts[i], evs[i]);
      var j := FirstOpen(sts, evs, i);
      ClosedRunsKeepInv(sts, evs, j);
      OpenEventIsWrong(sts[j], sts[j + 1], evs[j]);
    }
  }

  lemma {:induction false} FirstOpen(sts: seq<State>, evs: seq<Event>, i: nat) returns (j: nat)
    requires |sts| == |evs| + 1 && i < |evs| && !ClosedEvent(sts[i], evs[i])
    ensures j <= i && !ClosedEvent(sts[j], evs[j]) && forall a :: 0 <= a < j ==> ClosedEvent(sts[a], evs[a])
  {
    hide ClosedEvent;
    if a :| 0 <= a < i && !ClosedEvent(sts[a], evs[a]) {
      j := FirstOpen(sts, evs, a);
    } else {
      j := i;
    }
  }

  // ---- Searches at any sequence number ----

  ghost predicate SearchCorrect(v: Version) {
    forall k, s, r :: SearchAnswer(v, k, s, r) ==> r == Find(VersionEntries(v), k, s)
  }

  // No other file of the level goes on with the key the file ends with.
  ghost predicate EndsItsKey(v: Version, level: nat, f: File)
    requires level < NUM_LEVELS
  {
    forall g :: g in v[level] && g != f ==> !Continues(f, g)
  }

  /** Counting sequence numbers nobody reads any more, a trivial move keeps searches correct if and only if the moved
      file ends its last user key. */
  lemma MoveKeepsSearchExactlyIf(v: Version, next: nat, level: nat, f: File, v': Version)
    requires VersionInv(v, next, VersionEntries(v)) && Versioned(VersionEntries(v))
    requires ValidPick(v, level, [f], []) && Moved(v, level, f, v')
    ensures SearchCorrect(v') <==> EndsItsKey(v, level, f)
  {
    var live := VersionEntries(v);
    assert level + 1 < NUM_LEVELS && f in v[level];
    MoveClosed(v, level, f, live);
    hide OlderWithDepth, LevelsSorted, UniqueNumbers, ValidPick, Moved, SearchCorrect, KeyClosed, Swapped, PendingInv;
    MoveKeepsShape(v, next, level, f, v');
    if EndsItsKey(v, level, f) {
      MoveKeepsVersion(v, next, level, f, v', live);
      StrongSearch(v', next);
    } else {
      var g :| g in v[level] && g != f && Continues(f, g);
      MoveBreaksSearch(v, next, level, f, v', g);
    }
  }

  lemma StrongSearch(v: Version, next: nat)
    requires VersionInv(v, next, VersionEntries(v)) && Versioned(VersionEntries(v))
    ensures SearchCorrect(v)
  {
    hide VersionInv;
    forall k, s, r | SearchAnswer(v, k, s, r) ensures r == Find(VersionEntries(v), k, s) {
      if Find(VersionEntries(v), k, s).Some? {
        FindSome(VersionEntries(v), k, s);
      }
      SearchIsFind(v, next, VersionEntries(v), k, s, r);
    }
  }

  /** The search stops at a file left behind, which holds an older version of the key. */
  lemma MoveBreaksSearch(v: Version, next: nat, level: nat, f: File, v': Version, g: File)
    requires EachOnce(v) && PendingInv(v, MoveOf(v, level, f)) && Swapped(v, MoveOf(v, level, f), [f], v')
    requires Shape(v', next) && Versioned(VersionEntries(v)) && VersionEntries(v') == VersionEntries(v)
    requires level + 1 < NUM_LEVELS && f in v[level] && g in v[level] && g != f && Continues(f, g)
    ensures !SearchCorrect(v')
  {
    var p, y := MoveOf(v, level, f), Largest(f);
    hide EachOnce, PendingInv, Swapped, Hit, SearchAnswer, LevelsSorted, UniqueNumbers;
    assert y in f.entries && y in VersionEntries(v);
    KeptStays(v, p, [f], v', level, g);
    ContinuesIsHit(f, g, y, y.sn);
    forall i, h | 0 <= i <= level && h in v'[i] ensures y !in h.entries {
      NotAboveOutputs(v, p, [f], v', f, y, i, h);
    }
    var e := WrongAnswer(v', next, y.key, y.sn, y, level, g);
    FindNewest(VersionEntries(v'), y.key, y.sn, y);
  }
}
