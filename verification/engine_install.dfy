/** Installing a compaction and moving a file keep the engine's invariant. */
module EngineInstall {
  import opened DbFormat
  import opened Files
  import opened Versions
  import opened Picking
  import opened CompactionLoop
  import opened Engine
  import opened EngineSteps

  // ---- The edit removes the inputs by number and adds the outputs ----

  ghost predicate Edited(v: Version, p: Pending, outs: seq<File>, v': Version) {
    && p.level + 1 < NUM_LEVELS
    && (forall l :: 0 <= l < NUM_LEVELS && l != p.level && l != p.level + 1 ==> v'[l] == v[l])
    && Rearranged(v[p.level], Numbers(p.in0), [], v'[p.level])
    && Rearranged(v[p.level + 1], Numbers(p.in1), outs, v'[p.level + 1])
  }

  lemma EditSwaps(v: Version, next: nat, p: Pending, outs: seq<File>, v': Version)
    requires UniqueNumbers(v, next)
    requires p.level + 1 < NUM_LEVELS && forall f :: f in p.in0 ==> f in v[p.level]
    requires forall f :: f in p.in1 ==> f in v[p.level + 1]
    requires Edited(v, p, outs, v')
    ensures Swapped(v, p, outs, v')
  {
    hide UniqueNumbers, Numbers, Smallest, Before;
    NumbersNameInputs(v, next, p.level, p.in0);
    NumbersNameInputs(v, next, p.level + 1, p.in1);
  }

  lemma NumbersNameInputs(v: Version, next: nat, l: nat, fs: seq<File>)
    requires UniqueNumbers(v, next) && l < NUM_LEVELS && forall f :: f in fs ==> f in v[l]
    ensures forall g :: g in v[l] ==> (g.number in Numbers(fs) <==> g in fs)
  {
  }

  lemma SwapKeepsNumbers(v: Version, next: nat, p: Pending, outs: seq<File>, v': Version, next': nat)
    requires UniqueNumbers(v, next) && Swapped(v, p, outs, v') && next <= next'
    requires forall o :: o in outs ==> o.number < next'
    requires forall o, o' :: o in outs && o' in outs && o.number == o'.number ==> o == o'
    requires forall o, l, g :: o in outs && 0 <= l < NUM_LEVELS && g in v[l] && !Input(p, l, g) ==> g.number != o.number
    ensures UniqueNumbers(v', next')
  {
    forall i, j, f, g | 0 <= i < NUM_LEVELS && 0 <= j < NUM_LEVELS && f in v'[i] && g in v'[j] && f.number == g.number
      ensures i == j && f == g
    {
      assert (f in v[i] && !Input(p, i, f)) || Output(p, i, outs, f);
      assert (g in v[j] && !Input(p, j, g)) || Output(p, j, outs, g);
    }
  }

  /** Whatever the compaction, levels stay sorted and every entry is stored once. */
  lemma SwapKeepsShape(v: Version, next: nat, p: Pending, outs: seq<File>, v': Version, next': nat)
    requires Shape(v, next) && PendingInv(v, p) && FromInputs(p, outs)
    requires Edited(v, p, outs, v') && UniqueNumbers(v', next')
    ensures Shape(v', next') && Swapped(v, p, outs, v')
  {
    hide PendingInv, FromInputs, Edited, UniqueNumbers, LevelsSorted, EachOnce, Swapped;
    InputsStored(v, p);
    EditSwaps(v, next, p, outs, v');
    SwapKeepsOnce(v, p, outs, v');
    SwapKeepsSorted(v, next, p, outs, v');
  }

  lemma EditDropsInputs(v: Version, next: nat, p: Pending, outs: seq<File>, v': Version)
    requires UniqueNumbers(v, next) && Edited(v, p, outs, v') && forall f :: f in p.in1 ==> f in v[p.level + 1]
    ensures forall f :: f in v'[p.level + 1] && f in p.in1 ==> f in outs
  {
  }

  lemma SwapKeepsSorted(v: Version, next: nat, p: Pending, outs: seq<File>, v': Version)
    requires LevelsSorted(v) && UniqueNumbers(v, next) && PendingInv(v, p) && FromInputs(p, outs)
    requires Edited(v, p, outs, v')
    ensures LevelsSorted(v')
  {
    hide PendingInv, FromInputs, UniqueNumbers, Rearranged, LevelSorted;
    InputsStored(v, p);
    EditDropsInputs(v, next, p, outs, v');
    forall l | 1 <= l < NUM_LEVELS ensures LevelSorted(v'[l]) {
      if l == p.level {
        SwapKeepsLevel0(v, p, v'[p.level], Numbers(p.in0));
      } else if l == p.level + 1 {
        SwapKeepsLevel1(v, p, outs, v'[p.level + 1], Numbers(p.in1));
      }
    }
  }

  // ---- Outputs are consecutive pieces of a sorted run ----

  lemma {:induction false} PiecesAscend(cs: seq<seq<Entry>>, i: nat, j: nat, x: Entry, y: Entry)
    requires Sorted(Flat(cs)) && i < j < |cs| && x in cs[i] && y in cs[j]
    ensures Before(x, y)
  {
    var rest := cs[..|cs| - 1];
    var all := Flat(cs);
    assert all == Flat(rest) + cs[|cs| - 1];
    assert Sorted(Flat(rest)) by {
      forall a, b | 0 <= a < b < |Flat(rest)| ensures Before(Flat(rest)[a], Flat(rest)[b]) {
        assert all[a] == Flat(rest)[a] && all[b] == Flat(rest)[b];
      }
    }
    if j < |rest| {
      PiecesAscend(rest, i, j, x, y);
    } else {
      FlatIn(rest, x);
      assert x in Flat(rest) by { assert x in rest[i]; }
      var a :| 0 <= a < |Flat(rest)| && Flat(rest)[a] == x;
      var b :| 0 <= b < |cs[j]| && cs[j][b] == y;
      assert all[a] == x && all[|Flat(rest)| + b] == y;
    }
  }

  lemma {:induction false} FlatIn(cs: seq<seq<Entry>>, e: Entry)
    ensures e in Flat(cs) <==> exists i :: 0 <= i < |cs| && e in cs[i]
  {
    if cs != [] {
      var rest := cs[..|cs| - 1];
      FlatIn(rest, e);
      if i :| 0 <= i < |cs| && e in cs[i] {
        assert i < |rest| ==> e in rest[i];
      }
      if e in Flat(rest) {
        var i :| 0 <= i < |rest| && e in rest[i];
        assert e in cs[i];
      }
    }
  }

  lemma OutputEntries(outs: seq<File>, r: seq<Entry>)
    requires Flat(Contents(outs)) == r
    ensures FileEntries(outs) == Elems(r)
  {
    var cs := Contents(outs);
    forall e ensures e in FileEntries(outs) <==> e in r {
      FlatIn(cs, e);
      if i :| 0 <= i < |cs| && e in cs[i] {
        assert outs[i] in outs && e in outs[i].entries;
      }
      if e in FileEntries(outs) {
        var f :| f in outs && e in f.entries;
        var i :| 0 <= i < |outs| && outs[i] == f;
        assert e in cs[i];
      }
    }
  }

  lemma OutputsApart(outs: seq<File>)
    requires Sorted(Flat(Contents(outs)))
    ensures forall o, o' :: o in outs && o' in outs && o != o' ==> Apart(o, o')
  {
    var cs := Contents(outs);
    forall o, o' | o in outs && o' in outs && o != o' ensures Apart(o, o') {
      var i :| 0 <= i < |outs| && outs[i] == o;
      var j :| 0 <= j < |outs| && outs[j] == o';
      assert Largest(o) in cs[i] && Smallest(o) in cs[i] && Largest(o') in cs[j] && Smallest(o') in cs[j];
      if i < j {
        PiecesAscend(cs, i, j, Largest(o), Smallest(o'));
      } else {
        PiecesAscend(cs, j, i, Largest(o'), Smallest(o));
      }
    }
  }

  lemma SurvivorsFromInputs(p: Pending, m: seq<Entry>, outs: seq<File>)
    requires p.level + 1 < NUM_LEVELS && Merged(m, p.in0 + p.in1)
    requires Flat(Contents(outs)) == Survivors(m, |m|, p.snap, p.base[p.level + 2..])
    ensures FromInputs(p, outs)
    ensures FileEntries(outs) == Elems(Survivors(m, |m|, p.snap, p.base[p.level + 2..]))
  {
    var r := Survivors(m, |m|, p.snap, p.base[p.level + 2..]);
    SurvivorsSorted(m, |m|, p.snap, p.base[p.level + 2..]);
    assert m[..|m|] == m;
    OutputsApart(outs);
    OutputEntries(outs, r);
    forall o, e | o in outs && e in o.entries ensures InSome(p.in0 + p.in1, e) {
      assert e in FileEntries(outs) && e in Elems(m);
    }
  }

  // ---- Reads ----

  lemma InSpan(all: seq<File>, e: Entry)
    requires e in FileEntries(all)
    ensures MinLo(all) <= e.key <= MaxHi(all)
  {
  }

  /** No file below the inputs' levels, old or flushed meanwhile, holds a key of the inputs at its base level. */
  lemma DeeperMisses(v: Version, p: Pending, k: UserKey, l: nat, g: File)
    requires PendingInv(v, p) && BaseLevel(p.base[p.level + 2..], k)
    requires MinLo(p.in0 + p.in1) <= k <= MaxHi(p.in0 + p.in1)
    requires p.level + 2 <= l < NUM_LEVELS && g in v[l]
    ensures !InRange(g, k)
  {
    hide Covers;
    var all := p.in0 + p.in1;
    var deeper := p.base[p.level + 2..];
    if g in p.base[l] {
      assert deeper[l - (p.level + 2)] == p.base[l];
    } else {
      assert !Overlaps(g, MinLo(all), MaxHi(all));
    }
  }

  lemma NextLevelMisses(v: Version, p: Pending, f: File, y: Entry, g: File)
    requires PendingInv(v, p) && f in p.in0 && y in f.entries && g in v[p.level + 1] && g !in p.in1
    ensures !InRange(g, y.key)
  {
    hide Covers;
    EntriesInRange(f);
  }

  lemma DeeperHoldsNone(v: Version, p: Pending, f: File, y: Entry, l: nat, g: File, e: Entry)
    requires PendingInv(v, p) && f in p.in0 + p.in1 && y in f.entries && DropsDeletion(p, y)
    requires p.level + 1 < l < NUM_LEVELS && g in v[l] && e in g.entries
    ensures e.key != y.key
  {
    hide PendingInv, BaseLevel, MinLo, MaxHi, Sorted;
    InputsStored(v, p);
    EntriesInRange(g);
    assert y in FileEntries(p.in0 + p.in1);
    InSpan(p.in0 + p.in1, y);
    DeeperMisses(v, p, y.key, l, g);
  }

  lemma NextLevelHoldsNewer(v: Version, p: Pending, live: set<Entry>, f: File, y: Entry, g: File, e: Entry)
    requires LevelsSorted(v) && PendingInv(v, p) && KeyClosed(v, p, live)
    requires f in p.in0 + p.in1 && y in f.entries && y in live && DropsDeletion(p, y)
    requires g in v[p.level + 1] && g !in p.in1 && e in g.entries && e.key == y.key
    ensures e.sn > y.sn
  {
    hide PendingInv, LevelSorted, KeyClosed, Straddles, DropsDeletion;
    InputsStored(v, p);
    if f in p.in0 {
      EntriesInRange(g);
      NextLevelMisses(v, p, f, y, g);
    } else if e.sn <= y.sn {
      LeftBehindContinues(v[p.level + 1], f, g, e, y);
      ClosedDrops(v, p, live, f, g, y);
    }
  }

  /** Behind a live deletion that a closed compaction drops, nothing older is left. */
  lemma KeptIsNewer(v: Version, p: Pending, live: set<Entry>, f: File, y: Entry, l: nat, g: File, e: Entry)
    requires LevelsSorted(v) && OlderWithDepth(v, live) && PendingInv(v, p) && KeyClosed(v, p, live)
    requires f in p.in0 + p.in1 && y in f.entries && y in live && DropsDeletion(p, y)
    requires l < NUM_LEVELS && g in v[l] && !Input(p, l, g) && e in g.entries && e.key == y.key
    ensures e.sn > y.sn
  {
    hide PendingInv, OlderWithDepth, LevelsSorted, KeyClosed, DropsDeletion;
    InputsStored(v, p);
    if l <= p.level {
      AboveInput(v, p, l, g, f, live);
    } else if l == p.level + 1 {
      NextLevelHoldsNewer(v, p, live, f, y, g, e);
    } else {
      DeeperHoldsNone(v, p, f, y, l, g, e);
    }
  }

  lemma ClosedDrops(v: Version, p: Pending, live: set<Entry>, f: File, g: File, y: Entry)
    requires p.level + 1 < NUM_LEVELS && KeyClosed(v, p, live)
    requires f in p.in1 && g in v[p.level + 1] && g !in p.in1 && Straddles(f, g, y) && DropsDeletion(p, y)
    ensures y !in live
  {
  }

  /** The whole database before and after, as compaction inputs or outputs plus everything left alone. */
  lemma InstallSplits(st: State, st': State, m: seq<Entry>, outs: seq<File>, rest: set<Entry>)
    requires Install(st, st', m, outs) && PendingInv(st.v, st.pending.value)
    requires Swapped(st.v, st.pending.value, outs, st'.v)
    requires rest == Elems(st.mem) + ImmElems(st.imm) + KeptEntries(st.v, st.pending.value)
    ensures All(st) == Elems(m) + rest
    ensures var p := st.pending.value; All(st') == Elems(Survivors(m, |m|, p.snap, p.base[p.level + 2..])) + rest
  {
    hide PendingInv, Swapped, Survivors, Rearranged, FreshNumbers;
    SurvivorsFromInputs(st.pending.value, m, outs);
    SwapEntries(st.v, st.pending.value, outs, st'.v);
  }

  lemma RestHidesNothing(mem: seq<Entry>, imm: Option<seq<Entry>>, v: Version, p: Pending, live: set<Entry>, y: Entry,
                         e: Entry)
    requires MemInv(mem, imm, VersionEntries(v)) && LevelsSorted(v) && OlderWithDepth(v, live)
    requires PendingInv(v, p) && KeyClosed(v, p, live)
    requires y in FileEntries(p.in0 + p.in1) && y in live && DropsDeletion(p, y)
    requires e in Elems(mem) + ImmElems(imm) + KeptEntries(v, p) && e.key == y.key
    ensures e.sn > y.sn
  {
    InputIsStored(v, p, y);
    hide PendingInv, OlderWithDepth, KeyClosed, DropsDeletion, LevelsSorted;
    if e in KeptEntries(v, p) {
      var f :| f in p.in0 + p.in1 && y in f.entries;
      var l, g :| 0 <= l < NUM_LEVELS && g in v[l] && !Input(p, l, g) && e in g.entries;
      KeptIsNewer(v, p, live, f, y, l, g, e);
    }
  }

  lemma InputIsStored(v: Version, p: Pending, x: Entry)
    requires PendingInv(v, p) && x in FileEntries(p.in0 + p.in1)
    ensures x in VersionEntries(v)
  {
    InputsStored(v, p);
    hide PendingInv;
  }

  /** Installing a closed compaction changes no answer a reader can still get. */
  lemma InstallKeepsReads(st: State, st': State, m: seq<Entry>, outs: seq<File>)
    requires Inv(st) && Install(st, st', m, outs) && Swapped(st.v, st.pending.value, outs, st'.v)
    requires KeyClosed(st.v, st.pending.value, Live(All(st), ReadersOf(st)))
    ensures All(st') <= All(st)
    ensures Faithful(All(st'), All(st), ReadersOf(st))
  {
    hide PendingInv, Matches, MemInv, Survivors, Rearranged, FreshNumbers, LevelsSorted, OlderWithDepth, All,
      KeyClosed, Live;
    var p := st.pending.value;
    var deeper := p.base[p.level + 2..];
    var rest := Elems(st.mem) + ImmElems(st.imm) + KeptEntries(st.v, p);
    InstallSplits(st, st', m, outs, rest);
    SurvivorsSorted(m, |m|, p.snap, deeper);
    assert m[..|m|] == m;
    forall k, s | Readable(ReadersOf(st), s) ensures Matches(Find(All(st'), k, s), Find(All(st), k, s)) {
      forall i, e | 0 <= i < |m| && Newest(All(st), k, s, m[i]) && Obsolete(m, i, p.snap, deeper) && e in rest
        ensures !Visible(e, k, s)
      {
        DroppedHidesNothing(st, m, rest, k, s, i, e);
      }
      DropPreservesReads(m, p.snap, deeper, rest, k, s);
    }
  }

  lemma DroppedHidesNothing(st: State, m: seq<Entry>, rest: set<Entry>, k: UserKey, s: nat, i: nat, e: Entry)
    requires Inv(st) && st.pending.Some?
    requires KeyClosed(st.v, st.pending.value, Live(All(st), ReadersOf(st)))
    requires var p := st.pending.value;
             && Merged(m, p.in0 + p.in1) && i < |m|
             && Obsolete(m, i, p.snap, p.base[p.level + 2..])
             && rest == Elems(st.mem) + ImmElems(st.imm) + KeptEntries(st.v, p)
    requires Readable(ReadersOf(st), s) && Newest(All(st), k, s, m[i])
    requires e in rest && rest <= All(st)
    ensures !Visible(e, k, s)
  {
    hide PendingInv, HistoryInv, LevelsSorted, OlderWithDepth, All, KeyClosed, SnapshotInv;
    var p := st.pending.value;
    assert Seen(All(st), ReadersOf(st), m[i]);
    if e.key == m[i].key {
      assert m[i] in FileEntries(p.in0 + p.in1);
      RestHidesNothing(st.mem, st.imm, st.v, p, Live(All(st), ReadersOf(st)), m[i], e);
    }
  }

  lemma LiveAfterDrop(es: set<Entry>, es': set<Entry>, rs: Readers)
    requires es' <= es && Versioned(es) && Faithful(es', es, rs)
    ensures forall y :: y in Live(es', rs) ==> y in Live(es, rs)
  {
    forall y | y in Live(es', rs) ensures y in Live(es, rs) {
      var s :| Readable(rs, s) && Newest(es', y.key, s, y);
      FindNewest(es', y.key, s, y);
      assert Matches(Find(es', y.key, s), Find(es, y.key, s));
      FindSome(es, y.key, s);
    }
  }

  lemma OutputsDiffer(outs: seq<File>)
    requires forall i, j :: 0 <= i < j < |outs| ==> outs[i].number != outs[j].number
    ensures forall o, o' :: o in outs && o' in outs && o.number == o'.number ==> o == o'
  {
  }

  lemma InstallEdits(st: State, st': State, m: seq<Entry>, outs: seq<File>)
    requires Install(st, st', m, outs)
    ensures Edited(st.v, st.pending.value, outs, st'.v)
  {
  }

  lemma InstallKeepsNumbers(v: Version, next: nat, p: Pending, outs: seq<File>, v': Version, next': nat)
    requires UniqueNumbers(v, next) && PendingInv(v, p) && Edited(v, p, outs, v') && FreshNumbers(v, next, outs, next')
    ensures UniqueNumbers(v', next')
  {
    EditSwaps(v, next, p, outs, v');
    OutputsDiffer(outs);
    SwapKeepsNumbers(v, next, p, outs, v', next');
  }

  /** What an install keeps whether or not the compaction is closed. */
  lemma InstallKeepsShape(st: State, st': State, m: seq<Entry>, outs: seq<File>)
    requires Install(st, st', m, outs) && Shape(st.v, st.nextFile) && PendingInv(st.v, st.pending.value)
    ensures Shape(st'.v, st'.nextFile) && Swapped(st.v, st.pending.value, outs, st'.v)
    ensures FromInputs(st.pending.value, outs)
  {
    hide Survivors, PendingInv, FreshNumbers, Rearranged, Edited, UniqueNumbers, LevelsSorted, EachOnce, Swapped,
      FromInputs, Merged;
    InstallEdits(st, st', m, outs);
    InstallKeepsNumbers(st.v, st.nextFile, st.pending.value, outs, st'.v, st'.nextFile);
    SurvivorsFromInputs(st.pending.value, m, outs);
    SwapKeepsShape(st.v, st.nextFile, st.pending.value, outs, st'.v, st'.nextFile);
  }

  lemma FaithfulChains(all': set<Entry>, all: set<Entry>, hist: set<Entry>, rs: Readers)
    requires Faithful(all', all, rs) && Faithful(all, hist, rs)
    ensures Faithful(all', hist, rs)
  {
    forall k, s | Readable(rs, s) ensures Matches(Find(all', k, s), Find(hist, k, s)) {
      assert Matches(Find(all', k, s), Find(all, k, s)) && Matches(Find(all, k, s), Find(hist, k, s));
    }
  }

  lemma InstallKeepsDepth(st: State, st': State, outs: seq<File>)
    requires Inv(st) && st.pending.Some? && KeyClosed(st.v, st.pending.value, Live(All(st), ReadersOf(st)))
    requires FromInputs(st.pending.value, outs) && Swapped(st.v, st.pending.value, outs, st'.v)
    requires All(st') <= All(st) && Faithful(All(st'), All(st), ReadersOf(st))
    ensures OlderWithDepth(st'.v, Live(All(st'), ReadersOf(st)))
  {
    hide PendingInv, MemInv, LevelsSorted, OlderWithDepth, All, KeyClosed, SnapshotInv, FromInputs, Swapped, Faithful,
      Live;
    var live, live' := Live(All(st), ReadersOf(st)), Live(All(st'), ReadersOf(st));
    SwapKeepsDepth(st.v, st.pending.value, outs, st'.v, live);
    LiveAfterDrop(All(st), All(st'), ReadersOf(st));
    DepthWeakens(st'.v, live, live');
  }

  lemma InstallKeepsInv(st: State, st': State, m: seq<Entry>, outs: seq<File>)
    requires Inv(st) && Install(st, st', m, outs)
    requires KeyClosed(st.v, st.pending.value, Live(All(st), ReadersOf(st)))
    ensures Inv(st')
  {
    hide Shape, OlderWithDepth, Survivors, PendingInv, Rearranged, FreshNumbers, Swapped, KeyClosed, Live, Faithful,
      FromInputs;
    InstallKeepsShape(st, st', m, outs);
    InstallKeepsReads(st, st', m, outs);
    InstallKeepsDepth(st, st', outs);
    InstallShrinks(st, st', m, outs);
    FaithfulChains(All(st'), All(st), st.hist, ReadersOf(st));
  }

  lemma InstallShrinks(st: State, st': State, m: seq<Entry>, outs: seq<File>)
    requires Install(st, st', m, outs) && PendingInv(st.v, st.pending.value)
    requires Swapped(st.v, st.pending.value, outs, st'.v)
    ensures VersionEntries(st'.v) <= VersionEntries(st.v)
  {
    hide PendingInv, Swapped, Survivors, Rearranged, FreshNumbers;
    var p := st.pending.value;
    SurvivorsFromInputs(p, m, outs);
    SwapEntries(st.v, p, outs, st'.v);
    forall e | e in FileEntries(outs) ensures e in FileEntries(p.in0 + p.in1) {
      var o :| o in outs && e in o.entries;
      assert InSome(p.in0 + p.in1, e);
    }
  }

  // ---- A trivial move is a swap of a file for itself ----

  lemma MoveEdits(v: Version, level: nat, f: File, v': Version)
    requires Moved(v, level, f, v')
    ensures Edited(v, MoveOf(v, level, f), [f], v')
  {
  }

  lemma MoveSwaps(v: Version, next: nat, level: nat, f: File, v': Version)
    requires UniqueNumbers(v, next) && level + 1 < NUM_LEVELS && f in v[level] &&
             Edited(v, MoveOf(v, level, f), [f], v')
    ensures Swapped(v, MoveOf(v, level, f), [f], v') && UniqueNumbers(v', next)
  {
    var p := MoveOf(v, level, f);
    EditSwaps(v, next, p, [f], v');
    SwapKeepsNumbers(v, next, p, [f], v', next);
  }

  lemma MoveFromInputs(v: Version, level: nat, f: File)
    ensures var p := MoveOf(v, level, f); FromInputs(p, [f]) && FileEntries(p.in0 + p.in1) == FileEntries([f])
  {
  }

  /** What a trivial move keeps whether or not it is closed. */
  lemma MoveKeepsShape(v: Version, next: nat, level: nat, f: File, v': Version)
    requires Shape(v, next) && ValidPick(v, level, [f], []) && Moved(v, level, f, v')
    ensures PendingInv(v, MoveOf(v, level, f)) && Swapped(v, MoveOf(v, level, f), [f], v')
    ensures Shape(v', next) && VersionEntries(v') == VersionEntries(v)
  {
    var p := MoveOf(v, level, f);
    assert level + 1 < NUM_LEVELS && f in v[level];
    PickEstablishes(v, p);
    hide LevelsSorted, UniqueNumbers, EachOnce, PendingInv, ValidPick, Moved, Edited, FromInputs, Swapped;
    MoveFromInputs(v, level, f);
    MoveEdits(v, level, f, v');
    MoveSwaps(v, next, level, f, v');
    SwapEntries(v, p, [f], v');
    SwapKeepsShape(v, next, p, [f], v', next);
  }

  lemma MoveKeepsVersion(v: Version, next: nat, level: nat, f: File, v': Version, live: set<Entry>)
    requires VersionInv(v, next, live) && ValidPick(v, level, [f], []) && Moved(v, level, f, v')
    requires KeyClosed(v, MoveOf(v, level, f), live)
    ensures VersionInv(v', next, live) && VersionEntries(v') == VersionEntries(v)
  {
    hide LevelsSorted, UniqueNumbers, EachOnce, OlderWithDepth, PendingInv, KeyClosed, ValidPick, Moved, FromInputs,
      Swapped;
    MoveKeepsShape(v, next, level, f, v');
    MoveFromInputs(v, level, f);
    SwapKeepsDepth(v, MoveOf(v, level, f), [f], v', live);
  }

  lemma MoveKeepsInv(st: State, st': State, level: nat, f: File)
    requires Inv(st) && Move(st, st', level, f) && KeyClosed(st.v, MoveOf(st.v, level, f), Live(All(st), ReadersOf(st)))
    ensures Inv(st')
  {
    hide VersionInv, KeyClosed, ValidPick, Live, HistoryInv, PendingInv, Moved;
    MoveKeepsVersion(st.v, st.nextFile, level, f, st'.v, Live(All(st), ReadersOf(st)));
    assert All(st') == All(st);
  }
}
