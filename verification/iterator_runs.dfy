/** Iterators over the whole database: the merge of memtables and tables, and exactly when it lists the history. */
module IteratorRuns {
  import opened DbFormat
  import opened Files
  import opened Versions
  import opened Picking
  import opened CompactionLoop
  import opened Engine
  import opened EngineSteps
  import opened EngineInstall
  import opened EngineRuns
  import opened Cursors
  import M = Merger
  import I = DbIterator

  // ---- The children of an iterator ----

  function LevelRuns(v: Version): seq<seq<Entry>> {
    seq(NUM_LEVELS - 1, i requires 0 <= i < NUM_LEVELS - 1 => Flat(Contents(v[i + 1])))
  }

  /** NewInternalIterator: the memtables, every table of level 0, and one concatenation for each deeper level. */
  function Children(st: State): seq<seq<Entry>> {
    MemRuns(st.mem, st.imm) + (Contents(st.v[0]) + LevelRuns(st.v))
  }

  function MemRuns(mem: seq<Entry>, imm: Option<seq<Entry>>): seq<seq<Entry>> {
    if imm.Some? then [mem, imm.value] else [mem]
  }

  lemma {:induction false} LevelRunSorted(fs: seq<File>)
    requires LevelSorted(fs)
    ensures Sorted(Flat(Contents(fs)))
  {
    var cs := Contents(fs);
    if fs != [] {
      var init, f := fs[..|fs| - 1], fs[|fs| - 1];
      LevelRunSorted(init);
      assert cs[..|cs| - 1] == Contents(init) && cs[|cs| - 1] == f.entries;
      var r := Flat(Contents(init));
      assert Flat(cs) == r + f.entries;
      forall a | 0 <= a < |r| ensures Before(r[a], Smallest(f)) {
        RunMember(init, r[a]);
        var i :| 0 <= i < |init| && r[a] in init[i].entries;
        assert fs[i] == init[i];
        InsideFile(fs[i], r[a]);
      }
      RunJoin(r, f.entries);
    }
  }

  lemma RunJoin(a: seq<Entry>, b: seq<Entry>)
    requires Sorted(a) && Sorted(b) && b != [] && forall i :: 0 <= i < |a| ==> Before(a[i], b[0])
    ensures Sorted(a + b)
  {
    forall i, j | 0 <= i < j < |a + b| ensures Before((a + b)[i], (a + b)[j]) {
      if i < |a| <= j { assert Before(a[i], b[0]); }
    }
  }

  lemma RunMember(fs: seq<File>, e: Entry)
    ensures e in Flat(Contents(fs)) <==> exists i :: 0 <= i < |fs| && e in fs[i].entries
    ensures e in Flat(Contents(fs)) <==> e in FileEntries(fs)
  {
    var cs := Contents(fs);
    FlatIn(cs, e);
    if i :| 0 <= i < |cs| && e in cs[i] { assert e in fs[i].entries && fs[i] in fs; }
    if i :| 0 <= i < |fs| && e in fs[i].entries { assert e in cs[i]; }
  }

  // No entry in two of the lists.
  ghost predicate Separate(lists: seq<seq<Entry>>) {
    forall i, j, e :: 0 <= i < j < |lists| && e in lists[i] ==> e !in lists[j]
  }

  lemma SeparateJoin(a: seq<seq<Entry>>, b: seq<seq<Entry>>)
    requires Separate(a) && Separate(b) && forall e :: M.Member(a, e) ==> !M.Member(b, e)
    ensures Separate(a + b)
  {
    forall i, j, e | 0 <= i < j < |a + b| && e in (a + b)[i] ensures e !in (a + b)[j] {
      if i < |a| <= j {
        assert M.Member(a, e) && !M.Member(b, e);
        assert (a + b)[j] == b[j - |a|];
      } else if i >= |a| {
        assert (a + b)[i] == b[i - |a|] && (a + b)[j] == b[j - |a|];
      }
    }
  }

  lemma MemberJoin(a: seq<seq<Entry>>, b: seq<seq<Entry>>, e: Entry)
    ensures M.Member(a + b, e) <==> M.Member(a, e) || M.Member(b, e)
  {
    if i :| 0 <= i < |a| && e in a[i] { assert e in (a + b)[i]; }
    if i :| 0 <= i < |b| && e in b[i] { assert e in (a + b)[|a| + i]; }
    if i :| 0 <= i < |a + b| && e in (a + b)[i] { assert if i < |a| then e in a[i] else e in b[i - |a|]; }
  }

  lemma SortedJoin(a: seq<seq<Entry>>, b: seq<seq<Entry>>)
    requires M.AllSorted(a) && M.AllSorted(b)
    ensures M.AllSorted(a + b)
  {
  }

  // No table is listed twice.
  ghost predicate Listed(v: Version) {
    forall i, j :: 0 <= i < j < |v[0]| ==> v[0][i] != v[0][j]
  }

  lemma ZeroRuns(v: Version, next: nat)
    requires Shape(v, next) && Listed(v)
    ensures M.AllSorted(Contents(v[0])) && Separate(Contents(v[0]))
    ensures forall e :: M.Member(Contents(v[0]), e) <==> e in FileEntries(v[0])
  {
    var cs := Contents(v[0]);
    forall i, j, e | 0 <= i < j < |cs| && e in cs[i] ensures e !in cs[j] {
      assert Disjoint(v[0][i], v[0][j]);
    }
    forall e ensures M.Member(cs, e) <==> e in FileEntries(v[0]) {
      if f :| f in v[0] && e in f.entries {
        var i :| 0 <= i < |v[0]| && v[0][i] == f;
        assert e in cs[i];
      }
    }
  }

  ghost predicate Deeper(v: Version, e: Entry) {
    exists l, f :: 1 <= l < NUM_LEVELS && f in v[l] && e in f.entries
  }

  lemma DeepSorted(v: Version, next: nat)
    requires Shape(v, next)
    ensures M.AllSorted(LevelRuns(v))
  {
    hide Flat, Contents, Sorted, UniqueNumbers, EachOnce;
    var rs := LevelRuns(v);
    forall i | 0 <= i < |rs| ensures Sorted(rs[i]) { LevelRunSorted(v[i + 1]); }
  }

  lemma DeepSeparate(v: Version, next: nat)
    requires Shape(v, next)
    ensures Separate(LevelRuns(v))
  {
    hide Flat, Contents, Shape;
    var rs := LevelRuns(v);
    forall i, j, e | 0 <= i < j < |rs| && e in rs[i] ensures e !in rs[j] {
      RunMember(v[i + 1], e);
      RunMember(v[j + 1], e);
      var f :| f in v[i + 1] && e in f.entries;
      forall g | g in v[j + 1] ensures e !in g.entries { ApartLevels(v, next, i + 1, f, j + 1, g); }
    }
  }

  lemma DeepMembers(v: Version, e: Entry)
    ensures M.Member(LevelRuns(v), e) <==> Deeper(v, e)
  {
    hide Flat, Contents;
    var rs := LevelRuns(v);
    if i :| 0 <= i < |rs| && e in rs[i] {
      RunMember(v[i + 1], e);
      var f :| f in v[i + 1] && e in f.entries;
      assert 1 <= i + 1 < NUM_LEVELS && f in v[i + 1];
    }
    if l, f :| 1 <= l < NUM_LEVELS && f in v[l] && e in f.entries {
      RunMember(v[l], e);
      assert e in FileEntries(v[l]) && rs[l - 1] == Flat(Contents(v[l]));
    }
  }

  lemma ApartLevels(v: Version, next: nat, i: nat, f: File, j: nat, g: File)
    requires Shape(v, next) && i < NUM_LEVELS && j < NUM_LEVELS && i != j && f in v[i] && g in v[j]
    ensures Disjoint(f, g)
  {
  }

  lemma FileRuns(v: Version, next: nat)
    requires Shape(v, next) && Listed(v)
    ensures var fs := Contents(v[0]) + LevelRuns(v);
            M.AllSorted(fs) && Separate(fs) && forall e :: M.Member(fs, e) <==> e in VersionEntries(v)
  {
    hide LevelRuns, Contents, M.Member, M.AllSorted, Separate, Listed, Shape, Deeper;
    var zero, deep := Contents(v[0]), LevelRuns(v);
    ZeroRuns(v, next);
    DeepSorted(v, next);
    DeepSeparate(v, next);
    SortedJoin(zero, deep);
    forall e | M.Member(zero, e) ensures !M.Member(deep, e) {
      DeepMembers(v, e);
      ZeroIsNotDeep(v, next, e);
    }
    SeparateJoin(zero, deep);
    forall e ensures M.Member(zero + deep, e) <==> e in VersionEntries(v) {
      MemberJoin(zero, deep, e);
      DeepMembers(v, e);
      ZeroOrDeeper(v, e);
    }
  }

  lemma ZeroIsNotDeep(v: Version, next: nat, e: Entry)
    requires Shape(v, next) && e in FileEntries(v[0])
    ensures !Deeper(v, e)
  {
    var f :| f in v[0] && e in f.entries;
    forall l, g | 1 <= l < NUM_LEVELS && g in v[l] ensures e !in g.entries { ApartLevels(v, next, 0, f, l, g); }
  }

  lemma ZeroOrDeeper(v: Version, e: Entry)
    ensures e in VersionEntries(v) <==> e in FileEntries(v[0]) || Deeper(v, e)
  {
    if e in VersionEntries(v) {
      var l, f :| 0 <= l < NUM_LEVELS && f in v[l] && e in f.entries;
    }
  }

  lemma MemRunsParts(mem: seq<Entry>, imm: Option<seq<Entry>>, files: set<Entry>)
    requires MemInv(mem, imm, files)
    ensures M.AllSorted(MemRuns(mem, imm)) && Separate(MemRuns(mem, imm))
    ensures forall e :: M.Member(MemRuns(mem, imm), e) <==> e in Elems(mem) + ImmElems(imm)
    ensures forall e :: M.Member(MemRuns(mem, imm), e) ==> e !in files
  {
    var rs := MemRuns(mem, imm);
    forall e ensures M.Member(rs, e) <==> e in Elems(mem) + ImmElems(imm) {
      if e in mem { assert e in rs[0]; }
      if imm.Some? && e in imm.value { assert e in rs[1]; }
    }
    if imm.Some? {
      assert forall e :: e in mem ==> e in Elems(mem);
      assert forall e :: e in imm.value ==> e in ImmElems(imm) + files;
    }
  }

  /** The children are sorted, share no entry, and hold the whole database together. */
  lemma ChildrenHoldAll(st: State)
    requires Shape(st.v, st.nextFile) && Listed(st.v) && MemInv(st.mem, st.imm, VersionEntries(st.v))
    requires Versioned(All(st))
    ensures M.AllSorted(Children(st)) && M.Distinct(Children(st))
    ensures forall e :: M.Member(Children(st), e) <==> e in All(st)
  {
    hide LevelRuns, Contents, M.Member, M.AllSorted, M.Distinct, Separate, Listed, Shape, MemInv, MemRuns;
    var mems, files := MemRuns(st.mem, st.imm), Contents(st.v[0]) + LevelRuns(st.v);
    FileRuns(st.v, st.nextFile);
    MemRunsParts(st.mem, st.imm, VersionEntries(st.v));
    SortedJoin(mems, files);
    SeparateJoin(mems, files);
    forall e ensures M.Member(Children(st), e) <==> e in All(st) { MemberJoin(mems, files, e); }
    SeparateIsDistinct(Children(st), All(st));
  }

  lemma SeparateIsDistinct(lists: seq<seq<Entry>>, es: set<Entry>)
    requires Separate(lists) && Versioned(es) && forall e :: M.Member(lists, e) ==> e in es
    ensures M.Distinct(lists)
  {
    forall i, j, a, b | 0 <= i < |lists| && 0 <= j < |lists| && i != j && a in lists[i] && b in lists[j]
      ensures Before(a, b) || Before(b, a)
    {
      assert M.Member(lists, a) && M.Member(lists, b);
      assert a != b;
    }
  }

  // ---- The merging iterator is a cursor over the sorted union ----

  ghost predicate SortedUnion(lists: seq<seq<Entry>>, items: seq<Entry>) {
    Sorted(items) && forall e :: e in items <==> M.Member(lists, e)
  }

  lemma FirstInUnion(lists: seq<seq<Entry>>, items: seq<Entry>, m: Entry)
    requires SortedUnion(lists, items)
    ensures M.LeastAbove(lists, M.Bottom, m) <==> items != [] && m == items[0]
    ensures M.NoneAbove(lists, M.Bottom) <==> items == []
  {
    if items != [] { assert items[0] in items; }
  }

  lemma LastInUnion(lists: seq<seq<Entry>>, items: seq<Entry>, m: Entry)
    requires SortedUnion(lists, items)
    ensures M.GreatestBelow(lists, M.Top, m) <==> items != [] && m == items[|items| - 1]
    ensures M.NoneBelow(lists, M.Top) <==> items == []
  {
    if items != [] { assert items[|items| - 1] in items; }
  }

  lemma NextInUnion(lists: seq<seq<Entry>>, items: seq<Entry>, i: nat, m: Entry)
    requires SortedUnion(lists, items) && i < |items|
    ensures M.LeastAbove(lists, M.JustAfter(items[i]), m) <==> i + 1 < |items| && m == items[i + 1]
    ensures M.NoneAbove(lists, M.JustAfter(items[i])) <==> i + 1 == |items|
  {
    var c := M.JustAfter(items[i]);
    assert forall j :: 0 <= j < |items| ==> (M.Above(items[j], c) <==> i < j);
    if i + 1 < |items| { assert items[i + 1] in items; }
  }

  lemma PrevInUnion(lists: seq<seq<Entry>>, items: seq<Entry>, i: nat, m: Entry)
    requires SortedUnion(lists, items) && i < |items|
    ensures M.GreatestBelow(lists, M.JustAt(items[i]), m) <==> i > 0 && m == items[i - 1]
    ensures M.NoneBelow(lists, M.JustAt(items[i])) <==> i == 0
  {
    var c := M.JustAt(items[i]);
    assert forall j :: 0 <= j < |items| ==> (M.Above(items[j], c) <==> i <= j);
    if i > 0 { assert items[i - 1] in items; }
  }

  lemma SeekInUnion(lists: seq<seq<Entry>>, items: seq<Entry>, k: UserKey, s: nat, pos: int, m: Entry)
    requires SortedUnion(lists, items) && SeekPoint(items, k, s, pos)
    ensures M.LeastAbove(lists, M.From(k, s), m) <==> pos != NOWHERE && m == items[pos]
    ensures M.NoneAbove(lists, M.From(k, s)) <==> pos == NOWHERE
  {
    var c := M.From(k, s);
    assert forall j :: 0 <= j < |items| ==> (M.Above(items[j], c) <==> AtOrAfter(items[j], k, s));
    if pos != NOWHERE { assert items[pos] in items; }
  }

  lemma {:induction false} Arrange(es: set<Entry>) returns (items: seq<Entry>)
    requires Versioned(es)
    ensures Sorted(items) && Elems(items) == es
    decreases es
  {
    if es == {} {
      items := [];
    } else {
      var e :| e in es;
      var rest := Arrange(es - {e});
      items := Insert(rest, e);
      assert es == (es - {e}) + {e};
    }
  }

  lemma {:induction false} Insert(r: seq<Entry>, e: Entry) returns (r': seq<Entry>)
    requires Sorted(r) && forall d :: d in r ==> d.sn != e.sn
    ensures Sorted(r') && Elems(r') == Elems(r) + {e}
  {
    if r == [] {
      r' := [e];
    } else if Before(e, r[0]) {
      r' := [e] + r;
    } else {
      var tail := Insert(r[1..], e);
      assert r == [r[0]] + r[1..];
      assert Before(r[0], e);
      forall d | d in tail ensures Before(r[0], d) {
        assert d in Elems(tail);
        assert d != e ==> d in r[1..];
      }
      r' := [r[0]] + tail;
      assert Elems(r') == {r[0]} + Elems(tail);
    }
  }

  // ---- What an iterator shows ----

  ghost predicate Shows(items: seq<Entry>, s: nat, k: UserKey, v: Value) {
    exists i :: I.Shown(items, s, i) && items[i].key == k && items[i].op.value == v
  }

  lemma ShowsIsRead(items: seq<Entry>, s: nat, k: UserKey, v: Value)
    requires Sorted(items)
    ensures Shows(items, s, k, v) <==> Read(Elems(items), k, s) == Some(v)
  {
    if i :| I.Shown(items, s, i) && items[i].key == k && items[i].op.value == v {
      I.ShownIsRead(items, s, i);
    }
    if Read(Elems(items), k, s) == Some(v) {
      var i := I.ReadIsShown(items, s, k);
      I.ShownIsRead(items, s, i);
    }
  }

  /** At every readable sequence number an iterator over the database shows exactly the history's keys and values. */
  ghost predicate ListsHistory(st: State) {
    forall items, s, k, v :: SortedUnion(Children(st), items) && Readable(ReadersOf(st), s) ==>
      (Shows(items, s, k, v) <==> Read(st.hist, k, s) == Some(v))
  }

  ghost predicate ReadsHistory(all: set<Entry>, hist: set<Entry>, rs: Readers) {
    forall k, s :: Readable(rs, s) ==> Read(all, k, s) == Read(hist, k, s)
  }

  lemma ListingIsReading(st: State)
    requires Shape(st.v, st.nextFile) && Listed(st.v) && MemInv(st.mem, st.imm, VersionEntries(st.v))
    requires Versioned(All(st))
    ensures ListsHistory(st) <==> ReadsHistory(All(st), st.hist, ReadersOf(st))
  {
    hide Children, Shape, MemInv, All, Read, Shows, SortedUnion, Listed;
    ChildrenHoldAll(st);
    var all := Arrange(All(st));
    UnionIs(Children(st), all, All(st));
    if ReadsHistory(All(st), st.hist, ReadersOf(st)) {
      forall items, s, k, v | SortedUnion(Children(st), items) && Readable(ReadersOf(st), s)
        ensures Shows(items, s, k, v) <==> Read(st.hist, k, s) == Some(v)
      {
        UnionElems(Children(st), items, All(st));
        ShowsIsRead(items, s, k, v);
      }
    }
    if ListsHistory(st) {
      forall k, s | Readable(ReadersOf(st), s) ensures Read(All(st), k, s) == Read(st.hist, k, s) {
        SameReads(st, all, k, s);
      }
    }
  }

  lemma UnionIs(lists: seq<seq<Entry>>, items: seq<Entry>, es: set<Entry>)
    requires Sorted(items) && Elems(items) == es && forall e :: M.Member(lists, e) <==> e in es
    ensures SortedUnion(lists, items)
  {
    assert forall e :: e in items <==> e in Elems(items);
  }

  lemma UnionElems(lists: seq<seq<Entry>>, items: seq<Entry>, es: set<Entry>)
    requires SortedUnion(lists, items) && forall e :: M.Member(lists, e) <==> e in es
    ensures Sorted(items) && Elems(items) == es
  {
  }

  lemma SameReads(st: State, items: seq<Entry>, k: UserKey, s: nat)
    requires ListsHistory(st) && SortedUnion(Children(st), items) && Sorted(items) && Elems(items) == All(st)
    requires Readable(ReadersOf(st), s)
    ensures Read(All(st), k, s) == Read(st.hist, k, s)
  {
    hide Children, All, Read, Shows, SortedUnion;
    var a, b := Read(All(st), k, s), Read(st.hist, k, s);
    if a.Some? { ShowsIsRead(items, s, k, a.value); }
    if b.Some? { ShowsIsRead(items, s, k, b.value); }
  }

  // ---- Which merges an iterator can tell ----

  /** The merge drops the live deletion y, and the version of its key that then shows through is the value e. */
  ghost predicate Revives(st: State, p: Pending, y: Entry, e: Entry)
    requires p.level + 1 < NUM_LEVELS
  {
    && y in FileEntries(p.in0 + p.in1) && y in Live(All(st), ReadersOf(st)) && DropsDeletion(p, y)
    && e in KeptEntries(st.v, p) && e.key == y.key && e.sn < y.sn && e.op.Put?
    && forall d :: d in KeptEntries(st.v, p) && d.key == y.key && d.sn < y.sn ==> d.sn <= e.sn
  }

  ghost predicate QuietEvent(st: State, ev: Event) {
    ev.EvInstall? && st.pending.Some? && st.pending.value.level + 1 < NUM_LEVELS ==>
      forall y, e :: !Revives(st, st.pending.value, y, e)
  }

  // Everything the engine keeps whatever it merges, and what iterators need.
  ghost predicate Ground(st: State) {
    && Versioned(st.hist) && (forall e :: e in st.hist ==> e.sn <= st.lastSeq) && All(st) <= st.hist
    && MemInv(st.mem, st.imm, VersionEntries(st.v))
    && Shape(st.v, st.nextFile) && Listed(st.v)
    && SnapshotInv(st.snapshots, st.lastSeq)
    && (st.pending.Some? ==>
          && PendingInv(st.v, st.pending.value)
          && PendingSnapInv(st.pending.value.snap, st.snapshots, st.lastSeq))
  }

  ghost predicate Sound(st: State) {
    Ground(st) && ReadsHistory(All(st), st.hist, ReadersOf(st))
  }

  lemma SoundLists(st: State)
    requires Ground(st)
    ensures ListsHistory(st) <==> ReadsHistory(All(st), st.hist, ReadersOf(st))
  {
    hide MemInv, Shape, Listed, SnapshotInv, PendingInv, All, ListsHistory, ReadsHistory;
    ListingIsReading(st);
  }

  // ---- Steps ----

  lemma NothingLive(v: Version)
    ensures OlderWithDepth(v, {})
  {
  }

  lemma InitSound(st: State)
    requires Init(st)
    ensures Sound(st)
  {
    hide Read, OlderWithDepth, Live, Faithful;
    InitInv(st);
    assert st.v[0] == [] && All(st) == st.hist;
  }

  lemma ReadsGrow(all: set<Entry>, hist: set<Entry>, rs: Readers, added: set<Entry>, rs': Readers)
    requires ReadsHistory(all, hist, rs) && all <= hist
    requires Versioned(added + hist) && Newer(added, hist)
    requires forall s :: Readable(rs', s) ==> Readable(rs, s)
    ensures ReadsHistory(added + all, added + hist, rs')
  {
    forall k, s | Readable(rs', s) ensures Read(added + all, k, s) == Read(added + hist, k, s) {
      assert Read(all, k, s) == Read(hist, k, s);
      assert added + all <= added + hist;
      FindLayered(added, all, k, s);
      FindLayered(added, hist, k, s);
    }
  }

  lemma WriteKeepsSound(st: State, st': State, ops: seq<(UserKey, Op)>)
    requires Ground(st) && Write(st, st', ops)
    ensures Ground(st')
    ensures ReadsHistory(All(st), st.hist, ReadersOf(st)) ==> ReadsHistory(All(st'), st'.hist, ReadersOf(st'))
  {
    hide Shape, PendingInv, BatchEntries, ReadsHistory, Listed;
    var added := Elems(BatchEntries(ops, st.lastSeq + 1));
    BatchIsNew(ops, st.lastSeq + 1);
    assert All(st') == added + All(st);
    assert st'.hist == added + st.hist;
    WriteKeepsMem(st.mem, st.imm, VersionEntries(st.v), st.lastSeq, added, st'.mem);
    if ReadsHistory(All(st), st.hist, ReadersOf(st)) {
      ReadsGrow(All(st), st.hist, ReadersOf(st), added, ReadersOf(st'));
    }
  }

  lemma PickKeepsGround(st: State, st': State, p: Pending)
    requires Ground(st) && Pick(st, st', p)
    ensures Ground(st') && All(st') == All(st) && st'.hist == st.hist && ReadersOf(st') == ReadersOf(st)
  {
    hide Shape, PendingInv, Listed, ValidPick, MemInv, Versioned;
    PickEstablishes(st.v, p);
    assert All(st') == All(st);
  }

  lemma SwitchKeepsGround(st: State, st': State)
    requires Ground(st) && SwitchMemTable(st, st')
    ensures Ground(st') && All(st') == All(st) && st'.hist == st.hist && ReadersOf(st') == ReadersOf(st)
  {
    hide Shape, PendingInv, Listed, SnapshotInv, Versioned;
    assert All(st') == All(st);
  }

  lemma ReadersKeepGround(st: State, st': State, ev: Event)
    requires Ground(st) && Step(st, st', ev) && (ev.EvSnapshot? || ev.EvRelease?)
    ensures Ground(st') && All(st') == All(st) && st'.hist == st.hist
    ensures forall s :: Readable(ReadersOf(st'), s) ==> Readable(ReadersOf(st), s)
  {
    hide Shape, PendingInv, Listed, MemInv, Versioned;
    assert All(st') == All(st);
    match ev
    case EvRelease(i) =>
      forall j | 0 <= j < |st'.snapshots| ensures st'.snapshots[j] == st.snapshots[if j < i then j else j + 1] {}
      assert forall s :: s in st'.snapshots ==> s in st.snapshots;
    case _ =>
  }

  lemma FlushKeepsGround(st: State, st': State, level: nat, f: File)
    requires Ground(st) && Flush(st, st', level, f)
    ensures Ground(st') && All(st') == All(st) && st'.hist == st.hist && ReadersOf(st') == ReadersOf(st)
  {
    hide Shape, OlderWithDepth, PendingInv, MemInv, NoOverlap, SnapshotInv, Versioned;
    FlushKeepsMem(st.mem, st.imm.value, VersionEntries(st.v));
    if st.imm.value == [] {
      assert VersionEntries(st'.v) == VersionEntries(st.v) + Elems(st.imm.value);
      ShapeAfter(st.v, st.nextFile, st'.nextFile);
    } else {
      NothingLive(st.v);
      FlushKeepsVersion(st.v, st.nextFile, level, f, st'.v, st'.nextFile, {});
      FlushAddsEntries(st.v, level, f, st'.v);
      if st.pending.Some? {
        FlushKeepsPending(st.v, st.pending.value, level, f, st'.v);
      }
    }
    FlushKeepsAll(st, st');
  }

  lemma EditKeepsListed(v: Version, p: Pending, outs: seq<File>, v': Version)
    requires Listed(v) && Edited(v, p, outs, v')
    ensures Listed(v')
  {
  }

  lemma MoveKeepsGround(st: State, st': State, level: nat, f: File)
    requires Ground(st) && Move(st, st', level, f)
    ensures Ground(st') && All(st') == All(st) && st'.hist == st.hist && ReadersOf(st') == ReadersOf(st)
  {
    hide Shape, PendingInv, MemInv, SnapshotInv, ValidPick, Moved, Swapped, Listed, Edited;
    MoveKeepsShape(st.v, st.nextFile, level, f, st'.v);
    MoveEdits(st.v, level, f, st'.v);
    EditKeepsListed(st.v, MoveOf(st.v, level, f), [f], st'.v);
    assert All(st') == All(st);
  }

  lemma ReopenKeepsGround(st: State, st': State, fs: seq<File>)
    requires Ground(st) && Reopen(st, st', fs)
    ensures Ground(st') && All(st') == All(st) && st'.hist == st.hist
    ensures forall s :: Readable(ReadersOf(st'), s) ==> Readable(ReadersOf(st), s)
  {
    hide Shape, OlderWithDepth, PendingInv, MemInv, Replayed, AscendingFiles;
    ReopenReplays(st, st', fs);
    NothingLive(st.v);
    ReopenKeepsVersion(st.v, st.nextFile, fs, st'.v, st'.nextFile, {});
  }

  lemma InstallKeepsGround(st: State, st': State, m: seq<Entry>, outs: seq<File>)
    requires Ground(st) && Install(st, st', m, outs)
    ensures Ground(st') && st'.hist == st.hist && ReadersOf(st') == ReadersOf(st) && All(st') <= All(st)
    ensures Swapped(st.v, st.pending.value, outs, st'.v)
  {
    hide Shape, PendingInv, Survivors, Rearranged, FreshNumbers, Swapped, FromInputs, Listed, Edited, Merged;
    InstallKeepsShape(st, st', m, outs);
    InstallShrinks(st, st', m, outs);
    InstallEdits(st, st', m, outs);
    EditKeepsListed(st.v, st.pending.value, outs, st'.v);
  }

  // ---- Installs ----

  // What is left of the database around a merge.
  ghost function Rest(st: State, p: Pending): set<Entry> {
    Elems(st.mem) + ImmElems(st.imm) + KeptEntries(st.v, p)
  }

  lemma InstallParts(st: State, st': State, m: seq<Entry>, outs: seq<File>)
    requires Ground(st) && Install(st, st', m, outs) && Swapped(st.v, st.pending.value, outs, st'.v)
    ensures st.pending.Some?
    ensures var p := st.pending.value;
            && p.level + 1 < NUM_LEVELS && Sorted(m) && Elems(m) == FileEntries(p.in0 + p.in1)
            && All(st) == Elems(m) + Rest(st, p)
            && All(st') == Elems(Survivors(m, |m|, p.snap, p.base[p.level + 2..])) + Rest(st, p)
            && PendingSnapInv(p.snap, st.snapshots, st.lastSeq)
  {
    hide PendingInv, Swapped, Survivors, Rearranged, FreshNumbers, Shape, Listed, SnapshotInv, MemInv, All;
    InstallSplits(st, st', m, outs, Rest(st, st.pending.value));
  }

  /** A newest entry that a merge drops is a live deletion dropped as obsolete. */
  lemma DroppedNewest(st: State, st': State, m: seq<Entry>, outs: seq<File>, k: UserKey, s: nat, t: Entry)
    requires Ground(st) && Install(st, st', m, outs) && Swapped(st.v, st.pending.value, outs, st'.v)
    requires Readable(ReadersOf(st), s) && Newest(All(st), k, s, t) && t !in All(st')
    ensures st.pending.Some?
    ensures var p := st.pending.value;
            t in FileEntries(p.in0 + p.in1) && t in Live(All(st), ReadersOf(st)) && DropsDeletion(p, t)
  {
    hide Ground, Install, Swapped, Survivors, All, Rest, BaseLevel;
    InstallParts(st, st', m, outs);
    var p := st.pending.value;
    var deeper := p.base[p.level + 2..];
    var i :| 0 <= i < |m| && m[i] == t;
    SurvivorsIn(m, |m|, p.snap, deeper, t);
    assert !Kept(m, i, p.snap, deeper);
    assert i > 0 ==> m[i - 1] in Elems(m) && Before(m[i - 1], m[i]);
    assert Seen(All(st), ReadersOf(st), t);
  }

  lemma RestIsKeptOrNewer(st: State, p: Pending, t: Entry, z: Entry)
    requires MemInv(st.mem, st.imm, VersionEntries(st.v)) && t in VersionEntries(st.v)
    requires z in Rest(st, p) && z.sn <= t.sn
    ensures z in KeptEntries(st.v, p)
  {
  }

  /** Below a dropped deletion only entries of files left alone remain. */
  lemma LeftIsKept(st: State, st': State, m: seq<Entry>, outs: seq<File>, t: Entry, z: Entry)
    requires Ground(st) && Install(st, st', m, outs) && Swapped(st.v, st.pending.value, outs, st'.v)
    requires var p := st.pending.value;
             p.level + 1 < NUM_LEVELS && t in FileEntries(p.in0 + p.in1) && DropsDeletion(p, t)
    requires z in All(st') && z.key == t.key && z.sn < t.sn
    ensures z in KeptEntries(st.v, st.pending.value)
  {
    hide PendingInv, Install, Swapped, Survivors, All, Rest, BaseLevel, KeptEntries, FileEntries, Shape, MemInv, Listed,
      VersionEntries;
    InstallParts(st, st', m, outs);
    var p := st.pending.value;
    var i :| 0 <= i < |m| && m[i] == t;
    NothingOlderSurvives(m, i, p.snap, p.base[p.level + 2..], z);
    InputIsStored(st.v, p, t);
    RestIsKeptOrNewer(st, p, t, z);
  }

  lemma KeptStaysStored(st: State, st': State, m: seq<Entry>, outs: seq<File>)
    requires Ground(st) && Install(st, st', m, outs) && Swapped(st.v, st.pending.value, outs, st'.v)
    ensures KeptEntries(st.v, st.pending.value) <= All(st')
  {
    hide Ground, Install, Swapped, Survivors, All, KeptEntries;
    InstallParts(st, st', m, outs);
  }

  /** A merge that revives nothing leaves every readable answer as it was. */
  lemma QuietInstallReads(st: State, st': State, m: seq<Entry>, outs: seq<File>, k: UserKey, s: nat)
    requires Ground(st) && Install(st, st', m, outs) && Swapped(st.v, st.pending.value, outs, st'.v)
    requires All(st') <= All(st) && Readable(ReadersOf(st), s) && st.pending.value.level + 1 < NUM_LEVELS
    requires forall y, e :: !Revives(st, st.pending.value, y, e)
    ensures Read(All(st'), k, s) == Read(All(st), k, s)
  {
    hide MemInv, Shape, Listed, SnapshotInv, PendingInv, Install, All, KeptEntries, FileEntries, Live, Swapped,
      BaseLevel;
    FindNone(All(st), k, s);
    FindNone(All(st'), k, s);
    if Find(All(st), k, s).Some? {
      FindSome(All(st), k, s);
      var t := Find(All(st), k, s).value;
      if t in All(st') {
        FindNewest(All(st'), k, s, t);
      } else {
        DroppedNewest(st, st', m, outs, k, s, t);
        if Find(All(st'), k, s).Some? {
          FindSome(All(st'), k, s);
          var z := Find(All(st'), k, s).value;
          assert z in All(st) && z != t;
          LeftIsKept(st, st', m, outs, t, z);
          KeptStaysStored(st, st', m, outs);
          assert !Revives(st, st.pending.value, t, z);
        }
      }
    }
  }

  lemma DroppedIsGone(st: State, st': State, m: seq<Entry>, outs: seq<File>, y: Entry)
    requires Ground(st) && Install(st, st', m, outs) && Swapped(st.v, st.pending.value, outs, st'.v)
    requires var p := st.pending.value;
             p.level + 1 < NUM_LEVELS && y in FileEntries(p.in0 + p.in1) && DropsDeletion(p, y)
    ensures y !in All(st')
  {
    hide PendingInv, Install, Swapped, Survivors, All, BaseLevel, Shape, Listed, MemInv, KeptEntries, VersionEntries;
    InstallParts(st, st', m, outs);
    var p := st.pending.value;
    var deeper := p.base[p.level + 2..];
    SurvivorsIn(m, |m|, p.snap, deeper, y);
    forall j | 0 <= j < |m| && m[j] == y ensures !Kept(m, j, p.snap, deeper) {
      assert Obsolete(m, j, p.snap, deeper);
    }
    InputIsStored(st.v, p, y);
    StoredIsNotMem(st.mem, st.imm, VersionEntries(st.v), y);
    InputIsNotKept(st.v, st.nextFile, p, y);
  }

  lemma StoredIsNotMem(mem: seq<Entry>, imm: Option<seq<Entry>>, files: set<Entry>, y: Entry)
    requires MemInv(mem, imm, files) && y in files
    ensures y !in Elems(mem) && y !in ImmElems(imm)
  {
  }

  lemma InputIsNotKept(v: Version, next: nat, p: Pending, y: Entry)
    requires Shape(v, next) && PendingInv(v, p) && y in FileEntries(p.in0 + p.in1)
    ensures y !in KeptEntries(v, p)
  {
    hide PendingInv, LevelsSorted, UniqueNumbers;
    InputsStored(v, p);
    var f :| f in p.in0 + p.in1 && y in f.entries;
    var i := if f in p.in0 then p.level else p.level + 1;
    forall l, g | 0 <= l < NUM_LEVELS && g in v[l] && !Input(p, l, g) ensures y !in g.entries {
      OtherFile(v, i, f, l, g);
    }
  }

  lemma OtherFile(v: Version, i: nat, f: File, j: nat, g: File)
    requires EachOnce(v) && i < NUM_LEVELS && j < NUM_LEVELS && f in v[i] && g in v[j] && !(i == j && f == g)
    ensures Disjoint(f, g)
  {
  }

  /** A merge that revives a value changes what a reader of that key is shown. */
  lemma RevivalShows(st: State, st': State, m: seq<Entry>, outs: seq<File>, y: Entry, e: Entry)
    requires Sound(st) && Install(st, st', m, outs) && Swapped(st.v, st.pending.value, outs, st'.v)
    requires All(st') <= All(st) && st'.hist == st.hist && ReadersOf(st') == ReadersOf(st)
    requires st.pending.value.level + 1 < NUM_LEVELS && Revives(st, st.pending.value, y, e)
    ensures !ReadsHistory(All(st'), st'.hist, ReadersOf(st'))
  {
    hide MemInv, Shape, Listed, SnapshotInv, PendingInv, Install, All, KeptEntries, FileEntries, Swapped, BaseLevel;
    var s :| Readable(ReadersOf(st), s) && Newest(All(st), y.key, s, y);
    FindNewest(All(st), y.key, s, y);
    DroppedIsGone(st, st', m, outs, y);
    KeptStaysStored(st, st', m, outs);
    forall d | d in All(st') && Visible(d, y.key, s) ensures d.sn <= e.sn {
      assert d in All(st) && d != y;
      LeftIsKept(st, st', m, outs, y, d);
    }
    FindNewest(All(st'), y.key, s, e);
    assert Read(All(st), y.key, s) == Read(st.hist, y.key, s);
    assert Read(All(st'), y.key, s) != Read(st'.hist, y.key, s);
  }

  lemma InstallReadsExactlyIf(st: State, st': State, m: seq<Entry>, outs: seq<File>)
    requires Sound(st) && Install(st, st', m, outs)
    ensures ReadsHistory(All(st'), st'.hist, ReadersOf(st')) <==> QuietEvent(st, EvInstall(m, outs))
  {
    hide Ground, Revives, All, Read;
    InstallKeepsGround(st, st', m, outs);
    var p := st.pending.value;
    if y, e :| Revives(st, p, y, e) {
      hide Install;
      RevivalShows(st, st', m, outs, y, e);
    } else {
      forall k, s | Readable(ReadersOf(st'), s) ensures Read(All(st'), k, s) == Read(st'.hist, k, s) {
        hide Install;
        QuietInstallReads(st, st', m, outs, k, s);
        assert Read(All(st), k, s) == Read(st.hist, k, s);
      }
    }
  }

  // ---- Runs ----

  /** Whatever the engine merges or moves, it keeps the ground it stands on. */
  lemma StepKeepsGround(st: State, st': State, ev: Event)
    requires Ground(st) && Step(st, st', ev)
    ensures Ground(st')
  {
    hide Ground, Write, Flush, Install, Move, Reopen, Pick, SwitchMemTable, TakeSnapshot, ReleaseSnapshot;
    match ev
    case EvWrite(ops) => WriteKeepsSound(st, st', ops);
    case EvFlush(level, f) => FlushKeepsGround(st, st', level, f);
    case EvInstall(m, outs) => InstallKeepsGround(st, st', m, outs);
    case EvMove(level, f) => MoveKeepsGround(st, st', level, f);
    case EvReopen(fs) => ReopenKeepsGround(st, st', fs);
    case EvPick(p) => PickKeepsGround(st, st', p);
    case EvSwitch => SwitchKeepsGround(st, st');
    case _ => ReadersKeepGround(st, st', ev);
  }

  lemma StepReadsExactlyIf(st: State, st': State, ev: Event)
    requires Sound(st) && Step(st, st', ev)
    ensures ReadsHistory(All(st'), st'.hist, ReadersOf(st')) <==> QuietEvent(st, ev)
  {
    hide Ground, All, Revives, Write, Flush, Install, Move, Reopen, Read, Pick, SwitchMemTable, TakeSnapshot,
      ReleaseSnapshot;
    match ev
    case EvWrite(ops) => WriteKeepsSound(st, st', ops);
    case EvFlush(level, f) => FlushKeepsGround(st, st', level, f);
    case EvInstall(m, outs) => InstallReadsExactlyIf(st, st', m, outs);
    case EvMove(level, f) => MoveKeepsGround(st, st', level, f);
    case EvReopen(fs) => ReopenKeepsGround(st, st', fs);
    case EvPick(p) => PickKeepsGround(st, st', p);
    case EvSwitch => SwitchKeepsGround(st, st');
    case _ => ReadersKeepGround(st, st', ev);
  }

  lemma {:induction false} QuietRunsStaySound(sts: seq<State>, evs: seq<Event>, n: nat)
    requires Run(sts, evs) && n <= |evs| && forall i :: 0 <= i < n ==> QuietEvent(sts[i], evs[i])
    ensures Sound(sts[n])
  {
    hide Sound, Step, QuietEvent;
    if n == 0 {
      InitSound(sts[0]);
    } else {
      QuietRunsStaySound(sts, evs, n - 1);
      StepStaysSound(sts[n - 1], sts[n], evs[n - 1]);
    }
  }

  lemma StepStaysSound(st: State, st': State, ev: Event)
    requires Sound(st) && Step(st, st', ev) && QuietEvent(st, ev)
    ensures Sound(st')
  {
    hide Ground, Step, QuietEvent, ReadsHistory;
    StepKeepsGround(st, st', ev);
    StepReadsExactlyIf(st, st', ev);
  }

  lemma LoudStepShows(st: State, st': State, ev: Event)
    requires Sound(st) && Step(st, st', ev) && !QuietEvent(st, ev)
    ensures !ListsHistory(st')
  {
    hide Step, QuietEvent, ReadsHistory, ListsHistory, Ground;
    StepKeepsGround(st, st', ev);
    StepReadsExactlyIf(st, st', ev);
    SoundLists(st');
  }

  /** In any run, with any snapshots, crashes included: in every state up to the n-th an iterator at any readable
      sequence number shows exactly the history, if and only if no merge before dropped a live deletion above a value
      that then shows through.  A merge or move that only sinks a version below an older one, which makes Get wrong, is
      invisible to iterators. */
  lemma IteratorsAreRightExactlyIf(sts: seq<State>, evs: seq<Event>, n: nat)
    requires Run(sts, evs) && n <= |evs|
    ensures (forall i :: 0 <= i <= n ==> ListsHistory(sts[i])) <==>
            (forall i :: 0 <= i < n ==> QuietEvent(sts[i], evs[i]))
  {
    hide Step, Init, QuietEvent, ListsHistory, Ground, ReadsHistory;
    if forall i :: 0 <= i < n ==> QuietEvent(sts[i], evs[i]) {
      forall i | 0 <= i <= n ensures ListsHistory(sts[i]) {
        QuietRunsStaySound(sts, evs, i);
        SoundLists(sts[i]);
      }
    } else {
      var i :| 0 <= i < n && !QuietEvent(sts[i], evs[i]);
      var j := FirstLoud(sts, evs, i);
      QuietRunsStaySound(sts, evs, j);
      LoudStepShows(sts[j], sts[j + 1], evs[j]);
    }
  }

  lemma {:induction false} FirstLoud(sts: seq<State>, evs: seq<Event>, i: nat) returns (j: nat)
    requires |sts| == |evs| + 1 && i < |evs| && !QuietEvent(sts[i], evs[i])
    ensures j <= i && !QuietEvent(sts[j], evs[j]) && forall a :: 0 <= a < j ==> QuietEvent(sts[a], evs[a])
  {
    hide QuietEvent;
    if a :| 0 <= a < i && !QuietEvent(sts[a], evs[a]) {
      j := FirstLoud(sts, evs, a);
    } else {
      j := i;
    }
  }
}
