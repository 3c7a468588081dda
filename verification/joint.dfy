/** The engine and its disk side by side: what the logs, the manifest and the tables hold is what the engine holds, so
    that a crash and the recovery after it are the engine's own reopening. */
module Joint {
  import opened DbFormat
  import opened Files
  import opened Versions
  import opened Picking
  import CompactionLoop
  import E = Engine
  import ES = EngineSteps
  import EI = EngineInstall
  import IR = IteratorRuns
  import D = Durability
  import DI = DurabilityInv
  import DS = DurabilitySteps

  datatype Pair = Pair(e: E.State, d: D.State)

  ghost function Locs(v: Version): set<D.Loc> {
    set l, f | 0 <= l < NUM_LEVELS && f in v[l] :: D.Loc(l, f.number)
  }

  ghost predicate Stored(v: Version, tables: map<nat, set<Entry>>) {
    forall l, f :: 0 <= l < NUM_LEVELS && f in v[l] ==> f.number in tables && tables[f.number] == Elems(f.entries)
  }

  // A flush is in force once its record is in the manifest.
  ghost function Unflushed(job: Option<D.Job>, imm: Option<D.Batch>): Option<D.Batch> {
    if DI.Appended(job) && job.value.flush then None else imm
  }

  ghost predicate SameRun(a: Option<seq<Entry>>, b: Option<D.Batch>) {
    a.Some? == b.Some? && (a.Some? ==> Elems(a.value) == DI.Elements(b.value))
  }

  /** The manifest names the engine's version, the tables hold its files, and the memtables hold the same entries. */
  ghost predicate Rel(j: Pair) {
    var r := D.Replay(j.d.disk.manifest);
    && Elems(j.e.mem) == DI.Elements(j.d.mem) && SameRun(j.e.imm, Unflushed(j.d.job, j.d.imm))
    && j.e.lastSeq == j.d.lastSeq
    && r.files == Locs(j.e.v) && Stored(j.e.v, j.d.disk.tables)
    && r.nextFile.Some? && j.e.nextFile <= r.nextFile.value
  }

  // ---- Joint steps ----

  function Ops(b: D.Batch): seq<(UserKey, Op)> {
    seq(|b|, i requires 0 <= i < |b| => (b[i].key, b[i].op))
  }

  ghost function InputLocs(p: E.Pending): set<D.Loc> {
    (set f | f in p.in0 :: D.Loc(p.level, f.number)) + (set f | f in p.in1 :: D.Loc(p.level + 1, f.number))
  }

  ghost function OutputLocs(level: nat, outs: seq<File>): set<D.Loc> {
    set f | f in outs :: D.Loc(level, f.number)
  }

  /** The edit about to be recorded is that of the engine's flush, merge or move. */
  ghost predicate Records(j: D.Job, tables: map<nat, set<Entry>>, e: E.State, x: E.Event, e': E.State) {
    && j.edit.nextFile.Some? && e'.nextFile <= j.edit.nextFile.value
    && match x
       case EvFlush(level, f) =>
         && j.flush && j.edit.deleted == {}
         && j.edit.added == if e.imm == Some([]) then {} else {D.Loc(level, f.number)}
       case EvInstall(m, outs) =>
         && !j.flush && e.pending.Some?
         && j.edit.deleted == InputLocs(e.pending.value)
         && j.edit.added == OutputLocs(e.pending.value.level + 1, outs)
         && forall o :: o in outs ==> o.number in tables && tables[o.number] == Elems(o.entries)
       case EvMove(level, f) =>
         !j.flush && j.edit.deleted == {D.Loc(level, f.number)} && j.edit.added == {D.Loc(level + 1, f.number)}
       case _ => false
  }

  // The engine takes over the batch in the log, if there is one.
  ghost predicate Applies(e: E.State, inflight: Option<D.Batch>, e': E.State) {
    if inflight.Some? then E.Write(e, e', Ops(inflight.value)) else e' == e
  }

  ghost predicate Dumps(fs: seq<File>, dumped: map<nat, set<Entry>>) {
    && (forall f :: f in fs ==> f.number in dumped && dumped[f.number] == Elems(f.entries))
    && (forall n :: n in dumped ==> exists f :: f in fs && f.number == n)
  }

  datatype Event =
    | Disk(ev: D.Event)
    | Commit(x: E.Event)
    | Client(x: E.Event)
    | Crash(ns: seq<nat>, dumped: map<nat, set<Entry>>, log: nat, mid: E.State, files: seq<File>)

  /** Steps of the disk, with the engine's step where one takes effect: a write when it is applied, a flush, merge or
      move when its record reaches the manifest.  After a crash the engine goes on from what was recovered. */
  ghost predicate Step(j: Pair, j': Pair, ev: Event) {
    match ev
    case Disk(ev) =>
      && D.Step(j.d, j'.d, ev) && !ev.EvAppend? && !ev.EvReopen?
      && (ev.EvLog? ==> j.d.lastSeq + |ev.b| < MAX_SEQUENCE)
      && if ev.EvApply? then Applies(j.e, j.d.inflight, j'.e)
         else if ev.EvSwitch? then E.SwitchMemTable(j.e, j'.e)
         else j'.e == j.e
    case Commit(x) =>
      && D.AppendRecord(j.d, j'.d) && E.Step(j.e, j'.e, x) && Records(j.d.job.value, j.d.disk.tables, j.e, x, j'.e)
    case Client(x) =>
      j'.d == j.d && E.Step(j.e, j'.e, x) && (x.EvPick? || x.EvSnapshot? || x.EvRelease?)
    case Crash(ns, dumped, log, mid, fs) =>
      && D.Reopen(j.d, j'.d, ns, dumped, log)
      && Applies(j.e, j.d.inflight, mid) && E.Reopen(mid, j'.e, fs) && Dumps(fs, dumped) && j'.e.nextFile <= log
  }

  ghost predicate Init(j: Pair) {
    E.Init(j.e) && D.Init(j.d)
  }

  // Sequence numbers do not run out.
  ghost predicate Room(d: D.State) {
    d.inflight.Some? ==> d.lastSeq + |d.inflight.value| < MAX_SEQUENCE
  }

  ghost predicate Good(j: Pair) {
    Rel(j) && DI.Inv(j.d) && Room(j.d) && IR.Ground(j.e)
  }

  // ---- The relation is kept ----

  lemma BatchIsLogged(b: D.Batch, last: nat)
    requires D.Numbered(b, last) && last + 1 + |b| <= MAX_SEQUENCE
    ensures E.BatchEntries(Ops(b), last + 1) == b
  {
  }

  lemma ApplyKeepsRel(j: Pair, j': Pair)
    requires Rel(j) && DI.Inv(j.d) && Room(j.d) && D.ApplyBatch(j.d, j'.d) && Applies(j.e, j.d.inflight, j'.e)
    ensures Rel(j')
  {
    hide Locs, Stored, D.Replay, E.BatchEntries, DI.LogsMatch, DI.ManifestMatches, DI.RecordedInv, DI.VersionTables,
      DI.WritingInv, DI.NextFileInv, DI.JobInv, DI.RefsInv;
    var b := j.d.inflight.value;
    BatchIsLogged(b, j.d.lastSeq);
    assert DI.Elements(j'.d.mem) == DI.Elements(j.d.mem) + DI.Elements(b);
    assert Elems(b) == DI.Elements(b);
  }

  lemma SwitchKeepsRel(j: Pair, j': Pair)
    requires Rel(j) && DI.Inv(j.d) && D.SwitchLog(j.d, j'.d) && E.SwitchMemTable(j.e, j'.e)
    ensures Rel(j')
  {
    hide Locs, Stored, D.Replay;
    assert DI.Elements([]) == {} == Elems([]);
  }

  // Tables change only where no file of the version is.
  lemma TablesKeepStored(v: Version, tables: map<nat, set<Entry>>, tables': map<nat, set<Entry>>)
    requires Stored(v, tables)
    requires forall l :: l in Locs(v) ==>
               l.number in tables' && (l.number in tables ==> tables'[l.number] == tables[l.number])
    ensures Stored(v, tables')
  {
    forall l, f | 0 <= l < NUM_LEVELS && f in v[l]
      ensures f.number in tables' && tables'[f.number] == Elems(f.entries)
    {
      assert D.Loc(l, f.number) in Locs(v);
    }
  }

  /** With no record waiting for its install, the manifest names the current version. */
  lemma ManifestIsCurrent(d: D.State)
    requires DI.Inv(d) && !DI.Appended(d.job)
    ensures D.Replay(d.disk.manifest).files == D.Current(d.vs)
    ensures forall l :: l in D.Current(d.vs) ==> l.number in d.disk.tables && l.number !in d.pendingOutputs
  {
    hide DI.LogsMatch, DI.SequenceInv, DI.RecordedInv, DI.WritingInv, DI.NextFileInv, DI.JobInv, D.Replay;
  }

  lemma TableStepKeepsRel(j: Pair, j': Pair, ev: D.Event)
    requires Rel(j) && DI.Inv(j.d) && D.Step(j.d, j'.d, ev) && j'.e == j.e
    requires ev.EvFinishFlush? || ev.EvOpen? || ev.EvFill? || ev.EvDelete?
    ensures Rel(j')
  {
    ManifestIsCurrent(j.d);
    if ev.EvDelete? { DS.DeleteIsSafe(j.d, j'.d); }
    TablesStay(j.d, j'.d, ev);
    hide Locs, Stored, D.Replay, DI.Inv, D.Step;
    TablesKeepStored(j.e.v, j.d.disk.tables, j'.d.disk.tables);
    TableStepShape(j.d, j'.d, ev);
  }

  lemma TablesStay(d: D.State, d': D.State, ev: D.Event)
    requires DI.Inv(d) && D.Step(d, d', ev) && (ev.EvFinishFlush? || ev.EvOpen? || ev.EvFill? || ev.EvDelete?)
    ensures var tables, tables' := d.disk.tables, d'.disk.tables;
            forall l :: l in D.Current(d.vs) ==>
              l.number in tables' && (l.number in tables ==> tables'[l.number] == tables[l.number])
  {
    hide DI.Inv, D.Live, D.Current, D.FlushEdit;
    ManifestIsCurrent(d);
    BeingWritten(d);
    match ev
    case EvFinishFlush(_) =>
      if d.flushing.Some? { DS.CurrentUnwritten(d, d.flushing.value); }
    case EvOpen => DS.CurrentUnwritten(d, d.nextFile);
    case EvFill(n, _) => DS.CurrentUnwritten(d, n);
    case _ => DS.DeleteIsSafe(d, d');
  }

  lemma BeingWritten(d: D.State)
    requires DI.Inv(d)
    ensures d.outputs <= d.pendingOutputs && (d.flushing.Some? ==> d.flushing.value in d.pendingOutputs)
  {
    hide DI.LogsMatch, DI.ManifestMatches, DI.SequenceInv, DI.RecordedInv, DI.VersionTables, DI.NextFileInv, DI.JobInv,
      DI.RefsInv, D.Replay;
  }

  lemma TableStepShape(d: D.State, d': D.State, ev: D.Event)
    requires D.Step(d, d', ev) && (ev.EvFinishFlush? || ev.EvOpen? || ev.EvFill? || ev.EvDelete?)
    ensures d'.disk.manifest == d.disk.manifest && d'.mem == d.mem && d'.lastSeq == d.lastSeq
    ensures Unflushed(d'.job, d'.imm) == Unflushed(d.job, d.imm)
  {
  }

  lemma QuietStepKeepsRel(j: Pair, j': Pair, ev: D.Event)
    requires Rel(j) && DI.Inv(j.d) && D.Step(j.d, j'.d, ev) && j'.e == j.e
    requires ev.EvLog? || ev.EvStartFlush? || ev.EvFinishCompaction? || ev.EvInstall? || ev.EvAcquire? || ev.EvRelease?
    ensures Rel(j')
  {
    hide Locs, Stored, D.Replay, DI.Inv;
  }

  // ---- Commits ----

  lemma RecordReplays(d: D.State, d': D.State)
    requires D.AppendRecord(d, d')
    ensures var r, r', ed := D.Replay(d.disk.manifest), D.Replay(d'.disk.manifest), d.job.value.edit;
            && r'.files == D.Apply(ed, r.files) && r'.nextFile == D.Or(ed.nextFile, r.nextFile)
  {
    DS.ReplayAppend(d.disk.manifest, d.job.value.edit);
  }

  lemma FlushLocs(v: Version, level: nat, f: File, v': Version)
    requires level < NUM_LEVELS && v' == v[level := v'[level]] && E.Rearranged(v[level], {}, [f], v'[level])
    ensures Locs(v') == Locs(v) + {D.Loc(level, f.number)}
  {
    ES.FlushedFiles(v, level, f, v');
    assert f in v'[level];
    forall a | a in Locs(v) ensures a in Locs(v') {
      var l, g :| 0 <= l < NUM_LEVELS && g in v[l] && a == D.Loc(l, g.number);
      assert g in v'[l];
    }
  }

  lemma FlushTable(d: D.State, n: nat, level: nat)
    requires DI.Inv(d) && d.job.Some? && d.job.value.flush && d.job.value.edit.added == {D.Loc(level, n)}
    ensures d.imm.Some? && n in d.disk.tables && d.disk.tables[n] == DI.Elements(d.imm.value)
  {
    var tables, a := d.disk.tables, {D.Loc(level, n)};
    hide DI.LogsMatch, DI.ManifestMatches, DI.SequenceInv, DI.RecordedInv, DI.VersionTables, DI.WritingInv,
      DI.NextFileInv, DI.RefsInv;
    assert D.Loc(level, n) in a;
    assert D.TableEntries(tables, a) == tables[n];
  }

  lemma FlushStored(v: Version, level: nat, f: File, v': Version, tables: map<nat, set<Entry>>)
    requires Stored(v, tables) && f.number in tables && tables[f.number] == Elems(f.entries)
    requires level < NUM_LEVELS && v' == v[level := v'[level]] && E.Rearranged(v[level], {}, [f], v'[level])
    ensures Stored(v', tables)
  {
    ES.FlushedFiles(v, level, f, v');
  }

  lemma FlushKeepsRel(j: Pair, j': Pair, level: nat, f: File)
    requires Rel(j) && DI.Inv(j.d) && D.AppendRecord(j.d, j'.d) && E.Flush(j.e, j'.e, level, f)
    requires Records(j.d.job.value, j.d.disk.tables, j.e, E.EvFlush(level, f), j'.e)
    ensures Rel(j')
  {
    hide DI.Inv, Locs, Stored, D.Replay, E.Rearranged, NoOverlap, SameRun;
    FlushEmpties(j, j');
    if j.e.imm.value != [] {
      FlushLocs(j.e.v, level, f, j'.e.v);
      FlushTable(j.d, f.number, level);
      SameEntries(j, f);
      FlushStored(j.e.v, level, f, j'.e.v, j.d.disk.tables);
    }
    Rejoin(j, j');
  }

  lemma SameEntries(j: Pair, f: File)
    requires Rel(j) && j.d.job.Some? && !j.d.job.value.appended && j.e.imm == Some(f.entries) && j.d.imm.Some?
    ensures DI.Elements(j.d.imm.value) == Elems(f.entries)
  {
  }

  lemma FlushEmpties(j: Pair, j': Pair)
    requires D.AppendRecord(j.d, j'.d) && j.d.job.value.flush && j'.e.imm == None
    ensures SameRun(j'.e.imm, Unflushed(j'.d.job, j'.d.imm))
  {
  }

  // The manifest after a record, and the engine after the step it records.
  lemma Rejoin(j: Pair, j': Pair)
    requires Rel(j) && D.AppendRecord(j.d, j'.d) && SameRun(j'.e.imm, Unflushed(j'.d.job, j'.d.imm))
    requires j'.e.mem == j.e.mem && j'.e.lastSeq == j.e.lastSeq && Stored(j'.e.v, j.d.disk.tables)
    requires Locs(j'.e.v) == D.Apply(j.d.job.value.edit, Locs(j.e.v))
    requires j.d.job.value.edit.nextFile.Some? && j'.e.nextFile <= j.d.job.value.edit.nextFile.value
    ensures Rel(j')
  {
    hide Locs, Stored, D.Replay, SameRun;
    RecordReplays(j.d, j'.d);
  }

  lemma SwapLocs(v: Version, next: nat, p: E.Pending, outs: seq<File>, v': Version)
    requires E.UniqueNumbers(v, next) && p.level + 1 < NUM_LEVELS && ES.Swapped(v, p, outs, v')
    requires (forall f :: f in p.in0 ==> f in v[p.level]) && forall f :: f in p.in1 ==> f in v[p.level + 1]
    ensures Locs(v') == Locs(v) - InputLocs(p) + OutputLocs(p.level + 1, outs)
  {
    hide E.UniqueNumbers, ES.Swapped, Locs, InputLocs, OutputLocs;
    forall a ensures a in Locs(v') <==> a in Locs(v) - InputLocs(p) + OutputLocs(p.level + 1, outs) {
      if a in Locs(v') { SwapLocsFrom(v, next, p, outs, v', a); }
      if a in Locs(v) - InputLocs(p) + OutputLocs(p.level + 1, outs) { SwapLocsTo(v, p, outs, v', a); }
    }
  }

  lemma SwapLocsFrom(v: Version, next: nat, p: E.Pending, outs: seq<File>, v': Version, a: D.Loc)
    requires E.UniqueNumbers(v, next) && p.level + 1 < NUM_LEVELS && ES.Swapped(v, p, outs, v')
    requires (forall f :: f in p.in0 ==> f in v[p.level]) && forall f :: f in p.in1 ==> f in v[p.level + 1]
    requires a in Locs(v')
    ensures a in Locs(v) - InputLocs(p) + OutputLocs(p.level + 1, outs)
  {
    hide E.UniqueNumbers, InputLocs;
    var l, g :| 0 <= l < NUM_LEVELS && g in v'[l] && a == D.Loc(l, g.number);
    if !ES.Output(p, l, outs, g) { KeptLoc(v, next, p, l, g); }
  }

  lemma SwapLocsTo(v: Version, p: E.Pending, outs: seq<File>, v': Version, a: D.Loc)
    requires p.level + 1 < NUM_LEVELS && ES.Swapped(v, p, outs, v')
    requires a in Locs(v) - InputLocs(p) + OutputLocs(p.level + 1, outs)
    ensures a in Locs(v')
  {
    if a in OutputLocs(p.level + 1, outs) {
      var o :| o in outs && a == D.Loc(p.level + 1, o.number);
      assert o in v'[p.level + 1];
    } else {
      var l, g :| 0 <= l < NUM_LEVELS && g in v[l] && a == D.Loc(l, g.number);
      assert !ES.Input(p, l, g);
      assert g in v'[l];
    }
  }

  lemma KeptLoc(v: Version, next: nat, p: E.Pending, l: nat, g: File)
    requires E.UniqueNumbers(v, next) && p.level + 1 < NUM_LEVELS && l < NUM_LEVELS && g in v[l] && !ES.Input(p, l, g)
    requires (forall f :: f in p.in0 ==> f in v[p.level]) && forall f :: f in p.in1 ==> f in v[p.level + 1]
    ensures D.Loc(l, g.number) in Locs(v) && D.Loc(l, g.number) !in InputLocs(p)
  {
  }

  lemma SwapStored(v: Version, p: E.Pending, outs: seq<File>, v': Version, tables: map<nat, set<Entry>>)
    requires Stored(v, tables) && ES.Swapped(v, p, outs, v')
    requires forall o :: o in outs ==> o.number in tables && tables[o.number] == Elems(o.entries)
    ensures Stored(v', tables)
  {
  }

  lemma MergeKeepsRel(j: Pair, j': Pair, m: seq<Entry>, outs: seq<File>)
    requires Rel(j) && IR.Ground(j.e) && D.AppendRecord(j.d, j'.d) && E.Install(j.e, j'.e, m, outs)
    requires Records(j.d.job.value, j.d.disk.tables, j.e, E.EvInstall(m, outs), j'.e)
    ensures Rel(j')
  {
    hide IR.Ground, Locs, Stored, D.Replay, E.Rearranged, E.Merged, E.FreshNumbers, InputLocs, OutputLocs, ES.Swapped,
      E.PendingInv, E.Shape, E.UniqueNumbers, CompactionLoop.Survivors;
    GroundParts(j.e);
    IR.InstallKeepsGround(j.e, j'.e, m, outs);
    var p := j.e.pending.value;
    ES.InputsStored(j.e.v, p);
    SwapLocs(j.e.v, j.e.nextFile, p, outs, j'.e.v);
    SwapStored(j.e.v, p, outs, j'.e.v, j.d.disk.tables);
    Rejoin(j, j');
  }

  lemma GroundParts(e: E.State)
    requires IR.Ground(e)
    ensures E.Shape(e.v, e.nextFile) && E.UniqueNumbers(e.v, e.nextFile)
    ensures e.pending.Some? ==> E.PendingInv(e.v, e.pending.value)
    ensures E.MemInv(e.mem, e.imm, E.VersionEntries(e.v)) && Versioned(E.All(e))
    ensures Versioned(e.hist) && E.All(e) <= e.hist && forall x :: x in e.hist ==> x.sn <= e.lastSeq
  {
  }

  lemma MoveKeepsRel(j: Pair, j': Pair, level: nat, f: File)
    requires Rel(j) && IR.Ground(j.e) && D.AppendRecord(j.d, j'.d) && E.Move(j.e, j'.e, level, f)
    requires Records(j.d.job.value, j.d.disk.tables, j.e, E.EvMove(level, f), j'.e)
    ensures Rel(j')
  {
    hide IR.Ground, Locs, Stored, D.Replay, ValidPick, E.Moved, InputLocs, OutputLocs, ES.Swapped, E.PendingInv,
      E.Shape, E.UniqueNumbers;
    GroundParts(j.e);
    MoveParts(j.e.v, level, f, j.d.disk.tables);
    EI.MoveKeepsShape(j.e.v, j.e.nextFile, level, f, j'.e.v);
    var p := E.MoveOf(j.e.v, level, f);
    SwapLocs(j.e.v, j.e.nextFile, p, [f], j'.e.v);
    SwapStored(j.e.v, p, [f], j'.e.v, j.d.disk.tables);
    Rejoin(j, j');
  }

  lemma MoveParts(v: Version, level: nat, f: File, tables: map<nat, set<Entry>>)
    requires ValidPick(v, level, [f], []) && Stored(v, tables)
    ensures level + 1 < NUM_LEVELS && f in v[level]
    ensures f.number in tables && tables[f.number] == Elems(f.entries)
    ensures InputLocs(E.MoveOf(v, level, f)) == {D.Loc(level, f.number)}
    ensures OutputLocs(level + 1, [f]) == {D.Loc(level + 1, f.number)}
  {
    assert f in [f];
    assert f in v[level];
  }

  lemma CommitKeepsRel(j: Pair, j': Pair, x: E.Event)
    requires Good(j) && Step(j, j', Commit(x))
    ensures Rel(j')
  {
    hide Rel, DI.Inv, IR.Ground, E.Flush, E.Install, E.Move;
    match x
    case EvFlush(level, f) => FlushKeepsRel(j, j', level, f);
    case EvInstall(m, outs) => MergeKeepsRel(j, j', m, outs);
    case EvMove(level, f) => MoveKeepsRel(j, j', level, f);
    case _ =>
  }
}
