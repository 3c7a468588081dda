/** Crashes of the engine and its disk together: recovery is the engine's reopening, in every state of every run. */
module JointRuns {
  import opened DbFormat
  import opened Files
  import opened Versions
  import opened Picking
  import opened Joint
  import CompactionLoop
  import E = Engine
  import ES = EngineSteps
  import EI = EngineInstall
  import ER = EngineRuns
  import IR = IteratorRuns
  import M = MapRuns
  import D = Durability
  import DI = DurabilityInv
  import DS = DurabilitySteps

  // ---- What a recovery finds ----

  lemma AppliedParts(e: E.State, last: nat, inflight: Option<D.Batch>, mid: E.State)
    requires Applies(e, inflight, mid) && e.lastSeq == last
    requires inflight.Some? ==> D.Numbered(inflight.value, last) && last + |inflight.value| < MAX_SEQUENCE
    ensures var added := DI.Elements(DI.OptBatch(inflight));
            && Elems(mid.mem) == Elems(e.mem) + added && mid.hist == e.hist + added
            && mid.lastSeq == last + |DI.OptBatch(inflight)|
    ensures mid.imm == e.imm && mid.v == e.v && mid.nextFile == e.nextFile
  {
    hide E.BatchEntries;
    if inflight.Some? {
      var b := inflight.value;
      BatchIsLogged(b, last);
      assert Elems(b) == DI.Elements(b);
    } else {
      assert DI.Elements([]) == {};
    }
  }

  lemma InflightParts(j: Pair)
    requires Good(j)
    ensures j.d.inflight.Some? ==>
              D.Numbered(j.d.inflight.value, j.d.lastSeq) && j.d.lastSeq + |j.d.inflight.value| < MAX_SEQUENCE
    ensures j.e.lastSeq == j.d.lastSeq
  {
    hide IR.Ground, Locs, Stored, D.Replay, DI.LogsMatch, DI.ManifestMatches, DI.RecordedInv, DI.VersionTables,
      DI.WritingInv, DI.NextFileInv, DI.JobInv, DI.RefsInv;
  }

  lemma Leftover(flushed: bool, imm: Option<D.Batch>, mem: D.Batch, inflight: Option<D.Batch>)
    ensures var left := DI.OptBatch(if flushed then None else imm);
            DI.Elements(DI.AfterFlush(flushed, imm, mem) + DI.OptBatch(inflight)) ==
            DI.Elements(mem) + DI.Elements(left) + DI.Elements(DI.OptBatch(inflight))
  {
  }

  /** The logs hold what the engine's memtables hold, once the batch being written is taken in. */
  lemma LogsHoldMemtables(j: Pair, mid: E.State, ns: seq<nat>)
    requires Good(j) && Applies(j.e, j.d.inflight, mid)
    requires D.Relevant(j.d.disk.logs, D.Replay(j.d.disk.manifest).logNumber.value, ns)
    ensures (forall n :: n in ns ==> n in j.d.disk.logs)
    ensures DI.Elements(D.LogRecords(j.d.disk.logs, ns)) == Elems(mid.mem) + E.ImmElems(mid.imm)
  {
    hide DI.Inv, IR.Ground, D.Replay, Locs, Stored, D.LogRecords, DI.AfterFlush, Applies, Room;
    InflightParts(j);
    AppliedParts(j.e, j.d.lastSeq, j.d.inflight, mid);
    DI.ReplayedLogs(j.d, ns);
    Leftover(DI.Appended(j.d.job) && j.d.job.value.flush, j.d.imm, j.d.mem, j.d.inflight);
    assert DI.Elements([]) == {};
  }

  // ---- The relation after a crash ----

  lemma CrashLocs(v: Version, fs: seq<File>, v': Version, dumped: map<nat, set<Entry>>)
    requires v' == v[0 := v'[0]] && E.Rearranged(v[0], {}, fs, v'[0]) && Dumps(fs, dumped)
    ensures Locs(v') == Locs(v) + set n | n in dumped :: D.Loc(0, n)
  {
    forall a | a in Locs(v) ensures a in Locs(v') {
      var l, g :| 0 <= l < NUM_LEVELS && g in v[l] && a == D.Loc(l, g.number);
      assert g in v'[l];
    }
    forall n | n in dumped ensures D.Loc(0, n) in Locs(v') {
      var f :| f in fs && f.number == n;
      assert f in v'[0];
    }
  }

  lemma CrashStored(v: Version, fs: seq<File>, v': Version, tables: map<nat, set<Entry>>, dumped: map<nat, set<Entry>>,
                    next: nat)
    requires v' == v[0 := v'[0]] && E.Rearranged(v[0], {}, fs, v'[0]) && Dumps(fs, dumped)
    requires Stored(v, tables) && DI.NumbersBelow(Locs(v), next) && forall n :: n in dumped ==> next < n
    ensures Stored(v', tables + dumped)
  {
    forall l, f | 0 <= l < NUM_LEVELS && f in v'[l]
      ensures f.number in tables + dumped && (tables + dumped)[f.number] == Elems(f.entries)
    {
      if f in v[l] { assert D.Loc(l, f.number) in Locs(v); }
    }
  }

  lemma RecoveredNumbers(d: D.State)
    requires DI.Inv(d)
    ensures var r := D.Replay(d.disk.manifest); r.nextFile.Some? && DI.NumbersBelow(r.files, r.nextFile.value)
  {
    hide DI.LogsMatch, DI.ManifestMatches, DI.SequenceInv, DI.RecordedInv, DI.VersionTables, DI.WritingInv, DI.JobInv,
      DI.RefsInv, D.Replay;
  }

  lemma RecoveredDisk(d: D.State, d': D.State, ns: seq<nat>, dumped: map<nat, set<Entry>>, log: nat)
    requires DI.Inv(d) && D.Reopen(d, d', ns, dumped, log)
    ensures var r, r' := D.Replay(d.disk.manifest), D.Replay(d'.disk.manifest);
            && r'.files == r.files + (set n | n in dumped :: D.Loc(0, n)) && r'.nextFile == Some(log + 1)
            && d'.disk.tables == d.disk.tables + dumped
            && r.nextFile.Some? && forall n :: n in dumped ==> r.nextFile.value < n
    ensures d'.lastSeq == d.lastSeq + |DI.OptBatch(d.inflight)|
    ensures d'.mem == [] && d'.imm.None? && d'.job.None? && d'.inflight.None?
  {
    hide DI.Inv, D.Replay, D.Reopen, DI.Contents, D.TableEntries;
    DS.ReopenRestores(d, d', ns, dumped, log);
    RecoveredManifest(d, d', ns, dumped, log);
  }

  lemma RecoveredManifest(d: D.State, d': D.State, ns: seq<nat>, dumped: map<nat, set<Entry>>, log: nat)
    requires D.Reopen(d, d', ns, dumped, log)
    ensures var r, r' := D.Replay(d.disk.manifest), D.Replay(d'.disk.manifest);
            && r'.files == r.files + (set n | n in dumped :: D.Loc(0, n)) && r'.nextFile == Some(log + 1)
            && d'.disk.tables == d.disk.tables + dumped
            && r.nextFile.Some? && forall n :: n in dumped ==> r.nextFile.value < n
    ensures d'.mem == [] && d'.imm.None? && d'.job.None? && d'.inflight.None?
  {
    hide D.Replay, D.LogRecords, D.MaxSeq, D.Relevant;
    DS.ReopenManifest(D.Replay(d.disk.manifest).files, d'.disk.manifest);
  }

  lemma CrashKeepsRel(j: Pair, j': Pair, ns: seq<nat>, dumped: map<nat, set<Entry>>, log: nat, mid: E.State,
                      fs: seq<File>)
    requires Good(j) && Step(j, j', Crash(ns, dumped, log, mid, fs))
    ensures Rel(j')
  {
    hide DI.Inv, IR.Ground, D.Replay, Locs, Stored, Dumps, E.Rearranged, E.AscendingFiles, D.Reopen, Applies, Room,
      DI.NumbersBelow;
    InflightParts(j);
    AppliedParts(j.e, j.d.lastSeq, j.d.inflight, mid);
    RecoveredNumbers(j.d);
    RecoveredDisk(j.d, j'.d, ns, dumped, log);
    CrashLocs(j.e.v, fs, j'.e.v, dumped);
    CrashStored(j.e.v, fs, j'.e.v, j.d.disk.tables, dumped, D.Replay(j.d.disk.manifest).nextFile.value);
    assert DI.Elements([]) == {} == Elems([]);
  }

  // ---- Every recovery is a reopening of the engine ----

  lemma {:induction false} SortFiles(s: set<File>) returns (r: seq<File>)
    ensures forall f :: f in r <==> f in s
    ensures InOrder(r)
    decreases s
  {
    if s == {} {
      r := [];
    } else {
      var f :| f in s;
      var rest := SortFiles(s - {f});
      r := InsertFile(rest, f);
    }
  }

  ghost predicate InOrder(r: seq<File>) {
    forall i, j :: 0 <= i < j < |r| ==> r[i] != r[j] && !Before(Smallest(r[j]), Smallest(r[i]))
  }

  lemma {:induction false} InsertFile(r: seq<File>, f: File) returns (r': seq<File>)
    requires InOrder(r) && f !in r
    ensures InOrder(r') && forall g :: g in r' <==> g in r || g == f
  {
    if r == [] {
      r' := [f];
    } else if !Before(Smallest(r[0]), Smallest(f)) {
      r' := [f] + r;
    } else {
      var tail := InsertFile(r[1..], f);
      assert r == [r[0]] + r[1..];
      r' := [r[0]] + tail;
      forall j | 0 < j < |r'| ensures r'[0] != r'[j] && !Before(Smallest(r'[j]), Smallest(r'[0])) {
        assert r'[j] in tail;
        if r'[j] != f {
          var i :| 0 <= i < |r[1..]| && r[1..][i] == r'[j];
          assert r[i + 1] == r'[j];
        }
      }
    }
  }

  lemma Rearrange(level: seq<File>, fs: seq<File>) returns (level': seq<File>)
    ensures E.Rearranged(level, {}, fs, level')
  {
    level' := SortFiles((set f | f in level) + (set f | f in fs));
  }

  lemma {:induction false} Highest(s: set<nat>) returns (n: nat)
    requires s != {}
    ensures n in s && forall m :: m in s ==> m <= n
    decreases s
  {
    var a :| a in s;
    assert forall m :: m in s ==> m == a || m in s - {a};
    n := a;
    if s - {a} != {} {
      var b := Highest(s - {a});
      if b > a { n := b; }
    }
  }

  ghost predicate DumpsInOrder(dumped: map<nat, set<Entry>>) {
    && (forall n :: n in dumped ==> dumped[n] != {} && Versioned(dumped[n]))
    && (forall m, n, x, y :: m in dumped && n in dumped && m < n && x in dumped[m] && y in dumped[n] ==> x.sn < y.sn)
  }

  // The tables as files; their sizes play no part here.
  lemma {:induction false} DumpedFiles(dumped: map<nat, set<Entry>>) returns (fs: seq<File>)
    requires DumpsInOrder(dumped)
    ensures Dumps(fs, dumped) && E.AscendingFiles(fs)
    decreases dumped.Keys
  {
    if dumped.Keys == {} {
      fs := [];
    } else {
      var n := Highest(dumped.Keys);
      var rest := DumpedFiles(dumped - {n});
      var items := IR.Arrange(dumped[n]);
      assert items != [] by { assert Elems([]) == {}; }
      fs := AddDump(dumped, n, rest, FileData(n, 0, items));
    }
  }

  lemma AddDump(dumped: map<nat, set<Entry>>, n: nat, rest: seq<File>, f: File) returns (fs: seq<File>)
    requires DumpsInOrder(dumped) && n in dumped && (forall m :: m in dumped ==> m <= n)
    requires Dumps(rest, dumped - {n}) && E.AscendingFiles(rest) && f.number == n && Elems(f.entries) == dumped[n]
    ensures Dumps(fs, dumped) && E.AscendingFiles(fs)
  {
    fs := rest + [f];
    AddedDumps(dumped, n, rest, f);
    forall i, k | 0 <= i < k < |fs|
      ensures fs[i].number < fs[k].number && E.AllNewer(Elems(fs[k].entries), Elems(fs[i].entries))
    {
      if k == |rest| {
        assert rest[i] in rest;
        DumpIsNewer(dumped, n, rest[i].number);
      }
    }
  }

  lemma DumpIsNewer(dumped: map<nat, set<Entry>>, n: nat, m: nat)
    requires DumpsInOrder(dumped) && n in dumped && m in dumped - {n} && (forall i :: i in dumped ==> i <= n)
    ensures m < n && E.AllNewer(dumped[n], dumped[m])
  {
  }

  lemma AddedDumps(dumped: map<nat, set<Entry>>, n: nat, rest: seq<File>, f: File)
    requires n in dumped && Dumps(rest, dumped - {n}) && f.number == n && Elems(f.entries) == dumped[n]
    ensures Dumps(rest + [f], dumped)
  {
    var fs := rest + [f];
    forall m | m in dumped ensures exists g :: g in fs && g.number == m {
      if m == n {
        assert f in fs;
      } else {
        assert m in dumped - {n};
        var g :| g in rest && g.number == m;
        assert g in fs;
      }
    }
  }

  lemma DumpedEntries(fs: seq<File>, dumped: map<nat, set<Entry>>)
    requires Dumps(fs, dumped)
    ensures FileEntries(fs) == set n, e | n in dumped && e in dumped[n] :: e
  {
    forall n, e | n in dumped && e in dumped[n] ensures e in FileEntries(fs) {
      var f :| f in fs && f.number == n;
      assert e in Elems(f.entries);
    }
    forall e | e in FileEntries(fs) ensures e in set n, e | n in dumped && e in dumped[n] :: e {
      var f :| f in fs && e in f.entries;
      assert e in Elems(f.entries) && f.number in dumped;
    }
  }

  /** A logged batch can always be taken into the memtable. */
  lemma ApplyGoesOn(e: E.State, inflight: Option<D.Batch>) returns (mid: E.State)
    requires IR.Ground(e) && (inflight.Some? ==> e.lastSeq + |inflight.value| < MAX_SEQUENCE)
    ensures Applies(e, inflight, mid)
  {
    mid := e;
    if inflight.Some? {
      var ops := Ops(inflight.value);
      var added := Elems(E.BatchEntries(ops, e.lastSeq + 1));
      ES.BatchIsNew(ops, e.lastSeq + 1);
      hide E.BatchEntries, E.Shape, E.PendingInv;
      assert Elems(e.mem) <= e.hist;
      var mem := IR.Arrange(Elems(e.mem) + added);
      mid := e.(mem := mem, lastSeq := e.lastSeq + |ops|, hist := e.hist + added);
    }
  }

  lemma AppliedVersioned(e: E.State, inflight: Option<D.Batch>, mid: E.State)
    requires IR.Ground(e) && Applies(e, inflight, mid)
    ensures IR.Ground(mid) && Versioned(Elems(mid.mem) + E.ImmElems(mid.imm))
  {
    hide IR.Ground, E.Write;
    if inflight.Some? { IR.WriteKeepsSound(e, mid, Ops(inflight.value)); }
    GroundParts(mid);
    assert Elems(mid.mem) + E.ImmElems(mid.imm) <= E.All(mid);
  }

  lemma RecoveredDumps(d: D.State, d': D.State, ns: seq<nat>, dumped: map<nat, set<Entry>>, log: nat, es: set<Entry>)
    requires D.Reopen(d, d', ns, dumped, log) && (forall n :: n in ns ==> n in d.disk.logs) && Versioned(es)
    requires DI.Elements(D.LogRecords(d.disk.logs, ns)) == es
    ensures DumpsInOrder(dumped) && (set n, e | n in dumped && e in dumped[n] :: e) == es
    ensures var r := D.Replay(d.disk.manifest);
            r.nextFile.Some? && r.nextFile.value < log && forall n :: n in dumped ==> r.nextFile.value < n < log
  {
    hide D.Replay, D.LogRecords, D.MaxSeq, D.Relevant;
    var all := set n, e | n in dumped && e in dumped[n] :: e;
    forall n, e | n in dumped && e in dumped[n] ensures e in es { assert e in all; }
  }

  lemma RecoveredRelevant(d: D.State, d': D.State, ns: seq<nat>, dumped: map<nat, set<Entry>>, log: nat)
    requires D.Reopen(d, d', ns, dumped, log)
    ensures var r := D.Replay(d.disk.manifest); r.logNumber.Some? && D.Relevant(d.disk.logs, r.logNumber.value, ns)
  {
    hide D.Replay, D.LogRecords, D.MaxSeq, D.Relevant;
  }

  /** Whatever a recovery replays from the disk, the engine can go on from it: its memtables, with the batch in the log
      taken in, have become the new level-0 tables. */
  lemma CrashIsReopening(j: Pair, d': D.State, ns: seq<nat>, dumped: map<nat, set<Entry>>, log: nat)
    returns (mid: E.State, fs: seq<File>, e': E.State)
    requires Good(j) && D.Reopen(j.d, d', ns, dumped, log)
    ensures Step(j, Pair(e', d'), Crash(ns, dumped, log, mid, fs))
  {
    hide DI.Inv, IR.Ground, D.Replay, Locs, Stored, Dumps, E.Rearranged, E.AscendingFiles, D.Reopen, Applies,
      DumpsInOrder, D.LogRecords, D.Relevant;
    mid := ApplyGoesOn(j.e, j.d.inflight);
    AppliedVersioned(j.e, j.d.inflight, mid);
    RecoveredRelevant(j.d, d', ns, dumped, log);
    LogsHoldMemtables(j, mid, ns);
    RecoveredDumps(j.d, d', ns, dumped, log, Elems(mid.mem) + E.ImmElems(mid.imm));
    fs := DumpedFiles(dumped);
    DumpedEntries(fs, dumped);
    var zero := Rearrange(mid.v[0], fs);
    e' := mid.(mem := [], imm := None, v := mid.v[0 := zero], nextFile := log, snapshots := [], pending := None);
    InflightParts(j);
    AppliedParts(j.e, j.d.lastSeq, j.d.inflight, mid);
    DumpNumbers(fs, dumped);
  }

  lemma DumpNumbers(fs: seq<File>, dumped: map<nat, set<Entry>>)
    requires Dumps(fs, dumped)
    ensures forall f :: f in fs ==> f.number in dumped
  {
  }

  // ---- Every merge and move can be recorded ----

  /** Outputs whose entries come from the inputs, stored where they will be named, add nothing to the version. */
  lemma OutputsAddNothing(v: Version, tables: map<nat, set<Entry>>, p: E.Pending, outs: seq<File>)
    requires Stored(v, tables) && p.level + 1 < NUM_LEVELS && ES.FromInputs(p, outs)
    requires (forall f :: f in p.in0 ==> f in v[p.level]) && forall f :: f in p.in1 ==> f in v[p.level + 1]
    requires forall o :: o in outs ==> o.number in tables && tables[o.number] == Elems(o.entries)
    ensures D.TableEntries(tables, OutputLocs(p.level + 1, outs)) <= D.TableEntries(tables, Locs(v))
  {
    forall e | e in D.TableEntries(tables, OutputLocs(p.level + 1, outs)) ensures e in D.TableEntries(tables, Locs(v)) {
      var o :| o in outs && e in o.entries;
      assert ES.InSome(p.in0 + p.in1, e);
      var f :| f in p.in0 + p.in1 && e in f.entries;
      StoredEntry(v, tables, if f in p.in0 then p.level else p.level + 1, f, e);
    }
  }

  lemma StoredEntry(v: Version, tables: map<nat, set<Entry>>, l: nat, f: File, e: Entry)
    requires Stored(v, tables) && l < NUM_LEVELS && f in v[l] && e in f.entries
    ensures e in D.TableEntries(tables, Locs(v))
  {
    assert D.Loc(l, f.number) in Locs(v) && e in Elems(f.entries);
  }

  lemma InputsAreCurrent(v: Version, p: E.Pending)
    requires p.level + 1 < NUM_LEVELS
    requires (forall f :: f in p.in0 ==> f in v[p.level]) && forall f :: f in p.in1 ==> f in v[p.level + 1]
    ensures InputLocs(p) <= Locs(v)
  {
  }

  // The state of the disk once the edit is made out, and once its record is written.
  function Edited(d: D.State, deleted: set<D.Loc>, added: set<D.Loc>): D.State {
    d.(job := Some(D.Job(D.Edit(Some(d.logNumber), Some(d.nextFile), Some(d.lastSeq), deleted, added), false, false)))
  }

  function Recorded(d: D.State): D.State
    requires d.job.Some?
  {
    d.(job := Some(d.job.value.(appended := true)),
       disk := d.disk.(manifest := d.disk.manifest + [d.job.value.edit]))
  }

  lemma CurrentIsVersion(j: Pair)
    requires Good(j) && j.d.job.None?
    ensures D.Current(j.d.vs) == Locs(j.e.v) && Stored(j.e.v, j.d.disk.tables)
  {
    hide DI.Inv, IR.Ground, Locs, Stored, D.Replay;
    ManifestIsCurrent(j.d);
  }

  /** A merge whose outputs are written can be made out as an edit and recorded, and so takes effect. */
  lemma MergeCanBeRecorded(j: Pair, e': E.State, m: seq<Entry>, outs: seq<File>) returns (d1: D.State, d2: D.State)
    requires Good(j) && j.d.job.None? && j.d.flushing.None? && E.Install(j.e, e', m, outs)
    requires e'.nextFile <= j.d.nextFile && forall o :: o in outs ==>
               o.number in j.d.outputs && o.number in j.d.disk.tables && j.d.disk.tables[o.number] == Elems(o.entries)
    ensures var p := j.e.pending.value;
            D.FinishCompaction(j.d, d1, InputLocs(p), OutputLocs(p.level + 1, outs))
    ensures Step(j, Pair(j.e, d1), Disk(D.EvFinishCompaction(InputLocs(j.e.pending.value),
                OutputLocs(j.e.pending.value.level + 1, outs))))
    ensures Step(Pair(j.e, d1), Pair(e', d2), Commit(E.EvInstall(m, outs)))
  {
    hide DI.Inv, IR.Ground, Locs, Stored, InputLocs, OutputLocs, Rel, E.Merged, E.FreshNumbers, E.Rearranged,
      CompactionLoop.Survivors, ES.FromInputs, E.PendingInv, E.Shape, E.UniqueNumbers, D.TableEntries;
    var p := j.e.pending.value;
    GroundParts(j.e);
    ES.InputsStored(j.e.v, p);
    EI.SurvivorsFromInputs(p, m, outs);
    CurrentIsVersion(j);
    OutputsAddNothing(j.e.v, j.d.disk.tables, p, outs);
    InputsAreCurrent(j.e.v, p);
    OutputNumbers(p.level + 1, outs);
    d1 := Edited(j.d, InputLocs(p), OutputLocs(p.level + 1, outs));
    d2 := Recorded(d1);
  }

  lemma OutputNumbers(level: nat, outs: seq<File>)
    ensures forall l :: l in OutputLocs(level, outs) ==> exists o :: o in outs && l.number == o.number
  {
  }

  lemma MoveCanBeRecorded(j: Pair, e': E.State, level: nat, f: File) returns (d1: D.State, d2: D.State)
    requires Good(j) && j.d.job.None? && j.d.flushing.None? && E.Move(j.e, e', level, f) && e'.nextFile <= j.d.nextFile
    ensures Step(j, Pair(j.e, d1), Disk(D.EvFinishCompaction({D.Loc(level, f.number)}, {D.Loc(level + 1, f.number)})))
    ensures Step(Pair(j.e, d1), Pair(e', d2), Commit(E.EvMove(level, f)))
  {
    hide DI.Inv, IR.Ground, Locs, Stored, InputLocs, OutputLocs, Rel, E.Moved, ES.FromInputs, E.PendingInv, E.Shape,
      E.UniqueNumbers, D.TableEntries, ValidPick;
    var p := E.MoveOf(j.e.v, level, f);
    CurrentIsVersion(j);
    MoveParts(j.e.v, level, f, j.d.disk.tables);
    EI.MoveFromInputs(j.e.v, level, f);
    OutputsAddNothing(j.e.v, j.d.disk.tables, p, [f]);
    InputsAreCurrent(j.e.v, p);
    assert D.Loc(level, f.number) in D.Current(j.d.vs);
    d1 := Edited(j.d, {D.Loc(level, f.number)}, {D.Loc(level + 1, f.number)});
    d2 := Recorded(d1);
  }

  // ---- Steps ----

  lemma DiskKeepsRel(j: Pair, j': Pair, ev: D.Event)
    requires Good(j) && Step(j, j', Disk(ev))
    ensures Rel(j')
  {
    hide Rel, DI.Inv, IR.Ground, D.Step, Applies, E.SwitchMemTable;
    match ev
    case EvApply => ApplyRel(j, j');
    case EvSwitch => SwitchRel(j, j');
    case EvFinishFlush(_) => TableStepKeepsRel(j, j', ev);
    case EvOpen => TableStepKeepsRel(j, j', ev);
    case EvFill(_, _) => TableStepKeepsRel(j, j', ev);
    case EvDelete => TableStepKeepsRel(j, j', ev);
    case _ => QuietStepKeepsRel(j, j', ev);
  }

  lemma ApplyRel(j: Pair, j': Pair)
    requires Good(j) && D.Step(j.d, j'.d, D.EvApply) && Applies(j.e, j.d.inflight, j'.e)
    ensures Rel(j')
  {
    hide Rel, DI.Inv, IR.Ground, Room, Applies, D.ApplyBatch;
    ApplyKeepsRel(j, j');
  }

  lemma SwitchRel(j: Pair, j': Pair)
    requires Good(j) && D.Step(j.d, j'.d, D.EvSwitch) && E.SwitchMemTable(j.e, j'.e)
    ensures Rel(j')
  {
    hide Rel, DI.Inv, IR.Ground, Room, D.SwitchLog, E.SwitchMemTable;
    SwitchKeepsRel(j, j');
  }

  lemma DiskKeepsRoom(d: D.State, d': D.State, ev: D.Event)
    requires Room(d) && D.Step(d, d', ev) && (ev.EvLog? ==> d.lastSeq + |ev.b| < MAX_SEQUENCE)
    ensures Room(d')
  {
    hide D.Replay, D.LogRecords, D.MaxSeq, D.Relevant, D.TableEntries;
  }

  lemma DiskKeepsGround(j: Pair, j': Pair, ev: D.Event)
    requires IR.Ground(j.e) && Step(j, j', Disk(ev))
    ensures IR.Ground(j'.e)
  {
    hide IR.Ground, D.Step, Applies;
    if ev.EvApply? {
      AppliedVersioned(j.e, j.d.inflight, j'.e);
    } else if ev.EvSwitch? {
      IR.SwitchKeepsGround(j.e, j'.e);
    }
  }

  lemma DiskKeepsGood(j: Pair, j': Pair, ev: D.Event)
    requires Good(j) && Step(j, j', Disk(ev))
    ensures Good(j')
  {
    hide Rel, DI.Inv, IR.Ground, Room, D.Step, Applies, E.SwitchMemTable;
    DiskKeepsRel(j, j', ev);
    DiskKeepsGround(j, j', ev);
    DS.StepKeepsInv(j.d, j'.d, ev);
    DiskKeepsRoom(j.d, j'.d, ev);
  }

  lemma CommitKeepsGood(j: Pair, j': Pair, x: E.Event)
    requires Good(j) && Step(j, j', Commit(x))
    ensures Good(j')
  {
    hide Rel, DI.Inv, IR.Ground, Records, E.Step;
    CommitKeepsRel(j, j', x);
    DS.AppendKeepsInv(j.d, j'.d);
    IR.StepKeepsGround(j.e, j'.e, x);
  }

  lemma ClientKeepsGood(j: Pair, j': Pair, x: E.Event)
    requires Good(j) && Step(j, j', Client(x))
    ensures Good(j')
  {
    hide Rel, DI.Inv, IR.Ground, E.Step, Room;
    ClientKeepsRel(j, j', x);
    IR.StepKeepsGround(j.e, j'.e, x);
  }

  lemma ClientKeepsRel(j: Pair, j': Pair, x: E.Event)
    requires Rel(j) && Step(j, j', Client(x))
    ensures Rel(j')
  {
    hide Locs, Stored, D.Replay;
  }

  lemma CrashKeepsGood(j: Pair, j': Pair, ns: seq<nat>, dumped: map<nat, set<Entry>>, log: nat, mid: E.State,
                       fs: seq<File>)
    requires Good(j) && Step(j, j', Crash(ns, dumped, log, mid, fs))
    ensures Good(j')
  {
    hide Rel, DI.Inv, IR.Ground, D.Reopen, E.Reopen, Applies, Dumps, D.Replay;
    CrashKeepsRel(j, j', ns, dumped, log, mid, fs);
    RecoveredDisk(j.d, j'.d, ns, dumped, log);
    DS.ReopenKeepsInv(j.d, j'.d, ns, dumped, log);
    AppliedVersioned(j.e, j.d.inflight, mid);
    IR.ReopenKeepsGround(mid, j'.e, fs);
  }

  lemma StepKeepsGood(j: Pair, j': Pair, ev: Event)
    requires Good(j) && Step(j, j', ev)
    ensures Good(j')
  {
    hide Good, Step;
    match ev
    case Disk(ev) => DiskKeepsGood(j, j', ev);
    case Commit(x) => CommitKeepsGood(j, j', x);
    case Client(x) => ClientKeepsGood(j, j', x);
    case Crash(ns, dumped, log, mid, fs) => CrashKeepsGood(j, j', ns, dumped, log, mid, fs);
  }

  lemma InitGood(j: Pair)
    requires Init(j)
    ensures Good(j)
  {
    hide DI.Inv, IR.Ground, Rel, IR.ReadsHistory;
    DS.InitInv(j.d);
    IR.InitSound(j.e);
    InitRel(j);
  }

  lemma InitRel(j: Pair)
    requires Init(j)
    ensures Rel(j)
  {
    hide D.Replay;
    DS.ReopenManifest({}, j.d.disk.manifest);
    assert DI.Elements([]) == {} == Elems([]);
    assert Locs(j.e.v) == {};
  }

  // ---- Runs ----

  ghost predicate Run(js: seq<Pair>, evs: seq<Event>) {
    |js| == |evs| + 1 && Init(js[0]) && forall i :: 0 <= i < |evs| ==> Step(js[i], js[i + 1], evs[i])
  }

  lemma {:induction false} RunsStayGood(js: seq<Pair>, evs: seq<Event>, n: nat)
    requires Run(js, evs) && n <= |evs|
    ensures Good(js[n])
  {
    hide Good, Step, Init;
    if n == 0 {
      InitGood(js[0]);
    } else {
      RunsStayGood(js, evs, n - 1);
      StepKeepsGood(js[n - 1], js[n], evs[n - 1]);
    }
  }

  // ---- What a client sees ----

  // The batch that takes effect in this step: the logged one when it is applied, or when a recovery replays it.
  function TakesEffect(j: Pair, ev: Event): Option<D.Batch> {
    if (ev.Disk? && ev.ev.EvApply?) || ev.Crash? then j.d.inflight else None
  }

  function Updated(m: M.Store, b: Option<D.Batch>): M.Store {
    if b.Some? then M.ApplyOps(m, Ops(b.value)) else m
  }

  /** The map that the batches of a joint run make, in the order they take effect. */
  function StoreOf(js: seq<Pair>, evs: seq<Event>, n: nat): M.Store
    requires n <= |evs| && |evs| < |js|
  {
    if n == 0 then map[] else Updated(StoreOf(js, evs, n - 1), TakesEffect(js[n - 1], evs[n - 1]))
  }

  /** The map that all batches make that ever reached a log. */
  function LoggedStore(evs: seq<Event>, n: nat): M.Store
    requires n <= |evs|
  {
    if n == 0 then map[]
    else Updated(LoggedStore(evs, n - 1),
        if evs[n - 1].Disk? && evs[n - 1].ev.EvLog? then Some(evs[n - 1].ev.b) else None)
  }

  lemma InflightStep(j: Pair, j': Pair, ev: Event)
    requires Step(j, j', ev)
    ensures if ev.Disk? && ev.ev.EvLog? then j.d.inflight == None && j'.d.inflight == Some(ev.ev.b)
            else if (ev.Disk? && ev.ev.EvApply?) || ev.Crash? then j'.d.inflight == None
            else j'.d.inflight == j.d.inflight
  {
    hide D.Replay, D.LogRecords, D.MaxSeq, D.Relevant, D.TableEntries, E.Step, E.Reopen, Applies, Records, Dumps;
  }

  /** Every batch logged has taken effect, once and in order, but for one still on its way to the memtable. */
  lemma {:induction false} LoggedIsStored(js: seq<Pair>, evs: seq<Event>, n: nat)
    requires Run(js, evs) && n <= |evs|
    ensures LoggedStore(evs, n) == Updated(StoreOf(js, evs, n), js[n].d.inflight)
  {
    hide Step;
    if n > 0 {
      LoggedIsStored(js, evs, n - 1);
      InflightStep(js[n - 1], js[n], evs[n - 1]);
    }
  }

  // A run of the engine that ends in a given state and has written a given map, with or without snapshots.
  ghost predicate Reaches(sts: seq<E.State>, xs: seq<E.Event>, e: E.State, m: M.Store, free: bool) {
    && ER.Run(sts, xs) && sts[|xs|] == e && M.StoreAt(xs, |xs|) == m
    && (free ==> forall i :: 0 <= i < |xs| ==> !xs[i].EvSnapshot?)
  }

  lemma {:induction false} StorePrefix(xs: seq<E.Event>, x: E.Event, n: nat)
    requires n <= |xs|
    ensures M.StoreAt(xs + [x], n) == M.StoreAt(xs, n)
  {
    if n > 0 { StorePrefix(xs, x, n - 1); }
  }

  lemma Extend(sts: seq<E.State>, xs: seq<E.Event>, e: E.State, m: M.Store, free: bool, x: E.Event, e': E.State)
    returns (sts': seq<E.State>, xs': seq<E.Event>)
    requires Reaches(sts, xs, e, m, free) && E.Step(e, e', x) && (free ==> !x.EvSnapshot?)
    ensures Reaches(sts', xs', e', if x.EvWrite? then M.ApplyOps(m, x.ops) else m, free)
  {
    hide E.Step, E.Init, M.ApplyOps;
    sts', xs' := sts + [e'], xs + [x];
    StorePrefix(xs, x, |xs|);
    forall i | 0 <= i < |xs'| ensures E.Step(sts'[i], sts'[i + 1], xs'[i]) {
      if i < |xs| { assert sts'[i] == sts[i] && sts'[i + 1] == sts[i + 1] && xs'[i] == xs[i]; }
    }
  }

  lemma ExtendApplied(sts: seq<E.State>, xs: seq<E.Event>, e: E.State, m: M.Store, free: bool,
                      inflight: Option<D.Batch>, e': E.State)
    returns (sts': seq<E.State>, xs': seq<E.Event>)
    requires Reaches(sts, xs, e, m, free) && Applies(e, inflight, e')
    ensures Reaches(sts', xs', e', Updated(m, inflight), free)
  {
    hide E.Write, Reaches, M.ApplyOps;
    sts', xs' := sts, xs;
    if inflight.Some? {
      sts', xs' := Extend(sts, xs, e, m, free, E.EvWrite(Ops(inflight.value)), e');
    }
  }

  ghost predicate Takes(ev: Event) {
    ev.Client? && ev.x.EvSnapshot?
  }

  lemma CommitsNoWrite(j: Pair, j': Pair, x: E.Event)
    requires Step(j, j', Commit(x)) || Step(j, j', Client(x))
    ensures !x.EvWrite? && E.Step(j.e, j'.e, x)
    ensures Step(j, j', Commit(x)) ==> !x.EvSnapshot?
  {
    hide E.Step;
  }

  lemma ExtendJoint(sts: seq<E.State>, xs: seq<E.Event>, j: Pair, j': Pair, m: M.Store, free: bool, ev: Event)
    returns (sts': seq<E.State>, xs': seq<E.Event>)
    requires Reaches(sts, xs, j.e, m, free) && Step(j, j', ev) && (free ==> !Takes(ev))
    ensures Reaches(sts', xs', j'.e, Updated(m, TakesEffect(j, ev)), free)
  {
    hide Reaches, Applies, D.Step, D.Reopen, D.AppendRecord, E.Reopen, E.Write, E.SwitchMemTable, E.Flush, E.Install,
      E.Move, E.Pick, Dumps, Records;
    sts', xs' := sts, xs;
    match ev
    case Disk(ev) =>
      if ev.EvApply? {
        sts', xs' := ExtendApplied(sts, xs, j.e, m, free, j.d.inflight, j'.e);
      } else if ev.EvSwitch? {
        sts', xs' := Extend(sts, xs, j.e, m, free, E.EvSwitch, j'.e);
      }
    case Commit(x) =>
      CommitsNoWrite(j, j', x);
      sts', xs' := Extend(sts, xs, j.e, m, free, x, j'.e);
    case Client(x) =>
      CommitsNoWrite(j, j', x);
      sts', xs' := Extend(sts, xs, j.e, m, free, x, j'.e);
    case Crash(_, _, _, mid, fs) =>
      var sts1, xs1 := ExtendApplied(sts, xs, j.e, m, free, j.d.inflight, mid);
      sts', xs' := Extend(sts1, xs1, mid, Updated(m, j.d.inflight), free, E.EvReopen(fs), j'.e);
  }

  /** The engine of every joint run runs as the engine alone does, writing the same map, so that all that holds of its
      runs holds here. */
  lemma {:induction false} RunsAreEngineRuns(js: seq<Pair>, evs: seq<Event>, n: nat, free: bool)
    returns (sts: seq<E.State>, xs: seq<E.Event>)
    requires Run(js, evs) && n <= |evs| && (free ==> forall i :: 0 <= i < n ==> !Takes(evs[i]))
    ensures Reaches(sts, xs, js[n].e, StoreOf(js, evs, n), free)
  {
    hide Step, Reaches, Takes, Updated, TakesEffect;
    if n == 0 {
      sts, xs := [js[0].e], [];
      StartReaches(js[0].e, free);
    } else {
      sts, xs := RunsAreEngineRuns(js, evs, n - 1, free);
      sts, xs := ExtendJoint(sts, xs, js[n - 1], js[n], StoreOf(js, evs, n - 1), free, evs[n - 1]);
    }
  }

  lemma StartReaches(e: E.State, free: bool)
    requires E.Init(e)
    ensures Reaches([e], [], e, map[], free)
  {
  }

  /** Without snapshots, Get is a lookup in the map that all batches make that ever reached a log, whatever crashes came
      before, but for a batch still on its way to the memtable. */
  lemma GetAcrossCrashes(js: seq<Pair>, evs: seq<Event>, n: nat, k: UserKey, r: Option<Value>)
    requires Run(js, evs) && n <= |evs| && forall i :: 0 <= i < n ==> !Takes(evs[i])
    requires var e := js[n].e; ER.GetAnswer(e.mem, e.imm, e.v, k, e.lastSeq, r)
    ensures r == M.Get(StoreOf(js, evs, n), k)
    ensures LoggedStore(evs, n) == Updated(StoreOf(js, evs, n), js[n].d.inflight)
  {
    hide Step, ER.GetAnswer, E.Step, Takes, Updated, StoreOf, LoggedStore;
    var sts, xs := RunsAreEngineRuns(js, evs, n, true);
    M.SnapshotFreeGetIsLookup(sts, xs, |xs|, k, r);
    LoggedIsStored(js, evs, n);
  }

  /** In every run, a crash and the recovery after it keep every write the engine took in and add the batch that had
      reached the log, and no other. */
  lemma CrashLosesNothing(js: seq<Pair>, evs: seq<Event>, n: nat)
    requires Run(js, evs) && n < |evs| && evs[n].Crash?
    ensures var e, e', b := js[n].e, js[n + 1].e, DI.OptBatch(js[n].d.inflight);
            && e'.hist == e.hist + DI.Elements(b) && e'.lastSeq == e.lastSeq + |b|
            && E.All(e') == E.All(e) + DI.Elements(b)
  {
    hide DI.Inv, IR.Ground, Rel, D.Reopen, Applies, Dumps, E.Rearranged, E.AscendingFiles, Init;
    RunsStayGood(js, evs, n);
    var j, j', mid := js[n], js[n + 1], evs[n].mid;
    assert Step(j, j', evs[n]);
    InflightParts(j);
    AppliedParts(j.e, j.d.lastSeq, j.d.inflight, mid);
    AppliedVersioned(j.e, j.d.inflight, mid);
    IR.ReopenKeepsGround(mid, j'.e, evs[n].files);
  }
}
