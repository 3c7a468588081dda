/** Every step keeps memory and disk in agreement, so every run survives a crash at every moment. */
module DurabilitySteps {
  import opened DbFormat
  import opened Durability
  import opened DurabilityInv

  lemma InitInv(st: State)
    requires Init(st)
    ensures Inv(st)
  {
    var m := st.disk.manifest;
    assert m[..1] == [m[0]] && m[..1][..0] == [];
    assert Replay(m[..1]) == Replayed({}, None, None, None);
    assert HoldersOf(map[], 0) == {};
    assert Flat([]) == [];
    assert TableEntries(map[], {}) == {};
  }

  lemma LogKeepsLogs(logs: map<nat, seq<Batch>>, logNumber: nat, logfile: nat, mem: Batch, imm: Option<Batch>, b: Batch)
    requires LogsMatch(logs, logNumber, logfile, mem, imm, None)
    ensures LogsMatch(logs[logfile := logs[logfile] + [b]], logNumber, logfile, mem, imm, Some(b))
  {
  }

  lemma LogKeepsInv(st: State, st': State, b: Batch)
    requires Inv(st) && LogBatch(st, st', b)
    ensures Inv(st')
  {
    LogKeepsLogs(st.disk.logs, st.logNumber, st.logfile, st.mem, st.imm, b);
    assert forall n :: n in st'.disk.logs <==> n in st.disk.logs;
    hide LogsMatch, VersionTables, WritingInv, RefsInv, Replay, TableEntries, JobInv, ManifestMatches, RecordedInv,
      Ascending, AllBelow;
    hide NumbersBelow, Numbered;
  }

  lemma ApplyKeepsSequence(tables: set<Entry>, imm: Option<Batch>, mem: Batch, b: Batch, lastSeq: nat)
    requires SequenceInv(tables, imm, mem, Some(b), lastSeq)
    ensures SequenceInv(tables, imm, mem + b, None, lastSeq + |b|) && Numbered(b, lastSeq)
  {
    assert OptBatch(imm) + (mem + b) == OptBatch(imm) + mem + b;
    NumberedAscends(OptBatch(imm) + mem, b, lastSeq);
  }

  lemma ApplyKeepsLogs(logs: map<nat, seq<Batch>>, logNumber: nat, logfile: nat, mem: Batch, imm: Option<Batch>,
                       b: Batch)
    requires LogsMatch(logs, logNumber, logfile, mem, imm, Some(b))
    ensures LogsMatch(logs, logNumber, logfile, mem + b, imm, None)
  {
  }

  lemma ApplyKeepsInv(st: State, st': State)
    requires Inv(st) && ApplyBatch(st, st')
    ensures Inv(st')
  {
    hide VersionTables, WritingInv, RefsInv, Replay, TableEntries, JobInv, ManifestMatches, NextFileInv, SequenceInv,
      LogsMatch, RecordedInv;
    var b := st.inflight.value;
    ApplyKeepsSequence(TableEntries(st.disk.tables, Current(st.vs)), st.imm, st.mem, b, st.lastSeq);
    ApplyKeepsLogs(st.disk.logs, st.logNumber, st.logfile, st.mem, st.imm, b);
    ApplyKeepsRecord(Replay(st.disk.manifest), st.job, st.imm, st.mem, b, st.lastSeq);
  }

  lemma ApplyRecovers(flushed: bool, imm: Option<Batch>, mem: Batch, b: Batch, recorded: nat, lastSeq: nat)
    requires Numbered(b, lastSeq) && Recovers(recorded, AfterFlush(flushed, imm, mem), lastSeq)
    ensures Recovers(recorded, AfterFlush(flushed, imm, mem + b), lastSeq + |b|)
  {
  }

  lemma ApplyKeepsRecord(r: Replayed, job: Option<Job>, imm: Option<Batch>, mem: Batch, b: Batch, lastSeq: nat)
    requires RecordedInv(r, job, imm, mem, lastSeq) && Numbered(b, lastSeq)
    ensures RecordedInv(r, job, imm, mem + b, lastSeq + |b|)
  {
    hide Recovers, AfterFlush, Numbered;
    ApplyRecovers(Appended(job) && job.value.flush, imm, mem, b, r.lastSeq.value, lastSeq);
    if job.Some? {
      ApplyRecovers(job.value.flush, imm, mem, b, job.value.edit.lastSeq.value, lastSeq);
    }
  }

  lemma SwitchKeepsLogs(logs: map<nat, seq<Batch>>, n: nat, mem: Batch, next: nat)
    requires LogsMatch(logs, n, n, mem, None, None) && n < next && forall m :: m in logs ==> m < next
    ensures LogsMatch(logs[next := []], n, next, [], Some(mem), None)
  {
  }

  lemma SwitchKeepsInv(st: State, st': State)
    requires Inv(st) && SwitchLog(st, st')
    ensures Inv(st')
  {
    hide RefsInv, Replay, TableEntries, ManifestMatches, SequenceInv, Recovers, NumbersBelow, Flat;
    SwitchKeepsJob(st);
    assert st.logNumber == st.logfile && st.logfile in st.disk.logs;
    hide LogsMatch;
    SwitchKeepsLogs(st.disk.logs, st.logfile, st.mem, st.nextFile);
    SwitchKeepsSequence(TableEntries(st.disk.tables, Current(st.vs)), st.mem, st.lastSeq);
    assert st.mem + [] == st.mem && [] + st.mem == st.mem;
  }

  lemma SwitchKeepsSequence(tables: set<Entry>, mem: Batch, lastSeq: nat)
    requires SequenceInv(tables, None, mem, None, lastSeq)
    ensures SequenceInv(tables, Some(mem), [], None, lastSeq)
  {
    assert mem + [] == mem && [] + mem == mem;
  }

  // No flush edit can be under way while there is no immutable memtable.
  lemma SwitchKeepsJob(st: State)
    requires Inv(st) && st.imm.None?
    ensures st.job.Some? ==> !st.job.value.flush
  {
  }

  lemma StartFlushKeepsInv(st: State, st': State)
    requires Inv(st) && StartFlush(st, st')
    ensures Inv(st')
  {
    hide LogsMatch, RefsInv, Replay, TableEntries, ManifestMatches, SequenceInv, RecordedInv, JobInv;
  }

  // ---- Tables that no version names can be written freely ----

  lemma WritingIsInvisible(tables: map<nat, set<Entry>>, files: set<Loc>, n: nat, es: set<Entry>)
    requires forall l :: l in files ==> l.number != n
    ensures TableEntries(tables[n := es], files) == TableEntries(tables, files)
  {
    var tables' := tables[n := es];
    assert forall l :: l in files ==> (l.number in tables' <==> l.number in tables);
    assert forall l :: l in files && l.number in tables ==> tables'[l.number] == tables[l.number];
  }

  lemma CurrentUnwritten(st: State, n: nat)
    requires Inv(st) && (n in st.pendingOutputs || n >= st.nextFile)
    ensures forall l :: l in Current(st.vs) ==> l.number != n
  {
  }

  lemma FinishFlushKeepsInv(st: State, st': State, level: nat)
    requires Inv(st) && FinishFlush(st, st', level)
    ensures Inv(st')
  {
    hide LogsMatch, SequenceInv, RecordedInv, VersionTables, WritingInv, NextFileInv, RefsInv, Replay, TableEntries;
    var n, es := st.flushing.value, Elements(st.imm.value);
    FlushKeepsCurrent(st, n, es);
    FlushTable(st'.disk.tables, n, es, level);
    FlushJob(st, st', level);
    FlushKeepsTables(st, st', level);
  }

  lemma FlushKeepsCurrent(st: State, n: nat, es: set<Entry>)
    requires Inv(st) && st.flushing == Some(n)
    ensures TableEntries(st.disk.tables[n := es], Current(st.vs)) == TableEntries(st.disk.tables, Current(st.vs))
    ensures n !in st.outputs
  {
    CurrentUnwritten(st, n);
    WritingIsInvisible(st.disk.tables, Current(st.vs), n, es);
  }

  lemma FlushKeepsTables(st: State, st': State, level: nat)
    requires Inv(st) && FinishFlush(st, st', level)
    ensures VersionTables(st'.disk.tables, st.vs.list, st'.pendingOutputs, st.nextFile)
    ensures WritingInv(st'.disk.tables, st'.pendingOutputs, st.outputs, None, st.nextFile)
  {
    hide LogsMatch, RefsInv, Replay, TableEntries, SequenceInv, RecordedInv, NextFileInv, ManifestMatches, FlushEdit;
  }

  lemma FlushTable(tables: map<nat, set<Entry>>, n: nat, es: set<Entry>, level: nat)
    requires es != {} ==> n in tables && tables[n] == es
    ensures TableEntries(tables, if es == {} then {} else {Loc(level, n)}) == es
  {
  }

  lemma FlushJob(st: State, st': State, level: nat)
    requires Inv(st) && FinishFlush(st, st', level)
    ensures RecordedInv(Replay(st.disk.manifest), st'.job, st.imm, st.mem, st.lastSeq)
    ensures NextFileInv(Replay(st.disk.manifest), st.disk.logs, Current(st.vs), st'.job, st.nextFile)
  {
    hide LogsMatch, RefsInv, Replay, TableEntries, JobInv;
    assert Recovers(st.lastSeq, st.mem, st.lastSeq) by {
      RecordsItself(st.imm, st.mem, Replay(st.disk.manifest).lastSeq.value, st.lastSeq);
    }
    assert forall l :: l in Current(st.vs) ==> l.number < st.nextFile;
  }

  lemma RecordsItself(imm: Option<Batch>, mem: Batch, recorded: nat, lastSeq: nat)
    requires Recovers(recorded, OptBatch(imm) + mem, lastSeq)
    ensures Recovers(lastSeq, mem, lastSeq) && Recovers(lastSeq, OptBatch(imm) + mem, lastSeq)
  {
  }

  lemma OpenKeepsInv(st: State, st': State)
    requires Inv(st) && OpenOutput(st, st')
    ensures Inv(st')
  {
    hide LogsMatch, RefsInv, Replay, TableEntries, SequenceInv, RecordedInv, JobInv, ManifestMatches, NumbersBelow;
    CurrentUnwritten(st, st.nextFile);
    WritingIsInvisible(st.disk.tables, Current(st.vs), st.nextFile, {});
  }

  lemma FillKeepsInv(st: State, st': State, n: nat, es: set<Entry>)
    requires Inv(st) && FillOutput(st, st', n, es)
    ensures Inv(st')
  {
    hide LogsMatch, RefsInv, Replay, TableEntries, SequenceInv, RecordedInv, JobInv, ManifestMatches, NextFileInv;
    assert n in st.pendingOutputs;
    CurrentUnwritten(st, n);
    WritingIsInvisible(st.disk.tables, Current(st.vs), n, es);
  }

  lemma CompactionKeepsInv(st: State, st': State, deleted: set<Loc>, added: set<Loc>)
    requires Inv(st) && FinishCompaction(st, st', deleted, added)
    ensures Inv(st')
  {
    hide LogsMatch, RefsInv, Replay, TableEntries, SequenceInv;
    RecordsItself(st.imm, st.mem, Replay(st.disk.manifest).lastSeq.value, st.lastSeq);
    assert forall l :: l in Current(st.vs) ==> l.number < st.nextFile && l.number in st.disk.tables;
  }

  lemma AppendKeepsInv(st: State, st': State)
    requires Inv(st) && AppendRecord(st, st')
    ensures Inv(st')
  {
    ReplayAppend(st.disk.manifest, st.job.value.edit);
    hide LogsMatch, RefsInv, Replay, TableEntries, SequenceInv, VersionTables, WritingInv;
  }

  lemma ReplayAppend(m: seq<Edit>, e: Edit)
    ensures var r := Replay(m);
            Replay(m + [e]) == Replayed(Apply(e, r.files), Or(e.logNumber, r.logNumber), Or(e.nextFile, r.nextFile),
                Or(e.lastSeq, r.lastSeq))
  {
  }

  // ---- Versions ----

  lemma AppendVersionKeepsRefs(vs: Versions, id: nat, files: set<Loc>)
    requires RefsInv(vs) && FreshVersion(vs, id)
    ensures RefsInv(AppendVersion(vs, id, files)) && Current(AppendVersion(vs, id, files)) == files
  {
    var vs' := AppendVersion(vs, id, files);
    assert HoldersOf(vs.holders, id) == {};
    forall h | h in vs.holders ensures vs.holders[h] in vs'.list {
      assert h in HoldersOf(vs.holders, vs.holders[h]);
      assert |HoldersOf(vs.holders, vs.holders[h])| > 0;
    }
  }

  lemma AcquireGrows(holders: map<nat, nat>, h: nat, c: nat, id: nat)
    requires h !in holders
    ensures |HoldersOf(holders[h := c], id)| == |HoldersOf(holders, id)| + (if id == c then 1 else 0)
  {
    var holders' := holders[h := c];
    assert h !in HoldersOf(holders, id);
    assert forall g :: g in holders' <==> g in holders || g == h;
    assert HoldersOf(holders', id) == HoldersOf(holders, id) + (if id == c then {h} else {});
  }

  lemma AcquireKeepsRefs(vs: Versions, h: nat, vs': Versions)
    requires RefsInv(vs) && h !in vs.holders
    requires vs' == vs.(list := vs.list[vs.current := vs.list[vs.current].(refs := vs.list[vs.current].refs + 1)],
                        holders := vs.holders[h := vs.current])
    ensures RefsInv(vs')
  {
    hide HoldersOf;
    forall id | id in vs'.list ensures vs'.list[id].refs ==
        |HoldersOf(vs'.holders, id)| + (if id == vs'.current then 1 else 0) {
      AcquireGrows(vs.holders, h, vs.current, id);
    }
  }

  lemma ReleaseShrinks(vs: Versions, h: nat, id: nat)
    requires h in vs.holders
    ensures HoldersOf(vs.holders - {h}, id) == HoldersOf(vs.holders, id) - {h}
    ensures |HoldersOf(vs.holders - {h}, id)| == |HoldersOf(vs.holders, id)| - (if vs.holders[h] == id then 1 else 0)
  {
  }

  lemma ReleaseKeepsRefs(vs: Versions, h: nat, vs': Versions)
    requires RefsInv(vs) && h in vs.holders
    requires vs' == vs.(list := Unref(vs.list, vs.holders[h]), holders := vs.holders - {h})
    ensures RefsInv(vs')
  {
    var gone := vs.holders[h];
    ReleaseShrinks(vs, h, gone);
    forall g | g in vs'.holders ensures vs'.holders[g] in vs'.list {
      assert g in HoldersOf(vs'.holders, vs'.holders[g]);
      assert |HoldersOf(vs'.holders, vs'.holders[g])| > 0;
    }
    forall id | id in vs'.list ensures vs'.list[id].refs ==
        |HoldersOf(vs'.holders, id)| + (if id == vs'.current then 1 else 0) {
      ReleaseShrinks(vs, h, id);
    }
  }

  lemma InstallKeepsInv(st: State, st': State, id: nat)
    requires Inv(st) && InstallVersion(st, st', id)
    ensures Inv(st')
  {
    hide LogsMatch, ManifestMatches, SequenceInv, RecordedInv, VersionTables, NextFileInv, JobInv, RefsInv, Replay,
      TableEntries, AppendVersion, Apply;
    AppendVersionKeepsRefs(st.vs, id, Apply(st.job.value.edit, Current(st.vs)));
    InstallKeepsSequence(st, st', id);
    InstallKeepsTables(st, st', id);
    InstallKeepsLogs(st, st', id);
    InstallKeepsRecord(st, st', id);
  }

  lemma InstallKeepsLogs(st: State, st': State, id: nat)
    requires Inv(st) && InstallVersion(st, st', id)
    ensures LogsMatch(st.disk.logs, st'.logNumber, st.logfile, st.mem, st'.imm, st.inflight)
  {
  }

  lemma InstallKeepsRecord(st: State, st': State, id: nat)
    requires Inv(st) && InstallVersion(st, st', id) && Current(st'.vs) == Apply(st.job.value.edit, Current(st.vs))
    ensures RecordedInv(Replay(st.disk.manifest), None, st'.imm, st.mem, st.lastSeq)
    ensures ManifestMatches(Replay(st.disk.manifest), Current(st'.vs), st'.logNumber, None)
    ensures NextFileInv(Replay(st.disk.manifest), st.disk.logs, Current(st'.vs), None, st.nextFile)
  {
    hide RefsInv, Replay, TableEntries, SequenceInv, VersionTables, AppendVersion, WritingInv, LogsMatch;
    assert [] + st.mem == st.mem;
  }

  lemma InstallKeepsSequence(st: State, st': State, id: nat)
    requires Inv(st) && InstallVersion(st, st', id) && Current(st'.vs) == Apply(st.job.value.edit, Current(st.vs))
    ensures SequenceInv(TableEntries(st.disk.tables, Current(st'.vs)), st'.imm, st.mem, st.inflight, st.lastSeq)
  {
    hide RefsInv, Replay, VersionTables, LogsMatch, WritingInv, NextFileInv, RecordedInv, AppendVersion;
    var tables, cur, e := st.disk.tables, Current(st.vs), st.job.value.edit;
    TableUnion(tables, cur - e.deleted, e.added);
    assert TableEntries(tables, cur - e.deleted) <= TableEntries(tables, cur);
    if st.job.value.flush {
      BelowMem(TableEntries(tables, cur), st.imm.value, st.mem, st.lastSeq);
      FlushedBound(st.imm.value, st.mem, st.lastSeq);
      assert [] + st.mem == st.mem;
      AfterFlushAscends(true, st.imm, st.mem, st.lastSeq);
    }
  }

  lemma InstallKeepsTables(st: State, st': State, id: nat)
    requires Inv(st) && InstallVersion(st, st', id)
    ensures VersionTables(st.disk.tables, st'.vs.list, st'.pendingOutputs, st.nextFile)
  {
    hide RefsInv, Replay, LogsMatch, SequenceInv, RecordedInv, TableEntries;
    var e, cur := st.job.value.edit, Current(st.vs);
    forall i, l | i in st'.vs.list && l in st'.vs.list[i].files
      ensures l.number in st.disk.tables && l.number !in st'.pendingOutputs && l.number < st.nextFile
    {
      if i == id {
        assert l in Apply(e, cur);
      } else {
        assert i in st.vs.list && l in st.vs.list[i].files;
      }
    }
  }

  lemma HoldersKeepInv(st: State, st': State, vs: Versions)
    requires Inv(st) && st' == st.(vs := vs) && RefsInv(vs)
    requires Current(vs) == Current(st.vs)
    requires forall id, l :: id in vs.list && l in vs.list[id].files ==> id in st.vs.list && l in st.vs.list[id].files
    ensures Inv(st')
  {
  }

  lemma AcquireKeepsInv(st: State, st': State, h: nat)
    requires Inv(st) && Acquire(st, st', h)
    ensures Inv(st')
  {
    AcquireKeepsRefs(st.vs, h, st'.vs);
    HoldersKeepInv(st, st', st'.vs);
  }

  lemma ReleaseKeepsInv(st: State, st': State, h: nat)
    requires Inv(st) && Release(st, st', h)
    ensures Inv(st')
  {
    ReleaseKeepsRefs(st.vs, h, st'.vs);
    HoldersKeepInv(st, st', st'.vs);
  }

  // ---- Garbage collection ----

  /** Garbage collection keeps every table of a version somebody holds, every table being written, and every log
      that a crash would need. */
  lemma DeleteIsSafe(st: State, st': State)
    requires Inv(st) && DeleteObsolete(st, st')
    ensures forall h, l :: h in st.vs.holders && l in st.vs.list[st.vs.holders[h]].files ==> l.number in st'.disk.tables
    ensures forall l :: l in Current(st.vs) ==> l.number in st'.disk.tables
    ensures forall n :: n in st.outputs ==> n in st'.disk.tables
    ensures forall n :: n in st.disk.logs && n >= st.logNumber ==>
            n in st'.disk.logs && st'.disk.logs[n] == st.disk.logs[n]
    ensures st.logfile in st'.disk.logs
  {
    hide Replay, SequenceInv, RecordedInv, TableEntries, JobInv, NextFileInv, ManifestMatches;
    forall id, l | id in st.vs.list && l in st.vs.list[id].files ensures l.number in st'.disk.tables {
      assert Live(st, l.number);
    }
  }

  /** And it keeps nothing else: a table left is of the current version, of one somebody holds, or being written, and a
      log left is one a recovery replays. */
  lemma DeleteLeavesOnlyNeeded(st: State, st': State, n: nat)
    requires Inv(st) && DeleteObsolete(st, st')
    ensures n in st'.disk.tables ==>
              || n in st.pendingOutputs || (exists l :: l in Current(st.vs) && l.number == n)
              || exists h, l :: h in st.vs.holders && l in st.vs.list[st.vs.holders[h]].files && l.number == n
    ensures n in st'.disk.logs ==> n == st.logNumber || n == st.logfile
  {
    hide Replay, SequenceInv, RecordedInv, TableEntries, JobInv, NextFileInv, ManifestMatches, VersionTables,
      WritingInv;
    if n in st'.disk.tables && n !in st.pendingOutputs {
      var id, l :| id in st.vs.list && l in st.vs.list[id].files && l.number == n;
      if id != st.vs.current {
        var h := SomeHolder(st.vs, id);
        assert l in st.vs.list[st.vs.holders[h]].files;
      }
    }
  }

  // A version in the list that is not current has a holder.
  lemma SomeHolder(vs: Versions, id: nat) returns (h: nat)
    requires RefsInv(vs) && id in vs.list && id != vs.current
    ensures h in vs.holders && vs.holders[h] == id
  {
    var hs := HoldersOf(vs.holders, id);
    assert |hs| > 0;
    h :| h in hs;
  }

  lemma DeleteKeepsEntries(st: State, st': State)
    requires Inv(st) && DeleteObsolete(st, st')
    ensures TableEntries(st'.disk.tables, Current(st.vs)) == TableEntries(st.disk.tables, Current(st.vs))
  {
    DeleteIsSafe(st, st');
  }

  lemma DeleteKeepsInv(st: State, st': State)
    requires Inv(st) && DeleteObsolete(st, st')
    ensures Inv(st')
  {
    hide RefsInv, Replay, SequenceInv, RecordedInv, TableEntries, JobInv, ManifestMatches, LogsMatch, NextFileInv,
      VersionTables, WritingInv, Live, Current;
    DeleteKeepsEntries(st, st');
    DeleteKeepsLogs(st, st');
    DeleteKeepsTables(st, st');
  }

  lemma DeleteKeepsLogs(st: State, st': State)
    requires Inv(st) && DeleteObsolete(st, st')
    ensures LogsMatch(st'.disk.logs, st.logNumber, st.logfile, st.mem, st.imm, st.inflight)
    ensures NextFileInv(Replay(st.disk.manifest), st'.disk.logs, Current(st.vs), st.job, st.nextFile)
  {
    hide RefsInv, Replay, SequenceInv, RecordedInv, TableEntries, JobInv, ManifestMatches, VersionTables, WritingInv,
      Live, Flat;
    assert st.logNumber <= st.logfile;
  }

  lemma DeleteKeepsTables(st: State, st': State)
    requires Inv(st) && DeleteObsolete(st, st')
    ensures VersionTables(st'.disk.tables, st.vs.list, st.pendingOutputs, st.nextFile)
    ensures WritingInv(st'.disk.tables, st.pendingOutputs, st.outputs, st.flushing, st.nextFile)
  {
    hide RefsInv, Replay, SequenceInv, RecordedInv, TableEntries, JobInv, ManifestMatches, LogsMatch, NextFileInv;
    forall id, l | id in st.vs.list && l in st.vs.list[id].files ensures l.number in st'.disk.tables {
      assert Live(st, l.number);
    }
  }

  // ---- Reopening after a crash ----

  lemma DumpedEntries(tables: map<nat, set<Entry>>, dumped: map<nat, set<Entry>>, files: set<Loc>, next: nat)
    requires NumbersBelow(files, next) && forall n :: n in dumped ==> next < n
    ensures TableEntries(tables + dumped, files + set n | n in dumped :: Loc(0, n)) ==
            TableEntries(tables, files) + (set n, e | n in dumped && e in dumped[n] :: e)
  {
    var all := tables + dumped;
    var zero := set n | n in dumped :: Loc(0, n);
    TableUnion(all, files, zero);
    assert TableEntries(all, files) == TableEntries(tables, files) by {
      assert forall l :: l in files ==> l.number !in dumped;
    }
    forall n, e | n in dumped && e in dumped[n] ensures e in TableEntries(all, zero) {
      assert Loc(0, n) in zero;
    }
  }

  /** After a crash and a reopen the database holds what it held, with nothing left to replay. */
  lemma ReopenRestores(st: State, st': State, ns: seq<nat>, dumped: map<nat, set<Entry>>, log: nat)
    requires Inv(st) && Reopen(st, st', ns, dumped, log)
    ensures Contents(st') == Contents(st) + Elements(OptBatch(st.inflight))
    ensures st'.lastSeq == st.lastSeq + |OptBatch(st.inflight)|
    ensures TableEntries(st'.disk.tables, Current(st'.vs)) == Contents(st')
  {
    RecoveryIsExact(st, ns);
    var r := Replay(st.disk.manifest);
    assert NumbersBelow(r.files, r.nextFile.value);
    hide Inv, Replay, MaxSeq, LogRecords, Ascending, TableEntries;
    DumpedEntries(st.disk.tables, dumped, r.files, r.nextFile.value);
  }

  lemma ReopenKeepsFiles(st: State, st': State, ns: seq<nat>, dumped: map<nat, set<Entry>>, log: nat)
    requires Inv(st) && Reopen(st, st', ns, dumped, log)
    ensures VersionTables(st'.disk.tables, st'.vs.list, {}, st'.nextFile)
    ensures NextFileInv(Replay(st'.disk.manifest), st'.disk.logs, Current(st'.vs), None, st'.nextFile)
    ensures ManifestMatches(Replay(st'.disk.manifest), Current(st'.vs), log, None)
  {
    var r := Replay(st.disk.manifest);
    hide LogsMatch, ManifestMatches, SequenceInv, RecordedInv, VersionTables, WritingInv, JobInv, RefsInv, Replay,
      TableEntries, MaxSeq, LogRecords, Relevant;
    assert NumbersBelow(r.files, r.nextFile.value);
    ExactFiles(st);
    LogsBelow(st, ns, log);
    hide Inv, NumbersBelow;
    ReopenManifest(r.files, st'.disk.manifest);
    ReopenNumbers(r.files, r.nextFile.value, st.disk.tables, dumped, log);
    ReopenShape(st, st', ns, dumped, log);
    ReopenFilesFrom(r, st.disk.tables, dumped, log, st'.disk.tables, st'.vs, Replay(st'.disk.manifest));
  }

  lemma ReopenFilesFrom(r: Replayed, tables: map<nat, set<Entry>>, dumped: map<nat, set<Entry>>, log: nat,
                        tables': map<nat, set<Entry>>, vs: Versions, r': Replayed)
    requires tables' == tables + dumped &&
             vs == Versions(map[0 := Ver(r.files + (set n | n in dumped :: Loc(0, n)), 1)], 0, map[])
    requires var all := r.files + set n | n in dumped :: Loc(0, n);
             NumbersBelow(all, log + 1) && forall l :: l in all ==> l.number in tables'
    requires r'.files == r.files - {} + (set n | n in dumped :: Loc(0, n))
    requires r'.nextFile == Some(log + 1) && r'.logNumber == Some(log) && r'.lastSeq.Some?
    ensures VersionTables(tables', vs.list, {}, log + 1)
    ensures NumbersBelow(r'.files, log + 1) && ManifestMatches(r', Current(vs), log, None)
  {
  }

  lemma ReopenNumbers(files: set<Loc>, next: nat, tables: map<nat, set<Entry>>, dumped: map<nat, set<Entry>>, log: nat)
    requires NumbersBelow(files, next) && next < log && forall l :: l in files ==> l.number in tables
    requires forall n :: n in dumped ==> next < n < log
    ensures var all := files + set n | n in dumped :: Loc(0, n);
            NumbersBelow(all, log + 1) && forall l :: l in all ==> l.number in tables + dumped
  {
  }

  lemma LogsBelow(st: State, ns: seq<nat>, log: nat)
    requires Inv(st) && Relevant(st.disk.logs, Replay(st.disk.manifest).logNumber.value, ns)
    requires forall n :: n in ns ==> n < log
    ensures forall n :: n in st.disk.logs ==> n < log
  {
  }

  lemma ReopenManifest(files: set<Loc>, m: seq<Edit>)
    requires |m| == 2 && m[0] == Edit(None, None, None, {}, files)
    ensures Replay(m) == Replayed(Apply(m[1], files), m[1].logNumber, m[1].nextFile, m[1].lastSeq)
  {
    assert m[..1] == [m[0]] && m[..1][..0] == [];
    assert Replay([]) == Replayed({}, None, None, None);
    assert Replay(m[..1]) == Replayed(files, None, None, None);
  }

  lemma ReopenKeepsInv(st: State, st': State, ns: seq<nat>, dumped: map<nat, set<Entry>>, log: nat)
    requires Inv(st) && Reopen(st, st', ns, dumped, log)
    ensures Inv(st')
  {
    ReopenKeepsFiles(st, st', ns, dumped, log);
    ReopenRestores(st, st', ns, dumped, log);
    ReopenKeepsLogs(st, st', ns, dumped, log);
    ReopenKeepsSequence(st, st', ns, dumped, log);
    assert HoldersOf(map[], 0) == {};
    hide ManifestMatches, SequenceInv, VersionTables, NextFileInv, LogsMatch, RecordedInv, TableEntries, Replay,
      Contents, Reopen;
    ReopenShape(st, st', ns, dumped, log);
  }

  lemma ReopenShape(st: State, st': State, ns: seq<nat>, dumped: map<nat, set<Entry>>, log: nat)
    requires Reopen(st, st', ns, dumped, log)
    ensures st'.mem == [] && st'.imm.None? && st'.inflight.None? && st'.job.None? && st'.flushing.None?
    ensures st'.pendingOutputs == {} && st'.outputs == {} && st'.logNumber == st'.logfile == log
    ensures RefsInv(st'.vs)
  {
  }

  lemma ReopenKeepsLogs(st: State, st': State, ns: seq<nat>, dumped: map<nat, set<Entry>>, log: nat)
    requires Inv(st) && Reopen(st, st', ns, dumped, log)
    ensures LogsMatch(st'.disk.logs, log, log, [], None, None)
  {
    LogsBelow(st, ns, log);
    assert Flat([]) == [];
  }

  lemma ReopenKeepsSequence(st: State, st': State, ns: seq<nat>, dumped: map<nat, set<Entry>>, log: nat)
    requires Inv(st) && Reopen(st, st', ns, dumped, log)
    ensures SequenceInv(TableEntries(st'.disk.tables, Current(st'.vs)), None, [], None, st'.lastSeq)
    ensures RecordedInv(Replay(st'.disk.manifest), None, None, [], st'.lastSeq)
  {
    hide Inv, Replay, MaxSeq, LogRecords, TableEntries, Contents, Relevant;
    ReopenRestores(st, st', ns, dumped, log);
    ContentsBounded(st);
    ReopenManifest(Replay(st.disk.manifest).files, st'.disk.manifest);
  }

  lemma ContentsBounded(st: State)
    requires Inv(st)
    ensures forall e :: e in Contents(st) ==> e.sn <= st.lastSeq
    ensures forall e :: e in OptBatch(st.inflight) ==> e.sn <= st.lastSeq + |OptBatch(st.inflight)|
  {
    hide LogsMatch, RecordedInv, VersionTables, WritingInv, NextFileInv, RefsInv, Replay;
    var tables, cur := st.disk.tables, Current(st.vs);
    assert forall i :: 0 <= i < |st.mem| ==> st.mem[i] == (OptBatch(st.imm) + st.mem)[|OptBatch(st.imm)| + i];
    FlushedBound(OptBatch(st.imm), st.mem, st.lastSeq);
    if Appended(st.job) && !st.job.value.flush {
      var e := st.job.value.edit;
      TableUnion(tables, cur - e.deleted, e.added);
      assert TableEntries(tables, cur - e.deleted) <= TableEntries(tables, cur);
    }
  }

  // ---- A recovery is always possible ----

  lemma SomeRelevant(st: State) returns (ns: seq<nat>)
    requires Inv(st)
    ensures Replay(st.disk.manifest).logNumber.Some?
    ensures Relevant(st.disk.logs, Replay(st.disk.manifest).logNumber.value, ns)
  {
    hide SequenceInv, RecordedInv, VersionTables, WritingInv, NextFileInv, RefsInv, TableEntries, Replay;
    ns := if st.imm.Some? && !(Appended(st.job) && st.job.value.flush) then [st.logNumber, st.logfile]
          else [st.logfile];
  }

  lemma LogNumbersBelow(st: State, ns: seq<nat>)
    requires Inv(st) && Relevant(st.disk.logs, Replay(st.disk.manifest).logNumber.value, ns)
    ensures forall n :: n in ns ==> n in st.disk.logs && n < st.nextFile
  {
    hide LogsMatch, ManifestMatches, SequenceInv, RecordedInv, VersionTables, WritingInv, JobInv, RefsInv, Replay;
  }

  /** From every state of every run a crash can be recovered from. */
  lemma RecoveryIsPossible(st: State) returns (st': State, ns: seq<nat>, dumped: map<nat, set<Entry>>, log: nat)
    requires Inv(st)
    ensures Reopen(st, st', ns, dumped, log)
  {
    hide Inv, Replay, MaxSeq, LogRecords, Relevant;
    ns := SomeRelevant(st);
    LogNumbersBelow(st, ns);
    ExactParts(st);
    var r := Replay(st.disk.manifest);
    var es := set e | e in LogRecords(st.disk.logs, ns);
    var n := r.nextFile.value + 1;
    dumped := if es == {} then map[] else map[n := es];
    log := n + st.nextFile + 1;
    assert es != {} ==> n in dumped && dumped[n] == es;
    assert (set m, e | m in dumped && e in dumped[m] :: e) == es;
    var zero, last := set m | m in dumped :: Loc(0, m), MaxSeq(LogRecords(st.disk.logs, ns), r.lastSeq.value);
    var snapshot, edit := Edit(None, None, None, {}, r.files), Edit(Some(log), Some(log + 1), Some(last), {}, zero);
    st' := State(Disk(st.disk.tables + dumped, st.disk.logs[log := []], [snapshot, edit]), [], None, None, log, log,
      log + 1, last, Versions(map[0 := Ver(r.files + zero, 1)], 0, map[]), {}, None, {}, None);
  }

  // ---- Runs ----

  ghost predicate Run(sts: seq<State>, evs: seq<Event>) {
    && |sts| == |evs| + 1
    && Init(sts[0])
    && forall i :: 0 <= i < |evs| ==> Step(sts[i], sts[i + 1], evs[i])
  }

  lemma StepKeepsInv(st: State, st': State, ev: Event)
    requires Inv(st) && Step(st, st', ev)
    ensures Inv(st')
  {
    hide Inv;
    match ev
    case EvLog(b) => LogKeepsInv(st, st', b);
    case EvApply => ApplyKeepsInv(st, st');
    case EvSwitch => SwitchKeepsInv(st, st');
    case EvStartFlush => StartFlushKeepsInv(st, st');
    case EvFinishFlush(level) => FinishFlushKeepsInv(st, st', level);
    case EvOpen => OpenKeepsInv(st, st');
    case EvFill(n, es) => FillKeepsInv(st, st', n, es);
    case EvFinishCompaction(deleted, added) => CompactionKeepsInv(st, st', deleted, added);
    case EvAppend => AppendKeepsInv(st, st');
    case EvInstall(id) => InstallKeepsInv(st, st', id);
    case EvAcquire(h) => AcquireKeepsInv(st, st', h);
    case EvRelease(h) => ReleaseKeepsInv(st, st', h);
    case EvDelete => DeleteKeepsInv(st, st');
    case EvReopen(ns, dumped, log) => ReopenKeepsInv(st, st', ns, dumped, log);
  }

  /** In every state of every run, crashes and reopenings included, a recovery is exact. */
  lemma {:induction false} EveryRunRecovers(sts: seq<State>, evs: seq<Event>, n: nat, ns: seq<nat>)
    requires Run(sts, evs) && n <= |evs|
    ensures Inv(sts[n])
    ensures Relevant(sts[n].disk.logs, Replay(sts[n].disk.manifest).logNumber.value, ns) ==> Exact(sts[n], ns)
  {
    hide Inv, Step, Exact, Relevant, Replay;
    if n == 0 {
      InitInv(sts[0]);
    } else {
      EveryRunRecovers(sts, evs, n - 1, ns);
      StepKeepsInv(sts[n - 1], sts[n], evs[n - 1]);
    }
    ExactParts(sts[n]);
    if Relevant(sts[n].disk.logs, Replay(sts[n].disk.manifest).logNumber.value, ns) {
      RecoveryIsExact(sts[n], ns);
    }
  }
}
