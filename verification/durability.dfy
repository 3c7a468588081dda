/** Logs, manifest and garbage collection: what a crash at any moment leaves on disk
    (db/db_impl Write, MakeRoomForWrite, CompactMemTable, Recover, DeleteObsoleteFiles; db/version_set LogAndApply). */
module Durability {
  import opened DbFormat

  // A table's place: level and file number.
  datatype Loc = Loc(level: nat, number: nat)

  // The fields of a VersionEdit that matter here; WriteSnapshot leaves the three numbers unset.
  datatype Edit = Edit(logNumber: Option<nat>, nextFile: Option<nat>, lastSeq: Option<nat>, deleted: set<Loc>,
                       added: set<Loc>)

  type Batch = seq<Entry>

  datatype Disk = Disk(tables: map<nat, set<Entry>>, logs: map<nat, seq<Batch>>, manifest: seq<Edit>)

  // A version in the list, with its reference count.
  datatype Ver = Ver(files: set<Loc>, refs: nat)

  datatype Versions = Versions(list: map<nat, Ver>, current: nat, holders: map<nat, nat>)

  // Background work on a new version: the edit, and whether its record is in the manifest yet.
  datatype Job = Job(edit: Edit, appended: bool, flush: bool)

  datatype State = State(disk: Disk, mem: Batch, imm: Option<Batch>, inflight: Option<Batch>, logfile: nat,
                         logNumber: nat, nextFile: nat, lastSeq: nat, vs: Versions, pendingOutputs: set<nat>,
                         flushing: Option<nat>, outputs: set<nat>, job: Option<Job>)

  function Apply(e: Edit, files: set<Loc>): set<Loc> {
    files - e.deleted + e.added
  }

  // ---- Replaying the manifest ----

  datatype Replayed = Replayed(files: set<Loc>, logNumber: Option<nat>, nextFile: Option<nat>, lastSeq: Option<nat>)

  function Or(a: Option<nat>, b: Option<nat>): Option<nat> {
    if a.Some? then a else b
  }

  function Replay(m: seq<Edit>): Replayed {
    if m == [] then Replayed({}, None, None, None)
    else
      var r, e := Replay(m[..|m| - 1]), m[|m| - 1];
      Replayed(Apply(e, r.files), Or(e.logNumber, r.logNumber), Or(e.nextFile, r.nextFile), Or(e.lastSeq, r.lastSeq))
  }

  /** The loop of VersionSet::Recover: None is its report of a missing mandatory field. */
  method RecoverManifest(m: seq<Edit>) returns (r: Option<Replayed>)
    ensures r.Some? <==> Replay(m).logNumber.Some? && Replay(m).nextFile.Some? && Replay(m).lastSeq.Some?
    ensures r.Some? ==> r.value == Replay(m)
  {
    var files: set<Loc> := {};
    var logNumber, nextFile, lastSeq := 0, 0, 0;
    var haveLogNumber, haveNextFile, haveLastSeq := false, false, false;
    for i := 0 to |m|
      invariant Replay(m[..i]) == Replayed(files, if haveLogNumber then Some(logNumber) else None,
                                           if haveNextFile then Some(nextFile) else None,
                                           if haveLastSeq then Some(lastSeq) else None)
    {
      assert m[..i + 1][..i] == m[..i];
      var e := m[i];
      files := Apply(e, files);
      if e.logNumber.Some? {
        logNumber, haveLogNumber := e.logNumber.value, true;
      }
      if e.nextFile.Some? {
        nextFile, haveNextFile := e.nextFile.value, true;
      }
      if e.lastSeq.Some? {
        lastSeq, haveLastSeq := e.lastSeq.value, true;
      }
    }
    assert m[..|m|] == m;
    if !haveNextFile || !haveLogNumber || !haveLastSeq {
      return None;
    }
    return Some(Replayed(files, Some(logNumber), Some(nextFile), Some(lastSeq)));
  }

  // ---- Replaying the logs ----

  // The records of the logs with the given numbers, in that order.
  function LogRecords(logs: map<nat, seq<Batch>>, ns: seq<nat>): seq<Entry>
    requires forall n :: n in ns ==> n in logs
  {
    if ns == [] then [] else LogRecords(logs, ns[..|ns| - 1]) + Flat(logs[ns[|ns| - 1]])
  }

  // The logs that DBImpl::Recover replays, oldest first.
  ghost predicate Relevant(logs: map<nat, seq<Batch>>, min: nat, ns: seq<nat>) {
    && (forall n :: n in ns <==> n in logs && n >= min)
    && (forall i, j :: 0 <= i < j < |ns| ==> ns[i] < ns[j])
  }

  function MaxSeq(es: seq<Entry>, base: nat): nat {
    if es == [] then base
    else
      var m := MaxSeq(es[..|es| - 1], base);
      if es[|es| - 1].sn > m then es[|es| - 1].sn else m
  }

  ghost function TableEntries(tables: map<nat, set<Entry>>, files: set<Loc>): set<Entry> {
    set l, e | l in files && l.number in tables && e in tables[l.number] :: e
  }

  // ---- Steps ----

  predicate Numbered(b: Batch, after: nat) {
    forall i :: 0 <= i < |b| ==> b[i].sn == after + 1 + i
  }

  predicate LogBatch(st: State, st': State, b: Batch) {
    && st.inflight.None? && Numbered(b, st.lastSeq) && st.logfile in st.disk.logs
    && st' == st.(inflight := Some(b),
                  disk := st.disk.(logs := st.disk.logs[st.logfile := st.disk.logs[st.logfile] + [b]]))
  }

  predicate ApplyBatch(st: State, st': State) {
    && st.inflight.Some?
    && st' == st.(inflight := None, mem := st.mem + st.inflight.value, lastSeq := st.lastSeq + |st.inflight.value|)
  }

  predicate SwitchLog(st: State, st': State) {
    && st.imm.None? && st.inflight.None?
    && st' == st.(imm := Some(st.mem), mem := [], logfile := st.nextFile, nextFile := st.nextFile + 1,
                  disk := st.disk.(logs := st.disk.logs[st.nextFile := []]))
  }

  // WriteLevel0Table up to its unlock.
  predicate StartFlush(st: State, st': State) {
    && st.imm.Some? && st.flushing.None? && st.job.None?
    && st' == st.(flushing := Some(st.nextFile), nextFile := st.nextFile + 1,
         pendingOutputs := st.pendingOutputs + {st.nextFile})
  }

  function FlushEdit(st: State, added: set<Loc>): Edit {
    Edit(Some(st.logfile), Some(st.nextFile), Some(st.lastSeq), {}, added)
  }

  /** The table is built, leaves pending_outputs_, and the edit drops the old log. */
  predicate FinishFlush(st: State, st': State, level: nat) {
    && st.flushing.Some? && st.imm.Some? && st.job.None?
    && var n := st.flushing.value;
    && var es := set e | e in st.imm.value;
    && st' == st.(flushing := None, pendingOutputs := st.pendingOutputs - {n},
                  disk := if es == {} then st.disk else st.disk.(tables := st.disk.tables[n := es]),
                  job := Some(Job(FlushEdit(st, if es == {} then {} else {Loc(level, n)}), false, true)))
  }

  predicate OpenOutput(st: State, st': State) {
    && st.job.None? && st.flushing.None?
    && st' == st.(outputs := st.outputs + {st.nextFile}, pendingOutputs := st.pendingOutputs + {st.nextFile},
                  nextFile := st.nextFile + 1, disk := st.disk.(tables := st.disk.tables[st.nextFile := {}]))
  }

  predicate FillOutput(st: State, st': State, n: nat, es: set<Entry>) {
    && n in st.outputs && st.job.None?
    && st' == st.(disk := st.disk.(tables := st.disk.tables[n := es]))
  }

  /** InstallCompactionResults, or a trivial move, up to the unlock in LogAndApply. */
  ghost predicate FinishCompaction(st: State, st': State, deleted: set<Loc>, added: set<Loc>) {
    && st.job.None? && st.flushing.None?
    && var cur := Current(st.vs);
    && deleted <= cur
    && (forall l :: l in added ==> l.number in st.outputs || exists d :: d in cur && d.number == l.number)
    && TableEntries(st.disk.tables, added) <= TableEntries(st.disk.tables, cur)
    && st' == st.(job := Some(Job(Edit(Some(st.logNumber), Some(st.nextFile), Some(st.lastSeq), deleted, added),
         false, false)))
  }

  predicate AppendRecord(st: State, st': State) {
    && st.job.Some? && !st.job.value.appended
    && st' == st.(job := Some(st.job.value.(appended := true)),
                  disk := st.disk.(manifest := st.disk.manifest + [st.job.value.edit]))
  }

  function Current(vs: Versions): set<Loc> {
    if vs.current in vs.list then vs.list[vs.current].files else {}
  }

  function Unref(list: map<nat, Ver>, id: nat): map<nat, Ver>
    requires id in list
  {
    if list[id].refs <= 1 then list - {id} else list[id := list[id].(refs := list[id].refs - 1)]
  }

  predicate FreshVersion(vs: Versions, id: nat) {
    id !in vs.list
  }

  /** VersionSet::AppendVersion: the old current version loses one reference. */
  function AppendVersion(vs: Versions, id: nat, files: set<Loc>): Versions
    requires vs.current in vs.list
  {
    vs.(list := Unref(vs.list, vs.current)[id := Ver(files, 1)], current := id)
  }

  predicate InstallVersion(st: State, st': State, id: nat) {
    && st.job.Some? && st.job.value.appended && st.vs.current in st.vs.list && FreshVersion(st.vs, id)
    && var j := st.job.value;
    && j.edit.logNumber.Some?
    && st' == st.(job := None, logNumber := j.edit.logNumber.value,
                  vs := AppendVersion(st.vs, id, Apply(j.edit, Current(st.vs))),
                  imm := if j.flush then None else st.imm,
                  pendingOutputs := if j.flush then st.pendingOutputs else st.pendingOutputs - st.outputs,
                  outputs := if j.flush then st.outputs else {})
  }

  predicate Acquire(st: State, st': State, h: nat) {
    && h !in st.vs.holders && st.vs.current in st.vs.list
    && var c := st.vs.current;
    && st' == st.(vs := st.vs.(list := st.vs.list[c := st.vs.list[c].(refs := st.vs.list[c].refs + 1)],
                               holders := st.vs.holders[h := c]))
  }

  predicate Release(st: State, st': State, h: nat) {
    && h in st.vs.holders && st.vs.holders[h] in st.vs.list
    && st' == st.(vs := st.vs.(list := Unref(st.vs.list, st.vs.holders[h]), holders := st.vs.holders - {h}))
  }

  // pending_outputs_ and AddLiveFiles over the version list.
  predicate Live(st: State, n: nat) {
    n in st.pendingOutputs || exists id, l :: id in st.vs.list && l in st.vs.list[id].files && l.number == n
  }

  /** DeleteObsoleteFiles, only ever called by the background thread between jobs. */
  ghost predicate DeleteObsolete(st: State, st': State) {
    && st.job.None? && st.flushing.None?
    && st' == st.(disk := st.disk.(
         tables := map n | n in st.disk.tables && Live(st, n) :: st.disk.tables[n],
         logs := map n | n in st.disk.logs && n >= st.logNumber :: st.disk.logs[n]))
  }

  /** A crash, then DB::Open: replay the manifest, turn every replayed log into level-0 tables, start afresh. */
  ghost predicate Reopen(st: State, st': State, ns: seq<nat>, dumped: map<nat, set<Entry>>, log: nat) {
    var r := Replay(st.disk.manifest);
    && r.logNumber.Some? && r.nextFile.Some? && r.lastSeq.Some?
    && Relevant(st.disk.logs, r.logNumber.value, ns)
    && var es := LogRecords(st.disk.logs, ns);
    // The dumped tables have new numbers and hold the replayed entries, in the order of the logs
    && (forall n :: n in dumped ==> r.nextFile.value < n < log && dumped[n] != {})
    && (set n, e | n in dumped && e in dumped[n] :: e) == (set e | e in es)
    && (forall m, n, x, y :: m in dumped && n in dumped && m < n && x in dumped[m] && y in dumped[n] ==> x.sn < y.sn)
    && r.nextFile.value < log && (forall n :: n in ns ==> n < log)
    && var tables := st.disk.tables + dumped;
    && var zero := set n | n in dumped :: Loc(0, n);
    && var last := MaxSeq(es, r.lastSeq.value);
    && var snapshot := Edit(None, None, None, {}, r.files);
    && var edit := Edit(Some(log), Some(log + 1), Some(last), {}, zero);
    && st' == State(Disk(tables, st.disk.logs[log := []], [snapshot, edit]), [], None, None, log, log, log + 1, last,
                    Versions(map[0 := Ver(r.files + zero, 1)], 0, map[]), {}, None, {}, None)
  }

  // DB::Open on an empty directory: NewDB's descriptor, recovered and rewritten with the first log.
  predicate Init(st: State) {
    st == State(Disk(map[], map[3 := []], [Edit(None, None, None, {}, {}), Edit(Some(3), Some(4), Some(0), {}, {})]),
                [], None, None, 3, 3, 4, 0, Versions(map[0 := Ver({}, 1)], 0, map[]), {}, None, {}, None)
  }

  datatype Event =
    | EvLog(b: Batch) | EvApply | EvSwitch | EvStartFlush | EvFinishFlush(level: nat)
    | EvOpen | EvFill(n: nat, es: set<Entry>) | EvFinishCompaction(deleted: set<Loc>, added: set<Loc>)
    | EvAppend | EvInstall(id: nat) | EvAcquire(h: nat) | EvRelease(h: nat) | EvDelete
    | EvReopen(ns: seq<nat>, dumped: map<nat, set<Entry>>, log: nat)

  ghost predicate Step(st: State, st': State, ev: Event) {
    match ev
    case EvLog(b) => LogBatch(st, st', b)
    case EvApply => ApplyBatch(st, st')
    case EvSwitch => SwitchLog(st, st')
    case EvStartFlush => StartFlush(st, st')
    case EvFinishFlush(level) => FinishFlush(st, st', level)
    case EvOpen => OpenOutput(st, st')
    case EvFill(n, es) => FillOutput(st, st', n, es)
    case EvFinishCompaction(deleted, added) => FinishCompaction(st, st', deleted, added)
    case EvAppend => AppendRecord(st, st')
    case EvInstall(id) => InstallVersion(st, st', id)
    case EvAcquire(h) => Acquire(st, st', h)
    case EvRelease(h) => Release(st, st', h)
    case EvDelete => DeleteObsolete(st, st')
    case EvReopen(ns, dumped, log) => Reopen(st, st', ns, dumped, log)
  }
}
