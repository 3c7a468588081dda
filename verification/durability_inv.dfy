/** What the engine keeps true between its memory and its disk. */
module DurabilityInv {
  import opened DbFormat
  import opened Durability

  ghost function Elements(b: Batch): set<Entry> {
    set e | e in b
  }

  function OptBatch(b: Option<Batch>): Batch {
    if b.Some? then b.value else []
  }

  // Sequence numbers rise and stay within the bound.
  predicate Ascending(es: seq<Entry>, upTo: nat) {
    && (forall i :: 0 <= i < |es| ==> es[i].sn <= upTo)
    && (forall i, j :: 0 <= i < j < |es| ==> es[i].sn < es[j].sn)
  }

  ghost predicate AllBelow(tables: set<Entry>, es: seq<Entry>) {
    forall t, e :: t in tables && e in es ==> t.sn < e.sn
  }

  /** The live logs hold exactly the unflushed writes: the old log the immutable memtable, the current one the rest. */
  ghost predicate LogsMatch(logs: map<nat, seq<Batch>>, logNumber: nat, logfile: nat, mem: Batch, imm: Option<Batch>,
                            inflight: Option<Batch>) {
    && logfile in logs && logNumber in logs
    && Flat(logs[logfile]) == mem + OptBatch(inflight)
    && (forall n :: n in logs && n >= logNumber ==> n == logNumber || n == logfile)
    && if imm.Some? then logNumber < logfile && Flat(logs[logNumber]) == imm.value else logNumber == logfile
  }

  ghost predicate Appended(job: Option<Job>) {
    job.Some? && job.value.appended
  }

  /** The manifest replays to the current version, or to the one about to be installed. */
  ghost predicate ManifestMatches(r: Replayed, cur: set<Loc>, logNumber: nat, job: Option<Job>) {
    && r.nextFile.Some? && r.lastSeq.Some?
    && if Appended(job) then
         r.files == Apply(job.value.edit, cur) && r.logNumber == job.value.edit.logNumber
         && r.lastSeq == job.value.edit.lastSeq && r.nextFile == job.value.edit.nextFile
       else
         r.files == cur && r.logNumber == Some(logNumber)
  }

  // Sequence numbers: tables, then the immutable memtable, then the memtable, then the batch being written.
  ghost predicate SequenceInv(tables: set<Entry>, imm: Option<Batch>, mem: Batch, inflight: Option<Batch>,
                              lastSeq: nat) {
    && (forall e :: e in tables ==> e.sn <= lastSeq)
    && AllBelow(tables, OptBatch(imm) + mem)
    && Ascending(OptBatch(imm) + mem, lastSeq)
    && (inflight.Some? ==> Numbered(inflight.value, lastSeq))
  }

  /** A recorded sequence number and the writes replayed after it give the last sequence number. */
  predicate Recovers(recorded: nat, replayed: seq<Entry>, lastSeq: nat) {
    recorded <= lastSeq && (if replayed == [] then recorded == lastSeq else replayed[|replayed| - 1].sn == lastSeq)
  }

  // What is left to replay once the edit of a flush is in force.
  function AfterFlush(flushed: bool, imm: Option<Batch>, mem: Batch): seq<Entry> {
    if flushed then mem else OptBatch(imm) + mem
  }

  ghost predicate RecordedInv(r: Replayed, job: Option<Job>, imm: Option<Batch>, mem: Batch, lastSeq: nat) {
    && r.lastSeq.Some?
    && Recovers(r.lastSeq.value, AfterFlush(Appended(job) && job.value.flush, imm, mem), lastSeq)
    && (job.Some? ==> job.value.edit.lastSeq.Some?
                      && Recovers(job.value.edit.lastSeq.value, AfterFlush(job.value.flush, imm, mem), lastSeq))
  }

  // Every table a version names exists; tables still being written belong to no version.
  ghost predicate VersionTables(tables: map<nat, set<Entry>>, list: map<nat, Ver>, writing: set<nat>, next: nat) {
    forall id, l :: id in list && l in list[id].files ==> l.number in tables && l.number !in writing && l.number < next
  }

  ghost predicate WritingInv(tables: map<nat, set<Entry>>, pending: set<nat>, outputs: set<nat>,
                             flushing: Option<nat>, next: nat) {
    && pending == outputs + Flushing(flushing)
    && (forall n :: n in pending ==> n < next)
    && (forall n :: n in outputs ==> n in tables)
    && (flushing.Some? ==> flushing.value !in outputs)
  }

  function Flushing(flushing: Option<nat>): set<nat> {
    if flushing.Some? then {flushing.value} else {}
  }

  ghost predicate NumbersBelow(files: set<Loc>, next: nat) {
    forall l :: l in files ==> l.number < next
  }

  ghost predicate NextFileInv(r: Replayed, logs: map<nat, seq<Batch>>, cur: set<Loc>, job: Option<Job>, next: nat) {
    && (forall n :: n in logs ==> n < next)
    && r.nextFile.Some? && NumbersBelow(r.files, r.nextFile.value)
    && (job.Some? ==>
          && job.value.edit.nextFile.Some?
          && NumbersBelow(Apply(job.value.edit, cur), job.value.edit.nextFile.value)
          && job.value.edit.nextFile.value <= next)
  }

  /** The edit under way replaces the immutable memtable by a table of the same entries, or tables by tables. */
  ghost predicate JobInv(tables: map<nat, set<Entry>>, cur: set<Loc>, j: Job, imm: Option<Batch>, logNumber: nat,
                         logfile: nat, outputs: set<nat>) {
    && (forall l :: l in j.edit.added ==> l.number in tables)
    && if j.flush then
         && imm.Some? && j.edit.logNumber == Some(logfile) && j.edit.deleted == {}
         && TableEntries(tables, j.edit.added) == Elements(imm.value)
         && (forall l :: l in j.edit.added ==> l.number !in outputs)
       else
         && j.edit.logNumber == Some(logNumber)
         && TableEntries(tables, j.edit.added) <= TableEntries(tables, cur)
  }

  ghost function HoldersOf(holders: map<nat, nat>, id: nat): set<nat> {
    set h | h in holders && holders[h] == id
  }

  /** Reference counts are exact, so a version leaves the list exactly when nobody can see it. */
  ghost predicate RefsInv(vs: Versions) {
    && vs.current in vs.list
    && (forall h :: h in vs.holders ==> vs.holders[h] in vs.list)
    && (forall id :: id in vs.list ==>
         vs.list[id].refs == |HoldersOf(vs.holders, id)| + (if id == vs.current then 1 else 0))
    && (forall id :: id in vs.list ==> vs.list[id].refs > 0)
  }

  ghost predicate Inv(st: State) {
    var r := Replay(st.disk.manifest);
    var cur := Current(st.vs);
    && LogsMatch(st.disk.logs, st.logNumber, st.logfile, st.mem, st.imm, st.inflight)
    && ManifestMatches(r, cur, st.logNumber, st.job)
    && SequenceInv(TableEntries(st.disk.tables, cur), st.imm, st.mem, st.inflight, st.lastSeq)
    && RecordedInv(r, st.job, st.imm, st.mem, st.lastSeq)
    && VersionTables(st.disk.tables, st.vs.list, st.pendingOutputs, st.nextFile)
    && WritingInv(st.disk.tables, st.pendingOutputs, st.outputs, st.flushing, st.nextFile)
    && NextFileInv(r, st.disk.logs, cur, st.job, st.nextFile)
    && (st.job.Some? ==>
          && st.flushing.None?
          && JobInv(st.disk.tables, cur, st.job.value, st.imm, st.logNumber, st.logfile, st.outputs))
    && (st.flushing.Some? ==> st.imm.Some?)
    && RefsInv(st.vs)
  }

  // ---- Recovery from an invariant state ----

  // The version that disk names: a compaction counts from the moment its record is in the manifest.
  function Durable(st: State): set<Loc> {
    if st.job.Some? && st.job.value.appended && !st.job.value.flush then Apply(st.job.value.edit, Current(st.vs))
    else Current(st.vs)
  }

  ghost function Contents(st: State): set<Entry> {
    Elements(st.mem) + Elements(OptBatch(st.imm)) + TableEntries(st.disk.tables, Durable(st))
  }

  lemma RelevantOne(logs: map<nat, seq<Batch>>, min: nat, ns: seq<nat>, n: nat)
    requires Relevant(logs, min, ns) && n in logs && n >= min
    requires forall m :: m in logs && m >= min ==> m == n
    ensures ns == [n]
  {
    assert |ns| < 2 || ns[0] < ns[1];
    assert n in ns;
    forall i | 0 <= i < |ns| ensures ns[i] == n { assert ns[i] in ns; }
  }

  lemma RelevantTwo(logs: map<nat, seq<Batch>>, min: nat, ns: seq<nat>, a: nat, b: nat)
    requires Relevant(logs, min, ns) && a in logs && b in logs && min <= a < b
    requires forall m :: m in logs && m >= min ==> m == a || m == b
    ensures ns == [a, b]
  {
    assert |ns| < 3 || ns[0] < ns[1] < ns[2];
    assert a in ns && b in ns;
    forall i | 0 <= i < |ns| ensures ns[i] == a || ns[i] == b { assert ns[i] in ns; }
  }

  lemma LogRecordsOne(logs: map<nat, seq<Batch>>, n: nat)
    requires n in logs
    ensures LogRecords(logs, [n]) == Flat(logs[n])
  {
  }

  lemma LogRecordsTwo(logs: map<nat, seq<Batch>>, a: nat, b: nat)
    requires a in logs && b in logs
    ensures LogRecords(logs, [a, b]) == Flat(logs[a]) + Flat(logs[b])
  {
    assert [a, b][..1] == [a];
    LogRecordsOne(logs, a);
  }

  /** The logs a recovery replays hold the unflushed writes, in order. */
  lemma ReplayedLogs(st: State, ns: seq<nat>)
    requires Inv(st) && Relevant(st.disk.logs, Replay(st.disk.manifest).logNumber.value, ns)
    ensures LogRecords(st.disk.logs, ns) ==
            AfterFlush(Appended(st.job) && st.job.value.flush, st.imm, st.mem) + OptBatch(st.inflight)
  {
    hide SequenceInv, RecordedInv, VersionTables, WritingInv, NextFileInv, RefsInv, TableEntries, Replay;
    var logs := st.disk.logs;
    if st.imm.Some? && !(Appended(st.job) && st.job.value.flush) {
      RelevantTwo(logs, st.logNumber, ns, st.logNumber, st.logfile);
      LogRecordsTwo(logs, st.logNumber, st.logfile);
      assert st.imm.value + (st.mem + OptBatch(st.inflight)) == st.imm.value + st.mem + OptBatch(st.inflight);
    } else {
      RelevantOne(logs, st.logfile, ns, st.logfile);
      LogRecordsOne(logs, st.logfile);
      assert [] + st.mem == st.mem;
    }
  }

  lemma {:induction false} MaxSeqAscending(es: seq<Entry>, base: nat)
    requires forall i, j :: 0 <= i < j < |es| ==> es[i].sn < es[j].sn
    ensures MaxSeq(es, base) == if es == [] || es[|es| - 1].sn <= base then base else es[|es| - 1].sn
  {
    if es != [] {
      MaxSeqAscending(es[..|es| - 1], base);
    }
  }

  lemma TableUnion(tables: map<nat, set<Entry>>, a: set<Loc>, b: set<Loc>)
    ensures TableEntries(tables, a + b) == TableEntries(tables, a) + TableEntries(tables, b)
  {
  }

  lemma NumberedAscends(es: seq<Entry>, b: Batch, last: nat)
    requires Ascending(es, last) && Numbered(b, last)
    ensures Ascending(es + b, last + |b|)
  {
  }

  ghost predicate Exact(st: State, ns: seq<nat>) {
    var r := Replay(st.disk.manifest);
    && r.logNumber.Some? && r.nextFile.Some? && r.lastSeq.Some?
    && (forall n :: n in ns ==> n in st.disk.logs)
    && var es := LogRecords(st.disk.logs, ns);
    // No table is missing
    && (forall l :: l in r.files ==> l.number in st.disk.tables)
    // Nothing is lost and nothing comes back that was not there
    && TableEntries(st.disk.tables, r.files) + Elements(es) == Contents(st) + Elements(OptBatch(st.inflight))
    // Nothing is applied twice: replayed writes rise, above everything in the tables
    && Ascending(es, MaxSeq(es, r.lastSeq.value)) && AllBelow(TableEntries(st.disk.tables, r.files), es)
    && MaxSeq(es, r.lastSeq.value) == st.lastSeq + |OptBatch(st.inflight)|
  }

  lemma ExactSequence(recorded: nat, base: seq<Entry>, inflight: Option<Batch>, lastSeq: nat)
    requires Ascending(base, lastSeq) && Recovers(recorded, base, lastSeq)
    requires inflight.Some? ==> Numbered(inflight.value, lastSeq)
    ensures var es := base + OptBatch(inflight);
            && MaxSeq(es, recorded) == lastSeq + |OptBatch(inflight)|
            && Ascending(es, MaxSeq(es, recorded))
  {
    var es := base + OptBatch(inflight);
    NumberedAscends(base, OptBatch(inflight), lastSeq);
    MaxSeqAscending(es, recorded);
  }

  lemma AfterFlushAscends(flushed: bool, imm: Option<Batch>, mem: Batch, lastSeq: nat)
    requires Ascending(OptBatch(imm) + mem, lastSeq)
    ensures Ascending(AfterFlush(flushed, imm, mem), lastSeq)
  {
    Suffix(OptBatch(imm), mem, lastSeq);
  }

  lemma Suffix(a: seq<Entry>, b: seq<Entry>, lastSeq: nat)
    requires Ascending(a + b, lastSeq)
    ensures Ascending(b, lastSeq)
  {
    assert b == (a + b)[|a|..];
  }

  lemma ExactTables(st: State, es: seq<Entry>)
    requires Inv(st)
    requires es == AfterFlush(Appended(st.job) && st.job.value.flush, st.imm, st.mem) + OptBatch(st.inflight)
    ensures var files := Replay(st.disk.manifest).files;
            && TableEntries(st.disk.tables, files) + Elements(es) == Contents(st) + Elements(OptBatch(st.inflight))
            && AllBelow(TableEntries(st.disk.tables, files), es)
  {
    hide VersionTables, WritingInv, NextFileInv, RefsInv, LogsMatch, Replay, RecordedInv;
    var tables, cur := st.disk.tables, Current(st.vs);
    if Appended(st.job) {
      var e := st.job.value.edit;
      TableUnion(tables, cur - e.deleted, e.added);
      assert TableEntries(tables, cur - e.deleted) <= TableEntries(tables, cur);
      if st.job.value.flush {
        assert cur - e.deleted == cur;
        BelowMem(TableEntries(tables, cur), st.imm.value, st.mem, st.lastSeq);
        FlushedBound(st.imm.value, st.mem, st.lastSeq);
      }
    }
  }

  lemma FlushedBound(imm: Batch, mem: Batch, lastSeq: nat)
    requires Ascending(imm + mem, lastSeq)
    ensures forall e :: e in imm ==> e.sn <= lastSeq
  {
    assert forall i :: 0 <= i < |imm| ==> imm[i] == (imm + mem)[i];
  }

  lemma BelowMem(tables: set<Entry>, imm: Batch, mem: Batch, lastSeq: nat)
    requires Ascending(imm + mem, lastSeq) && AllBelow(tables, imm + mem)
    ensures AllBelow(tables + Elements(imm), mem)
  {
    forall t, e | t in tables + Elements(imm) && e in mem ensures t.sn < e.sn {
      var j :| 0 <= j < |mem| && mem[j] == e;
      assert (imm + mem)[|imm| + j] == e;
      if t in Elements(imm) {
        var i :| 0 <= i < |imm| && imm[i] == t;
        assert (imm + mem)[i] == t;
      }
    }
  }

  lemma ExactFiles(st: State)
    requires Inv(st)
    ensures forall l :: l in Replay(st.disk.manifest).files ==> l.number in st.disk.tables
  {
  }

  /** A crash in any invariant state recovers exactly what memory and disk held, plus the one batch being written. */
  lemma RecoveryIsExact(st: State, ns: seq<nat>)
    requires Inv(st) && Relevant(st.disk.logs, Replay(st.disk.manifest).logNumber.value, ns)
    ensures Exact(st, ns)
  {
    assert forall n :: n in ns ==> n in st.disk.logs;
    hide *;
    ReplayedLogs(st, ns);
    var es := LogRecords(st.disk.logs, ns);
    ExactLast(st, es);
    ExactTables(st, es);
    ExactFiles(st);
    ExactParts(st);
    ExactAll(st, ns);
  }

  lemma ExactAll(st: State, ns: seq<nat>)
    requires var r := Replay(st.disk.manifest);
             && r.logNumber.Some? && r.nextFile.Some? && r.lastSeq.Some?
             && (forall n :: n in ns ==> n in st.disk.logs)
             && (forall l :: l in r.files ==> l.number in st.disk.tables)
             && var es := LogRecords(st.disk.logs, ns);
             && TableEntries(st.disk.tables, r.files) + Elements(es) == Contents(st) + Elements(OptBatch(st.inflight))
             && AllBelow(TableEntries(st.disk.tables, r.files), es)
             && MaxSeq(es, r.lastSeq.value) == st.lastSeq + |OptBatch(st.inflight)|
             && Ascending(es, MaxSeq(es, r.lastSeq.value))
    ensures Exact(st, ns)
  {
  }

  lemma ExactLast(st: State, es: seq<Entry>)
    requires Inv(st)
    requires es == AfterFlush(Appended(st.job) && st.job.value.flush, st.imm, st.mem) + OptBatch(st.inflight)
    ensures var r := Replay(st.disk.manifest);
            && r.lastSeq.Some?
            && MaxSeq(es, r.lastSeq.value) == st.lastSeq + |OptBatch(st.inflight)|
            && Ascending(es, MaxSeq(es, r.lastSeq.value))
  {
    hide VersionTables, WritingInv, NextFileInv, RefsInv, LogsMatch, Replay, TableEntries, MaxSeq, JobInv;
    hide Ascending, Numbered, AllBelow, Recovers, AfterFlush;
    var flushed := Appended(st.job) && st.job.value.flush;
    AfterFlushAscends(flushed, st.imm, st.mem, st.lastSeq);
    ExactSequence(Replay(st.disk.manifest).lastSeq.value, AfterFlush(flushed, st.imm, st.mem), st.inflight, st.lastSeq);
  }

  lemma ExactParts(st: State)
    requires Inv(st)
    ensures var r := Replay(st.disk.manifest); r.logNumber.Some? && r.nextFile.Some? && r.lastSeq.Some?
  {
  }
}
