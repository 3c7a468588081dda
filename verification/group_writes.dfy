/** DBImpl::Write as interleaved steps: a queue of writers whose front logs and applies for a group. */
module GroupWrites {
  import opened DbFormat

  type Update = (UserKey, Op)

  // One call of Write; no batch asks for a compaction.
  datatype Call = Call(batch: Option<seq<Update>>, sync: bool)

  datatype Stage = Built | Logged | Synced

  // The front writer at work, with the mutex released: `size` writers share one log record.
  datatype Group = Nobody | Group(size: nat, stage: Stage, inserted: nat)

  datatype Record = Record(first: nat, updates: seq<Update>)

  // arrivals lists every call in queue order; the first `done` of them have returned. log lists the records of all log
  // files, the current file from `file` on; synced names the records known to be on disk. mem lists what went into this
  // memtable and earlier ones.
  datatype State = State(arrivals: seq<Call>, done: nat, group: Group, log: seq<Record>, file: nat, synced: set<nat>,
                         mem: seq<(nat, Update)>, lastSequence: nat)

  function Updates(c: Call): seq<Update> {
    if c.batch.Some? then c.batch.value else []
  }

  function All(cs: seq<Call>): seq<Update> {
    if cs == [] then [] else All(cs[..|cs| - 1]) + Updates(cs[|cs| - 1])
  }

  function LogUpdates(log: seq<Record>): seq<Update> {
    if log == [] then [] else LogUpdates(log[..|log| - 1]) + log[|log| - 1].updates
  }

  // ---- Steps ----

  predicate Arrive(st: State, st': State, c: Call) {
    st' == st.(arrivals := st.arrivals + [c])
  }

  /** MakeRoomForWrite, by the front writer: later records go to a new log file. */
  predicate SwitchLog(st: State, st': State) {
    st.group.Nobody? && st.done < |st.arrivals| && st' == st.(file := |st.log|)
  }

  /** BuildBatchGroup, by the front writer: no sync write in a group led by a non-sync write. */
  predicate Build(st: State, st': State, n: nat) {
    && st.group.Nobody? && 1 <= n && st.done + n <= |st.arrivals| && st.arrivals[st.done].batch.Some?
    && (!st.arrivals[st.done].sync ==> forall i :: st.done <= i < st.done + n ==> !st.arrivals[i].sync)
    && st' == st.(group := Group(n, Built, 0))
  }

  // A front writer without a batch returns by itself.
  predicate LeaveEmpty(st: State, st': State) {
    && st.group.Nobody? && st.done < |st.arrivals| && st.arrivals[st.done].batch.None?
    && st' == st.(done := st.done + 1)
  }

  function GroupUpdates(st: State): seq<Update>
    requires st.group.Group? && st.done + st.group.size <= |st.arrivals|
  {
    All(st.arrivals[st.done..st.done + st.group.size])
  }

  predicate Working(st: State) {
    st.group.Group? && 1 <= st.group.size && st.done + st.group.size <= |st.arrivals|
  }

  predicate AddRecord(st: State, st': State) {
    && Working(st) && st.group.stage.Built?
    && st' == st.(log := st.log + [Record(st.lastSequence + 1, GroupUpdates(st))], group := st.group.(stage := Logged))
  }

  predicate InFile(st: State, i: nat) {
    st.file <= i
  }

  /** logfile_->Sync() reaches the current file only. */
  predicate SyncLog(st: State, st': State) {
    && Working(st) && st.group.stage.Logged? && st.arrivals[st.done].sync
    && st' == st.(synced := st.synced + (set i | 0 <= i < |st.log| && InFile(st, i)),
         group := st.group.(stage := Synced))
  }

  predicate MayApply(st: State) {
    Working(st) && (st.group.stage.Synced? || (st.group.stage.Logged? && !st.arrivals[st.done].sync))
  }

  /** InsertInto, one update at a time while readers run. */
  predicate InsertOne(st: State, st': State) {
    && MayApply(st) && st.group.inserted < |GroupUpdates(st)|
    && st' == st.(mem := st.mem + [(st.lastSequence + 1 + st.group.inserted, GroupUpdates(st)[st.group.inserted])],
                  group := st.group.(inserted := st.group.inserted + 1))
  }

  /** Under the mutex again: publish the sequence number and wake the group. */
  predicate Finish(st: State, st': State) {
    && MayApply(st) && st.group.inserted == |GroupUpdates(st)|
    && st' == st.(lastSequence := st.lastSequence + |GroupUpdates(st)|, done := st.done + st.group.size,
         group := Nobody)
  }

  datatype Event = EArrive(c: Call) | EBuild(n: nat) | ESwitch | EEmpty | EAdd | ESync | EInsert | EFinish

  predicate Step(st: State, st': State, e: Event) {
    match e
    case EArrive(c) => Arrive(st, st', c)
    case EBuild(n) => Build(st, st', n)
    case ESwitch => SwitchLog(st, st')
    case EEmpty => LeaveEmpty(st, st')
    case EAdd => AddRecord(st, st')
    case ESync => SyncLog(st, st')
    case EInsert => InsertOne(st, st')
    case EFinish => Finish(st, st')
  }

  predicate Init(st: State) {
    st == State([], 0, Nobody, [], 0, {}, [], 0)
  }

  // ---- Invariant ----

  // Calls whose updates are in the log.
  function InLog(st: State): nat {
    st.done + if st.group.Group? && !st.group.stage.Built? then st.group.size else 0
  }

  predicate Counters(st: State) {
    && st.done <= |st.arrivals| && (st.group.Group? ==> Working(st)) && st.file <= |st.log|
    && (st.group.Group? && st.group.stage.Built? ==> st.group.inserted == 0)
    && st.lastSequence == |All(st.arrivals[..st.done])|
  }

  predicate GroupRule(st: State) {
    st.group.Group? && st.done < |st.arrivals| && !st.arrivals[st.done].sync ==>
      forall i :: st.done <= i < st.done + st.group.size && i < |st.arrivals| ==> !st.arrivals[i].sync
  }

  // Sequence ranges are contiguous: each record starts where the one before it ended.
  predicate Contiguous(log: seq<Record>) {
    forall i :: 0 <= i < |log| ==> log[i].first == 1 + |LogUpdates(log[..i])|
  }

  /** The log holds the calls' updates in queue order, each exactly once. */
  predicate LogInv(st: State) {
    && InLog(st) <= |st.arrivals| && LogUpdates(st.log) == All(st.arrivals[..InLog(st)]) && Contiguous(st.log)
  }

  // The memtable holds the updates of all returned calls and the first few of the group's, numbered from 1.
  predicate MemInv(st: State) {
    && st.done <= |st.arrivals|
    && var all := All(st.arrivals[..InLogOrDone(st)]);
    && |st.mem| == st.lastSequence + (if st.group.Group? then st.group.inserted else 0) <= |all|
    && forall i :: 0 <= i < |st.mem| ==> st.mem[i] == (i + 1, all[i])
  }

  function InLogOrDone(st: State): (r: nat)
    ensures r <= |st.arrivals|
  {
    if InLog(st) <= |st.arrivals| then InLog(st) else |st.arrivals|
  }

  // Record j of the log is on disk and holds all updates of call c.
  predicate OnDisk(st: State, c: nat, j: nat)
    requires c < |st.arrivals|
  {
    && j < |st.log| && j in st.synced
    && st.log[j].first <= |All(st.arrivals[..c])| + 1
    && |All(st.arrivals[..c + 1])| + 1 <= st.log[j].first + |st.log[j].updates|
  }

  // The group's record is the last one, in the current file.
  predicate GroupLogged(st: State) {
    Working(st) && !st.group.stage.Built? ==>
      && st.file < |st.log| && st.log[|st.log| - 1] == Record(st.lastSequence + 1, GroupUpdates(st))
      && (st.group.stage.Synced? ==> |st.log| - 1 in st.synced)
  }

  // The updates of every returned sync call are on disk.
  ghost predicate SyncInv(st: State) {
    && st.done <= |st.arrivals| && GroupLogged(st)
    && forall c :: 0 <= c < st.done && st.arrivals[c].sync && Updates(st.arrivals[c]) != [] ==>
         exists j :: OnDisk(st, c, j)
  }

  ghost predicate Inv(st: State) {
    Counters(st) && GroupRule(st) && LogInv(st) && MemInv(st) && SyncInv(st)
  }

  lemma AllAppend(cs: seq<Call>, c: Call)
    ensures All(cs + [c]) == All(cs) + Updates(c)
  {
  }

  lemma NoCalls()
    ensures All([]) == []
  {
  }

  lemma {:induction false} AllConcat(a: seq<Call>, b: seq<Call>)
    ensures All(a + b) == All(a) + All(b)
  {
    hide Updates, All;
    NoCalls();
    if b == [] {
      assert a + b == a;
    } else {
      var init, c := b[..|b| - 1], b[|b| - 1];
      AllConcat(a, init);
      AllAppend(a + init, c);
      AllAppend(init, c);
      assert a + b == (a + init) + [c] && b == init + [c];
      assert All(a + b) == All(a) + All(init) + Updates(c);
    }
  }

  lemma AllStep(cs: seq<Call>, i: nat)
    requires i < |cs|
    ensures All(cs[..i + 1]) == All(cs[..i]) + Updates(cs[i])
  {
    AllAppend(cs[..i], cs[i]);
    assert cs[..i + 1] == cs[..i] + [cs[i]];
  }

  lemma AllUpTo(cs: seq<Call>, i: nat, j: nat)
    requires i <= j <= |cs|
    ensures All(cs[..j]) == All(cs[..i]) + All(cs[i..j])
  {
    AllConcat(cs[..i], cs[i..j]);
    assert cs[..j] == cs[..i] + cs[i..j];
  }

  lemma LogAppend(log: seq<Record>, r: Record)
    ensures LogUpdates(log + [r]) == LogUpdates(log) + r.updates
  {
  }

  // What a step that leaves the queue's front alone and only adds to log and synced keeps.
  lemma StaysOnDisk(st: State, st': State)
    requires SyncInv(st) && st'.done == st.done && st.arrivals <= st'.arrivals && st.log <= st'.log &&
             st.synced <= st'.synced
    requires GroupLogged(st')
    ensures SyncInv(st')
  {
    hide All, LogUpdates, GroupLogged;
    forall c | 0 <= c < st.done && st.arrivals[c].sync &&
        Updates(st.arrivals[c]) != [] ensures exists j :: OnDisk(st', c, j) {
      var j :| OnDisk(st, c, j);
      assert st'.arrivals[..c] == st.arrivals[..c] && st'.arrivals[..c + 1] == st.arrivals[..c + 1];
      assert OnDisk(st', c, j);
    }
  }

  lemma ArriveKeepsInv(st: State, st': State, c: Call)
    requires Inv(st) && Arrive(st, st', c)
    ensures Inv(st')
  {
    hide All, LogUpdates, OnDisk;
    assert forall i :: 0 <= i <= |st.arrivals| ==> st'.arrivals[..i] == st.arrivals[..i];
    assert st.group.Group? ==>
        st'.arrivals[st.done..st.done + st.group.size] == st.arrivals[st.done..st.done + st.group.size];
    StaysOnDisk(st, st');
  }

  lemma BuildKeepsInv(st: State, st': State, n: nat)
    requires Inv(st) && Build(st, st', n)
    ensures Inv(st')
  {
    hide All, LogUpdates, OnDisk;
    StaysOnDisk(st, st');
  }

  lemma SwitchKeepsInv(st: State, st': State)
    requires Inv(st) && SwitchLog(st, st')
    ensures Inv(st')
  {
    hide All, LogUpdates, OnDisk;
    StaysOnDisk(st, st');
  }

  lemma EmptyKeepsInv(st: State, st': State)
    requires Inv(st) && LeaveEmpty(st, st')
    ensures Inv(st')
  {
    hide LogUpdates, All, SyncInv;
    AllStep(st.arrivals, st.done);
    EmptyStaysOnDisk(st, st');
  }

  lemma EmptyStaysOnDisk(st: State, st': State)
    requires SyncInv(st) && LeaveEmpty(st, st')
    ensures SyncInv(st')
  {
    hide All, LogUpdates;
    forall c | 0 <= c < st'.done && st.arrivals[c].sync &&
        Updates(st.arrivals[c]) != [] ensures exists j :: OnDisk(st', c, j) {
      var j :| OnDisk(st, c, j);
      assert OnDisk(st', c, j);
    }
  }

  lemma AddKeepsInv(st: State, st': State)
    requires Inv(st) && AddRecord(st, st')
    ensures Inv(st')
  {
    hide All, LogUpdates, OnDisk;
    var r := Record(st.lastSequence + 1, GroupUpdates(st));
    LogAppend(st.log, r);
    AllUpTo(st.arrivals, st.done, st.done + st.group.size);
    assert forall i :: 0 <= i <= |st.log| ==> st'.log[..i] == st.log[..i];
    assert st.log[..|st.log|] == st.log;
    StaysOnDisk(st, st');
  }

  lemma InsertKeepsInv(st: State, st': State)
    requires Inv(st) && InsertOne(st, st')
    ensures Inv(st')
  {
    hide All, LogUpdates, OnDisk;
    AllUpTo(st.arrivals, st.done, st.done + st.group.size);
    StaysOnDisk(st, st');
  }

  /** The group's record holds the updates of each of its calls. */
  lemma GroupOnDisk(st: State, c: nat)
    requires Counters(st) && GroupLogged(st) && Working(st) && st.group.stage.Synced? &&
             st.done <= c < st.done + st.group.size
    ensures OnDisk(st, c, |st.log| - 1)
  {
    hide All, LogUpdates;
    var n := st.done + st.group.size;
    AllUpTo(st.arrivals, st.done, n);
    AllUpTo(st.arrivals, st.done, c);
    AllUpTo(st.arrivals, c + 1, n);
  }

  lemma FinishStaysOnDisk(st: State, st': State)
    requires Counters(st) && GroupRule(st) && SyncInv(st) && Finish(st, st')
    ensures SyncInv(st')
  {
    hide All, LogUpdates, GroupUpdates;
    forall c | 0 <= c < st'.done && st.arrivals[c].sync &&
        Updates(st.arrivals[c]) != [] ensures exists j :: OnDisk(st', c, j) {
      if c < st.done {
        var j :| OnDisk(st, c, j);
        assert OnDisk(st', c, j);
      } else {
        GroupOnDisk(st, c);
        assert OnDisk(st', c, |st.log| - 1);
      }
    }
  }

  lemma FinishKeepsInv(st: State, st': State)
    requires Inv(st) && Finish(st, st')
    ensures Inv(st')
  {
    hide All, LogUpdates, Contiguous, SyncInv;
    AllUpTo(st.arrivals, st.done, st.done + st.group.size);
    FinishStaysOnDisk(st, st');
  }

  lemma StepKeepsInv(st: State, st': State, e: Event)
    requires Inv(st) && Step(st, st', e)
    ensures Inv(st')
  {
    hide Inv, Arrive, Build, SwitchLog, LeaveEmpty, AddRecord, SyncLog, InsertOne, Finish;
    match e {
      case EArrive(c) => ArriveKeepsInv(st, st', c);
      case EBuild(n) => BuildKeepsInv(st, st', n);
      case ESwitch => SwitchKeepsInv(st, st');
      case EEmpty => EmptyKeepsInv(st, st');
      case EAdd => AddKeepsInv(st, st');
      case ESync => SyncKeepsInv(st, st');
      case EInsert => InsertKeepsInv(st, st');
      case EFinish => FinishKeepsInv(st, st');
    }
  }

  lemma SyncKeepsInv(st: State, st': State)
    requires Inv(st) && SyncLog(st, st')
    ensures Inv(st')
  {
    hide All, LogUpdates, OnDisk;
    assert InFile(st, |st.log| - 1);
    StaysOnDisk(st, st');
  }

  // ---- Whole runs ----

  predicate Run(sts: seq<State>, evs: seq<Event>) {
    |sts| == |evs| + 1 && forall i :: 0 <= i < |evs| ==> Step(sts[i], sts[i + 1], evs[i])
  }

  lemma {:induction false} RunsKeepInv(sts: seq<State>, evs: seq<Event>, i: nat)
    requires Run(sts, evs) && Init(sts[0]) && i <= |evs|
    ensures Inv(sts[i])
  {
    if i > 0 {
      RunsKeepInv(sts, evs, i - 1);
      assert Step(sts[i - 1], sts[i], evs[i - 1]);
      StepKeepsInv(sts[i - 1], sts[i], evs[i - 1]);
    }
  }

  // The calls made, in the order they entered the queue.
  function CallsOf(evs: seq<Event>): seq<Call> {
    if evs == [] then []
    else CallsOf(evs[..|evs| - 1]) + if evs[|evs| - 1].EArrive? then [evs[|evs| - 1].c] else []
  }

  lemma {:induction false} QueueIsCalls(sts: seq<State>, evs: seq<Event>, n: nat)
    requires Run(sts, evs) && Init(sts[0]) && n <= |evs|
    ensures sts[n].arrivals == CallsOf(evs[..n])
  {
    if n > 0 {
      QueueIsCalls(sts, evs, n - 1);
      assert Step(sts[n - 1], sts[n], evs[n - 1]);
      assert evs[..n][..n - 1] == evs[..n - 1];
    }
  }

  /** Whatever the interleaving, the log is the calls' updates in queue order, each once, numbered without gaps. */
  lemma LogIsQueue(sts: seq<State>, evs: seq<Event>)
    requires Run(sts, evs) && Init(sts[0])
    ensures var st := sts[|evs|];
            && st.arrivals == CallsOf(evs) && st.done <= InLog(st) <= |st.arrivals|
            && LogUpdates(st.log) == All(st.arrivals[..InLog(st)]) && Contiguous(st.log)
  {
    RunsKeepInv(sts, evs, |evs|);
    QueueIsCalls(sts, evs, |evs|);
    assert evs[..|evs|] == evs;
  }

  /** A reader at LastSequence sees a call's updates all or not at all, and the memtable already holds those it sees. */
  lemma BatchesAreAtomic(sts: seq<State>, evs: seq<Event>, c: nat)
    requires Run(sts, evs) && Init(sts[0]) && c < |sts[|evs|].arrivals|
    ensures var st := sts[|evs|]; var lo, hi := |All(st.arrivals[..c])|, |All(st.arrivals[..c + 1])|;
            && hi == lo + |Updates(st.arrivals[c])|
            && if c < st.done then
              && hi <= st.lastSequence <= |st.mem|
              && forall i :: lo <= i < hi ==> st.mem[i] == (i + 1, Updates(st.arrivals[c])[i - lo])
            else st.lastSequence <= lo
  {
    hide LogUpdates, All, Step, SyncInv, LogInv;
    RunsKeepInv(sts, evs, |evs|);
    var st := sts[|evs|];
    AllStep(st.arrivals, c);
    if c < st.done {
      AllUpTo(st.arrivals, c + 1, st.done);
      AllUpTo(st.arrivals, c + 1, InLogOrDone(st));
    } else {
      AllUpTo(st.arrivals, st.done, c);
    }
  }

  /** A sync call returns only after its updates are on disk, whichever log file they went to. */
  lemma SyncedBeforeReturn(sts: seq<State>, evs: seq<Event>, c: nat)
    requires Run(sts, evs) && Init(sts[0]) && c < sts[|evs|].done <= |sts[|evs|].arrivals|
    requires sts[|evs|].arrivals[c].sync && Updates(sts[|evs|].arrivals[c]) != []
    ensures exists j :: OnDisk(sts[|evs|], c, j)
  {
    RunsKeepInv(sts, evs, |evs|);
  }

  // ---- Nobody is left waiting ----

  function StagesLeft(g: Group): nat {
    if g.Nobody? then 4 else if g.stage.Built? then 3 else if g.stage.Logged? then 2 else 1
  }

  function InsertsLeft(st: State): nat {
    if Working(st) && st.group.inserted <= |GroupUpdates(st)| then |GroupUpdates(st)| - st.group.inserted else 0
  }

  // The step the front writer takes next.
  ghost predicate Advances(st: State, st': State, e: Event) {
    && Step(st, st', e) && !e.EArrive? && st'.arrivals == st.arrivals && st'.done <= |st.arrivals|
    && if st'.done > st.done then true
       else st'.done == st.done && (StagesLeft(st'.group) < StagesLeft(st.group)
              || (st'.group.Group? && st'.group.(inserted := 0) == st.group.(inserted := 0)
                  && InsertsLeft(st') < InsertsLeft(st)))
  }

  lemma FrontStarts(st: State) returns (st': State, e: Event)
    requires Counters(st) && st.group.Nobody? && st.done < |st.arrivals|
    ensures Advances(st, st', e)
  {
    hide All;
    if st.arrivals[st.done].batch.None? {
      st', e := st.(done := st.done + 1), EEmpty;
    } else {
      st', e := st.(group := Group(1, Built, 0)), EBuild(1);
    }
  }

  lemma FrontGoesOn(st: State) returns (st': State, e: Event)
    requires Counters(st) && MemInv(st) && st.group.Group?
    ensures Advances(st, st', e)
  {
    hide All;
    InsertedBound(st);
    if st.group.stage.Built? {
      e := EAdd;
      st' := st.(log := st.log + [Record(st.lastSequence + 1, GroupUpdates(st))], group := st.group.(stage := Logged));
    } else if st.group.stage.Logged? && st.arrivals[st.done].sync {
      e := ESync;
      st' := st.(synced := st.synced + (set i | 0 <= i < |st.log| && InFile(st, i)),
                 group := st.group.(stage := Synced));
    } else if st.group.inserted < |GroupUpdates(st)| {
      e := EInsert;
      st' := st.(mem := st.mem + [(st.lastSequence + 1 + st.group.inserted, GroupUpdates(st)[st.group.inserted])],
                 group := st.group.(inserted := st.group.inserted + 1));
    } else {
      e := EFinish;
      st' := st.(lastSequence := st.lastSequence + |GroupUpdates(st)|, done := st.done + st.group.size,
                 group := Nobody);
    }
  }

  lemma InsertedBound(st: State)
    requires Counters(st) && MemInv(st) && st.group.Group?
    ensures st.group.inserted <= |GroupUpdates(st)|
  {
    hide All;
    if !st.group.stage.Built? { AllUpTo(st.arrivals, st.done, st.done + st.group.size); }
  }

  ghost predicate Leads(st: State, sts: seq<State>, evs: seq<Event>) {
    Run(sts, evs) && sts[0] == st
  }

  lemma Prepend(st: State, st': State, e: Event, sts: seq<State>, evs: seq<Event>)
    requires Step(st, st', e) && Leads(st', sts, evs)
    ensures Leads(st, [st] + sts, [e] + evs)
  {
    hide Step;
    var ss, es := [st] + sts, [e] + evs;
    forall i | 0 <= i < |es| ensures Step(ss[i], ss[i + 1], es[i]) {
      assert i > 0 ==> ss[i] == sts[i - 1] && es[i] == evs[i - 1];
    }
  }

  /** From every state of every run the calls already made can all return, with no further call needed. */
  lemma {:induction false} EveryCallCanReturn(st: State) returns (sts: seq<State>, evs: seq<Event>)
    requires Inv(st)
    ensures Leads(st, sts, evs) && forall i :: 0 <= i < |evs| ==> !evs[i].EArrive?
    ensures var last := sts[|evs|]; last.arrivals == st.arrivals && last.done == |st.arrivals| && last.group.Nobody?
    decreases |st.arrivals| - st.done, StagesLeft(st.group), InsertsLeft(st)
  {
    hide Step, SyncInv, LogInv, All, InsertsLeft;
    if st.group.Nobody? && st.done == |st.arrivals| {
      sts, evs := [st], [];
    } else {
      var st', e;
      if st.group.Nobody? {
        st', e := FrontStarts(st);
      } else {
        st', e := FrontGoesOn(st);
      }
      StepKeepsInv(st, st', e);
      var ss, es := EveryCallCanReturn(st');
      Prepend(st, st', e, ss, es);
      sts, evs := [st] + ss, [e] + es;
    }
  }
}
