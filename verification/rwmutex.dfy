/** CoRWMutex: readers count themselves in and then look at the mutex; a writer takes the mutex and then waits. */
module RwMutexes {

  type TaskId = nat

  /**
   * The mutex is a BlockObject(1, 1): `free` is its stored signal and `queue` its wait queue. readers is readers_c_.
   * The sets say where each task is: counted in but not yet decided (arriving), about to count itself out (leaving),
   * reading; past the check for the mutex and about to be queued or queued (waiting), holding it and watching the
   * readers (draining), giving it up again (retreating), writing. A task that got the mutex by AddWaitTask's second
   * look keeps state_ == sys_block (stale), and its next plain yield may queue it with nothing to wait for.
   */
  datatype State = State(
    free: nat, readers: int,
    arriving: set<TaskId>, leaving: set<TaskId>, reading: set<TaskId>,
    waiting: set<TaskId>, draining: set<TaskId>, retreating: set<TaskId>, writing: set<TaskId>,
    stale: set<TaskId>, queue: seq<TaskId>)

  predicate Busy(st: State, t: TaskId) {
    || t in st.arriving || t in st.leaving || t in st.reading
    || t in st.waiting || t in st.draining || t in st.retreating || t in st.writing
  }

  // Neither inside a lock or unlock call nor holding anything, and able to run.
  predicate Idle(st: State, t: TaskId) {
    !Busy(st, t) && t !in st.queue
  }

  // ---- Readers ----

  predicate CountIn(st: State, st': State, t: TaskId) {
    Idle(st, t) && st' == st.(readers := st.readers + 1, arriving := st.arriving + {t})
  }

  /** !mtx_.is_lock() */
  predicate Look(st: State, st': State, t: TaskId) {
    && t in st.arriving && t !in st.queue
    && st' == if st.free > 0 then st.(arriving := st.arriving - {t}, reading := st.reading + {t})
              else st.(arriving := st.arriving - {t}, leaving := st.leaving + {t})
  }

  predicate CountOut(st: State, st': State, t: TaskId) {
    t in st.leaving && t !in st.queue && st' == st.(leaving := st.leaving - {t}, readers := st.readers - 1)
  }

  predicate ReadUnlock(st: State, st': State, t: TaskId) {
    t in st.reading && t !in st.queue && st' == st.(reading := st.reading - {t}, readers := st.readers - 1)
  }

  // ---- Writers ----

  /** mtx_.lock(), mtx_.try_lock() */
  predicate Lock(st: State, st': State, t: TaskId) {
    && Idle(st, t)
    && st' == if st.free > 0 then st.(free := st.free - 1, draining := st.draining + {t})
              else st.(waiting := st.waiting + {t})
  }

  /** AddWaitTask: a second look at the signal, and only then the queue. */
  predicate Dispatch(st: State, st': State, t: TaskId) {
    && t in st.waiting && t !in st.queue
    && st' == if st.free > 0
              then st.(free := st.free - 1, waiting := st.waiting - {t}, draining := st.draining + {t},
                       stale := st.stale + {t})
              else st.(queue := st.queue + [t])
  }

  // A plain yield: with a leftover sys_block, Processer::Run hands the task to AddWaitTask.
  function Yielded(st: State, t: TaskId): State {
    if t !in st.stale then st
    else if st.free > 0 then st.(free := st.free - 1)
    else st.(queue := st.queue + [t])
  }

  predicate Yield(st: State, st': State, t: TaskId) {
    t !in st.waiting && t !in st.queue && st' == Yielded(st, t)
  }

  // A wait on another object that ends with the task runnable.
  predicate WaitElsewhere(st: State, st': State, t: TaskId) {
    t !in st.waiting && t !in st.queue && st' == st.(stale := st.stale - {t})
  }

  /** The check of readers_c_: write when it is zero, otherwise yield and look again, or for w_try_lock give up. */
  predicate CheckReaders(st: State, st': State, t: TaskId, giveUp: bool) {
    && t in st.draining && t !in st.queue
    && st' == if st.readers == 0 then st.(draining := st.draining - {t}, writing := st.writing + {t})
              else if giveUp then st.(draining := st.draining - {t}, retreating := st.retreating + {t})
              else Yielded(st, t)
  }

  /** mtx_.unlock(), by a writer or by a failed w_try_lock: the first task in the queue gets the signal, whether or not
      it waits for one; with nobody queued the signal is stored. */
  predicate Unlock(st: State, st': State, t: TaskId) {
    && (t in st.writing || t in st.retreating) && t !in st.queue
    && var s := st.(writing := st.writing - {t}, retreating := st.retreating - {t});
    && if st.queue == [] then st' == if st.free < 1 then s.(free := st.free + 1) else s
       else
         var u, w := st.queue[0], s.(queue := st.queue[1..], stale := st.stale - {st.queue[0]});
         st' == if u in st.waiting then w.(waiting := st.waiting - {u}, draining := st.draining + {u}) else w
  }

  datatype Event =
    | ECountIn(t: TaskId) | ELook(t: TaskId) | ECountOut(t: TaskId) | EReadUnlock(t: TaskId)
    | ELock(t: TaskId) | EDispatch(t: TaskId) | EYield(t: TaskId) | EElsewhere(t: TaskId)
    | ECheck(t: TaskId, giveUp: bool) | EUnlock(t: TaskId)

  predicate Step(st: State, st': State, e: Event) {
    match e
    case ECountIn(t) => CountIn(st, st', t)
    case ELook(t) => Look(st, st', t)
    case ECountOut(t) => CountOut(st, st', t)
    case EReadUnlock(t) => ReadUnlock(st, st', t)
    case ELock(t) => Lock(st, st', t)
    case EDispatch(t) => Dispatch(st, st', t)
    case EYield(t) => Yield(st, st', t)
    case EElsewhere(t) => WaitElsewhere(st, st', t)
    case ECheck(t, g) => CheckReaders(st, st', t, g)
    case EUnlock(t) => Unlock(st, st', t)
  }

  predicate Init(st: State) {
    st == State(1, 0, {}, {}, {}, {}, {}, {}, {}, {}, [])
  }

  // ---- Invariant ----

  predicate CountedIn(st: State, t: TaskId) {
    t in st.arriving || t in st.leaving || t in st.reading
  }

  predicate Holds(st: State, t: TaskId) {
    t in st.draining || t in st.retreating || t in st.writing
  }

  ghost predicate Apart(st: State) {
    && st.arriving !! st.leaving && st.arriving !! st.reading && st.leaving !! st.reading
    && st.waiting !! st.draining && st.waiting !! st.retreating && st.waiting !! st.writing
    && st.draining !! st.retreating && st.draining !! st.writing && st.retreating !! st.writing
    && forall t :: CountedIn(st, t) ==> t !in st.waiting && !Holds(st, t)
  }

  // The mutex has at most one holder, and none while its signal is stored.
  predicate MutexInv(st: State) {
    st.free + |st.draining| + |st.retreating| + |st.writing| <= 1
  }

  predicate CountInv(st: State) {
    st.readers == |st.arriving| + |st.leaving| + |st.reading|
  }

  predicate NoDuplicates(q: seq<TaskId>) {
    forall i, j :: 0 <= i < j < |q| ==> q[i] != q[j]
  }

  // Nobody is queued twice, and the store is empty while the queue is not.
  predicate QueueInv(st: State) {
    NoDuplicates(st.queue) && (st.queue != [] ==> st.free == 0)
  }

  ghost predicate Inv(st: State) {
    Apart(st) && MutexInv(st) && CountInv(st) && QueueInv(st) && (st.writing != {} ==> st.reading == {})
  }

  lemma CountInKeepsCount(st: State, st': State, t: TaskId)
    requires CountInv(st) && CountIn(st, st', t)
    ensures CountInv(st')
  {
    assert t !in st.arriving;
  }

  lemma CountInKeepsInv(st: State, st': State, t: TaskId)
    requires Inv(st) && CountIn(st, st', t)
    ensures Inv(st')
  {
    hide CountInv;
    CountInKeepsCount(st, st', t);
  }

  lemma LookKeepsCount(st: State, st': State, t: TaskId)
    requires Inv(st) && Look(st, st', t)
    ensures CountInv(st')
  {
    hide MutexInv, QueueInv;
    assert t !in st.reading && t !in st.leaving;
    assert |st.arriving - {t}| == |st.arriving| - 1;
    if st.free > 0 {
      assert |st.reading + {t}| == |st.reading| + 1;
    } else {
      assert |st.leaving + {t}| == |st.leaving| + 1;
    }
  }

  /** A reader goes in only while the mutex is free, so beside no writer. */
  lemma LookKeepsInv(st: State, st': State, t: TaskId)
    requires Inv(st) && Look(st, st', t)
    ensures Inv(st')
  {
    hide CountInv;
    LookKeepsCount(st, st', t);
    assert st.free > 0 ==> |st.writing| == 0;
  }

  lemma LeavingKeepsCount(st: State, st': State, t: TaskId)
    requires CountInv(st) && (CountOut(st, st', t) || ReadUnlock(st, st', t))
    ensures CountInv(st')
  {
  }

  lemma ReadersLeave(st: State, st': State, t: TaskId)
    requires Inv(st) && (CountOut(st, st', t) || ReadUnlock(st, st', t))
    ensures Inv(st')
  {
    hide CountInv;
    LeavingKeepsCount(st, st', t);
  }

  lemma LockKeepsInv(st: State, st': State, t: TaskId)
    requires Inv(st) && Lock(st, st', t)
    ensures Inv(st')
  {
    assert t !in st.draining;
  }

  lemma DispatchKeepsInv(st: State, st': State, t: TaskId)
    requires Inv(st) && Dispatch(st, st', t)
    ensures Inv(st')
  {
    assert t !in st.draining;
  }

  lemma YieldKeepsInv(st: State, t: TaskId)
    requires Inv(st) && t !in st.queue
    ensures Inv(Yielded(st, t))
  {
  }

  lemma ElsewhereKeepsInv(st: State, st': State, t: TaskId)
    requires Inv(st) && WaitElsewhere(st, st', t)
    ensures Inv(st')
  {
  }

  /** A writer goes in only when the count is zero, so beside no reader and none on its way in. */
  lemma CheckKeepsInv(st: State, st': State, t: TaskId, giveUp: bool)
    requires Inv(st) && CheckReaders(st, st', t, giveUp)
    ensures Inv(st')
  {
    hide Yielded, Inv;
    if st.readers == 0 {
      EnterKeepsInv(st, st', t);
    } else if giveUp {
      GiveUpKeepsInv(st, st', t);
    } else {
      YieldKeepsInv(st, t);
    }
  }

  lemma EnterKeepsInv(st: State, st': State, t: TaskId)
    requires Inv(st) && t in st.draining && st.readers == 0
    requires st' == st.(draining := st.draining - {t}, writing := st.writing + {t})
    ensures Inv(st')
  {
    assert |st.reading| == 0 && t !in st.writing;
    assert |st'.draining| == |st.draining| - 1 && |st'.writing| == |st.writing| + 1;
  }

  lemma GiveUpKeepsInv(st: State, st': State, t: TaskId)
    requires Inv(st) && t in st.draining
    requires st' == st.(draining := st.draining - {t}, retreating := st.retreating + {t})
    ensures Inv(st')
  {
    assert |st'.draining| == |st.draining| - 1 && |st'.retreating| == |st.retreating| + 1;
  }

  lemma UnlockKeepsMutex(st: State, st': State, t: TaskId)
    requires Inv(st) && Unlock(st, st', t)
    ensures MutexInv(st')
  {
    hide CountInv, QueueInv, Apart;
    OneHolder(st);
    if st.queue != [] && st.queue[0] in st.waiting {
      assert |{} + {st.queue[0]}| == 1;
    }
  }

  lemma UnlockKeepsApart(st: State, st': State, t: TaskId)
    requires Inv(st) && Unlock(st, st', t)
    ensures Apart(st')
  {
    hide CountInv, QueueInv, MutexInv;
  }

  lemma UnlockKeepsInv(st: State, st': State, t: TaskId)
    requires Inv(st) && Unlock(st, st', t)
    ensures Inv(st')
  {
    hide Apart, MutexInv;
    UnlockKeepsMutex(st, st', t);
    UnlockKeepsApart(st, st', t);
  }

  lemma StepKeepsInv(st: State, st': State, e: Event)
    requires Inv(st) && Step(st, st', e)
    ensures Inv(st')
  {
    hide Inv, CountIn, Look, CountOut, ReadUnlock, Lock, Dispatch, Yielded, WaitElsewhere, CheckReaders, Unlock;
    match e {
      case ECountIn(t) => CountInKeepsInv(st, st', t);
      case ELook(t) => LookKeepsInv(st, st', t);
      case ECountOut(t) => ReadersLeave(st, st', t);
      case EReadUnlock(t) => ReadersLeave(st, st', t);
      case ELock(t) => LockKeepsInv(st, st', t);
      case EDispatch(t) => DispatchKeepsInv(st, st', t);
      case EYield(t) => YieldKeepsInv(st, t);
      case EElsewhere(t) => ElsewhereKeepsInv(st, st', t);
      case ECheck(t, g) => CheckKeepsInv(st, st', t, g);
      case EUnlock(t) => UnlockKeepsInv(st, st', t);
    }
  }

  // ---- Runs ----

  predicate Run(sts: seq<State>, evs: seq<Event>) {
    |sts| == |evs| + 1 && forall i :: 0 <= i < |evs| ==> Step(sts[i], sts[i + 1], evs[i])
  }

  lemma {:induction false} RunsKeepInv(sts: seq<State>, evs: seq<Event>, i: nat)
    requires Run(sts, evs) && Inv(sts[0]) && i <= |evs|
    ensures Inv(sts[i])
  {
    hide Step, Inv;
    if i > 0 {
      RunsKeepInv(sts, evs, i - 1);
      assert Step(sts[i - 1], sts[i], evs[i - 1]);
      StepKeepsInv(sts[i - 1], sts[i], evs[i - 1]);
    }
  }

  /** In every interleaving: no writer beside a reader or another writer, and the reader count is never negative. */
  lemma MutualExclusion(sts: seq<State>, evs: seq<Event>)
    requires Run(sts, evs) && Init(sts[0])
    ensures var st := sts[|evs|]; (st.writing != {} ==> st.reading == {}) && |st.writing| <= 1 && st.readers >= 0
  {
    hide Step;
    RunsKeepInv(sts, evs, |evs|);
  }

  // ---- Who can still get in ----

  predicate Unheld(st: State) {
    st.draining == {} && st.retreating == {} && st.writing == {}
  }

  // In the queue with nothing to wait for.
  predicate Parked(st: State, t: TaskId) {
    t in st.queue && t !in st.waiting
  }

  // A plain yield, in user code or in a spin loop, with a leftover sys_block.
  predicate StaleYield(st: State, e: Event) {
    match e
    case EYield(t) => t in st.stale
    case ECheck(t, giveUp) => st.readers != 0 && !giveUp && t in st.stale
    case _ => false
  }

  // Counts of at most one holder, as the sets they count.
  lemma OneHolder(st: State)
    requires Inv(st)
    ensures st.free <= 1 && (st.free > 0 ==> Unheld(st))
    ensures forall t :: t in st.draining ==>
              st.draining == {t} && st.retreating == {} && st.writing == {} && st.free == 0
    ensures forall t :: t in st.writing + st.retreating ==>
              st.draining == {} && st.free == 0 && st.writing - {t} == {} && st.retreating - {t} == {}
  {
    forall t | t in st.draining ensures st.draining == {t} { OnlyElement(st.draining, t); }
    forall t | t in st.writing ensures st.writing == {t} { OnlyElement(st.writing, t); }
    forall t | t in st.retreating ensures st.retreating == {t} { OnlyElement(st.retreating, t); }
  }

  lemma OnlyElement(s: set<TaskId>, t: TaskId)
    requires t in s && |s| <= 1
    ensures s == {t}
  {
    assert |s - {t}| == |s| - 1;
  }

  // ---- While no stale task has yielded ----

  /** Only writers that wait are queued, and the signal is stored or held. */
  predicate Clean(st: State) {
    (forall t :: t in st.queue ==> t in st.waiting) && (st.free == 0 ==> !Unheld(st))
  }

  lemma StepKeepsClean(st: State, st': State, e: Event)
    requires Inv(st) && Clean(st) && Step(st, st', e) && !StaleYield(st, e)
    ensures Clean(st')
  {
    hide Inv, Unlock;
    if e.EUnlock? {
      UnlockKeepsClean(st, st', e.t);
    } else {
      HolderKnown(st);
    }
  }

  // What the steps need of the counts.
  lemma HolderKnown(st: State)
    requires Inv(st)
    ensures st.free <= 1 && (st.free > 0 ==> st.queue == [] && Unheld(st))
    ensures forall t :: Holds(st, t) ==> t !in st.waiting
  {
    OneHolder(st);
  }

  lemma UnlockKeepsClean(st: State, st': State, t: TaskId)
    requires Inv(st) && Clean(st) && Unlock(st, st', t)
    ensures Clean(st')
  {
    hide MutexInv, CountInv, Apart;
    OneHolder(st);
    if st.queue != [] {
      var u := st.queue[0];
      assert u in st.queue && u in st'.draining;
      forall v | v in st'.queue ensures v in st'.waiting {
        var i :| 0 <= i < |st'.queue| && st'.queue[i] == v;
        assert st.queue[i + 1] == v && v in st.queue && v != u;
      }
    }
  }

  // How much must happen before the mutex is free and no reader is counted in.
  function Work(st: State): nat {
    2 * |st.arriving| + |st.leaving| + |st.reading| +
    2 * |st.draining| + |st.retreating| + |st.writing| + 3 * |st.queue|
  }

  lemma ReaderMoves(st: State) returns (st': State, e: Event)
    requires Inv(st) && Clean(st) && (st.arriving != {} || st.leaving != {} || st.reading != {})
    ensures Step(st, st', e) && !StaleYield(st, e) && Work(st') < Work(st)
    ensures forall t :: Idle(st, t) ==> Idle(st', t)
  {
    hide CountInv, MutexInv, QueueInv, Work;
    if t :| t in st.arriving {
      e := ELook(t);
      st' := if st.free > 0 then st.(arriving := st.arriving - {t}, reading := st.reading + {t})
             else st.(arriving := st.arriving - {t}, leaving := st.leaving + {t});
    } else if t :| t in st.leaving {
      e := ECountOut(t);
      st' := st.(leaving := st.leaving - {t}, readers := st.readers - 1);
    } else {
      var t :| t in st.reading;
      e := EReadUnlock(t);
      st' := st.(reading := st.reading - {t}, readers := st.readers - 1);
    }
    ReaderWorks(st, st', e);
  }

  lemma ReaderWorks(st: State, st': State, e: Event)
    requires Step(st, st', e) && (e.ELook? || e.ECountOut? || e.EReadUnlock?)
    ensures Work(st') < Work(st)
  {
    var t := e.t;
    assert t in st.arriving ==> |st.arriving - {t}| == |st.arriving| - 1;
    assert t in st.leaving ==> |st.leaving - {t}| == |st.leaving| - 1;
    assert t in st.reading ==> |st.reading - {t}| == |st.reading| - 1;
    assert |st.reading + {t}| <= |st.reading| + 1 && |st.leaving + {t}| <= |st.leaving| + 1;
  }

  lemma HolderMoves(st: State) returns (st': State, e: Event)
    requires Inv(st) && Clean(st) && st.arriving == {} && st.leaving == {} && st.reading == {} && st.free == 0
    ensures Step(st, st', e) && !StaleYield(st, e) && Work(st') < Work(st)
    ensures forall t :: Idle(st, t) ==> Idle(st', t)
  {
    if t :| t in st.draining {
      e := ECheck(t, false);
      st' := st.(draining := st.draining - {t}, writing := st.writing + {t});
    } else {
      var t :| t in st.writing || t in st.retreating;
      e := EUnlock(t);
      st' := Unlocks(st, t);
    }
  }

  lemma Unlocks(st: State, t: TaskId) returns (st': State)
    requires Inv(st) && Clean(st) && (t in st.writing || t in st.retreating)
    ensures Unlock(st, st', t) && Work(st') < Work(st)
    ensures forall u :: Idle(st, u) ==> Idle(st', u)
  {
    hide CountInv, MutexInv, NoDuplicates, Work;
    var s := st.(writing := st.writing - {t}, retreating := st.retreating - {t});
    if st.queue == [] {
      st' := if st.free < 1 then s.(free := st.free + 1) else s;
    } else {
      var u := st.queue[0];
      assert u in st.queue && u in st.waiting;
      st' := s.(queue := st.queue[1..], stale := st.stale - {u}, waiting := st.waiting - {u},
                draining := st.draining + {u});
    }
    UnlockWorks(st, st', t);
  }

  lemma UnlockWorks(st: State, st': State, t: TaskId)
    requires Unlock(st, st', t)
    ensures Work(st') < Work(st)
  {
    assert t in st.writing ==> |st.writing - {t}| == |st.writing| - 1;
    assert t in st.retreating ==> |st.retreating - {t}| == |st.retreating| - 1;
    assert st.queue != [] ==> |st.draining + {st.queue[0]}| <= |st.draining| + 1;
  }

  ghost predicate Leads(st: State, sts: seq<State>, evs: seq<Event>) {
    Run(sts, evs) && sts[0] == st
  }

  lemma Prepend(st: State, st': State, e: Event, sts: seq<State>, evs: seq<Event>)
    requires Step(st, st', e) && Leads(st', sts, evs)
    ensures Leads(st, [st] + sts, [e] + evs)
  {
    hide Step;
    var ss, es := [st] + sts, [e] + evs;
    forall i | 0 <= i < |es| ensures Step(ss[i], ss[i + 1], es[i]) {
      assert i > 0 ==> ss[i] == sts[i - 1] && es[i] == evs[i - 1];
    }
  }

  lemma Append(st: State, sts: seq<State>, evs: seq<Event>, st': State, e: Event)
    requires Leads(st, sts, evs) && Step(sts[|evs|], st', e)
    ensures Leads(st, sts + [st'], evs + [e])
  {
  }

  /** From a clean state everybody inside can finish, after which the mutex is free and no reader is counted in. */
  lemma {:induction false} CanClear(st: State) returns (sts: seq<State>, evs: seq<Event>)
    requires Inv(st) && Clean(st)
    ensures Leads(st, sts, evs)
    ensures var last := sts[|evs|]; last.free > 0 && last.readers == 0 && forall t :: Idle(st, t) ==> Idle(last, t)
    decreases Work(st)
  {
    hide Step, StaleYield, Work, Idle, Clean, MutexInv, Apart, QueueInv;
    if st.free > 0 && st.arriving == {} && st.leaving == {} && st.reading == {} {
      sts, evs := [st], [];
      NoReaders(st);
    } else {
      var st', e;
      if st.arriving != {} || st.leaving != {} || st.reading != {} {
        st', e := ReaderMoves(st);
      } else {
        st', e := HolderMoves(st);
      }
      StepKeepsInv(st, st', e);
      StepKeepsClean(st, st', e);
      var ss, es := CanClear(st');
      Prepend(st, st', e, ss, es);
      sts, evs := [st] + ss, [e] + es;
    }
  }

  lemma NoReaders(st: State)
    requires CountInv(st) && st.arriving == {} && st.leaving == {} && st.reading == {}
    ensures st.readers == 0
  {
  }

  ghost predicate CanRead(st: State, t: TaskId) {
    exists sts: seq<State>, evs: seq<Event> :: Leads(st, sts, evs) && t in sts[|evs|].reading
  }

  ghost predicate CanWrite(st: State, t: TaskId) {
    exists sts: seq<State>, evs: seq<Event> :: Leads(st, sts, evs) && t in sts[|evs|].writing
  }

  lemma CleanAdmits(st: State, t: TaskId)
    requires Inv(st) && Clean(st) && Idle(st, t)
    ensures CanRead(st, t) && CanWrite(st, t)
  {
    var sts, evs := CanClear(st);
    var last := sts[|evs|];
    var r := last.(readers := last.readers + 1, arriving := last.arriving + {t});
    var r' := r.(arriving := r.arriving - {t}, reading := r.reading + {t});
    Append(st, sts, evs, r, ECountIn(t));
    Append(st, sts + [r], evs + [ECountIn(t)], r', ELook(t));
    var w := last.(free := last.free - 1, draining := last.draining + {t});
    var w' := w.(draining := w.draining - {t}, writing := w.writing + {t});
    Append(st, sts, evs, w, ELock(t));
    Append(st, sts + [w], evs + [ELock(t)], w', ECheck(t, false));
  }

  // ---- Once one has ----

  /** The signal is gone, or the queue will hand it to a task that does not wait for it. */
  ghost predicate Doomed(st: State) {
    st.free == 0 && (Unheld(st) || exists u :: Parked(st, u))
  }

  lemma StaleYieldDooms(st: State, st': State, e: Event)
    requires Inv(st) && Step(st, st', e) && StaleYield(st, e)
    ensures Doomed(st')
  {
    OneHolder(st);
    assert st.free == 0 ==> Parked(st', e.t);
  }

  lemma DoomedStays(st: State, st': State, e: Event)
    requires Inv(st) && Doomed(st) && Step(st, st', e)
    ensures Doomed(st')
  {
    hide Inv, Unlock;
    if e.EUnlock? {
      UnlockStaysDoomed(st, st', e.t);
    } else {
      if u :| Parked(st, u) {
        assert Parked(st', u);
      }
    }
  }

  lemma UnlockStaysDoomed(st: State, st': State, t: TaskId)
    requires Inv(st) && Doomed(st) && Unlock(st, st', t)
    ensures Doomed(st')
  {
    hide MutexInv, CountInv, Apart, NoDuplicates;
    OneHolder(st);
    assert !Unheld(st);
    var u :| Parked(st, u);
    if st.queue[0] == u {
      assert Unheld(st');
    } else {
      assert u in st.queue[1..];
      assert Parked(st', u);
    }
  }

  // t is outside, and nothing will reach it: the signal is gone, or stops at a parked task before t.
  ghost predicate Shut(st: State, t: TaskId) {
    && st.free == 0 && !Holds(st, t) && t !in st.reading
    && (Unheld(st) || exists i: nat :: StopsAt(st, i, t))
  }

  predicate StopsAt(st: State, i: nat, t: TaskId) {
    i < |st.queue| && st.queue[i] !in st.waiting && t !in st.queue[..i]
  }

  lemma DoomedShuts(st: State, t: TaskId)
    requires Doomed(st) && Idle(st, t)
    ensures Shut(st, t)
  {
    if u :| Parked(st, u) {
      var i :| 0 <= i < |st.queue| && st.queue[i] == u;
      assert StopsAt(st, i, t);
    }
  }

  lemma StopStays(st: State, st': State, e: Event, i: nat, t: TaskId)
    requires Inv(st) && st.free == 0 && StopsAt(st, i, t) && Step(st, st', e) && !(e.EUnlock? && i == 0)
    ensures StopsAt(st', if e.EUnlock? then i - 1 else i, t)
  {
    hide MutexInv, CountInv, Apart;
    if e.EUnlock? {
      assert st'.queue == st.queue[1..];
      assert st.queue[..i] == [st.queue[0]] + st'.queue[..i - 1];
    } else {
      assert st'.queue[..i] == st.queue[..i];
    }
  }

  lemma ShutStays(st: State, st': State, e: Event, t: TaskId)
    requires Inv(st) && Shut(st, t) && Step(st, st', e)
    ensures Shut(st', t)
  {
    hide Unlock, Inv, StopsAt;
    if e.EUnlock? {
      UnlockStaysShut(st, st', e.t, t);
    } else if !Unheld(st) {
      var i: nat :| StopsAt(st, i, t);
      StopStays(st, st', e, i, t);
    }
  }

  lemma UnlockStaysShut(st: State, st': State, u: TaskId, t: TaskId)
    requires Inv(st) && Shut(st, t) && Unlock(st, st', u)
    ensures Shut(st', t)
  {
    hide MutexInv, CountInv, Apart, NoDuplicates;
    OneHolder(st);
    assert !Unheld(st);
    var i: nat :| StopsAt(st, i, t);
    if i == 0 {
      assert Unheld(st');
    } else {
      StopStays(st, st', EUnlock(u), i, t);
      assert st.queue[0] in st.queue[..i];
    }
  }

  /** Whatever happens, a task shut out never gets in. */
  lemma {:induction false} ShutForGood(sts: seq<State>, evs: seq<Event>, i: nat, t: TaskId)
    requires Run(sts, evs) && Inv(sts[0]) && Shut(sts[0], t) && i <= |evs|
    ensures Shut(sts[i], t)
  {
    if i > 0 {
      ShutForGood(sts, evs, i - 1, t);
      RunsKeepInv(sts, evs, i - 1);
      assert Step(sts[i - 1], sts[i], evs[i - 1]);
      hide Step, Inv, Shut;
      ShutStays(sts[i - 1], sts[i], evs[i - 1], t);
    }
  }

  lemma DoomedAdmitsNobody(st: State, t: TaskId)
    requires Inv(st) && Doomed(st) && Idle(st, t)
    ensures !CanRead(st, t) && !CanWrite(st, t)
  {
    DoomedShuts(st, t);
    hide Inv, Doomed, Idle, Step;
    forall sts: seq<State>, evs: seq<Event> | Leads(st, sts, evs)
      ensures t !in sts[|evs|].reading && t !in sts[|evs|].writing
    {
      ShutForGood(sts, evs, |evs|, t);
    }
  }

  lemma {:induction false} CleanOrDoomed(sts: seq<State>, evs: seq<Event>, n: nat)
    requires Run(sts, evs) && Init(sts[0]) && n <= |evs|
    ensures if forall j :: 0 <= j < n ==> !StaleYield(sts[j], evs[j]) then Clean(sts[n]) else Doomed(sts[n])
  {
    if n > 0 {
      CleanOrDoomed(sts, evs, n - 1);
      RunsKeepInv(sts, evs, n - 1);
      assert Step(sts[n - 1], sts[n], evs[n - 1]);
      hide Step, Inv, Clean, Doomed, StaleYield;
      if StaleYield(sts[n - 1], evs[n - 1]) {
        StaleYieldDooms(sts[n - 1], sts[n], evs[n - 1]);
      } else if forall j :: 0 <= j < n - 1 ==> !StaleYield(sts[j], evs[j]) {
        StepKeepsClean(sts[n - 1], sts[n], evs[n - 1]);
      } else {
        DoomedStays(sts[n - 1], sts[n], evs[n - 1]);
      }
    }
  }

  /** After any run, a task outside can still get the lock, to read or to write, if and only if no task has so far made
      a plain yield with the sys_block a second look left behind. */
  lemma AdmitsExactlyIf(sts: seq<State>, evs: seq<Event>, n: nat, t: TaskId)
    requires Run(sts, evs) && Init(sts[0]) && n <= |evs| && Idle(sts[n], t)
    ensures CanRead(sts[n], t) <==> forall j :: 0 <= j < n ==> !StaleYield(sts[j], evs[j])
    ensures CanWrite(sts[n], t) <==> forall j :: 0 <= j < n ==> !StaleYield(sts[j], evs[j])
  {
    RunsKeepInv(sts, evs, n);
    CleanOrDoomed(sts, evs, n);
    hide Step, Inv, Clean, Doomed, StaleYield, CanRead, CanWrite, Idle;
    if forall j :: 0 <= j < n ==> !StaleYield(sts[j], evs[j]) {
      CleanAdmits(sts[n], t);
    } else {
      DoomedAdmitsNobody(sts[n], t);
    }
  }

  predicate SecondLook(st: State, e: Event) {
    e.EDispatch? && st.free > 0
  }

  lemma {:induction false} NothingLeftOver(sts: seq<State>, evs: seq<Event>, n: nat)
    requires Run(sts, evs) && Init(sts[0]) && n <= |evs|
    requires forall j :: 0 <= j < n ==> !SecondLook(sts[j], evs[j])
    ensures sts[n].stale == {}
  {
    if n > 0 {
      NothingLeftOver(sts, evs, n - 1);
      assert Step(sts[n - 1], sts[n], evs[n - 1]);
    }
  }

  /** While no lock was got by a second look, every task outside can still get in. */
  lemma NoSecondLookNoLoss(sts: seq<State>, evs: seq<Event>, n: nat, t: TaskId)
    requires Run(sts, evs) && Init(sts[0]) && n <= |evs| && Idle(sts[n], t)
    requires forall j :: 0 <= j < n ==> !SecondLook(sts[j], evs[j])
    ensures CanRead(sts[n], t) && CanWrite(sts[n], t)
  {
    forall j | 0 <= j < n ensures !StaleYield(sts[j], evs[j]) {
      NothingLeftOver(sts, evs, j);
    }
    hide Step, Init, Idle, CanRead, CanWrite, StaleYield, SecondLook;
    AdmitsExactlyIf(sts, evs, n, t);
  }

  // ---- A writer that waits for itself ----

  // Nobody holds the signal but tasks in the mutex's own queue.
  ghost predicate Dead(st: State) {
    st.free == 0 && forall t :: Holds(st, t) ==> t in st.queue
  }

  lemma DeadStays(st: State, st': State, e: Event)
    requires Dead(st) && Step(st, st', e)
    ensures Dead(st') && st'.reading <= st.reading && st'.writing <= st.writing
  {
  }

  /** From then on, in every run, no writer and no reader gets in, those already waiting included. */
  lemma {:induction false} DeadForGood(sts: seq<State>, evs: seq<Event>, i: nat)
    requires Run(sts, evs) && Dead(sts[0]) && i <= |evs|
    ensures Dead(sts[i]) && sts[i].reading <= sts[0].reading && sts[i].writing <= sts[0].writing
  {
    if i > 0 {
      DeadForGood(sts, evs, i - 1);
      assert Step(sts[i - 1], sts[i], evs[i - 1]);
      hide Step, Dead;
      DeadStays(sts[i - 1], sts[i], evs[i - 1]);
    }
  }

  // Writer 1 looks for the mutex while writer 0 holds it; before it is queued, writer 0 gives it back and reader 2 goes
  // in. The second look then makes writer 1 the holder, and its first yield for the reader queues it on its own mutex.
  const STUCK_EVENTS: seq<Event> :=
    [ELock(0), ECheck(0, false), ELock(1), EUnlock(0), ECountIn(2), ELook(2), EDispatch(1), ECheck(1, false),
     EReadUnlock(2)]

  const STUCK_STATES: seq<State> := [
    State(1, 0, {}, {}, {}, {}, {}, {}, {}, {}, []),
    State(0, 0, {}, {}, {}, {}, {0}, {}, {}, {}, []),
    State(0, 0, {}, {}, {}, {}, {}, {}, {0}, {}, []),
    State(0, 0, {}, {}, {}, {1}, {}, {}, {0}, {}, []),
    State(1, 0, {}, {}, {}, {1}, {}, {}, {}, {}, []),
    State(1, 1, {2}, {}, {}, {1}, {}, {}, {}, {}, []),
    State(1, 1, {}, {}, {2}, {1}, {}, {}, {}, {}, []),
    State(0, 1, {}, {}, {2}, {}, {1}, {}, {}, {1}, []),
    State(0, 1, {}, {}, {2}, {}, {1}, {}, {}, {1}, [1]),
    State(0, 0, {}, {}, {}, {}, {1}, {}, {}, {1}, [1])
  ]

  lemma StuckFirst(i: nat)
    requires i < 5
    ensures Step(STUCK_STATES[i], STUCK_STATES[i + 1], STUCK_EVENTS[i])
  {
    assert i == 0 || i == 1 || i == 2 || i == 3 || i == 4;
  }

  lemma StuckLast(i: nat)
    requires 5 <= i < 9
    ensures Step(STUCK_STATES[i], STUCK_STATES[i + 1], STUCK_EVENTS[i])
  {
    assert i == 5 || i == 6 || i == 7 || i == 8;
  }

  lemma StuckRun()
    ensures Run(STUCK_STATES, STUCK_EVENTS) && Init(STUCK_STATES[0])
  {
    hide Step;
    forall i | 0 <= i < 9 ensures Step(STUCK_STATES[i], STUCK_STATES[i + 1], STUCK_EVENTS[i]) {
      if i < 5 { StuckFirst(i); } else { StuckLast(i); }
    }
  }

  /** No reader is left, the writer holds the mutex, and neither it nor anyone else will ever get in. */
  lemma WriterParksItself(sts: seq<State>, evs: seq<Event>)
    requires Run(sts, evs) && sts[0] == STUCK_STATES[9]
    ensures Run(STUCK_STATES, STUCK_EVENTS) && Init(STUCK_STATES[0])
    ensures STUCK_STATES[9].readers == 0 && 1 in STUCK_STATES[9].draining
    ensures forall i :: 0 <= i <= |evs| ==> sts[i].writing == {} && sts[i].reading == {}
  {
    hide Step;
    StuckRun();
    forall i | 0 <= i <= |evs| ensures sts[i].writing == {} && sts[i].reading == {} {
      DeadForGood(sts, evs, i);
    }
  }
}
