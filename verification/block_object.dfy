/** BlockObject: a semaphore for coroutines, with a gap between the check for a signal and the wait. */
module BlockObjects {

  type TaskId = nat

  // Where a coroutine is: on a processor, past the check and about to block, switched out but not yet dispatched by
  // Processer::Run, in the object's wait queue, or in a run queue.
  datatype Place = Running | Deciding | Leaving | Queued | Ready

  // sysBlock is state_ == sys_block with block_ naming this object, timed is a block_timeout_ other than zero, late is
  // is_block_timeout_. The rest is bookkeeping for the specification: waiting holds while a blocking wait is open;
  // begun, granted and timedOut count blocking waits.
  datatype Task = Task(place: Place, sysBlock: bool, sequence: nat, timed: bool, late: bool, waiting: bool, begun: nat,
                       granted: nat, timedOut: nat)

  // Timers not yet fired carry the sequence number of the wait they were set for; one that was cancelled never fires.
  // posted counts accepted Wakeup calls, taken the waits that were given a signal.
  datatype State = State(wakeup: nat, maxWakeup: nat, queue: seq<TaskId>, tasks: map<TaskId, Task>,
                         timers: multiset<(TaskId, nat)>, initial: nat, posted: nat, taken: nat)

  // ---- Steps ----

  predicate At(st: State, t: TaskId, p: Place) {
    t in st.tasks && st.tasks[t].place == p
  }

  function Put(st: State, t: TaskId, task: Task): State {
    st.(tasks := st.tasks[t := task])
  }

  /** TryBlockWait, and the first half of CoBlockWait when a signal is stored. */
  predicate TakeSignal(st: State, st': State, t: TaskId) {
    At(st, t, Running) && st.wakeup > 0 && st' == st.(wakeup := st.wakeup - 1, taken := st.taken + 1)
  }

  /** CoBlockWait finds no signal and lets go of the lock. */
  predicate FindNone(st: State, st': State, t: TaskId) {
    At(st, t, Running) && st.wakeup == 0 && st' == Put(st, t, st.tasks[t].(place := Deciding))
  }

  /** The second half of CoBlockWait or CoBlockWaitTimed. */
  predicate Block(st: State, st': State, t: TaskId, timed: bool) {
    && At(st, t, Deciding)
    && var k := st.tasks[t];
    && st' == Put(st, t, k.(place := Leaving, sysBlock := true, sequence := k.sequence + 1, timed := timed,
         late := false, waiting := true, begun := k.begun + 1))
  }

  /** A plain CoYield: state_ stays what it was. */
  predicate Yield(st: State, st': State, t: TaskId) {
    At(st, t, Running) && st' == Put(st, t, st.tasks[t].(place := Leaving))
  }

  function Granted(k: Task): Task {
    if k.waiting then k.(waiting := false, granted := k.granted + 1) else k
  }

  /** Processer::Run's switch on state_, with AddWaitTask's second look at the signal count. */
  predicate Dispatch(st: State, st': State, t: TaskId) {
    && At(st, t, Leaving)
    && var k := st.tasks[t];
    && st' ==
       if !k.sysBlock then Put(st, t, k.(place := Ready))
       else if st.wakeup > 0 then
         Put(st, t, Granted(k).(place := Ready)).(wakeup := st.wakeup - 1,
             taken := st.taken + if k.waiting then 1 else 0)
       else Put(st, t, k.(place := Queued)).(queue := st.queue + [t],
           timers := if k.timed then st.timers + multiset{(t, k.sequence)} else st.timers)
  }

  predicate Resume(st: State, st': State, t: TaskId) {
    At(st, t, Ready) && st' == Put(st, t, st.tasks[t].(place := Running))
  }

  /** A wait on another object, a sleep or an I/O wait that ends with the task runnable: nothing is left over here. */
  predicate WaitElsewhere(st: State, st': State, t: TaskId) {
    At(st, t, Running) && st' == Put(st, t, st.tasks[t].(sysBlock := false))
  }

  /** Wakeup: hand the signal to the first waiter, or store it if there is room. */
  predicate Wakeup(st: State, st': State) {
    if st.queue != [] then
      && st.queue[0] in st.tasks
      && var k := st.tasks[st.queue[0]];
      && st' == Put(st, st.queue[0], Granted(k).(place := Ready, sysBlock := false)).(
                  queue := st.queue[1..], posted := st.posted + 1, taken := st.taken + if k.waiting then 1 else 0)
    else if st.wakeup < st.maxWakeup then st' == st.(wakeup := st.wakeup + 1, posted := st.posted + 1)
    else st' == st
  }

  function Remove(q: seq<TaskId>, t: TaskId): seq<TaskId> {
    if q == [] then [] else if q[0] == t then q[1..] else [q[0]] + Remove(q[1..], t)
  }

  function Expired(k: Task): Task {
    if k.waiting then k.(waiting := false, timedOut := k.timedOut + 1) else k
  }

  /** A timer fires and CancelWait runs: only the wait it was set for, and only if still queued. */
  predicate Timeout(st: State, st': State, t: TaskId, sequence: nat) {
    && (t, sequence) in st.timers
    && var s := st.(timers := st.timers - multiset{(t, sequence)});
    && st' ==
       if t in st.queue && t in st.tasks && st.tasks[t].sequence == sequence then
         var k := Expired(st.tasks[t]).(place := Ready, sysBlock := false, late := true);
         Put(s, t, k).(queue := Remove(st.queue, t))
       else s
  }

  datatype Event =
    | ETake(t: TaskId) | ENone(t: TaskId) | EBlock(t: TaskId, timed: bool) | EYield(t: TaskId) | EDispatch(t: TaskId)
    | EResume(t: TaskId) | EElsewhere(t: TaskId)
    | EWakeup | ETimeout(t: TaskId, sequence: nat)

  predicate Step(st: State, st': State, e: Event) {
    match e
    case ETake(t) => TakeSignal(st, st', t)
    case ENone(t) => FindNone(st, st', t)
    case EBlock(t, timed) => Block(st, st', t, timed)
    case EYield(t) => Yield(st, st', t)
    case EDispatch(t) => Dispatch(st, st', t)
    case EResume(t) => Resume(st, st', t)
    case EElsewhere(t) => WaitElsewhere(st, st', t)
    case EWakeup => Wakeup(st, st')
    case ETimeout(t, s) => Timeout(st, st', t, s)
  }

  const FRESH: Task := Task(Running, false, 0, false, false, false, 0, 0, 0)

  predicate Init(st: State) {
    && st.queue == [] && st.wakeup == st.initial <= st.maxWakeup && st.posted == st.taken == 0
    && st.timers == multiset{} && forall t :: t in st.tasks ==> st.tasks[t] == FRESH
  }

  // ---- What holds of every run ----

  predicate NoDuplicates(q: seq<TaskId>) {
    forall i, j :: 0 <= i < j < |q| ==> q[i] != q[j]
  }

  /** A queued waiter implies no stored signal, and the queue lists exactly the queued tasks, each once. */
  predicate QueueInv(st: State) {
    && (st.queue != [] ==> st.wakeup == 0) && st.wakeup <= st.maxWakeup && NoDuplicates(st.queue)
    && (forall t :: t in st.queue ==> t in st.tasks)
    && (forall t :: t in st.tasks ==> (t in st.queue <==> st.tasks[t].place == Queued))
    && (forall t :: t in st.tasks && st.tasks[t].place == Queued ==> st.tasks[t].sysBlock)
  }

  lemma {:induction false} RemoveOne(q: seq<TaskId>, t: TaskId)
    requires NoDuplicates(q)
    ensures NoDuplicates(Remove(q, t)) && forall u :: u in Remove(q, t) <==> u in q && u != t
  {
    if q != [] {
      RemoveOne(q[1..], t);
      assert q == [q[0]] + q[1..];
      var r := Remove(q[1..], t);
      forall i | 0 <= i < |r| ensures r[i] != q[0] { assert r[i] in r && r[i] in q[1..]; }
    }
  }

  lemma TimeoutKeepsQueue(st: State, st': State, t: TaskId, sequence: nat)
    requires QueueInv(st) && Timeout(st, st', t, sequence)
    ensures QueueInv(st')
  {
    hide Remove;
    RemoveOne(st.queue, t);
  }

  lemma WakeupKeepsQueue(st: State, st': State)
    requires QueueInv(st) && Wakeup(st, st')
    ensures QueueInv(st')
  {
  }

  lemma StepKeepsQueue(st: State, st': State, e: Event)
    requires QueueInv(st) && Step(st, st', e)
    ensures QueueInv(st')
  {
    match e {
      case ETimeout(t, s) => TimeoutKeepsQueue(st, st', t, s);
      case EWakeup => WakeupKeepsQueue(st, st');
      case _ =>
    }
  }

  // The one task a step changes.
  function Subject(st: State, e: Event): TaskId {
    if !e.EWakeup? then e.t else if st.queue != [] then st.queue[0] else 0
  }

  lemma OnlySubject(st: State, st': State, e: Event)
    requires Step(st, st', e)
    ensures forall t :: t in st'.tasks <==> t in st.tasks
    ensures forall t :: t in st.tasks && t != Subject(st, e) ==> st'.tasks[t] == st.tasks[t]
  {
  }

  // An open wait is on its way into the queue or in it.
  predicate WaitOk(k: Task) {
    k.waiting ==> k.sysBlock && !k.late && (k.place == Leaving || k.place == Queued)
  }

  predicate WaitInv(st: State) {
    forall t :: t in st.tasks ==> WaitOk(st.tasks[t])
  }

  lemma SubjectKeepsWait(st: State, st': State, e: Event, t: TaskId)
    requires QueueInv(st) && Step(st, st', e) && t in st.tasks && WaitOk(st.tasks[t]) && t in st'.tasks
    ensures WaitOk(st'.tasks[t])
  {
    hide Remove;
    if e.EWakeup? && st.queue != [] { assert st.queue[0] in st.queue; }
  }

  lemma StepKeepsWait(st: State, st': State, e: Event)
    requires QueueInv(st) && WaitInv(st) && Step(st, st', e)
    ensures WaitInv(st')
  {
    hide Step, QueueInv, WaitOk;
    OnlySubject(st, st', e);
    forall t | t in st'.tasks ensures WaitOk(st'.tasks[t]) { SubjectKeepsWait(st, st', e, t); }
  }

  // ---- What holds while no stale coroutine comes back ----

  /** Every signal is stored or was given to a wait, and only open waits are queued. */
  predicate Straight(st: State) {
    && st.initial + st.posted == st.wakeup + st.taken
    && forall t :: t in st.tasks && st.tasks[t].place == Queued ==> st.tasks[t].waiting
  }

  // Every blocking wait has ended once, or is still open.
  predicate WaitsCounted(st: State) {
    forall t :: t in st.tasks ==> Counted(st.tasks[t])
  }

  predicate Counted(k: Task) {
    k.begun == k.granted + k.timedOut + if k.waiting then 1 else 0
  }

  // state_ still says sys_block because the last blocking wait was satisfied by the second look.
  predicate Stale(st: State, t: TaskId) {
    t in st.tasks && st.tasks[t].sysBlock && !st.tasks[t].waiting
  }

  predicate StaleYield(st: State, e: Event) {
    e.EYield? && Stale(st, e.t)
  }

  predicate StaleDispatch(st: State, e: Event) {
    e.EDispatch? && Stale(st, e.t)
  }

  lemma StepKeepsStraight(st: State, st': State, e: Event)
    requires QueueInv(st) && WaitInv(st) && Straight(st) && WaitsCounted(st) && Step(st, st', e) &&
             !StaleDispatch(st, e)
    ensures Straight(st') && WaitsCounted(st')
  {
    hide Step, QueueInv, WaitInv, Counted, Stale;
    SubjectKeepsStraight(st, st', e);
    OnlySubject(st, st', e);
  }

  lemma SubjectKeepsStraight(st: State, st': State, e: Event)
    requires QueueInv(st) && WaitInv(st) && Straight(st) && WaitsCounted(st) && Step(st, st', e) &&
             !StaleDispatch(st, e)
    ensures st'.initial + st'.posted == st'.wakeup + st'.taken
    ensures var t := Subject(st, e);
            if t in st.tasks then t in st'.tasks && Counted(st'.tasks[t]) && (st'.tasks[t].place == Queued ==>
              st'.tasks[t].waiting) else st'.tasks == st.tasks
  {
    if e.EWakeup? && st.queue != [] { assert st.queue[0] in st.queue; }
  }

  /** A signal is lost, or the queue gets a coroutine that waits for nothing. */
  lemma StaleDispatchShows(st: State, st': State, e: Event)
    requires Straight(st) && Step(st, st', e) && StaleDispatch(st, e)
    ensures !Straight(st')
  {
    assert st.wakeup == 0 ==> At(st', e.t, Queued);
  }

  /** Seen from outside: yielding and being dispatched leaves the object alone exactly if state_ is not sys_block. */
  lemma YieldIsHarmlessExactlyIf(st: State, mid: State, st': State, t: TaskId)
    requires QueueInv(st) && Yield(st, mid, t) && Dispatch(mid, st', t)
    ensures (st'.wakeup == st.wakeup && st'.queue == st.queue && At(st', t, Ready)) <==> !st.tasks[t].sysBlock
  {
  }

  // ---- Runs ----

  predicate Run(sts: seq<State>, evs: seq<Event>) {
    |sts| == |evs| + 1 && forall i :: 0 <= i < |evs| ==> Step(sts[i], sts[i + 1], evs[i])
  }

  predicate NoStaleDispatch(sts: seq<State>, evs: seq<Event>)
    requires |sts| == |evs| + 1
  {
    forall i :: 0 <= i < |evs| ==> !StaleDispatch(sts[i], evs[i])
  }

  lemma {:induction false} RunsKeepQueue(sts: seq<State>, evs: seq<Event>, i: nat)
    requires Run(sts, evs) && Init(sts[0]) && i <= |evs|
    ensures QueueInv(sts[i]) && WaitInv(sts[i])
  {
    if i > 0 {
      RunsKeepQueue(sts, evs, i - 1);
      assert Step(sts[i - 1], sts[i], evs[i - 1]);
      hide Step, QueueInv, WaitInv;
      StepKeepsQueue(sts[i - 1], sts[i], evs[i - 1]);
      StepKeepsWait(sts[i - 1], sts[i], evs[i - 1]);
    }
  }

  lemma {:induction false} RunsStayStraight(sts: seq<State>, evs: seq<Event>, i: nat)
    requires Run(sts, evs) && Init(sts[0]) && NoStaleDispatch(sts, evs) && i <= |evs|
    ensures Straight(sts[i]) && WaitsCounted(sts[i])
  {
    if i > 0 {
      RunsStayStraight(sts, evs, i - 1);
      RunsKeepQueue(sts, evs, i - 1);
      assert Step(sts[i - 1], sts[i], evs[i - 1]) && !StaleDispatch(sts[i - 1], evs[i - 1]);
      hide Step, QueueInv, WaitInv, Straight, WaitsCounted;
      StepKeepsStraight(sts[i - 1], sts[i], evs[i - 1]);
    }
  }

  lemma StraightUnlessDispatched(sts: seq<State>, evs: seq<Event>)
    requires Run(sts, evs) && Init(sts[0])
    ensures (forall i :: 0 <= i <= |evs| ==> Straight(sts[i])) <==> NoStaleDispatch(sts, evs)
  {
    hide Straight, Step, Init, StaleDispatch;
    if NoStaleDispatch(sts, evs) {
      forall i | 0 <= i <= |evs| ensures Straight(sts[i]) { RunsStayStraight(sts, evs, i); }
    } else {
      var i :| 0 <= i < |evs| && StaleDispatch(sts[i], evs[i]);
      assert Step(sts[i], sts[i + 1], evs[i]);
      if Straight(sts[i]) { StaleDispatchShows(sts[i], sts[i + 1], evs[i]); }
    }
  }

  // The dispatcher's second look finds a signal for an open wait.
  predicate SecondLook(st: State, e: Event, t: TaskId) {
    e == EDispatch(t) && t in st.tasks && st.tasks[t].waiting && st.wakeup > 0
  }

  lemma StaleStarts(st: State, st': State, e: Event, t: TaskId)
    requires QueueInv(st) && WaitInv(st) && !Stale(st, t) && Step(st, st', e) && Stale(st', t)
    ensures SecondLook(st, e, t)
  {
    hide Remove;
    OnlySubject(st, st', e);
  }

  /** Behind every leftover sys_block there is a wait that was satisfied by the second look: a wait ended by Wakeup or
      by its timer leaves none. */
  lemma {:induction false} StaleBySecondLook(sts: seq<State>, evs: seq<Event>, n: nat, t: TaskId) returns (i: nat)
    requires Run(sts, evs) && Init(sts[0]) && n <= |evs| && Stale(sts[n], t)
    ensures i < n && SecondLook(sts[i], evs[i], t) && forall j :: i < j <= n ==> Stale(sts[j], t)
  {
    hide Step, QueueInv, WaitInv, SecondLook;
    assert n > 0;
    assert Step(sts[n - 1], sts[n], evs[n - 1]);
    if Stale(sts[n - 1], t) {
      i := StaleBySecondLook(sts, evs, n - 1, t);
    } else {
      RunsKeepQueue(sts, evs, n - 1);
      StaleStarts(sts[n - 1], sts[n], evs[n - 1], t);
      i := n - 1;
    }
  }

  // Switched out by a plain yield with a leftover sys_block.
  predicate Astray(st: State, t: TaskId) {
    At(st, t, Leaving) && Stale(st, t)
  }

  lemma AstrayStays(st: State, st': State, e: Event, t: TaskId)
    requires QueueInv(st) && Astray(st, t) && Step(st, st', e) && e != EDispatch(t)
    ensures Astray(st', t)
  {
    if e.EWakeup? && st.queue != [] { assert st.queue[0] in st.queue; }
  }

  lemma AstrayStarts(st: State, st': State, e: Event, t: TaskId)
    requires QueueInv(st) && WaitInv(st) && !Astray(st, t) && Step(st, st', e) && Astray(st', t)
    ensures e == EYield(t) && StaleYield(st, e)
  {
  }

  /** Behind every stale dispatch there is a stale yield of the same coroutine. */
  lemma {:induction false} StaleYieldBefore(sts: seq<State>, evs: seq<Event>, j: nat, t: TaskId) returns (i: nat)
    requires Run(sts, evs) && Init(sts[0]) && j <= |evs| && Astray(sts[j], t)
    ensures i < j && evs[i] == EYield(t) && StaleYield(sts[i], evs[i])
  {
    hide Step, StaleYield, QueueInv, WaitInv;
    assert j > 0;
    assert Step(sts[j - 1], sts[j], evs[j - 1]);
    if Astray(sts[j - 1], t) {
      i := StaleYieldBefore(sts, evs, j - 1, t);
    } else {
      RunsKeepQueue(sts, evs, j - 1);
      AstrayStarts(sts[j - 1], sts[j], evs[j - 1], t);
      i := j - 1;
    }
  }

  /** The first dispatch after a stale yield is stale. */
  lemma {:induction false} StaleDispatchAfter(sts: seq<State>, evs: seq<Event>, i: nat, j: nat, t: TaskId)
                                              returns (d: nat)
    requires Run(sts, evs) && Init(sts[0]) && i <= j < |evs| && Astray(sts[i], t) && evs[j] == EDispatch(t)
    ensures i <= d <= j && StaleDispatch(sts[d], evs[d])
    decreases j - i
  {
    if evs[i] == EDispatch(t) {
      d := i;
    } else {
      hide QueueInv, WaitInv;
      RunsKeepQueue(sts, evs, i);
      assert Step(sts[i], sts[i + 1], evs[i]);
      AstrayStays(sts[i], sts[i + 1], evs[i], t);
      d := StaleDispatchAfter(sts, evs, i + 1, j, t);
    }
  }

  /** Signals are conserved and only open waits are queued, throughout the run, if and only if no coroutine whose last
      wait was satisfied by the second look yields and is dispatched again before its state is reset. */
  lemma StraightExactlyIf(sts: seq<State>, evs: seq<Event>)
    requires Run(sts, evs) && Init(sts[0])
    ensures (forall i :: 0 <= i <= |evs| ==> Straight(sts[i])) <==>
            !exists i, j :: 0 <= i < j < |evs| && StaleYield(sts[i], evs[i]) && evs[j] == EDispatch(evs[i].t)
  {
    StraightUnlessDispatched(sts, evs);
    hide Straight, Init;
    if j :| 0 <= j < |evs| && StaleDispatch(sts[j], evs[j]) {
      assert Step(sts[j], sts[j + 1], evs[j]);
      var i := StaleYieldBefore(sts, evs, j, evs[j].t);
      assert StaleYield(sts[i], evs[i]) && evs[j] == EDispatch(evs[i].t);
    }
    if i, j :| 0 <= i < j < |evs| && StaleYield(sts[i], evs[i]) && evs[j] == EDispatch(evs[i].t) {
      assert Step(sts[i], sts[i + 1], evs[i]);
      var d := StaleDispatchAfter(sts, evs, i + 1, j, evs[i].t);
    }
  }

  /** In such a run no signal is lost or made up, and every blocking wait that has ended ended exactly once. */
  lemma SignalsConserved(sts: seq<State>, evs: seq<Event>, t: TaskId)
    requires Run(sts, evs) && Init(sts[0])
    requires !exists i, j :: 0 <= i < j < |evs| && StaleYield(sts[i], evs[i]) && evs[j] == EDispatch(evs[i].t)
    ensures var st := sts[|evs|];
            && st.initial + st.posted == st.wakeup + st.taken
            && (t in st.tasks ==>
                  st.tasks[t].begun == st.tasks[t].granted + st.tasks[t].timedOut + if st.tasks[t].waiting then 1
                      else 0)
            && (t in st.queue ==> t in st.tasks && st.tasks[t].waiting)
  {
    hide Init, Step, StaleYield, StaleDispatch;
    StraightExactlyIf(sts, evs);
    StraightUnlessDispatched(sts, evs);
    RunsStayStraight(sts, evs, |evs|);
    RunsKeepQueue(sts, evs, |evs|);
  }

  // ---- Order ----

  ghost predicate Ahead(q: seq<TaskId>, t: TaskId, u: TaskId) {
    exists i, j :: 0 <= i < j < |q| && q[i] == t && q[j] == u
  }

  lemma {:induction false} RemoveKeepsOrder(q: seq<TaskId>, x: TaskId, t: TaskId, u: TaskId)
    requires Ahead(q, t, u) && x != t && x != u
    ensures Ahead(Remove(q, x), t, u)
  {
    var i, j :| 0 <= i < j < |q| && q[i] == t && q[j] == u;
    var rest := q[1..];
    if q[0] == x {
      assert rest[i - 1] == t && rest[j - 1] == u;
    } else if q[0] == t {
      assert rest[j - 1] == u;
      RemoveKeepsOther(rest, x, u);
      var r := Remove(rest, x);
      var k :| 0 <= k < |r| && r[k] == u;
      assert ([q[0]] + r)[0] == t && ([q[0]] + r)[k + 1] == u;
    } else {
      assert rest[i - 1] == t && rest[j - 1] == u;
      RemoveKeepsOrder(rest, x, t, u);
      var r := Remove(rest, x);
      var a, b :| 0 <= a < b < |r| && r[a] == t && r[b] == u;
      assert ([q[0]] + r)[a + 1] == t && ([q[0]] + r)[b + 1] == u;
    }
  }

  lemma {:induction false} RemoveKeepsOther(q: seq<TaskId>, x: TaskId, u: TaskId)
    requires u in q && u != x
    ensures u in Remove(q, x)
  {
    if q[0] != u {
      assert u in q[1..];
      if q[0] != x { RemoveKeepsOther(q[1..], x, u); }
    }
  }

  lemma StepKeepsOrder(st: State, st': State, e: Event, t: TaskId, u: TaskId)
    requires QueueInv(st) && Step(st, st', e) && t in st'.queue && u in st'.queue
    requires Ahead(st.queue, t, u)
    ensures Ahead(st'.queue, t, u)
  {
    var i, j :| 0 <= i < j < |st.queue| && st.queue[i] == t && st.queue[j] == u;
    match e
    case EDispatch(_) => assert st'.queue[i] == t && st'.queue[j] == u;
    case EWakeup =>
      if st.queue != [] {
        assert i > 0;
        assert st'.queue[i - 1] == t && st'.queue[j - 1] == u;
      }
    case ETimeout(x, s) =>
      if st'.queue != st.queue {
        RemoveOne(st.queue, x);
        RemoveKeepsOrder(st.queue, x, t, u);
      }
    case _ =>
  }

  /** Waits are served in the order they were queued: while a task queued before is still there, u is not first. */
  lemma {:induction false} ServedInOrder(sts: seq<State>, evs: seq<Event>, i: nat, m: nat, t: TaskId, u: TaskId)
    requires Run(sts, evs) && Init(sts[0]) && i < m <= |evs| && evs[i] == EDispatch(u) && u !in sts[i].queue
    requires t in sts[i].queue && forall j :: i < j <= m ==> t in sts[j].queue && u in sts[j].queue
    ensures Ahead(sts[m].queue, t, u) && sts[m].queue[0] != u
  {
    RunsKeepQueue(sts, evs, m);
    RunsKeepQueue(sts, evs, m - 1);
    assert Step(sts[m - 1], sts[m], evs[m - 1]);
    if m == i + 1 {
      var k :| 0 <= k < |sts[i].queue| && sts[i].queue[k] == t;
      var q := sts[m].queue;
      assert q[k] == t && q[|q| - 1] == u;
    } else {
      ServedInOrder(sts, evs, i, m - 1, t, u);
      hide Step;
      StepKeepsOrder(sts[m - 1], sts[m], evs[m - 1], t, u);
    }
  }

  // ---- Timers ----

  // An open timed wait that is queued has its timer.
  predicate TimerSet(st: State) {
    forall t :: t in st.tasks && NeedsTimer(st.tasks[t]) ==> (t, st.tasks[t].sequence) in st.timers
  }

  predicate NeedsTimer(k: Task) {
    k.place == Queued && k.waiting && k.timed
  }

  predicate OwnedBy(tasks: map<TaskId, Task>, timer: (TaskId, nat)) {
    && timer.0 in tasks && timer.1 <= tasks[timer.0].sequence
    && (timer.1 == tasks[timer.0].sequence ==> tasks[timer.0].timed)
  }

  // No timer belongs to a wait to come, and the latest wait has one only if it is timed.
  predicate TimersOwned(st: State) {
    forall timer :: timer in st.timers ==> OwnedBy(st.tasks, timer)
  }

  lemma StepKeepsTimerSet(st: State, st': State, e: Event)
    requires QueueInv(st) && TimerSet(st) && Step(st, st', e)
    ensures TimerSet(st')
  {
    hide Step, QueueInv, NeedsTimer;
    OnlySubject(st, st', e);
    forall t | t in st'.tasks && NeedsTimer(st'.tasks[t]) ensures (t, st'.tasks[t].sequence) in st'.timers {
      TimerStays(st, st', e, t);
    }
  }

  lemma TimerStays(st: State, st': State, e: Event, t: TaskId)
    requires QueueInv(st) && Step(st, st', e) && t in st.tasks && t in st'.tasks && NeedsTimer(st'.tasks[t])
    requires NeedsTimer(st.tasks[t]) ==> (t, st.tasks[t].sequence) in st.timers
    ensures (t, st'.tasks[t].sequence) in st'.timers
  {
    hide Remove, Timeout;
    if e.ETimeout? {
      OtherTimersStay(st, st', e.t, e.sequence, t);
    }
  }

  lemma OtherTimersStay(st: State, st': State, t: TaskId, sequence: nat, u: TaskId)
    requires QueueInv(st) && Timeout(st, st', t, sequence) && u in st.tasks && u in st'.tasks
    requires st'.tasks[u].place == Queued
    ensures st'.tasks[u] == st.tasks[u]
    ensures (u, st.tasks[u].sequence) in st.timers ==> (u, st.tasks[u].sequence) in st'.timers
  {
    hide Remove, NoDuplicates;
  }

  // A timer in st' was there before, or is that of the task just queued.
  lemma TimerFrom(st: State, st': State, e: Event, timer: (TaskId, nat))
    requires Step(st, st', e) && timer in st'.timers
    ensures timer in st.timers ||
            (timer.0 in st'.tasks && timer.1 == st'.tasks[timer.0].sequence && st'.tasks[timer.0].timed)
  {
  }

  lemma OwnerStays(st: State, st': State, e: Event, timer: (TaskId, nat))
    requires Step(st, st', e) && OwnedBy(st.tasks, timer)
    ensures OwnedBy(st'.tasks, timer)
  {
    hide Remove;
  }

  lemma StepKeepsOwners(st: State, st': State, e: Event)
    requires QueueInv(st) && TimersOwned(st) && Step(st, st', e)
    ensures TimersOwned(st')
  {
    hide Step, QueueInv;
    forall timer | timer in st'.timers ensures OwnedBy(st'.tasks, timer) {
      TimerFrom(st, st', e, timer);
      if timer in st.timers { OwnerStays(st, st', e, timer); }
    }
  }

  // Wait q of task t is open.
  predicate Open(st: State, t: TaskId, q: nat) {
    t in st.tasks && st.tasks[t].waiting && st.tasks[t].sequence == q
  }

  /** An open wait ends by a signal given to it or by the timer set for it, and is_block_timeout_ says which. */
  lemma WaitEnds(st: State, st': State, e: Event, t: TaskId, q: nat)
    requires QueueInv(st) && WaitInv(st) && Open(st, t, q) && Step(st, st', e)
    ensures t in st'.tasks && st'.tasks[t].sequence == q && st'.tasks[t].timed == st.tasks[t].timed
    ensures !Open(st', t, q) ==> (st'.tasks[t].late <==> e == ETimeout(t, q))
    ensures !Open(st', t, q) && e != ETimeout(t, q) ==>
              st'.taken == st.taken + 1 && (e == EDispatch(t) || (e == EWakeup && st.queue != [] && st.queue[0] == t))
  {
  }

  lemma {:induction false} TimersSet(sts: seq<State>, evs: seq<Event>, n: nat)
    requires Run(sts, evs) && Init(sts[0]) && n <= |evs|
    ensures TimerSet(sts[n]) && TimersOwned(sts[n])
  {
    if n > 0 {
      hide Step, TimerSet, TimersOwned, QueueInv, WaitInv;
      TimersSet(sts, evs, n - 1);
      RunsKeepQueue(sts, evs, n - 1);
      StepKeepsTimerSet(sts[n - 1], sts[n], evs[n - 1]);
      StepKeepsOwners(sts[n - 1], sts[n], evs[n - 1]);
    }
  }

  // The wait that event i begins, open up to state m.
  predicate OpenUntil(sts: seq<State>, evs: seq<Event>, i: nat, m: nat, t: TaskId, q: nat)
    requires i < m < |sts| == |evs| + 1
  {
    && evs[i].EBlock? && evs[i].t == t && t in sts[i + 1].tasks && sts[i + 1].tasks[t].sequence == q
    && forall j :: i < j <= m ==> Open(sts[j], t, q)
  }

  lemma BlockSets(st: State, st': State, t: TaskId, timed: bool)
    requires Step(st, st', EBlock(t, timed))
    ensures t in st'.tasks && st'.tasks[t].timed == timed
  {
  }

  lemma {:induction false} StaysTimed(sts: seq<State>, evs: seq<Event>, i: nat, m: nat, t: TaskId, q: nat)
    requires Run(sts, evs) && Init(sts[0]) && i < m <= |evs| && OpenUntil(sts, evs, i, m, t, q)
    ensures t in sts[m].tasks && sts[m].tasks[t].timed == evs[i].timed
  {
    hide Step, QueueInv, WaitInv, Init, Open;
    assert Step(sts[m - 1], sts[m], evs[m - 1]);
    if m == i + 1 {
      BlockSets(sts[i], sts[m], t, evs[i].timed);
    } else {
      StaysTimed(sts, evs, i, m - 1, t, q);
      RunsKeepQueue(sts, evs, m - 1);
      WaitEnds(sts[m - 1], sts[m], evs[m - 1], t, q);
    }
  }

  /** In every run, a blocking wait that ends was given a signal, or was timed and ended by the timer set for it and no
      other; CoBlockWaitTimed's answer says which. */
  lemma WaitEndsByItsOwn(sts: seq<State>, evs: seq<Event>, i: nat, m: nat, t: TaskId, q: nat)
    requires Run(sts, evs) && Init(sts[0]) && i < m < |evs| && OpenUntil(sts, evs, i, m, t, q)
    requires !Open(sts[m + 1], t, q)
    ensures t in sts[m + 1].tasks && (sts[m + 1].tasks[t].late <==> evs[m] == ETimeout(t, q))
    ensures evs[m].ETimeout? ==> evs[m] == ETimeout(t, q) && evs[i].timed
    ensures !evs[m].ETimeout? ==> sts[m + 1].taken == sts[m].taken + 1
  {
    RunsKeepQueue(sts, evs, m);
    StaysTimed(sts, evs, i, m, t, q);
    TimersSet(sts, evs, m);
    assert Step(sts[m], sts[m + 1], evs[m]);
    hide QueueInv, WaitInv, Init;
    WaitEnds(sts[m], sts[m + 1], evs[m], t, q);
  }

  /** A queued timed wait can be ended by its timer at any time. */
  lemma TimedWaitCanEnd(sts: seq<State>, evs: seq<Event>, n: nat, t: TaskId, q: nat)
    requires Run(sts, evs) && Init(sts[0]) && n <= |evs| && Open(sts[n], t, q) && t in sts[n].queue
    requires sts[n].tasks[t].timed
    ensures exists st' :: Step(sts[n], st', ETimeout(t, q)) && !Open(st', t, q) && t !in st'.queue
  {
    RunsKeepQueue(sts, evs, n);
    TimersSet(sts, evs, n);
    var st := sts[n];
    RemoveOne(st.queue, t);
    var k := st.tasks[t].(waiting := false, timedOut := st.tasks[t].timedOut + 1);
    var st' := st.(tasks := st.tasks[t := k.(place := Ready, sysBlock := false, late := true)],
                   timers := st.timers - multiset{(t, q)}, queue := Remove(st.queue, t));
    assert Step(st, st', ETimeout(t, q));
  }

  /** A timer that fires after its wait has ended does nothing. */
  lemma LateTimerIsHarmless(st: State, st': State, t: TaskId, q: nat)
    requires QueueInv(st) && Straight(st) && Step(st, st', ETimeout(t, q)) && !Open(st, t, q)
    ensures st' == st.(timers := st'.timers)
  {
  }

  // ---- A run that loses a signal ----

  // Task 0 finds no signal; one arrives before it is dispatched, so the second look takes it and task 0 runs on with
  // its state still sys_block. The next signal is stored; a plain yield of task 0 then swallows it.
  const LOST_EVENTS: seq<Event> :=
    [ENone(0), EWakeup, EBlock(0, false), EDispatch(0), EResume(0), EWakeup, EYield(0), EDispatch(0)]

  function LostState(i: nat): State {
    var s := State(0, 10, [], map[0 := FRESH], multiset{}, 0, 0, 0);
    var leaving := Task(Leaving, true, 1, false, false, true, 1, 0, 0);
    var after := Task(Ready, true, 1, false, false, false, 1, 1, 0);
    match i
    case 0 => s
    case 1 => s.(tasks := map[0 := FRESH.(place := Deciding)])
    case 2 => s.(tasks := map[0 := FRESH.(place := Deciding)], wakeup := 1, posted := 1)
    case 3 => s.(tasks := map[0 := leaving], wakeup := 1, posted := 1)
    case 4 => s.(tasks := map[0 := after], posted := 1, taken := 1)
    case 5 => s.(tasks := map[0 := after.(place := Running)], posted := 1, taken := 1)
    case 6 => s.(tasks := map[0 := after.(place := Running)], wakeup := 1, posted := 2, taken := 1)
    case 7 => s.(tasks := map[0 := after.(place := Leaving)], wakeup := 1, posted := 2, taken := 1)
    case _ => s.(tasks := map[0 := after], posted := 2, taken := 1)
  }

  /** Two signals are posted, one wait is satisfied, and no signal is left. */
  lemma YieldLosesSignal()
    ensures Run(seq(9, i requires 0 <= i < 9 => LostState(i)), LOST_EVENTS) && Init(LostState(0))
    ensures var st := LostState(8); st.posted == 2 && st.taken == 1 && st.wakeup == 0 && st.queue == []
  {
    var sts := seq(9, i requires 0 <= i < 9 => LostState(i));
    forall i | 0 <= i < 8 ensures Step(sts[i], sts[i + 1], LOST_EVENTS[i]) {
      LostStep(i);
    }
  }

  lemma LostStep(i: nat)
    requires i < 8
    ensures Step(LostState(i), LostState(i + 1), LOST_EVENTS[i])
  {
    var st, st' := LostState(i), LostState(i + 1);
    assert st'.tasks == if i == 1 || i == 5 then st.tasks else st.tasks[0 := st'.tasks[0]];
    assert i == 0 || i == 1 || i == 2 || i == 3 || i == 4 || i == 5 || i == 6 || i == 7;
  }
}
