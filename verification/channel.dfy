/** Channel: a queue between two BlockObjects, with pops that may be withdrawn. */
module Channels {

  type TaskId = nat
  type Item = int

  /**
   * The calls in flight, by how far they have come. A push found no write permit and is about to be queued for one or
   * is queued (pushWait), holds one (pushGot), has queued its item and owes a read signal (pushDone). A pop has posted
   * a write permit (popBegun), found no read signal and is about to be queued for one or is queued (popWait), is about
   * to try once more for a signal (popRetry) or to take its permit back (popLast), or holds a read signal (popGot).
   */
  datatype State = State(
    writeSignals: nat, readSignals: nat, queue: seq<Item>,
    pushWait: set<TaskId>, pushGot: set<TaskId>, pushDone: set<TaskId>,
    popBegun: set<TaskId>, popWait: set<TaskId>, popRetry: set<TaskId>, popLast: set<TaskId>, popGot: set<TaskId>,
    capacity: nat, admitted: nat, begun: nat, withdrawn: nat, signalled: nat, granted: nat,
    pushed: seq<Item>, popped: seq<Item>)

  predicate Busy(st: State, t: TaskId) {
    || t in st.pushWait || t in st.pushGot || t in st.pushDone
    || t in st.popBegun || t in st.popWait || t in st.popRetry || t in st.popLast || t in st.popGot
  }

  function PopsInFlight(st: State): nat {
    |st.popBegun| + |st.popWait| + |st.popRetry| + |st.popLast| + |st.popGot|
  }

  // Where a posted signal goes: to a waiter; into store, while no waiter is in the queue yet; or nowhere any call will
  // see it (a coroutine that re-enters the wait with a leftover state can take a signal nobody asked for).
  datatype Receiver = Waiter(t: TaskId) | Store | Nobody

  // ---- Steps ----

  predicate PushStart(st: State, st': State, t: TaskId) {
    && !Busy(st, t)
    && st' == if st.writeSignals > 0
              then st.(writeSignals := st.writeSignals - 1, admitted := st.admitted + 1, pushGot := st.pushGot + {t})
              else st.(pushWait := st.pushWait + {t})
  }

  /** AddWaitTask's second look: a permit stored after the first look ends the wait before it begins. */
  predicate PushLooksAgain(st: State, st': State, t: TaskId) {
    && t in st.pushWait && st.writeSignals > 0
    && st' == st.(writeSignals := st.writeSignals - 1, admitted := st.admitted + 1, pushWait := st.pushWait - {t},
                  pushGot := st.pushGot + {t})
  }

  predicate PushTimeout(st: State, st': State, t: TaskId) {
    t in st.pushWait && st' == st.(pushWait := st.pushWait - {t})
  }

  predicate PushItem(st: State, st': State, t: TaskId, x: Item) {
    && t in st.pushGot
    && st' == st.(pushGot := st.pushGot - {t}, pushDone := st.pushDone + {t}, queue := st.queue + [x],
                  pushed := st.pushed + [x])
  }

  /** read_block_.Wakeup() */
  predicate PushSignal(st: State, st': State, t: TaskId, r: Receiver) {
    && t in st.pushDone
    && var s := st.(pushDone := st.pushDone - {t}, signalled := st.signalled + 1);
    && match r
       case Waiter(u) =>
         u in st.popWait && st' == s.(popWait := st.popWait - {u}, popGot := st.popGot + {u}, granted := st.granted + 1)
       case Store => st' == s.(readSignals := st.readSignals + 1)
       case Nobody => st' == s
  }

  /** write_block_.Wakeup() */
  predicate PopStart(st: State, st': State, t: TaskId, r: Receiver) {
    && !Busy(st, t)
    && var s := st.(popBegun := st.popBegun + {t}, begun := st.begun + 1);
    && match r
       case Waiter(u) =>
         u in st.pushWait && st' ==
             s.(pushWait := st.pushWait - {u}, pushGot := st.pushGot + {u}, admitted := st.admitted + 1)
       case Store => st' == s.(writeSignals := st.writeSignals + 1)
       case Nobody => st' == s
  }

  /** read_block_.CoBlockWait() */
  predicate PopWaits(st: State, st': State, t: TaskId) {
    && t in st.popBegun
    && var s := st.(popBegun := st.popBegun - {t});
    && st' == if st.readSignals > 0
              then s.(readSignals := st.readSignals - 1, granted := st.granted + 1, popGot := st.popGot + {t})
              else s.(popWait := st.popWait + {t})
  }

  predicate PopLooksAgain(st: State, st': State, t: TaskId) {
    && t in st.popWait && st.readSignals > 0
    && st' == st.(readSignals := st.readSignals - 1, granted := st.granted + 1, popWait := st.popWait - {t},
                  popGot := st.popGot + {t})
  }

  // TryPop goes straight to the loop; TimedPop gets there by a timeout, and first tries to take its permit back.
  predicate PopTries(st: State, st': State, t: TaskId) {
    t in st.popBegun && st' == st.(popBegun := st.popBegun - {t}, popRetry := st.popRetry + {t})
  }

  predicate PopTimeout(st: State, st': State, t: TaskId) {
    t in st.popWait && st' == st.(popWait := st.popWait - {t}, popLast := st.popLast + {t})
  }

  /** read_block_.TryBlockWait() */
  predicate RetryRead(st: State, st': State, t: TaskId) {
    && t in st.popRetry
    && var s := st.(popRetry := st.popRetry - {t});
    && st' == if st.readSignals > 0
              then s.(readSignals := st.readSignals - 1, granted := st.granted + 1, popGot := st.popGot + {t})
              else s.(popLast := st.popLast + {t})
  }

  /** write_block_.TryBlockWait(): the pop reports failure, or goes round again. */
  predicate Withdraw(st: State, st': State, t: TaskId) {
    && t in st.popLast
    && var s := st.(popLast := st.popLast - {t});
    && st' == if st.writeSignals > 0 then s.(writeSignals := st.writeSignals - 1, withdrawn := st.withdrawn + 1)
              else s.(popRetry := st.popRetry + {t})
  }

  /** queue_.front(), queue_.pop(): an empty queue here would be undefined behaviour. */
  predicate PopItem(st: State, st': State, t: TaskId) {
    && t in st.popGot
    && st' == st.(popGot := st.popGot - {t}, queue := if st.queue == [] then [] else st.queue[1..],
                  popped := st.popped + if st.queue == [] then [] else [st.queue[0]])
  }

  // A stored signal taken by a coroutine that did not ask for it.
  predicate Swallow(st: State, st': State) {
    || (st.readSignals > 0 && st' == st.(readSignals := st.readSignals - 1))
    || (st.writeSignals > 0 && st' == st.(writeSignals := st.writeSignals - 1))
  }

  datatype Event =
    | EPushStart(t: TaskId) | EPushTimeout(t: TaskId) | EPushItem(t: TaskId, x: Item) | EPushSignal(t: TaskId,
        r: Receiver)
    | EPopStart(t: TaskId, r: Receiver) | EPopWaits(t: TaskId) | EPopTries(t: TaskId) | EPopTimeout(t: TaskId)
    | ERetryRead(t: TaskId) | EWithdraw(t: TaskId) | EPopItem(t: TaskId) | ESwallow
    | EPushLooksAgain(t: TaskId) | EPopLooksAgain(t: TaskId)

  predicate Step(st: State, st': State, e: Event) {
    match e
    case EPushStart(t) => PushStart(st, st', t)
    case EPushTimeout(t) => PushTimeout(st, st', t)
    case EPushItem(t, x) => PushItem(st, st', t, x)
    case EPushSignal(t, r) => PushSignal(st, st', t, r)
    case EPopStart(t, r) => PopStart(st, st', t, r)
    case EPopWaits(t) => PopWaits(st, st', t)
    case EPopTries(t) => PopTries(st, st', t)
    case EPopTimeout(t) => PopTimeout(st, st', t)
    case ERetryRead(t) => RetryRead(st, st', t)
    case EWithdraw(t) => Withdraw(st, st', t)
    case EPopItem(t) => PopItem(st, st', t)
    case ESwallow => Swallow(st, st')
    case EPushLooksAgain(t) => PushLooksAgain(st, st', t)
    case EPopLooksAgain(t) => PopLooksAgain(st, st', t)
  }

  predicate Init(st: State, capacity: nat) {
    st == State(capacity, 0, [], {}, {}, {}, {}, {}, {}, {}, {}, capacity, 0, 0, 0, 0, 0, [], [])
  }

  // ---- Invariant ----

  predicate Apart(st: State) {
    && st.pushWait !! st.pushGot && st.pushWait !! st.pushDone && st.pushGot !! st.pushDone
    && st.popBegun !! st.popWait && st.popBegun !! st.popRetry && st.popBegun !! st.popGot
    && st.popWait !! st.popRetry && st.popWait !! st.popGot && st.popRetry !! st.popGot
    && st.popLast !! st.popBegun && st.popLast !! st.popWait && st.popLast !! st.popRetry && st.popLast !! st.popGot
  }

  predicate Accounts(st: State) {
    && st.writeSignals + st.admitted + st.withdrawn <= st.capacity + st.begun
    && st.readSignals + st.granted <= st.signalled
    && |st.pushGot| == st.admitted - |st.pushed|
    && |st.pushDone| == |st.pushed| - st.signalled
    && |st.popGot| == st.granted - |st.popped|
    && st.begun == PopsInFlight(st) + |st.popped| + st.withdrawn
  }

  predicate Inv(st: State) {
    Apart(st) && Accounts(st) && st.pushed == st.popped + st.queue
  }

  /** A pop that holds a read signal finds the queue non-empty. */
  lemma PopNeverEmpty(st: State, t: TaskId)
    requires Inv(st) && t in st.popGot
    ensures st.queue != []
  {
  }

  lemma StepKeepsApart(st: State, st': State, e: Event)
    requires Apart(st) && Step(st, st', e)
    ensures Apart(st') && st'.capacity == st.capacity
  {
  }

  lemma PushStartKeepsAccounts(st: State, st': State, t: TaskId)
    requires Inv(st) && PushStart(st, st', t)
    ensures Accounts(st')
  {
  }

  lemma PushItemKeepsAccounts(st: State, st': State, t: TaskId, x: Item)
    requires Inv(st) && PushItem(st, st', t, x)
    ensures Accounts(st')
  {
  }

  lemma SignalKeepsAccounts(st: State, st': State, t: TaskId, r: Receiver)
    requires Inv(st) && PushSignal(st, st', t, r)
    ensures Accounts(st')
  {
  }

  lemma PopStartKeepsAccounts(st: State, st': State, t: TaskId, r: Receiver)
    requires Inv(st) && PopStart(st, st', t, r)
    ensures Accounts(st')
  {
    assert |st'.popBegun| == |st.popBegun| + 1;
    if r.Waiter? { assert |st'.pushGot| == |st.pushGot| + 1; }
  }

  lemma WaitKeepsAccounts(st: State, st': State, t: TaskId)
    requires Inv(st) && PopWaits(st, st', t)
    ensures Accounts(st')
  {
  }

  lemma PushLookKeepsAccounts(st: State, st': State, t: TaskId)
    requires Inv(st) && PushLooksAgain(st, st', t)
    ensures Accounts(st')
  {
  }

  lemma PopLookKeepsAccounts(st: State, st': State, t: TaskId)
    requires Inv(st) && PopLooksAgain(st, st', t)
    ensures Accounts(st')
  {
  }

  lemma RetryKeepsAccounts(st: State, st': State, t: TaskId)
    requires Inv(st) && RetryRead(st, st', t)
    ensures Accounts(st')
  {
    assert |st'.popRetry| == |st.popRetry| - 1;
    if st.readSignals > 0 {
      assert |st'.popGot| == |st.popGot| + 1;
    } else {
      assert |st'.popLast| == |st.popLast| + 1;
    }
  }

  lemma WithdrawKeepsAccounts(st: State, st': State, t: TaskId)
    requires Inv(st) && Withdraw(st, st', t)
    ensures Accounts(st')
  {
    assert |st'.popLast| == |st.popLast| - 1;
    if st.writeSignals == 0 { assert |st'.popRetry| == |st.popRetry| + 1; }
  }

  lemma ItemKeepsAccounts(st: State, st': State, t: TaskId)
    requires Inv(st) && PopItem(st, st', t)
    ensures Accounts(st')
  {
    PopNeverEmpty(st, t);
  }

  lemma TimeoutKeepsAccounts(st: State, st': State, t: TaskId)
    requires Inv(st) && (PushTimeout(st, st', t) || PopTimeout(st, st', t))
    ensures Accounts(st')
  {
  }

  lemma TryKeepsAccounts(st: State, st': State, t: TaskId)
    requires Inv(st) && PopTries(st, st', t)
    ensures Accounts(st')
  {
  }

  lemma SwallowKeepsAccounts(st: State, st': State)
    requires Inv(st) && Swallow(st, st')
    ensures Accounts(st')
  {
  }

  lemma StepKeepsAccounts(st: State, st': State, e: Event)
    requires Inv(st) && Step(st, st', e)
    ensures Accounts(st')
  {
    hide Apart, Accounts, PushStart, PushItem, PushSignal, PopStart, PopWaits, RetryRead, Withdraw, PopItem,
      PushTimeout, PopTries, PopTimeout, Swallow, PushLooksAgain, PopLooksAgain;
    match e {
      case EPushStart(t) => PushStartKeepsAccounts(st, st', t);
      case EPushTimeout(t) => TimeoutKeepsAccounts(st, st', t);
      case EPushItem(t, x) => PushItemKeepsAccounts(st, st', t, x);
      case EPushSignal(t, r) => SignalKeepsAccounts(st, st', t, r);
      case EPopStart(t, r) => PopStartKeepsAccounts(st, st', t, r);
      case EPopWaits(t) => WaitKeepsAccounts(st, st', t);
      case ERetryRead(t) => RetryKeepsAccounts(st, st', t);
      case EWithdraw(t) => WithdrawKeepsAccounts(st, st', t);
      case EPopItem(t) => ItemKeepsAccounts(st, st', t);
      case EPopTries(t) => TryKeepsAccounts(st, st', t);
      case EPopTimeout(t) => TimeoutKeepsAccounts(st, st', t);
      case ESwallow => SwallowKeepsAccounts(st, st');
      case EPushLooksAgain(t) => PushLookKeepsAccounts(st, st', t);
      case EPopLooksAgain(t) => PopLookKeepsAccounts(st, st', t);
    }
  }

  lemma StepKeepsOrder(st: State, st': State, e: Event)
    requires Inv(st) && Step(st, st', e)
    ensures st'.pushed == st'.popped + st'.queue
  {
    hide Apart, Accounts;
    if e.EPopItem? {
      PopNeverEmpty(st, e.t);
      assert st.queue == [st.queue[0]] + st.queue[1..];
    }
  }

  lemma StepKeepsInv(st: State, st': State, e: Event)
    requires Inv(st) && Step(st, st', e)
    ensures Inv(st') && st'.capacity == st.capacity
  {
    hide Apart, Accounts, Step;
    StepKeepsApart(st, st', e);
    StepKeepsAccounts(st, st', e);
    StepKeepsOrder(st, st', e);
  }

  // ---- Runs ----

  predicate Run(sts: seq<State>, evs: seq<Event>) {
    |sts| == |evs| + 1 && forall i :: 0 <= i < |evs| ==> Step(sts[i], sts[i + 1], evs[i])
  }

  lemma InitInv(st: State, capacity: nat)
    requires Init(st, capacity)
    ensures Inv(st) && st.capacity == capacity
  {
  }

  lemma {:induction false} RunsKeepInv(sts: seq<State>, evs: seq<Event>, capacity: nat, i: nat)
    requires Run(sts, evs) && Init(sts[0], capacity) && i <= |evs|
    ensures Inv(sts[i]) && sts[i].capacity == capacity
  {
    hide Inv, Step, Init;
    InitInv(sts[0], capacity);
    if i > 0 {
      RunsKeepInv(sts, evs, capacity, i - 1);
      assert Step(sts[i - 1], sts[i], evs[i - 1]);
      StepKeepsInv(sts[i - 1], sts[i], evs[i - 1]);
    }
  }

  /** In every interleaving a pop meets a non-empty queue, items come out in the order they went in, and the queue never
      holds more than the capacity and one item for each pop in flight. */
  lemma ChannelIsSafe(sts: seq<State>, evs: seq<Event>, capacity: nat)
    requires Run(sts, evs) && Init(sts[0], capacity)
    ensures var st := sts[|evs|];
            && (st.popGot != {} ==> st.queue != [])
            && st.pushed == st.popped + st.queue
            && st.admitted + st.withdrawn <= capacity + st.begun
            && st.begun == PopsInFlight(st) + |st.popped| + st.withdrawn
            && |st.queue| <= capacity + PopsInFlight(st)
  {
    RunsKeepInv(sts, evs, capacity, |evs|);
    var st := sts[|evs|];
    if st.popGot != {} {
      var t :| t in st.popGot;
      PopNeverEmpty(st, t);
    }
  }

  // ---- Delivery ----

  predicate LosesSignal(e: Event) {
    match e
    case EPushSignal(_, r) => r.Nobody?
    case EPopStart(_, r) => r.Nobody?
    case ESwallow => true
    case _ => false
  }

  // Signals posted that are neither stored nor were given to a call.
  function Missing(st: State): int {
    st.signalled - st.readSignals - st.granted + st.capacity + st.begun - st.writeSignals - st.admitted - st.withdrawn
  }

  lemma StepLoses(st: State, st': State, e: Event)
    requires Step(st, st', e)
    ensures Missing(st') == Missing(st) + if LosesSignal(e) then 1 else 0
  {
  }

  /** Every queued item has a read signal stored for it, a pop that holds one, or a push about to post one; and every
      permit not in store is held by a push, or stands for an item or a pop in flight. */
  predicate Delivers(st: State) {
    && |st.queue| == st.readSignals + |st.popGot| + |st.pushDone|
    && st.writeSignals + |st.pushGot| + |st.queue| == st.capacity + PopsInFlight(st)
  }

  lemma DeliversIfNoneMissing(st: State)
    requires Inv(st)
    ensures Delivers(st) <==> Missing(st) == 0
  {
  }

  lemma {:induction false} NoneMissing(sts: seq<State>, evs: seq<Event>, capacity: nat, n: nat)
    requires Run(sts, evs) && Init(sts[0], capacity) && n <= |evs|
    ensures Missing(sts[n]) >= 0
    ensures Missing(sts[n]) == 0 <==> forall i :: 0 <= i < n ==> !LosesSignal(evs[i])
  {
    hide Step, LosesSignal;
    if n > 0 {
      NoneMissing(sts, evs, capacity, n - 1);
      StepLoses(sts[n - 1], sts[n], evs[n - 1]);
    }
  }

  /** In every interleaving both accounts balance if and only if no signal was lost to a coroutine that did not ask for
      it. */
  lemma DeliversExactlyIf(sts: seq<State>, evs: seq<Event>, capacity: nat, n: nat)
    requires Run(sts, evs) && Init(sts[0], capacity) && n <= |evs|
    ensures Delivers(sts[n]) <==> forall i :: 0 <= i < n ==> !LosesSignal(evs[i])
  {
    hide Step, LosesSignal, Init, Inv, Delivers;
    RunsKeepInv(sts, evs, capacity, n);
    NoneMissing(sts, evs, capacity, n);
    DeliversIfNoneMissing(sts[n]);
  }

  // No call is under way.
  predicate Quiet(st: State) {
    && st.pushWait == st.pushGot == st.pushDone == {}
    && st.popBegun == st.popWait == st.popRetry == st.popLast == st.popGot == {}
  }

  /** Between calls, the stored read signals count the items and the stored permits the free places. */
  lemma QuietCounts(st: State)
    requires Inv(st) && Delivers(st) && Quiet(st)
    ensures st.readSignals == |st.queue| && st.writeSignals == st.capacity - |st.queue|
  {
  }

  // The events of one task's pop, nobody else acting: no waiter is there to take the permit.
  predicate PopEvent(e: Event, t: TaskId) {
    || e == EPopStart(t, Store) || e == EPopWaits(t) || e == EPopTries(t) || e == EPopTimeout(t) || e == ERetryRead(t)
    || e == EWithdraw(t) || e == EPopItem(t) || e == EPopLooksAgain(t)
  }

  // The pop of t has got thus far, and holds or will find a read signal.
  predicate PopOnTheWay(st: State, t: TaskId, q: seq<Item>, popped: seq<Item>) {
    && st.queue == q && st.popped == popped && t !in st.popWait && t !in st.popLast
    && ((t in st.popBegun || t in st.popRetry) ==> st.readSignals > 0)
    && Busy(st, t) && t !in st.pushWait && t !in st.pushGot && t !in st.pushDone
  }

  predicate PopReturned(st: State, t: TaskId, q: seq<Item>, popped: seq<Item>) {
    q != [] && !Busy(st, t) && st.popped == popped + [q[0]] && st.queue == q[1..]
  }

  function StepsLeft(st: State, t: TaskId): nat {
    if t in st.popBegun then 3 else if t in st.popRetry then 2 else if t in st.popGot then 1 else 0
  }

  lemma PopGoesOn(st: State, st': State, e: Event, t: TaskId, q: seq<Item>, popped: seq<Item>)
    requires Apart(st) && PopOnTheWay(st, t, q, popped) && q != [] && Step(st, st', e) && PopEvent(e, t)
    ensures PopOnTheWay(st', t, q, popped) || PopReturned(st', t, q, popped)
    ensures StepsLeft(st', t) < StepsLeft(st, t)
  {
  }

  /** A pop of any kind, alone on a channel that holds items, is over within four steps and then has returned the first
      item. */
  lemma {:induction false} PopAloneDelivers(sts: seq<State>, evs: seq<Event>, t: TaskId, n: nat)
    requires Run(sts, evs) && Inv(sts[0]) && Delivers(sts[0]) && Quiet(sts[0]) && sts[0].queue != []
    requires 0 < n <= |evs| && evs[0] == EPopStart(t, Store) && forall i :: 0 <= i < |evs| ==> PopEvent(evs[i], t)
    requires forall i :: 0 < i < n ==> Busy(sts[i], t)
    ensures PopOnTheWay(sts[n], t, sts[0].queue, sts[0].popped) || PopReturned(sts[n], t, sts[0].queue, sts[0].popped)
    ensures Apart(sts[n]) && n + StepsLeft(sts[n], t) <= 4
  {
    assert Step(sts[n - 1], sts[n], evs[n - 1]);
    if n == 1 {
      QuietCounts(sts[0]);
    } else {
      PopAloneDelivers(sts, evs, t, n - 1);
      hide Step, Busy, Inv, Delivers;
      StepKeepsApart(sts[n - 1], sts[n], evs[n - 1]);
      assert Busy(sts[n - 1], t);
      PopGoesOn(sts[n - 1], sts[n], evs[n - 1], t, sts[0].queue, sts[0].popped);
    }
  }

  lemma PopCanGoOn(st: State, t: TaskId, q: seq<Item>, popped: seq<Item>)
    requires PopOnTheWay(st, t, q, popped)
    ensures exists st', e :: Step(st, st', e) && PopEvent(e, t)
  {
    if t in st.popGot {
      var s := st.(popGot := st.popGot - {t}, queue := if st.queue == [] then [] else st.queue[1..],
                   popped := st.popped + if st.queue == [] then [] else [st.queue[0]]);
      assert Step(st, s, EPopItem(t));
    } else if t in st.popBegun {
      var s := st.(popBegun := st.popBegun - {t}, popRetry := st.popRetry + {t});
      assert Step(st, s, EPopTries(t));
    } else {
      var s := st.(popRetry := st.popRetry - {t}, readSignals := st.readSignals - 1, granted := st.granted + 1,
                   popGot := st.popGot + {t});
      assert Step(st, s, ERetryRead(t));
    }
  }

  /** A push alone on a channel with room needs no wait, and leaves its item last in the queue with a signal for it. */
  lemma PushAloneDelivers(s0: State, s1: State, t: TaskId, x: Item)
    requires Inv(s0) && Delivers(s0) && Quiet(s0) && |s0.queue| < s0.capacity && Step(s0, s1, EPushStart(t))
    ensures t in s1.pushGot
    ensures forall s2, s3 :: Step(s1, s2, EPushItem(t, x)) && Step(s2, s3, EPushSignal(t, Store)) ==>
              Quiet(s3) && Delivers(s3) && s3.queue == s0.queue + [x] && s3.readSignals == |s3.queue|
  {
    QuietCounts(s0);
  }
}
