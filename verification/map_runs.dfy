/** What the database means to a client: a map that batches update, and snapshots that keep an earlier state of it. */
module MapRuns {
  import opened DbFormat
  import opened Engine
  import opened EngineSteps
  import opened EngineRuns
  import IR = IteratorRuns

  type Store = map<UserKey, Value>

  function ApplyOp(m: Store, k: UserKey, op: Op): Store {
    if op.Put? then m[k := op.value] else m - {k}
  }

  /** The operations of a batch take effect in order. */
  function ApplyOps(m: Store, ops: seq<(UserKey, Op)>): Store {
    if ops == [] then m
    else ApplyOp(ApplyOps(m, ops[..|ops| - 1]), ops[|ops| - 1].0, ops[|ops| - 1].1)
  }

  function Get(m: Store, k: UserKey): Option<Value> {
    if k in m then Some(m[k]) else None
  }

  /** What a plain map holds after the first n events: only writes change it. */
  function StoreAt(evs: seq<Event>, n: nat): Store
    requires n <= |evs|
  {
    if n == 0 then map[]
    else if evs[n - 1].EvWrite? then ApplyOps(StoreAt(evs, n - 1), evs[n - 1].ops)
    else StoreAt(evs, n - 1)
  }

  // ---- The history reads as that map ----

  lemma SameVisible(a: set<Entry>, s: nat, b: set<Entry>, t: nat, k: UserKey)
    requires Versioned(a) && Versioned(b)
    requires forall e :: (e in a && Visible(e, k, s)) <==> (e in b && Visible(e, k, t))
    ensures Read(a, k, s) == Read(b, k, t)
  {
    FindNone(a, k, s);
    FindNone(b, k, t);
    if Find(a, k, s).Some? {
      FindSome(a, k, s);
      FindNewest(b, k, t, Find(a, k, s).value);
    }
  }

  ghost predicate Bounded(hist: set<Entry>, last: nat) {
    Versioned(hist) && forall e :: e in hist ==> e.sn <= last
  }

  lemma OneMore(hist: set<Entry>, last: nat, m: Store, e: Entry, k: UserKey)
    requires Bounded(hist, last) && e.sn == last + 1 && Read(hist, k, last) == Get(m, k)
    ensures Bounded(hist + {e}, last + 1)
    ensures Read(hist + {e}, k, last + 1) == Get(ApplyOp(m, e.key, e.op), k)
  {
    if k == e.key {
      FindNewest(hist + {e}, k, last + 1, e);
    } else {
      SameVisible(hist + {e}, last + 1, hist, last, k);
    }
  }

  lemma {:induction false} BatchReads(hist: set<Entry>, last: nat, m: Store, ops: seq<(UserKey, Op)>, k: UserKey)
    requires Bounded(hist, last) && last + |ops| + 1 <= MAX_SEQUENCE && Read(hist, k, last) == Get(m, k)
    ensures var added := Elems(BatchEntries(ops, last + 1));
            && Bounded(hist + added, last + |ops|)
            && Read(hist + added, k, last + |ops|) == Get(ApplyOps(m, ops), k)
  {
    hide Bounded, Read;
    var added := Elems(BatchEntries(ops, last + 1));
    if ops == [] {
      assert hist + added == hist;
    } else {
      var init, x := ops[..|ops| - 1], ops[|ops| - 1];
      BatchReads(hist, last, m, init, k);
      var before, e := Elems(BatchEntries(init, last + 1)), Entry(x.0, last + |ops|, x.1);
      BatchGrows(ops, last + 1);
      OneMore(hist + before, last + |init|, ApplyOps(m, init), e, k);
      assert hist + before + {e} == hist + added;
    }
  }

  lemma BatchGrows(ops: seq<(UserKey, Op)>, first: nat)
    requires ops != [] && first + |ops| <= MAX_SEQUENCE
    ensures var n := |ops| - 1;
            Elems(BatchEntries(ops, first)) ==
            Elems(BatchEntries(ops[..n], first)) + {Entry(ops[n].0, first + n, ops[n].1)}
  {
    var n := |ops| - 1;
    var all := BatchEntries(ops, first);
    assert all == BatchEntries(ops[..n], first) + [Entry(ops[n].0, first + n, ops[n].1)];
  }

  lemma {:induction false} GroundRuns(sts: seq<State>, evs: seq<Event>, n: nat)
    requires Run(sts, evs) && n <= |evs|
    ensures IR.Ground(sts[n]) && Bounded(sts[n].hist, sts[n].lastSeq)
  {
    hide Step, IR.ReadsHistory;
    if n == 0 {
      hide Init, IR.Ground;
      IR.InitSound(sts[0]);
    } else {
      GroundRuns(sts, evs, n - 1);
      hide IR.Ground;
      IR.StepKeepsGround(sts[n - 1], sts[n], evs[n - 1]);
    }
    GroundIsBounded(sts[n]);
  }

  lemma GroundIsBounded(st: State)
    requires IR.Ground(st)
    ensures Bounded(st.hist, st.lastSeq)
  {
  }

  lemma StepIsQuiet(st: State, st': State, ev: Event)
    requires Step(st, st', ev) && !ev.EvWrite?
    ensures st'.hist == st.hist && st'.lastSeq == st.lastSeq
  {
  }

  lemma StepUpdatesMap(st: State, st': State, ev: Event, m: Store, k: UserKey)
    requires Bounded(st.hist, st.lastSeq) && Step(st, st', ev) && Read(st.hist, k, st.lastSeq) == Get(m, k)
    ensures Read(st'.hist, k, st'.lastSeq) == Get(if ev.EvWrite? then ApplyOps(m, ev.ops) else m, k)
  {
    hide Bounded, Read, ApplyOps, BatchEntries;
    if ev.EvWrite? {
      BatchReads(st.hist, st.lastSeq, m, ev.ops, k);
    } else {
      StepIsQuiet(st, st', ev);
    }
  }

  lemma NothingRead(k: UserKey)
    ensures Read({}, k, 0) == None
  {
    FindNone({}, k, 0);
  }

  /** In every run, a read of the history at the last sequence number is a lookup in the map. */
  lemma {:induction false} HistoryIsMap(sts: seq<State>, evs: seq<Event>, n: nat, k: UserKey)
    requires Run(sts, evs) && n <= |evs|
    ensures Read(sts[n].hist, k, sts[n].lastSeq) == Get(StoreAt(evs, n), k)
  {
    hide Step, IR.Ground, Read, ApplyOps;
    if n == 0 {
      NothingRead(k);
    } else {
      HistoryIsMap(sts, evs, n - 1, k);
      GroundRuns(sts, evs, n - 1);
      StepUpdatesMap(sts[n - 1], sts[n], evs[n - 1], StoreAt(evs, n - 1), k);
    }
  }

  // ---- Snapshots ----

  // Where a snapshot stands in the list after one more event, if it is still held.
  function Follow(ev: Event, place: Option<nat>): Option<nat> {
    if place.None? || ev.EvReopen? then None
    else if ev.EvRelease? then
      if ev.i == place.value then None else if ev.i < place.value then Some(place.value - 1) else place
    else place
  }

  /** The place, after n events, of the snapshot taken by event j. */
  function PlaceOf(sts: seq<State>, evs: seq<Event>, j: nat, n: nat): Option<nat>
    requires j < n <= |evs| && |evs| < |sts|
  {
    if n == j + 1 then Some(|sts[j].snapshots|) else Follow(evs[n - 1], PlaceOf(sts, evs, j, n - 1))
  }

  // What was visible at the last sequence number then is what is visible at it now.
  ghost predicate Keeps(past: State, now: State) {
    && past.lastSeq <= now.lastSeq
    && forall e: Entry :: e.sn <= past.lastSeq ==> (e in now.hist <==> e in past.hist)
  }

  lemma StepKeepsPast(past: State, st: State, st': State, ev: Event)
    requires Keeps(past, st) && Step(st, st', ev)
    ensures Keeps(past, st')
  {
    if ev.EvWrite? {
      BatchIsNew(ev.ops, st.lastSeq + 1);
    } else {
      StepIsQuiet(st, st', ev);
    }
  }

  lemma {:induction false} PastIsKept(sts: seq<State>, evs: seq<Event>, j: nat, n: nat)
    requires Run(sts, evs) && j <= n <= |evs|
    ensures Keeps(sts[j], sts[n])
  {
    hide Step;
    if n > j {
      PastIsKept(sts, evs, j, n - 1);
      StepKeepsPast(sts[j], sts[n - 1], sts[n], evs[n - 1]);
    }
  }

  lemma StepFollows(st: State, st': State, ev: Event, p: nat)
    requires Step(st, st', ev) && p < |st.snapshots| && Follow(ev, Some(p)).Some?
    ensures var p' := Follow(ev, Some(p)).value; p' < |st'.snapshots| && st'.snapshots[p'] == st.snapshots[p]
  {
  }

  lemma {:induction false} SnapshotStays(sts: seq<State>, evs: seq<Event>, j: nat, n: nat)
    requires Run(sts, evs) && j < n <= |evs| && evs[j].EvSnapshot? && PlaceOf(sts, evs, j, n).Some?
    ensures var p := PlaceOf(sts, evs, j, n).value; p < |sts[n].snapshots| && sts[n].snapshots[p] == sts[j].lastSeq
  {
    if n == j + 1 {
      assert Step(sts[j], sts[n], evs[j]);
    } else {
      hide Step;
      SnapshotStays(sts, evs, j, n - 1);
      StepFollows(sts[n - 1], sts[n], evs[n - 1], PlaceOf(sts, evs, j, n - 1).value);
    }
  }

  /** In every run, for as long as a snapshot is held, the history reads at it as the map was when it was taken. */
  lemma SnapshotIsMap(sts: seq<State>, evs: seq<Event>, j: nat, n: nat, k: UserKey)
    requires Run(sts, evs) && j < n <= |evs| && evs[j].EvSnapshot? && PlaceOf(sts, evs, j, n).Some?
    ensures var p := PlaceOf(sts, evs, j, n).value;
            p < |sts[n].snapshots| && Read(sts[n].hist, k, sts[n].snapshots[p]) == Get(StoreAt(evs, j), k)
  {
    hide Step, IR.Ground;
    SnapshotStays(sts, evs, j, n);
    PastIsKept(sts, evs, j, n);
    GroundRuns(sts, evs, j);
    GroundRuns(sts, evs, n);
    SameVisible(sts[n].hist, sts[j].lastSeq, sts[j].hist, sts[j].lastSeq, k);
    HistoryIsMap(sts, evs, j, k);
  }

  // ---- Reads of the database ----

  ghost predicate Closed(sts: seq<State>, evs: seq<Event>, n: nat)
    requires n <= |evs| && |evs| < |sts|
  {
    forall i :: 0 <= i < n ==> ClosedEvent(sts[i], evs[i])
  }

  lemma SameMem(st: State, s: nat)
    requires Inv(st)
    ensures LaterMem(st.mem, st.mem, s)
  {
  }

  /** While merges and moves are closed under user key, Get is a lookup in the map, and Get at a snapshot is a lookup in
      the map as it was when the snapshot was taken. */
  lemma GetIsLookup(sts: seq<State>, evs: seq<Event>, n: nat, k: UserKey, r: Option<Value>)
    requires Run(sts, evs) && n <= |evs| && Closed(sts, evs, n)
    requires GetAnswer(sts[n].mem, sts[n].imm, sts[n].v, k, sts[n].lastSeq, r)
    ensures r == Get(StoreAt(evs, n), k)
  {
    hide Step, ClosedEvent, Inv, GetAnswer;
    ClosedRunsKeepInv(sts, evs, n);
    SameMem(sts[n], sts[n].lastSeq);
    GetIsRead(sts[n], sts[n].mem, k, sts[n].lastSeq, r);
    HistoryIsMap(sts, evs, n, k);
  }

  lemma SnapshotGetIsLookup(sts: seq<State>, evs: seq<Event>, j: nat, n: nat, k: UserKey, r: Option<Value>)
    requires Run(sts, evs) && j < n <= |evs| && evs[j].EvSnapshot? && PlaceOf(sts, evs, j, n).Some?
    requires Closed(sts, evs, n) && PlaceOf(sts, evs, j, n).value < |sts[n].snapshots|
    requires GetAnswer(sts[n].mem, sts[n].imm, sts[n].v, k, sts[n].snapshots[PlaceOf(sts, evs, j, n).value], r)
    ensures r == Get(StoreAt(evs, j), k)
  {
    hide Step, ClosedEvent, Inv, GetAnswer, StoreAt;
    ClosedRunsKeepInv(sts, evs, n);
    SnapshotIsMap(sts, evs, j, n, k);
    var s := sts[n].snapshots[PlaceOf(sts, evs, j, n).value];
    SameMem(sts[n], s);
    GetIsRead(sts[n], sts[n].mem, k, s, r);
  }

  /** Without snapshots there is no condition. */
  lemma SnapshotFreeGetIsLookup(sts: seq<State>, evs: seq<Event>, n: nat, k: UserKey, r: Option<Value>)
    requires Run(sts, evs) && n <= |evs| && forall i :: 0 <= i < |evs| ==> !evs[i].EvSnapshot?
    requires GetAnswer(sts[n].mem, sts[n].imm, sts[n].v, k, sts[n].lastSeq, r)
    ensures r == Get(StoreAt(evs, n), k)
  {
    hide Step, GetAnswer;
    SnapshotFreeGet(sts, evs, n, k, r);
    HistoryIsMap(sts, evs, n, k);
  }

  /** While no merge revives a deleted key, an iterator shows exactly the map, and at a snapshot exactly the map as it
      was when the snapshot was taken. */
  lemma IteratorListsMap(sts: seq<State>, evs: seq<Event>, n: nat, items: seq<Entry>, k: UserKey, v: Value)
    requires Run(sts, evs) && n <= |evs| && forall i :: 0 <= i < n ==> IR.QuietEvent(sts[i], evs[i])
    requires IR.SortedUnion(IR.Children(sts[n]), items)
    ensures IR.Shows(items, sts[n].lastSeq, k, v) <==> Get(StoreAt(evs, n), k) == Some(v)
  {
    hide Step, IR.QuietEvent, IR.SortedUnion, IR.Shows, Read;
    IR.IteratorsAreRightExactlyIf(sts, evs, n);
    assert IR.ListsHistory(sts[n]);
    HistoryIsMap(sts, evs, n, k);
  }

  lemma SnapshotIteratorListsMap(sts: seq<State>, evs: seq<Event>, j: nat, n: nat, items: seq<Entry>, k: UserKey,
                                 v: Value)
    requires Run(sts, evs) && j < n <= |evs| && evs[j].EvSnapshot? && PlaceOf(sts, evs, j, n).Some?
    requires (forall i :: 0 <= i < n ==> IR.QuietEvent(sts[i], evs[i])) && IR.SortedUnion(IR.Children(sts[n]), items)
    requires PlaceOf(sts, evs, j, n).value < |sts[n].snapshots|
    ensures IR.Shows(items, sts[n].snapshots[PlaceOf(sts, evs, j, n).value], k, v) <==>
            Get(StoreAt(evs, j), k) == Some(v)
  {
    hide Step, IR.QuietEvent, IR.SortedUnion, IR.Shows, Read, StoreAt;
    IR.IteratorsAreRightExactlyIf(sts, evs, n);
    assert IR.ListsHistory(sts[n]);
    SnapshotIsMap(sts, evs, j, n, k);
  }
}
