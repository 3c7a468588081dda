/** A run after which a deleted key is back: a merge drops the deletion while the next file keeps the value it hid. */
module DeletionRun {
  import opened DbFormat
  import opened Files
  import opened Versions
  import opened Picking
  import opened CompactionLoop
  import opened Engine
  import opened EngineRuns
  import opened Reading
  import opened RunSteps

  const LOW: UserKey := 3
  const KEY: UserKey := 7
  const OLD := Entry(KEY, 1, Put(10))
  const LOW2 := Entry(LOW, 2, Put(20))
  const GONE := Entry(KEY, 3, Delete)
  const LOW4 := Entry(LOW, 4, Put(40))

  const A: File := FileData(0, 0, [OLD])
  const B: File := FileData(1, 0, [LOW2, GONE])
  // The first merge, cut between the deletion and what it hides.
  const C: File := FileData(2, 0, [LOW2, GONE])
  const D: File := FileData(3, 0, [OLD])
  const E: File := FileData(4, 0, [LOW4])
  // The second merge.
  const F: File := FileData(5, 0, [LOW4])

  function V(l2: seq<File>, l3: seq<File>): Version {
    [[], [], l2, l3, [], [], []]
  }

  function One(v: Version, snapshots: seq<nat>): State {
    State([], None, v, 1, 1, snapshots, None, {OLD})
  }

  function Three(mem: seq<Entry>, imm: Option<seq<Entry>>, v: Version, next: nat, snapshots: seq<nat>,
                 pending: Option<Pending>): State {
    State(mem, imm, v, 3, next, snapshots, pending, {OLD, LOW2, GONE})
  }

  function Four(mem: seq<Entry>, imm: Option<seq<Entry>>, v: Version, next: nat, pending: Option<Pending>): State {
    State(mem, imm, v, 4, next, [], pending, {OLD, LOW2, GONE, LOW4})
  }

  const MERGE0 := Pending(2, [B], [A], 1, V([B], [A]))
  const MERGE1 := Pending(2, [E], [C], 4, V([E], [C, D]))

  const STATES: seq<State> := [
    State([], None, V([], []), 0, 0, [], None, {}),
    State([OLD], None, V([], []), 1, 0, [], None, {OLD}),
    State([], Some([OLD]), V([], []), 1, 0, [], None, {OLD}),
    One(V([A], []), []),
    One(V([], [A]), []),
    One(V([], [A]), [1]),
    Three([LOW2, GONE], None, V([], [A]), 1, [1], None),
    Three([], Some([LOW2, GONE]), V([], [A]), 1, [1], None),
    Three([], None, V([B], [A]), 2, [1], None),
    Three([], None, V([B], [A]), 2, [1], Some(MERGE0)),
    Three([], None, V([], [C, D]), 4, [1], None),
    Three([], None, V([], [C, D]), 4, [], None),
    Four([LOW4], None, V([], [C, D]), 4, None),
    Four([], Some([LOW4]), V([], [C, D]), 4, None),
    Four([], None, V([E], [C, D]), 5, None),
    Four([], None, V([E], [C, D]), 5, Some(MERGE1)),
    Four([], None, V([], [F, D]), 6, None)
  ]

  const EVENTS: seq<Event> := [
    EvWrite([(KEY, Put(10))]),
    EvSwitch,
    EvFlush(2, A),
    EvMove(2, A),
    EvSnapshot,
    EvWrite([(LOW, Put(20)), (KEY, Delete)]),
    EvSwitch,
    EvFlush(2, B),
    EvPick(MERGE0),
    EvInstall([LOW2, GONE, OLD], [C, D]),
    EvRelease(0),
    EvWrite([(LOW, Put(40))]),
    EvSwitch,
    EvFlush(2, E),
    EvPick(MERGE1),
    EvInstall([LOW4, LOW2, GONE], [F])
  ]

  lemma Batches()
    ensures BatchEntries([(KEY, Put(10))], 1) == [OLD] && {} + Elems([OLD]) == {OLD}
    ensures BatchEntries([(LOW, Put(20)), (KEY, Delete)], 2) == [LOW2, GONE] &&
            {OLD} + Elems([LOW2, GONE]) == {OLD, LOW2, GONE}
    ensures BatchEntries([(LOW, Put(40))], 4) == [LOW4] && {OLD, LOW2, GONE} + Elems([LOW4]) == {OLD, LOW2, GONE, LOW4}
  {
  }

  lemma Writes()
    ensures Step(STATES[0], STATES[1], EVENTS[0])
    ensures Step(STATES[5], STATES[6], EVENTS[5])
    ensures Step(STATES[11], STATES[12], EVENTS[11])
  {
    hide Step, BatchEntries, Elems;
    Batches();
    WriteStep(STATES[0], STATES[1], [(KEY, Put(10))], [OLD]);
    WriteStep(STATES[5], STATES[6], [(LOW, Put(20)), (KEY, Delete)], [LOW2, GONE]);
    WriteStep(STATES[11], STATES[12], [(LOW, Put(40))], [LOW4]);
  }

  lemma Flushes()
    ensures Step(STATES[2], STATES[3], EVENTS[2])
    ensures Step(STATES[7], STATES[8], EVENTS[7])
    ensures Step(STATES[13], STATES[14], EVENTS[13])
  {
    hide Step;
    assert V([A], []) == V([], [])[2 := [A]];
    assert V([B], [A]) == V([], [A])[2 := [B]];
    assert V([E], [C, D]) == V([], [C, D])[2 := [E]];
    FlushStep(STATES[2], STATES[3], A);
    FlushStep(STATES[7], STATES[8], B);
    FlushStep(STATES[13], STATES[14], E);
  }

  lemma Moves()
    ensures Step(STATES[3], STATES[4], EVENTS[3])
  {
    hide ValidPick, Moved;
    LoneFileMoves(V([A], []), 2, A);
    assert V([A], [])[2 := []][3 := [A]] == V([], [A]);
  }

  lemma Picks()
    ensures Step(STATES[8], STATES[9], EVENTS[8])
    ensures Step(STATES[14], STATES[15], EVENTS[14])
  {
    hide ValidPick;
    assert B in [B] + [A] && C in [E] + [C];
    OneFilePick(V([B], [A]), 2, B, [A], B);
    OneFilePick(V([E], [C, D]), 2, E, [C], C);
  }

  lemma FirstMerge()
    ensures Step(STATES[9], STATES[10], EVENTS[9])
  {
    hide Step, Merged, Survivors, Flat, Contents, FreshNumbers, Rearranged;
    Stream0();
    Written0();
    Edits0();
    assert V([B], [A])[2 := []][3 := [C, D]] == V([], [C, D]);
    MergeStep(STATES[9], STATES[10], B, A, [LOW2, GONE, OLD], [C, D]);
  }

  lemma Edits0()
    ensures FreshNumbers(V([B], [A]), 2, [C, D], 4) && Rearranged([B], {1}, [], []) &&
            Rearranged([A], {0}, [C, D], [C, D])
  {
  }

  lemma Stream0()
    ensures Merged([LOW2, GONE, OLD], [B] + [A])
  {
    hide Merged;
    assert Elems([LOW2, GONE, OLD]) == Elems([LOW2, GONE]) + Elems([OLD]);
    MergedTwo([LOW2, GONE, OLD], B, A);
  }

  lemma Written0()
    ensures Flat(Contents([C, D])) == Survivors([LOW2, GONE, OLD], 3, 1, MERGE0.base[4..])
  {
    AllSurvive([LOW2, GONE, OLD], 3, 1, MERGE0.base[4..]);
    FlatTwo([LOW2, GONE], [OLD]);
    assert Contents([C, D]) == [[LOW2, GONE], [OLD]];
  }

  lemma SecondMerge()
    ensures Step(STATES[15], STATES[16], EVENTS[15])
  {
    hide Step, Merged, Survivors, Flat, Contents, FreshNumbers, Rearranged;
    Stream1();
    Written1();
    Edits1();
    assert V([E], [C, D])[2 := []][3 := [F, D]] == V([], [F, D]);
    MergeStep(STATES[15], STATES[16], E, C, [LOW4, LOW2, GONE], [F]);
  }

  lemma Edits1()
    ensures FreshNumbers(V([E], [C, D]), 5, [F], 6) && Rearranged([E], {4}, [], []) &&
            Rearranged([C, D], {2}, [F], [F, D])
  {
  }

  lemma Stream1()
    ensures Merged([LOW4, LOW2, GONE], [E] + [C])
  {
    hide Merged;
    assert Elems([LOW4, LOW2, GONE]) == Elems([LOW4]) + Elems([LOW2, GONE]);
    MergedTwo([LOW4, LOW2, GONE], E, C);
  }

  lemma Written1()
    ensures Flat(Contents([F])) == Survivors([LOW4, LOW2, GONE], 3, 4, MERGE1.base[4..])
  {
    var m, deeper := [LOW4, LOW2, GONE], MERGE1.base[4..];
    assert deeper == [[], [], []];
    assert Kept(m, 0, 4, deeper) && Hidden(m, 1, 4) && Obsolete(m, 2, 4, deeper);
    assert Survivors(m, 0, 4, deeper) == [];
    assert Survivors(m, 1, 4, deeper) == [LOW4];
    assert Survivors(m, 2, 4, deeper) == [LOW4];
    FlatOne([LOW4]);
    assert Contents([F]) == [[LOW4]];
  }

  lemma Others()
    ensures Init(STATES[0])
    ensures Step(STATES[1], STATES[2], EVENTS[1])
    ensures Step(STATES[4], STATES[5], EVENTS[4])
    ensures Step(STATES[6], STATES[7], EVENTS[6])
    ensures Step(STATES[10], STATES[11], EVENTS[10])
    ensures Step(STATES[12], STATES[13], EVENTS[12])
  {
    hide Write, Flush, Install, Pick, Move;
  }

  lemma IsRun()
    ensures Run(STATES, EVENTS)
  {
    hide Step, Init;
    Others();
    Writes();
    Flushes();
    Moves();
    Picks();
    FirstMerge();
    SecondMerge();
  }

  /** No snapshot is held any more, the last write of the key deleted it, and Get answers the value from before. */
  lemma MergeRevivesKey()
    ensures Run(STATES, EVENTS)
    ensures var st := STATES[16];
            && st.snapshots == [] && Read(st.hist, KEY, st.lastSeq) == None
            && GetAnswer(st.mem, st.imm, st.v, KEY, st.lastSeq, Some(10))
  {
    IsRun();
    var st := STATES[16];
    assert Newest(st.hist, KEY, 4, GONE);
    FindNewest(st.hist, KEY, 4, GONE);
    assert Lookup([OLD], KEY, 4) == Some(OLD);
    assert Lookup([LOW4], KEY, 4) == None by { assert [LOW4][1..] == []; }
    assert D in st.v[3] && Hit(D, KEY, 4) && !Hit(F, KEY, 4);
    assert FirstHit(st.v, KEY, 4, 3, D);
    assert SearchAnswer(st.v, KEY, 4, Some(OLD));
    assert FoundEntry(st.mem, st.imm, st.v, KEY, 4, Some(OLD));
  }
}
