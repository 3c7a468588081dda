/** A run with one snapshot whose last step is a merge that sinks the newest version of a key below an older one. */
module MergeRun {
  import opened DbFormat
  import opened Files
  import opened Versions
  import opened Picking
  import opened CompactionLoop
  import opened Engine
  import opened EngineRuns
  import opened Reading
  import opened RunSteps

  const KEY: UserKey := 7
  const E1 := Entry(KEY, 1, Put(10))
  const E2 := Entry(KEY, 2, Put(20))
  const E3 := Entry(KEY, 3, Put(30))

  const A: File := FileData(0, 0, [E1])
  const B: File := FileData(1, 0, [E2])
  const C: File := FileData(2, 0, [E3])
  // The first merge, cut between the two versions.
  const D: File := FileData(3, 0, [E3])
  const E: File := FileData(4, 0, [E2])
  // The second merge.
  const F: File := FileData(5, 0, [E3, E1])

  function V(l2: seq<File>, l3: seq<File>, l4: seq<File>): Version {
    [[], [], l2, l3, l4, [], []]
  }

  function One(v: Version, next: nat, snapshots: seq<nat>): State {
    State([], None, v, 1, next, snapshots, None, {E1})
  }

  function Two(mem: seq<Entry>, imm: Option<seq<Entry>>, v: Version, next: nat): State {
    State(mem, imm, v, 2, next, [1], None, {E1, E2})
  }

  function Three(mem: seq<Entry>, imm: Option<seq<Entry>>, v: Version, next: nat, pending: Option<Pending>): State {
    State(mem, imm, v, 3, next, [1], pending, {E1, E2, E3})
  }

  const MERGE0 := Pending(2, [C], [B], 1, V([C], [B], [A]))
  const MERGE1 := Pending(3, [D], [A], 1, V([], [D, E], [A]))

  const STATES: seq<State> := [
    State([], None, V([], [], []), 0, 0, [], None, {}),
    State([E1], None, V([], [], []), 1, 0, [], None, {E1}),
    State([], Some([E1]), V([], [], []), 1, 0, [], None, {E1}),
    One(V([A], [], []), 1, []),
    One(V([], [A], []), 1, []),
    One(V([], [], [A]), 1, []),
    One(V([], [], [A]), 1, [1]),
    Two([E2], None, V([], [], [A]), 1),
    Two([], Some([E2]), V([], [], [A]), 1),
    Two([], None, V([B], [], [A]), 2),
    Two([], None, V([], [B], [A]), 2),
    Three([E3], None, V([], [B], [A]), 2, None),
    Three([], Some([E3]), V([], [B], [A]), 2, None),
    Three([], None, V([C], [B], [A]), 3, None),
    Three([], None, V([C], [B], [A]), 3, Some(MERGE0)),
    Three([], None, V([], [D, E], [A]), 5, None),
    Three([], None, V([], [D, E], [A]), 5, Some(MERGE1)),
    Three([], None, V([], [E], [F]), 6, None)
  ]

  const EVENTS: seq<Event> := [
    EvWrite([(KEY, Put(10))]),
    EvSwitch,
    EvFlush(2, A),
    EvMove(2, A),
    EvMove(3, A),
    EvSnapshot,
    EvWrite([(KEY, Put(20))]),
    EvSwitch,
    EvFlush(2, B),
    EvMove(2, B),
    EvWrite([(KEY, Put(30))]),
    EvSwitch,
    EvFlush(2, C),
    EvPick(MERGE0),
    EvInstall([E3, E2], [D, E]),
    EvPick(MERGE1),
    EvInstall([E3, E1], [F])
  ]

  lemma Writes()
    ensures Step(STATES[0], STATES[1], EVENTS[0])
    ensures Step(STATES[6], STATES[7], EVENTS[6])
    ensures Step(STATES[10], STATES[11], EVENTS[10])
  {
    hide Step;
    assert BatchEntries([(KEY, Put(10))], 1) == [E1];
    assert BatchEntries([(KEY, Put(20))], 2) == [E2];
    assert BatchEntries([(KEY, Put(30))], 3) == [E3];
    assert {} + Elems([E1]) == {E1} && {E1} + Elems([E2]) == {E1, E2} && {E1, E2} + Elems([E3]) == {E1, E2, E3};
    WriteStep(STATES[0], STATES[1], [(KEY, Put(10))], [E1]);
    WriteStep(STATES[6], STATES[7], [(KEY, Put(20))], [E2]);
    WriteStep(STATES[10], STATES[11], [(KEY, Put(30))], [E3]);
  }

  lemma Flushes()
    ensures Step(STATES[2], STATES[3], EVENTS[2])
    ensures Step(STATES[8], STATES[9], EVENTS[8])
    ensures Step(STATES[12], STATES[13], EVENTS[12])
  {
    hide Step;
    assert V([A], [], []) == V([], [], [])[2 := [A]];
    assert V([B], [], [A]) == V([], [], [A])[2 := [B]];
    assert V([C], [B], [A]) == V([], [B], [A])[2 := [C]];
    FlushStep(STATES[2], STATES[3], A);
    FlushStep(STATES[8], STATES[9], B);
    FlushStep(STATES[12], STATES[13], C);
  }

  lemma Moves()
    ensures Step(STATES[3], STATES[4], EVENTS[3])
    ensures Step(STATES[4], STATES[5], EVENTS[4])
    ensures Step(STATES[9], STATES[10], EVENTS[9])
  {
    hide ValidPick, Moved;
    LoneFileMoves(V([A], [], []), 2, A);
    LoneFileMoves(V([], [A], []), 3, A);
    LoneFileMoves(V([B], [], [A]), 2, B);
    assert V([A], [], [])[2 := []][3 := [A]] == V([], [A], []);
    assert V([], [A], [])[3 := []][4 := [A]] == V([], [], [A]);
    assert V([B], [], [A])[2 := []][3 := [B]] == V([], [B], [A]);
  }

  lemma Picks()
    ensures Step(STATES[13], STATES[14], EVENTS[13])
    ensures Step(STATES[15], STATES[16], EVENTS[15])
  {
    hide ValidPick;
    assert C in [C] + [B] && D in [D] + [A];
    OneFilePick(V([C], [B], [A]), 2, C, [B], C);
    OneFilePick(V([], [D, E], [A]), 3, D, [A], D);
  }

  lemma FirstMerge()
    ensures Step(STATES[14], STATES[15], EVENTS[14])
  {
    hide Step, Merged, Survivors, Flat, Contents, FreshNumbers, Rearranged;
    MergedTwo([E3, E2], C, B);
    Written0();
    Edits0();
    assert V([C], [B], [A])[2 := []][3 := [D, E]] == V([], [D, E], [A]);
    MergeStep(STATES[14], STATES[15], C, B, [E3, E2], [D, E]);
  }

  lemma Edits0()
    ensures FreshNumbers(V([C], [B], [A]), 3, [D, E], 5) && Rearranged([C], {2}, [], []) &&
            Rearranged([B], {1}, [D, E], [D, E])
  {
  }

  lemma Written0()
    ensures Flat(Contents([D, E])) == Survivors([E3, E2], 2, 1, MERGE0.base[4..])
  {
    AllSurvive([E3, E2], 2, 1, MERGE0.base[4..]);
    FlatTwo([E3], [E2]);
    assert Contents([D, E]) == [[E3], [E2]];
  }

  lemma SecondMerge()
    ensures Step(STATES[16], STATES[17], EVENTS[16])
  {
    hide Step, Merged, Survivors, Flat, Contents, FreshNumbers, Rearranged;
    MergedTwo([E3, E1], D, A);
    Written1();
    Edits1();
    assert V([], [D, E], [A])[3 := [E]][4 := [F]] == V([], [E], [F]);
    MergeStep(STATES[16], STATES[17], D, A, [E3, E1], [F]);
  }

  lemma Edits1()
    ensures FreshNumbers(V([], [D, E], [A]), 5, [F], 6) && Rearranged([D, E], {3}, [], [E]) &&
            Rearranged([A], {0}, [F], [F])
  {
  }

  lemma Written1()
    ensures Flat(Contents([F])) == Survivors([E3, E1], 2, 1, MERGE1.base[5..])
  {
    AllSurvive([E3, E1], 2, 1, MERGE1.base[5..]);
    FlatOne([E3, E1]);
    assert Contents([F]) == [[E3, E1]];
  }

  lemma Others()
    ensures Init(STATES[0])
    ensures Step(STATES[1], STATES[2], EVENTS[1])
    ensures Step(STATES[5], STATES[6], EVENTS[5])
    ensures Step(STATES[7], STATES[8], EVENTS[7])
    ensures Step(STATES[11], STATES[12], EVENTS[11])
  {
    hide Write, Flush, Install, Pick, Move;
  }

  lemma IsRun()
    ensures Run(STATES, EVENTS)
  {
    hide Step, Init;
    Others();
    Writes();
    Flushes();
    Moves();
    Picks();
    FirstMerge();
    SecondMerge();
  }

  /** After the merge the newest version is stored, one level below the version Get answers with. */
  lemma MergeBreaksGet()
    ensures Run(STATES, EVENTS)
    ensures var st := STATES[17];
            && Read(st.hist, KEY, st.lastSeq) == Some(30)
            && GetAnswer(st.mem, st.imm, st.v, KEY, st.lastSeq, Some(20))
  {
    IsRun();
    var st := STATES[17];
    assert Newest(st.hist, KEY, 3, E3);
    FindNewest(st.hist, KEY, 3, E3);
    assert Lookup([E2], KEY, 3) == Some(E2);
    assert E in st.v[3] && Hit(E, KEY, 3);
    assert FirstHit(st.v, KEY, 3, 3, E);
    assert SearchAnswer(st.v, KEY, 3, Some(E2));
    assert FoundEntry(st.mem, st.imm, st.v, KEY, 3, Some(E2));
  }
}
