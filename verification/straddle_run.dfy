/** A run with one snapshot, made only of steps the code takes, after which a move makes Get return an overwritten
    value. */
module StraddleRun {
  import opened DbFormat
  import opened Files
  import opened Versions
  import opened Picking
  import opened CompactionLoop
  import opened Engine
  import opened EngineRuns
  import opened Reading
  import opened RunSteps

  const KEY: UserKey := 7
  const OLD := Entry(KEY, 1, Put(10))
  const NEW := Entry(KEY, 2, Put(20))

  const A: File := FileData(0, 0, [OLD])
  const B: File := FileData(1, 0, [NEW])
  // The merged output, cut after its first entry.
  const C: File := FileData(2, 0, [NEW])
  const D: File := FileData(3, 0, [OLD])

  function V(l2: seq<File>, l3: seq<File>, l4: seq<File>): Version {
    [[], [], l2, l3, l4, [], []]
  }

  function Mid(l2: seq<File>, l3: seq<File>, next: nat, snapshots: seq<nat>): State {
    State([], None, V(l2, l3, []), 1, next, snapshots, None, {OLD})
  }

  function Late(l2: seq<File>, l3: seq<File>, l4: seq<File>, next: nat, pending: Option<Pending>): State {
    State([], None, V(l2, l3, l4), 2, next, [1], pending, {OLD, NEW})
  }

  const MERGE := Pending(2, [B], [A], 1, V([B], [A], []))

  const STATES: seq<State> := [
    State([], None, V([], [], []), 0, 0, [], None, {}),
    State([OLD], None, V([], [], []), 1, 0, [], None, {OLD}),
    State([], Some([OLD]), V([], [], []), 1, 0, [], None, {OLD}),
    Mid([A], [], 1, []),
    Mid([], [A], 1, []),
    Mid([], [A], 1, [1]),
    State([NEW], None, V([], [A], []), 2, 1, [1], None, {OLD, NEW}),
    State([], Some([NEW]), V([], [A], []), 2, 1, [1], None, {OLD, NEW}),
    Late([B], [A], [], 2, None),
    Late([B], [A], [], 2, Some(MERGE)),
    Late([], [C, D], [], 4, None),
    Late([], [D], [C], 4, None)
  ]

  const EVENTS: seq<Event> := [
    EvWrite([(KEY, Put(10))]),
    EvSwitch,
    EvFlush(2, A),
    EvMove(2, A),
    EvSnapshot,
    EvWrite([(KEY, Put(20))]),
    EvSwitch,
    EvFlush(2, B),
    EvPick(MERGE),
    EvInstall([NEW, OLD], [C, D]),
    EvMove(3, C)
  ]

  lemma Writes()
    ensures Step(STATES[0], STATES[1], EVENTS[0])
    ensures Step(STATES[5], STATES[6], EVENTS[5])
  {
    hide Step;
    assert BatchEntries([(KEY, Put(10))], 1) == [OLD];
    assert BatchEntries([(KEY, Put(20))], 2) == [NEW];
    assert {} + Elems([OLD]) == {OLD} && {OLD} + Elems([NEW]) == {OLD, NEW};
    WriteStep(STATES[0], STATES[1], [(KEY, Put(10))], [OLD]);
    WriteStep(STATES[5], STATES[6], [(KEY, Put(20))], [NEW]);
  }

  lemma Flushes()
    ensures Step(STATES[2], STATES[3], EVENTS[2])
    ensures Step(STATES[7], STATES[8], EVENTS[7])
  {
    hide Step;
    assert V([A], [], []) == V([], [], [])[2 := [A]];
    assert V([B], [A], []) == V([], [A], [])[2 := [B]];
    FlushStep(STATES[2], STATES[3], A);
    FlushStep(STATES[7], STATES[8], B);
  }

  lemma MovesFirst()
    ensures Step(STATES[3], STATES[4], EVENTS[3])
  {
    LoneFileMoves(V([A], [], []), 2, A);
    assert V([A], [], [])[2 := []][3 := [A]] == V([], [A], []);
    hide ValidPick, Moved;
  }

  lemma MovesLast()
    ensures Step(STATES[10], STATES[11], EVENTS[10])
  {
    var v := V([], [C, D], []);
    assert [C] + [] == [C];
    OneFilePick(v, 3, C, [], C);
    hide ValidPick;
    assert v[3 := [D]][4 := [C]] == V([], [D], [C]);
  }

  lemma Picks()
    ensures Step(STATES[8], STATES[9], EVENTS[8])
  {
    hide ValidPick;
    assert B in [B] + [A];
    OneFilePick(V([B], [A], []), 2, B, [A], B);
  }

  lemma Edits()
    ensures FreshNumbers(V([B], [A], []), 2, [C, D], 4) && Rearranged([B], {1}, [], []) &&
            Rearranged([A], {0}, [C, D], [C, D])
  {
  }

  lemma BothSurvive()
    ensures Flat(Contents([C, D])) == Survivors([NEW, OLD], 2, 1, MERGE.base[4..])
  {
    AllSurvive([NEW, OLD], 2, 1, MERGE.base[4..]);
    FlatTwo([NEW], [OLD]);
    assert Contents([C, D]) == [[NEW], [OLD]];
  }

  lemma Merges()
    ensures Step(STATES[9], STATES[10], EVENTS[9])
  {
    hide Step, Merged, Survivors, Flat, Contents, FreshNumbers, Rearranged;
    MergedTwo([NEW, OLD], B, A);
    BothSurvive();
    Edits();
    assert V([B], [A], [])[2 := []][3 := [C, D]] == V([], [C, D], []);
    MergeStep(STATES[9], STATES[10], B, A, [NEW, OLD], [C, D]);
  }

  lemma Others()
    ensures Init(STATES[0])
    ensures Step(STATES[1], STATES[2], EVENTS[1])
    ensures Step(STATES[4], STATES[5], EVENTS[4])
    ensures Step(STATES[6], STATES[7], EVENTS[6])
  {
    hide Write, Flush, Install, Pick, Move;
  }

  lemma IsRun()
    ensures Run(STATES, EVENTS)
  {
    hide Step, Init;
    Others();
    Writes();
    Flushes();
    MovesFirst();
    MovesLast();
    Picks();
    Merges();
  }

  /** The latest write of the key is 20, its newest version is still stored, and Get answers 10. */
  lemma SnapshotsBreakGet()
    ensures Run(STATES, EVENTS)
    ensures var st := STATES[11];
            && Read(st.hist, KEY, st.lastSeq) == Some(20)
            && GetAnswer(st.mem, st.imm, st.v, KEY, st.lastSeq, Some(10))
  {
    IsRun();
    var st := STATES[11];
    assert Newest(st.hist, KEY, 2, NEW);
    FindNewest(st.hist, KEY, 2, NEW);
    assert Lookup([OLD], KEY, 2) == Some(OLD);
    assert D in st.v[3] && Hit(D, KEY, 2);
    assert FirstHit(st.v, KEY, 2, 3, D);
    assert SearchAnswer(st.v, KEY, 2, Some(OLD));
    assert FoundEntry(st.mem, st.imm, st.v, KEY, 2, Some(OLD));
  }
}
