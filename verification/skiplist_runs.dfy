/** Skip list searches running while the writer links a node level by level. */
module SkipListRuns {
  import opened DbFormat
  import opened SkipLists

  // Insert in progress: `level` levels are done, and next[level] of the new node may already be set.
  datatype Writer = Idle | Linking(key: int, height: nat, prev: seq<Node>, level: nat, prepared: bool)

  // FindGreaterOrEqual in progress, or the node it returned.
  datatype Reader = Searching(x: Node, level: nat) | Done(result: Option<int>)

  datatype State = State(links: Links, linked: seq<set<int>>, maxHeight: nat, writer: Writer, reader: Reader)

  // ---- Writer steps ----

  /** The search for prev, the height and the stale-tolerant store to max_height_. */
  ghost predicate BeginInsert(st: State, st': State, k: int, height: nat, prev: seq<Node>) {
    && st.writer.Idle? && 1 <= height <= MAX_HEIGHT && |st.linked| == MAX_HEIGHT && k !in st.linked[0]
    && |prev| == MAX_HEIGHT && (forall l :: 0 <= l < MAX_HEIGHT ==> IsPrev(st.linked[l], k, prev[l]))
    && st' == st.(writer := Linking(k, height, prev, 0, false),
         maxHeight := if height > st.maxHeight then height else st.maxHeight)
  }

  predicate SetNext(st: State, st': State) {
    && st.writer.Linking? && !st.writer.prepared
    && var w := st.writer;
    && w.level < w.height && w.level < |st.links| && w.level < |w.prev| && w.prev[w.level] in st.links[w.level]
    && st' == st.(links := Prepare(st.links, w.level, w.key, w.prev[w.level]), writer := w.(prepared := true))
  }

  predicate LinkLevel(st: State, st': State) {
    && st.writer.Linking? && st.writer.prepared
    && var w := st.writer;
    && w.level < w.height && w.level < |st.links| && w.level < |w.prev| && w.level < |st.linked|
    && st' == st.(links := Publish(st.links, w.level, w.key, w.prev[w.level]),
                  linked := st.linked[w.level := st.linked[w.level] + {w.key}],
                  writer := w.(level := w.level + 1, prepared := false))
  }

  predicate EndInsert(st: State, st': State) {
    st.writer.Linking? && st.writer.level == st.writer.height && st' == st.(writer := Idle)
  }

  // ---- Reader steps ----

  predicate BeginSearch(st: State, st': State) {
    st.maxHeight >= 1 && st' == st.(reader := Searching(Head, st.maxHeight - 1))
  }

  /** One load of x->Next(level) and the branch on it. */
  predicate SearchStep(st: State, st': State, k: int) {
    && st.reader.Searching? && st.reader.level < |st.links|
    && var x := st.reader.x; var l := st.reader.level;
    && x in st.links[l]
    && var n := st.links[l][x];
    && st' == st.(reader := if KeyIsAfterNode(k, n) then Searching(Cell(n.value), l)
                            else if l == 0 then Done(n) else Searching(x, l - 1))
  }

  datatype Event = WBegin(k: int, height: nat, prev: seq<Node>) | WSetNext | WLink | WEnd | RBegin | RStep

  /** One step, with the reader looking for key. */
  ghost predicate Step(st: State, st': State, e: Event, key: int) {
    match e
    case WBegin(k, h, prev) => BeginInsert(st, st', k, h, prev)
    case WSetNext => SetNext(st, st')
    case WLink => LinkLevel(st, st')
    case WEnd => EndInsert(st, st')
    case RBegin => BeginSearch(st, st')
    case RStep => SearchStep(st, st', key)
  }

  // ---- Invariant ----

  ghost predicate WriterInv(links: Links, linked: seq<set<int>>, w: Writer) {
    |links| == |linked| == MAX_HEIGHT && (w.Linking? ==>
      && w.level <= w.height <= MAX_HEIGHT == |w.prev|
      && (forall l :: 0 <= l < MAX_HEIGHT ==> (w.key in linked[l] <==> l < w.level))
      && (forall l :: w.level <= l < MAX_HEIGHT ==> IsPrev(linked[l], w.key, w.prev[l]))
      && (w.prepared ==> w.level < w.height && Prepared(links, w.level, w.key, w.prev[w.level])))
  }

  ghost predicate ReaderInv(linked: seq<set<int>>, r: Reader, key: int) {
    r.Searching? ==> r.level < |linked| && On(linked[r.level], r.x) && Precedes(r.x, key)
  }

  // A search that starts at max_height_ misses no level.
  ghost predicate HeightInv(linked: seq<set<int>>, maxHeight: nat, w: Writer) {
    && (forall l :: maxHeight <= l < |linked| ==> linked[l] == {})
    && (w.Linking? ==> w.height <= maxHeight)
  }

  ghost predicate Inv(st: State, key: int) {
    && WellLinked(st.links, st.linked) && 1 <= st.maxHeight <= MAX_HEIGHT
    && WriterInv(st.links, st.linked, st.writer) && ReaderInv(st.linked, st.reader, key)
    && HeightInv(st.linked, st.maxHeight, st.writer)
  }

  ghost predicate Init(st: State) {
    && st.links == seq(MAX_HEIGHT, _ => map[Head := None]) && st.linked == seq(MAX_HEIGHT, _ => {})
    && st.maxHeight == 1 && st.writer.Idle? && st.reader.Done?
  }

  lemma BeginKeepsInv(st: State, st': State, k: int, height: nat, prev: seq<Node>, key: int)
    requires Inv(st, key) && BeginInsert(st, st', k, height, prev)
    ensures Inv(st', key)
  {
    forall l | 0 <= l < MAX_HEIGHT ensures k !in st.linked[l] { LevelInBottom(st.links, st.linked, l); }
  }

  lemma SetNextKeepsInv(st: State, st': State, key: int)
    requires Inv(st, key) && SetNext(st, st')
    ensures Inv(st', key)
  {
  }

  lemma LinkKeepsInv(st: State, st': State, key: int)
    requires Inv(st, key) && LinkLevel(st, st')
    ensures Inv(st', key)
  {
    var w := st.writer;
    PublishKeeps(st.links, st.linked, w.level, w.key, w.prev[w.level]);
    hide WellLinked;
  }

  lemma SearchKeepsInv(st: State, st': State, key: int)
    requires Inv(st, key) && SearchStep(st, st', key)
    ensures Inv(st', key)
  {
  }

  lemma StepKeepsInv(st: State, st': State, e: Event, key: int)
    requires Inv(st, key) && Step(st, st', e, key)
    ensures Inv(st', key)
  {
    match e {
      case WBegin(k, h, prev) => BeginKeepsInv(st, st', k, h, prev, key);
      case WSetNext => SetNextKeepsInv(st, st', key);
      case WLink => LinkKeepsInv(st, st', key);
      case WEnd =>
      case RBegin =>
      case RStep => SearchKeepsInv(st, st', key);
    }
  }

  // ---- What a search returns, and that it ends ----

  /** The search's last load, whatever the writer was doing, returns the true first node at or after the key. */
  lemma SearchIsCorrect(st: State, st': State, key: int)
    requires Inv(st, key) && SearchStep(st, st', key) && st'.reader.Done?
    ensures IsFirstAtLeast(st.linked[0], key, st'.reader.result)
  {
  }

  // The work left: nodes ahead on this level and every lower one, and the levels themselves.
  ghost function Work(linked: seq<set<int>>, x: Node, level: nat, key: int): nat
    requires level < |linked|
  {
    1 + |Ahead(linked[level], x, key)| + if level == 0 then 0 else Work(linked, x, level - 1, key)
  }

  ghost function Left(st: State, key: int): nat
    requires st.reader.Searching? ==> st.reader.level < |st.linked|
  {
    if st.reader.Done? then 0 else Work(st.linked, st.reader.x, st.reader.level, key)
  }

  lemma {:induction false} AdvanceReduces(linked: seq<set<int>>, x: Node, y: int, level: nat, key: int)
    requires level < |linked| && Precedes(x, y)
    ensures Work(linked, Cell(y), level, key) <= Work(linked, x, level, key)
  {
    SubsetSize(Ahead(linked[level], Cell(y), key), Ahead(linked[level], x, key));
    if level > 0 { AdvanceReduces(linked, x, y, level - 1, key); }
  }

  lemma {:induction false} LinkAddsOne(linked: seq<set<int>>, i: nat, k: int, x: Node, level: nat, key: int)
    requires level < |linked| && i < |linked|
    ensures Work(linked[i := linked[i] + {k}], x, level, key) <= Work(linked, x, level, key) + if i <= level then 1
            else 0
  {
    var s := Ahead(linked[level], x, key);
    if i == level {
      assert Ahead(linked[i] + {k}, x, key) <= s + {k};
      SubsetSize(Ahead(linked[i] + {k}, x, key), s + {k});
    }
    if level > 0 { LinkAddsOne(linked, i, k, x, level - 1, key); }
  }

  /** Every load brings the search closer to its end by the measure (levels and nodes ahead). */
  lemma SearchProgresses(st: State, st': State, key: int)
    requires Inv(st, key) && SearchStep(st, st', key)
    ensures Inv(st', key) && Left(st', key) < Left(st, key)
  {
    SearchKeepsInv(st, st', key);
    var x, l := st.reader.x, st.reader.level;
    var n := st.links[l][x];
    assert IsNext(st.linked[l], x, n);
    if KeyIsAfterNode(key, n) {
      MoveShrinks(st.linked[l], x, key, n);
      if l > 0 { AdvanceReduces(st.linked, x, n.value, l - 1, key); }
    }
  }

  /** Linking a level delays the search by at most one load. */
  lemma WriterDelaysByOne(st: State, st': State, e: Event, key: int)
    requires Inv(st, key) && Step(st, st', e, key) && !e.RBegin? && !e.RStep?
    ensures Inv(st', key) && Left(st', key) <= Left(st, key) + if e.WLink? then 1 else 0
  {
    StepKeepsInv(st, st', e, key);
    if e.WLink? && st.reader.Searching? {
      LinkAddsOne(st.linked, st.writer.level, st.writer.key, st.reader.x, st.reader.level, key);
    }
  }

  // ---- Runs ----

  ghost predicate Run(sts: seq<State>, evs: seq<Event>, key: int) {
    |sts| == |evs| + 1 && forall i :: 0 <= i < |evs| ==> Step(sts[i], sts[i + 1], evs[i], key)
  }

  lemma {:induction false} RunsKeepInv(sts: seq<State>, evs: seq<Event>, key: int, i: nat)
    requires Run(sts, evs, key) && Init(sts[0]) && i <= |evs|
    ensures Inv(sts[i], key)
  {
    if i == 0 {
      assert forall l :: 0 <= l < MAX_HEIGHT ==> sts[0].links[l] == map[Head := None] && sts[0].linked[l] == {};
    } else {
      RunsKeepInv(sts, evs, key, i - 1);
      assert Step(sts[i - 1], sts[i], evs[i - 1], key);
      StepKeepsInv(sts[i - 1], sts[i], evs[i - 1], key);
    }
  }

  /** In every interleaving, each search that returns gives the first node at or after its key at its last load. */
  lemma EverySearchIsCorrect(sts: seq<State>, evs: seq<Event>, key: int, i: nat)
    requires Run(sts, evs, key) && Init(sts[0]) && i < |evs| && evs[i].RStep? && sts[i + 1].reader.Done?
    ensures |sts[i].linked| == MAX_HEIGHT && IsFirstAtLeast(sts[i].linked[0], key, sts[i + 1].reader.result)
  {
    RunsKeepInv(sts, evs, key, i);
    assert Step(sts[i], sts[i + 1], evs[i], key);
    SearchIsCorrect(sts[i], sts[i + 1], key);
  }

  function Loads(evs: seq<Event>): nat {
    if evs == [] then 0 else Loads(evs[..|evs| - 1]) + if evs[|evs| - 1].RStep? then 1 else 0
  }

  function LinkSteps(evs: seq<Event>): nat {
    if evs == [] then 0 else LinkSteps(evs[..|evs| - 1]) + if evs[|evs| - 1].WLink? then 1 else 0
  }

  /** A search ends: its loads are bounded by the work at its start and the links made meanwhile. */
  lemma {:induction false} SearchEnds(sts: seq<State>, evs: seq<Event>, key: int)
    requires Run(sts, evs, key) && Inv(sts[0], key) && RBegin !in evs
    ensures Inv(sts[|evs|], key)
    ensures Loads(evs) + Left(sts[|evs|], key) <= Left(sts[0], key) + LinkSteps(evs)
  {
    if evs != [] {
      var n := |evs| - 1;
      SearchEnds(sts[..n + 1], evs[..n], key);
      assert Step(sts[n], sts[n + 1], evs[n], key) && evs[n] in evs;
      if evs[n].RStep? {
        SearchProgresses(sts[n], sts[n + 1], key);
      } else {
        WriterDelaysByOne(sts[n], sts[n + 1], evs[n], key);
      }
    }
  }

  // ---- What an insert does ----

  // Insert of k at this height has linked `level` levels of what there was when it began.
  ghost predicate Inserting(before: State, st: State, k: int, height: nat) {
    && st.writer.Linking? && st.writer.key == k && st.writer.height == height && |st.linked| == |before.linked|
    && forall l :: 0 <= l < |st.linked| ==>
         st.linked[l] == if l < st.writer.level then before.linked[l] + {k} else before.linked[l]
  }

  lemma StepGoesOnInserting(before: State, st: State, st': State, e: Event, key: int, k: int, height: nat)
    requires Inserting(before, st, k, height) && Step(st, st', e, key) && !e.WEnd?
    ensures Inserting(before, st', k, height)
  {
  }

  lemma {:induction false} InsertUnderWay(sts: seq<State>, evs: seq<Event>, key: int, i: nat, j: nat)
    requires Run(sts, evs, key) && i < j <= |evs| && evs[i].WBegin? && forall m :: i < m < j ==> !evs[m].WEnd?
    ensures Inserting(sts[i], sts[j], evs[i].k, evs[i].height)
  {
    assert Step(sts[j - 1], sts[j], evs[j - 1], key);
    if j > i + 1 {
      InsertUnderWay(sts, evs, key, i, j - 1);
      hide Step, Inserting;
      StepGoesOnInserting(sts[i], sts[j - 1], sts[j], evs[j - 1], key, evs[i].k, evs[i].height);
    }
  }

  /** In every interleaving, an insert that has ended has added its key, and nothing else, to the levels below its
      height, and to no other. */
  lemma InsertTakesEffect(sts: seq<State>, evs: seq<Event>, key: int, i: nat, j: nat)
    requires Run(sts, evs, key) && i < j < |evs| && evs[i].WBegin? && evs[j].WEnd?
    requires forall m :: i < m < j ==> !evs[m].WEnd?
    ensures |sts[j + 1].linked| == |sts[i].linked|
    ensures forall l :: 0 <= l < |sts[i].linked| ==>
              sts[j + 1].linked[l] == sts[i].linked[l] + if l < evs[i].height then {evs[i].k} else {}
  {
    InsertUnderWay(sts, evs, key, i, j);
    assert Step(sts[j], sts[j + 1], evs[j], key);
  }

  function StepsLeft(w: Writer): nat {
    if w.Idle? || w.level > w.height then 0
    else 1 + 2 * (w.height - w.level) - if w.prepared && w.level < w.height then 1 else 0
  }

  /** An insert is never stuck, whatever the reader does. */
  lemma InsertGoesOn(st: State, key: int) returns (st': State, e: Event)
    requires Inv(st, key) && st.writer.Linking?
    ensures Step(st, st', e, key) && (e.WSetNext? || e.WLink? || e.WEnd?)
    ensures StepsLeft(st'.writer) < StepsLeft(st.writer)
  {
    var w := st.writer;
    if w.level == w.height {
      st', e := st.(writer := Idle), WEnd;
    } else if !w.prepared {
      assert On(st.linked[w.level], w.prev[w.level]);
      e := WSetNext;
      st' := st.(links := Prepare(st.links, w.level, w.key, w.prev[w.level]), writer := w.(prepared := true));
    } else {
      e := WLink;
      st' := st.(links := Publish(st.links, w.level, w.key, w.prev[w.level]),
                 linked := st.linked[w.level := st.linked[w.level] + {w.key}],
                 writer := w.(level := w.level + 1, prepared := false));
    }
  }
}
