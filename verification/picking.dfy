/** Placing a flushed memtable and choosing the inputs of a compaction (db/version_set). */
module Picking {
  import opened DbFormat
  import opened Files
  import opened Versions

  function MaxGrandParentOverlapBytes(maxFileSize: nat): nat {
    10 * maxFileSize
  }

  function ExpandedCompactionByteSizeLimit(maxFileSize: nat): nat {
    25 * maxFileSize
  }

  predicate NoOverlap(files: seq<File>, lo: UserKey, hi: UserKey) {
    forall f :: f in files ==> !Overlaps(f, lo, hi)
  }

  // A new table with this range may go below level 0 only past levels it does not overlap.
  predicate Placeable(v: Version, lo: UserKey, hi: UserKey, level: nat) {
    level <= MAX_MEM_COMPACT_LEVEL && (level > 0 ==> forall i :: 0 <= i <= level ==> NoOverlap(v[i], lo, hi))
  }

  predicate LevelsSorted(v: Version) {
    forall l :: 1 <= l < NUM_LEVELS ==> LevelSorted(v[l])
  }

  // Placed one level below i, the table would meet too much of the level after it.
  predicate TooHeavy(v: Version, lo: UserKey, hi: UserKey, maxFileSize: nat, i: nat) {
    i + 2 < NUM_LEVELS &&
    TotalFileSize(Touching(v[i + 2], Some(lo), Some(hi))) > MaxGrandParentOverlapBytes(maxFileSize)
  }

  /** PickLevelForMemTableOutput: sinks while nothing overlaps and the grandparents are not too heavy. */
  method PickLevelForMemTableOutput(v: Version, lo: UserKey, hi: UserKey, maxFileSize: nat) returns (level: nat)
    requires LevelsSorted(v) && lo <= hi
    ensures Placeable(v, lo, hi, level)
    ensures forall i :: 0 <= i < level ==> !TooHeavy(v, lo, hi, maxFileSize, i)
    ensures level < MAX_MEM_COMPACT_LEVEL ==>
              || (level == 0 && !NoOverlap(v[0], lo, hi))
              || !NoOverlap(v[level + 1], lo, hi)
              || TooHeavy(v, lo, hi, maxFileSize, level)
  {
    level := 0;
    var overlap := SomeFileOverlapsRange(false, v[0], Some(lo), Some(hi));
    if !overlap {
      while level < MAX_MEM_COMPACT_LEVEL
        invariant level <= MAX_MEM_COMPACT_LEVEL
        invariant forall i :: 0 <= i <= level ==> NoOverlap(v[i], lo, hi)
        invariant forall i :: 0 <= i < level ==> !TooHeavy(v, lo, hi, maxFileSize, i)
      {
        overlap := SomeFileOverlapsRange(true, v[level + 1], Some(lo), Some(hi));
        if overlap {
          break;
        }
        if level + 2 < NUM_LEVELS {
          var overlaps, _, _ := GetOverlappingInputs(level + 2, v[level + 2], Some(lo), Some(hi));
          if TotalFileSize(overlaps) > MaxGrandParentOverlapBytes(maxFileSize) {
            break;
          }
        }
        level := level + 1;
      }
    }
  }

  function MinLo(fs: seq<File>): (r: UserKey)
    requires fs != []
    ensures forall f :: f in fs ==> r <= Lo(f)
    ensures exists f :: f in fs && Lo(f) == r
  {
    if |fs| == 1 then assert fs == [fs[0]]; Lo(fs[0])
    else
      var r := MinLo(fs[1..]);
      assert fs == [fs[0]] + fs[1..];
      if Lo(fs[0]) < r then Lo(fs[0]) else r
  }

  function MaxHi(fs: seq<File>): (r: UserKey)
    requires fs != []
    ensures forall f :: f in fs ==> Hi(f) <= r
    ensures exists f :: f in fs && Hi(f) == r
  {
    if |fs| == 1 then assert fs == [fs[0]]; Hi(fs[0])
    else
      var r := MaxHi(fs[1..]);
      assert fs == [fs[0]] + fs[1..];
      if Hi(fs[0]) > r then Hi(fs[0]) else r
  }

  ghost predicate Covered(fs: seq<File>, k: UserKey) {
    exists f :: f in fs && InRange(f, k)
  }

  // Every key of the range lies in the range of some file: no other file can sit in a gap.
  ghost predicate Covers(fs: seq<File>, lo: UserKey, hi: UserKey) {
    forall k :: lo <= k <= hi ==> Covered(fs, k)
  }

  /** What PickCompaction promises about the inputs it chose from the current version. */
  ghost predicate ValidPick(v: Version, level: nat, in0: seq<File>, in1: seq<File>) {
    && Source(v, level, in0)
    && NextOf(v, level, in0, in1)
    && Covers(in0 + in1, MinLo(in0 + in1), MaxHi(in0 + in1))
  }

  // Files of one level that may start a compaction; in level 0 all files that touch their span.
  ghost predicate Source(v: Version, level: nat, in0: seq<File>) {
    && level + 1 < NUM_LEVELS && in0 != []
    && (forall f :: f in in0 ==> f in v[level])
    && (level == 0 ==> forall g :: g in v[0] && Overlaps(g, MinLo(in0), MaxHi(in0)) ==> g in in0)
  }

  // The files of the next level that touch their span.
  ghost predicate NextOf(v: Version, level: nat, in0: seq<File>, in1: seq<File>)
    requires level + 1 < NUM_LEVELS && in0 != []
  {
    forall g :: g in in1 <==> g in v[level + 1] && Overlaps(g, MinLo(in0), MaxHi(in0))
  }

  datatype Picked = Picked(level: nat, in0: seq<File>, in1: seq<File>, grandparents: seq<File>)

  // The least and the greatest internal key of the files.
  ghost predicate Least(fs: seq<File>, e: Entry) {
    (exists f :: f in fs && e == Smallest(f)) && forall f :: f in fs ==> !Before(Smallest(f), e)
  }

  ghost predicate Greatest(fs: seq<File>, e: Entry) {
    (exists f :: f in fs && e == Largest(f)) && forall f :: f in fs ==> !Before(e, Largest(f))
  }

  /** VersionSet::GetRange. */
  method GetRange(inputs: seq<File>) returns (smallest: Entry, largest: Entry)
    requires inputs != []
    ensures smallest.key == MinLo(inputs) && largest.key == MaxHi(inputs)
    ensures Least(inputs, smallest) && Greatest(inputs, largest)
  {
    smallest, largest := Smallest(inputs[0]), Largest(inputs[0]);
    for i := 1 to |inputs|
      invariant forall f :: f in inputs[..i] ==> !Before(Smallest(f), smallest) && !Before(largest, Largest(f))
      invariant exists f :: f in inputs && smallest == Smallest(f)
      invariant exists f :: f in inputs && largest == Largest(f)
    {
      var f := inputs[i];
      assert inputs[..i + 1] == inputs[..i] + [f];
      if Before(Smallest(f), smallest) {
        smallest := Smallest(f);
      }
      if Before(largest, Largest(f)) {
        largest := Largest(f);
      }
    }
    assert inputs[..|inputs|] == inputs;
  }

  lemma LoHi(f: File)
    ensures Lo(f) <= Hi(f)
  {
  }

  /** If a range is covered and every file touches it, the files cover their whole span. */
  lemma CoverSpreads(fs: seq<File>, lo: UserKey, hi: UserKey)
    requires fs != [] && Covers(fs, lo, hi)
    requires forall f :: f in fs ==> Overlaps(f, lo, hi)
    ensures Covers(fs, MinLo(fs), MaxHi(fs))
  {
  }

  lemma CoveredMore(a: seq<File>, b: seq<File>, k: UserKey)
    requires Covered(a, k) && forall f :: f in a ==> f in b
    ensures Covered(b, k)
  {
  }

  lemma CoversMore(a: seq<File>, b: seq<File>, lo: UserKey, hi: UserKey)
    requires Covers(a, lo, hi) && forall f :: f in a ==> f in b
    ensures Covers(b, lo, hi)
  {
    forall k | lo <= k <= hi ensures Covered(b, k) { CoveredMore(a, b, k); }
  }

  lemma SpanGrows(a: seq<File>, b: seq<File>)
    requires a != [] && b != [] && forall f :: f in a ==> f in b
    ensures MinLo(b) <= MinLo(a) && MaxHi(a) <= MaxHi(b)
  {
  }

  lemma SpanTouches(fs: seq<File>, f: File)
    requires f in fs
    ensures Overlaps(f, MinLo(fs), MaxHi(fs))
  {
    LoHi(f);
  }

  /** Adding the next level's files that touch the span keeps it covered. */
  lemma NextLevelCovered(in0: seq<File>, in1: seq<File>)
    requires in0 != [] && Covers(in0 + in1, MinLo(in0), MaxHi(in0))
    requires forall g :: g in in1 ==> Overlaps(g, MinLo(in0), MaxHi(in0))
    ensures Covers(in0 + in1, MinLo(in0 + in1), MaxHi(in0 + in1))
  {
    forall f | f in in0 + in1 ensures Overlaps(f, MinLo(in0), MaxHi(in0)) {
      if f in in0 { SpanTouches(in0, f); }
    }
    CoverSpreads(in0 + in1, MinLo(in0), MaxHi(in0));
  }

  // What GetOverlappingInputs returns: the files that meet the range, in level 0 the least closed one around it.
  ghost predicate Overlapping(level: nat, files: seq<File>, lo: UserKey, hi: UserKey, inputs: seq<File>) {
    exists ub, ue :: OverlappingIn(level, files, lo, hi, inputs, ub, ue)
  }

  ghost predicate OverlappingIn(level: nat, files: seq<File>, lo: UserKey, hi: UserKey, inputs: seq<File>,
                                ub: Option<UserKey>, ue: Option<UserKey>) {
    && inputs == Touching(files, ub, ue) && Forced(files, Some(lo), Some(hi), ub, ue)
    && if level > 0 then ub == Some(lo) && ue == Some(hi) else Closed(files, ub, ue)
  }

  /** There is only one such list. */
  lemma OverlappingUnique(level: nat, files: seq<File>, lo: UserKey, hi: UserKey, a: seq<File>, b: seq<File>)
    requires Overlapping(level, files, lo, hi, a) && Overlapping(level, files, lo, hi, b)
    ensures a == b
  {
    var ub, ue :| OverlappingIn(level, files, lo, hi, a, ub, ue);
    var ub', ue' :| OverlappingIn(level, files, lo, hi, b, ub', ue');
    assert Wider(Some(lo), Some(hi), ub, ue) && Wider(Some(lo), Some(hi), ub', ue');
    assert ub == ub' && ue == ue';
  }

  /** What GetOverlappingInputs gives for the span of files that are themselves in the level. */
  method OverlappingSpan(level: nat, files: seq<File>, lo: UserKey, hi: UserKey, ghost base: seq<File>)
    returns (inputs: seq<File>)
    requires lo <= hi
    requires forall f :: f in base && f in files ==> lo <= Lo(f) && Hi(f) <= hi
    ensures forall f :: f in inputs ==> f in files
    ensures forall f :: f in files && Overlaps(f, lo, hi) ==> f in inputs
    ensures level > 0 ==> forall f :: f in inputs ==> Overlaps(f, lo, hi)
    ensures level == 0 && inputs != [] ==> forall g :: g in files && Overlaps(g, MinLo(inputs), MaxHi(inputs)) ==>
            g in inputs
    ensures forall f :: f in base && f in files ==> f in inputs
    ensures inputs != [] ==>
              forall k :: MinLo(inputs) <= k <= MaxHi(inputs) ==> lo <= k <= hi || Covered(inputs, k)
    ensures Overlapping(level, files, lo, hi, inputs)
  {
    ghost var ub, ue;
    inputs, ub, ue := GetOverlappingInputs(level, files, Some(lo), Some(hi));
    assert OverlappingIn(level, files, lo, hi, inputs, ub, ue);
    forall f | f in base && f in files ensures f in inputs { LoHi(f); }
    if inputs != [] {
      forall k | MinLo(inputs) <= k <= MaxHi(inputs) ensures lo <= k <= hi || Covered(inputs, k) {
        if level > 0 {
          if !(lo <= k <= hi) {
            var a :| a in inputs && Lo(a) == MinLo(inputs);
            var b :| b in inputs && Hi(b) == MaxHi(inputs);
            assert InRange(a, k) || InRange(b, k);
          }
        } else {
          assert Within(k, ub, ue);
          assert Within(k, Some(lo), Some(hi)) <==> lo <= k <= hi;
        }
      }
    }
  }

  method NextInputs(v: Version, level: nat, in0: seq<File>, lo: UserKey, hi: UserKey) returns (in1: seq<File>)
    requires Source(v, level, in0) && lo == MinLo(in0) && hi == MaxHi(in0)
    ensures NextOf(v, level, in0, in1) && Overlapping(level + 1, v[level + 1], lo, hi, in1)
  {
    SpanTouches(in0, in0[0]);
    in1 := OverlappingSpan(level + 1, v[level + 1], lo, hi, []);
  }

  lemma FirstPickValid(v: Version, level: nat, in0: seq<File>, in1: seq<File>)
    requires Source(v, level, in0) && Covers(in0, MinLo(in0), MaxHi(in0)) && NextOf(v, level, in0, in1)
    ensures ValidPick(v, level, in0, in1)
  {
    CoversMore(in0, in0 + in1, MinLo(in0), MaxHi(in0));
    NextLevelCovered(in0, in1);
  }

  lemma ExpandedPickValid(v: Version, level: nat, in0: seq<File>, in1: seq<File>, big0: seq<File>, big1: seq<File>)
    requires ValidPick(v, level, in0, in1) && Source(v, level, big0) && NextOf(v, level, big0, big1)
    requires forall f :: f in in0 ==> f in big0
    requires var all := in0 + in1;
             forall k :: MinLo(big0) <= k <= MaxHi(big0) ==> MinLo(all) <= k <= MaxHi(all) || Covered(big0, k)
    ensures ValidPick(v, level, big0, big1)
  {
    SpanGrows(in0, big0);
    var all, bigAll := in0 + in1, big0 + big1;
    assert forall f :: f in all ==> f in bigAll;
    forall k | MinLo(big0) <= k <= MaxHi(big0) ensures Covered(bigAll, k) {
      if Covered(big0, k) { CoveredMore(big0, bigAll, k); } else { CoveredMore(all, bigAll, k); }
    }
    NextLevelCovered(big0, big1);
  }

  // The files of a level that meet the span of some files.
  ghost predicate Around(level: nat, files: seq<File>, span: seq<File>, inputs: seq<File>) {
    span != [] && Overlapping(level, files, MinLo(span), MaxHi(span), inputs)
  }

  /** More of the level's files, none more of the next level's, within the size limit. */
  ghost predicate Growth(v: Version, level: nat, in0: seq<File>, in1: seq<File>, big0: seq<File>, big1: seq<File>,
                         maxFileSize: nat)
    requires level + 1 < NUM_LEVELS
  {
    && in1 != [] && |big0| > |in0| && |big1| == |in1|
    && TotalFileSize(in1) + TotalFileSize(big0) < ExpandedCompactionByteSizeLimit(maxFileSize)
    && Around(level, v[level], in0 + in1, big0) && Around(level + 1, v[level + 1], big0, big1)
  }

  // The inputs with those of the next level, grown if they can be.
  ghost predicate Completed(v: Version, level: nat, in0: seq<File>, in1: seq<File>, maxFileSize: nat,
                            out0: seq<File>, out1: seq<File>)
    requires level + 1 < NUM_LEVELS
  {
    && Around(level + 1, v[level + 1], in0, in1)
    && if exists big0, big1 :: Growth(v, level, in0, in1, big0, big1, maxFileSize)
       then Growth(v, level, in0, in1, out0, out1, maxFileSize)
       else out0 == in0 && out1 == in1
  }

  lemma SourceFiles(v: Version, level: nat, in0: seq<File>)
    requires Source(v, level, in0)
    ensures level + 1 < NUM_LEVELS && in0 != []
  {
  }

  /** SetupOtherInputs: next level's files, then more of this level's if that does not grow the next level's. */
  method SetupOtherInputs(v: Version, level: nat, inputs0: seq<File>, maxFileSize: nat)
                          returns (c: Picked, pointer: Entry)
    requires Source(v, level, inputs0) && Covers(inputs0, MinLo(inputs0), MaxHi(inputs0))
    ensures c.level == level && ValidPick(v, level, c.in0, c.in1)
    ensures forall f :: f in inputs0 ==> f in c.in0
    ensures exists in1 :: Completed(v, level, inputs0, in1, maxFileSize, c.in0, c.in1)
    ensures Greatest(c.in0, pointer)
    ensures level + 2 < NUM_LEVELS ==>
              c.grandparents == Touching(v[level + 2], Some(MinLo(c.in0 + c.in1)), Some(MaxHi(c.in0 + c.in1)))
  {
    hide Covers, ValidPick, Source, Forced, Touching, Closed, Completed, Least, Greatest;
    SourceFiles(v, level, inputs0);
    var in0, in1 := FillInputs(v, level, inputs0, maxFileSize);
    var _, largest := GetRange(in0);
    var allStart, allLimit := GetRange(in0 + in1);
    var grandparents := [];
    if level + 2 < NUM_LEVELS {
      ghost var ub, ue;
      grandparents, ub, ue := GetOverlappingInputs(level + 2, v[level + 2], Some(allStart.key), Some(allLimit.key));
    }
    c := Picked(level, in0, in1, grandparents);
    pointer := largest;
  }

  method FillInputs(v: Version, level: nat, inputs0: seq<File>, maxFileSize: nat)
    returns (in0: seq<File>, in1: seq<File>)
    requires Source(v, level, inputs0) && Covers(inputs0, MinLo(inputs0), MaxHi(inputs0))
    ensures ValidPick(v, level, in0, in1) && in0 != [] && forall f :: f in inputs0 ==> f in in0
    ensures exists first1 :: Completed(v, level, inputs0, first1, maxFileSize, in0, in1)
  {
    hide Growth, Covers, Around, ValidPick, Source, Completed;
    in0 := inputs0;
    in1 := FirstInputs(v, level, in0);
    ghost var first1 := in1;
    if in1 != [] {
      var grown, big0, big1 := Expand(v, level, in0, in1, maxFileSize);
      if grown { in0, in1 := big0, big1; }
    }
    CompletedBy(v, level, inputs0, first1, maxFileSize, in0, in1);
  }

  method FirstInputs(v: Version, level: nat, in0: seq<File>) returns (in1: seq<File>)
    requires Source(v, level, in0) && Covers(in0, MinLo(in0), MaxHi(in0))
    ensures ValidPick(v, level, in0, in1) && in0 != []
    ensures level + 1 < NUM_LEVELS && Around(level + 1, v[level + 1], in0, in1)
  {
    hide Overlapping, ValidPick, NextOf, Least, Greatest, Covers;
    var smallest, largest := GetRange(in0);
    in1 := NextInputs(v, level, in0, smallest.key, largest.key);
    FirstPickValid(v, level, in0, in1);
  }

  lemma CompletedBy(v: Version, level: nat, in0: seq<File>, in1: seq<File>, maxFileSize: nat, out0: seq<File>,
                    out1: seq<File>)
    requires level + 1 < NUM_LEVELS && Around(level + 1, v[level + 1], in0, in1)
    requires || Growth(v, level, in0, in1, out0, out1, maxFileSize)
             || (out0 == in0 && out1 == in1
                 && (in1 == [] || forall a, b :: !Growth(v, level, in0, in1, a, b, maxFileSize)))
    ensures Completed(v, level, in0, in1, maxFileSize, out0, out1)
  {
    hide Around;
  }

  method Expand(v: Version, level: nat, in0: seq<File>, in1: seq<File>, maxFileSize: nat)
    returns (grown: bool, big0: seq<File>, big1: seq<File>)
    requires ValidPick(v, level, in0, in1) && in1 != []
    ensures level + 1 < NUM_LEVELS
    ensures grown ==> ValidPick(v, level, big0, big1) && big0 != [] && forall f :: f in in0 ==> f in big0
    ensures grown ==> Growth(v, level, in0, in1, big0, big1, maxFileSize)
    ensures !grown ==> forall a, b :: !Growth(v, level, in0, in1, a, b, maxFileSize)
  {
    var start, limit := GetRange(in0 + in1);
    var allStart, allLimit := start.key, limit.key;
    forall f | f in in0 ensures allStart <= Lo(f) && Hi(f) <= allLimit {
      assert f in in0 + in1;
    }
    LoHi(in0[0]);
    big0 := OverlappingSpan(level, v[level], allStart, allLimit, in0);
    big1 := [];
    forall a, b | Growth(v, level, in0, in1, a, b, maxFileSize) ensures a == big0 {
      OverlappingUnique(level, v[level], allStart, allLimit, a, big0);
    }
    if |big0| > |in0|
       && TotalFileSize(in1) + TotalFileSize(big0) < ExpandedCompactionByteSizeLimit(maxFileSize) {
      var newStart, newLimit := GetRange(big0);
      big1 := NextInputs(v, level, big0, newStart.key, newLimit.key);
      forall b | Growth(v, level, in0, in1, big0, b, maxFileSize) ensures b == big1 {
        OverlappingUnique(level + 1, v[level + 1], newStart.key, newLimit.key, b, big1);
      }
      if |big1| == |in1| {
        ExpandedPickValid(v, level, in0, in1, big0, big1);
        return true, big0, big1;
      }
    }
    return false, big0, big1;
  }

  ghost predicate Started(v: Version, level: nat, picked: File, in0: seq<File>)
    requires level < NUM_LEVELS
  {
    if level > 0 then in0 == [picked] else Overlapping(0, v[0], Lo(picked), Hi(picked), in0)
  }

  /** In level 0 the picked file is replaced by every file its growing range reaches. */
  method StartInputs(v: Version, level: nat, picked: File) returns (in0: seq<File>)
    requires level + 1 < NUM_LEVELS && picked in v[level]
    ensures Source(v, level, in0) && Covers(in0, MinLo(in0), MaxHi(in0)) && picked in in0
    ensures Started(v, level, picked, in0)
  {
    in0 := [picked];
    LoHi(picked);
    if level == 0 {
      in0 := OverlappingSpan(0, v[0], Lo(picked), Hi(picked), in0);
    }
    forall k | MinLo(in0) <= k <= MaxHi(in0) ensures Covered(in0, k) {
      assert Lo(picked) <= k <= Hi(picked) ==> InRange(picked, k);
    }
  }

  datatype Trigger = BySize(level: nat) | BySeek(level: nat, file: File) | NoTrigger

  // A size trigger names a level that has files; a seek trigger names a file of the current version.
  predicate TriggerOk(v: Version, t: Trigger) {
    match t
    case BySize(l) => l + 1 < NUM_LEVELS && v[l] != []
    case BySeek(l, f) => l + 1 < NUM_LEVELS && f in v[l]
    case NoTrigger => true
  }

  predicate PastPointer(f: File, pointer: Option<Entry>) {
    pointer.None? || Before(pointer.value, Largest(f))
  }

  // The first file past the pointer, or the level's first file if there is none.
  ghost predicate NextInTurn(fs: seq<File>, pointer: Option<Entry>, f: File) {
    exists i ::
      && 0 <= i < |fs| && f == fs[i] && (forall j :: 0 <= j < i ==> !PastPointer(fs[j], pointer))
      && (PastPointer(fs[i], pointer) || (i == 0 && forall j :: 0 <= j < |fs| ==> !PastPointer(fs[j], pointer)))
  }

  // The file the compaction is for.
  ghost predicate Due(v: Version, t: Trigger, pointers: seq<Option<Entry>>, f: File)
    requires TriggerOk(v, t) && |pointers| == NUM_LEVELS && !t.NoTrigger?
  {
    if t.BySeek? then f == t.file else NextInTurn(v[t.level], pointers[t.level], f)
  }

  /** The pick for a file: its start, completed. */
  ghost predicate PickFor(v: Version, level: nat, f: File, maxFileSize: nat, c: Picked)
    requires level + 1 < NUM_LEVELS
  {
    exists in0, in1 :: Started(v, level, f, in0) && Completed(v, level, in0, in1, maxFileSize, c.in0, c.in1)
  }

  /** PickCompaction: one file after the compaction pointer or the file that was seeked too often, completed. */
  method PickCompaction(v: Version, t: Trigger, pointers: seq<Option<Entry>>, maxFileSize: nat)
    returns (c: Option<Picked>, pointers': seq<Option<Entry>>)
    requires TriggerOk(v, t) && |pointers| == NUM_LEVELS
    ensures c.None? <==> t.NoTrigger?
    ensures c.Some? ==> c.value.level == t.level && ValidPick(v, t.level, c.value.in0, c.value.in1)
    ensures c.None? ==> pointers' == pointers
    ensures c.Some? ==>
              exists f :: Due(v, t, pointers, f) && f in c.value.in0 && PickFor(v, t.level, f, maxFileSize, c.value)
    ensures c.Some? ==> exists e: Entry :: pointers' == pointers[t.level := Some(e)] && Greatest(c.value.in0, e)
  {
    var level;
    var inputs0: seq<File>;
    match t {
      case NoTrigger =>
        return None, pointers;
      case BySize(l) =>
        level := l;
        inputs0 := [];
        for i := 0 to |v[level]|
          invariant inputs0 == [] && forall j :: 0 <= j < i ==> !PastPointer(v[level][j], pointers[level])
        {
          var f := v[level][i];
          if pointers[level].None? || Before(pointers[level].value, Largest(f)) {
            inputs0 := [f];
            break;
          }
        }
        if inputs0 == [] {
          inputs0 := [v[level][0]];
        }
      case BySeek(l, f) =>
        level := l;
        inputs0 := [f];
    }
    ghost var due := inputs0[0];
    assert due in v[level] && Due(v, t, pointers, due);
    inputs0 := StartInputs(v, level, inputs0[0]);
    var pick, pointer := SetupOtherInputs(v, level, inputs0, maxFileSize);
    c := Some(pick);
    pointers' := pointers[level := Some(pointer)];
  }
}
