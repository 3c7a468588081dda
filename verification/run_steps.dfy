/** Steps of concrete runs: picks of one file, moves and merges of small versions. */
module RunSteps {
  import opened DbFormat
  import opened Files
  import opened Versions
  import opened Picking
  import opened CompactionLoop
  import opened Engine

  lemma WidestSpans(fs: seq<File>, w: File)
    requires w in fs && forall f :: f in fs ==> Lo(w) <= Lo(f) && Hi(f) <= Hi(w)
    ensures MinLo(fs) == Lo(w) && MaxHi(fs) == Hi(w) && Covers(fs, Lo(w), Hi(w))
  {
    var lo, hi := MinLo(fs), MaxHi(fs);
    forall k | Lo(w) <= k <= Hi(w) ensures Covered(fs, k) { assert InRange(w, k); }
  }

  /** One file of a level below 0 and the files of the next level it meets, one of them as wide as all. */
  lemma OneFilePick(v: Version, l: nat, f: File, in1: seq<File>, w: File)
    requires 0 < l && l + 1 < NUM_LEVELS && f in v[l]
    requires forall g :: g in in1 <==> g in v[l + 1] && Overlaps(g, Lo(f), Hi(f))
    requires w in [f] + in1 && forall g :: g in [f] + in1 ==> Lo(w) <= Lo(g) && Hi(g) <= Hi(w)
    ensures ValidPick(v, l, [f], in1)
  {
    hide MinLo, MaxHi, Covers;
    LoHi(f);
    WidestSpans([f], f);
    WidestSpans([f] + in1, w);
  }

  /** The only file of its level sinks into an empty one. */
  lemma LoneFileMoves(v: Version, l: nat, f: File)
    requires 0 < l && l + 1 < NUM_LEVELS && v[l] == [f] && v[l + 1] == []
    ensures ValidPick(v, l, [f], []) && Moved(v, l, f, v[l := []][l + 1 := [f]])
  {
    assert [f] + [] == [f];
    OneFilePick(v, l, f, [], f);
    hide ValidPick;
  }

  lemma {:induction false} AllSurvive(m: seq<Entry>, n: nat, snap: nat, deeper: seq<seq<File>>)
    requires n <= |m| && forall i :: 0 <= i < n ==> Kept(m, i, snap, deeper)
    ensures Survivors(m, n, snap, deeper) == m[..n]
  {
    if n > 0 {
      AllSurvive(m, n - 1, snap, deeper);
      assert m[..n] == m[..n - 1] + [m[n - 1]];
    }
  }

  lemma FlatOne(a: seq<Entry>)
    ensures Flat([a]) == a
  {
    assert [a][..0] == [] && Flat([]) == [];
  }

  lemma FlatTwo(a: seq<Entry>, b: seq<Entry>)
    ensures Flat([a, b]) == a + b
  {
    FlatOne(a);
    assert [a, b][..1] == [a];
  }

  lemma MergedTwo(m: seq<Entry>, f: File, g: File)
    requires Sorted(m) && Elems(m) == Elems(f.entries) + Elems(g.entries)
    ensures Merged(m, [f] + [g])
  {
    var fs := [f] + [g];
    assert f in fs && g in fs && forall h :: h in fs ==> h == f || h == g;
    assert FileEntries(fs) == Elems(f.entries) + Elems(g.entries);
  }

  // ---- Steps ----

  lemma WriteStep(st: State, st': State, ops: seq<(UserKey, Op)>, es: seq<Entry>)
    requires st.mem == [] && st.lastSeq + |ops| + 1 <= MAX_SEQUENCE && es == BatchEntries(ops, st.lastSeq + 1) &&
             Sorted(es)
    requires st' == st.(mem := es, lastSeq := st.lastSeq + |ops|, hist := st.hist + Elems(es))
    ensures Step(st, st', EvWrite(ops))
  {
    assert Elems(es) == Elems([]) + Elems(es);
  }

  /** A flush past empty levels. */
  lemma FlushStep(st: State, st': State, f: File)
    requires st.imm == Some(f.entries) && f.number == st.nextFile
    requires st.v[0] == [] && st.v[1] == [] && st.v[2] == []
    requires st' == st.(imm := None, nextFile := st.nextFile + 1, v := st.v[2 := [f]])
    ensures Step(st, st', EvFlush(2, f))
  {
  }

  /** A merge of one file with one of the next level. */
  lemma MergeStep(st: State, st': State, f: File, g: File, m: seq<Entry>, outs: seq<File>)
    requires st.pending.Some? && st.pending.value.in0 == [f] && st.pending.value.in1 == [g]
    requires var p := st.pending.value;
             && p.level + 1 < NUM_LEVELS
             && Merged(m, [f] + [g])
             && Flat(Contents(outs)) == Survivors(m, |m|, p.snap, p.base[p.level + 2..])
             && FreshNumbers(st.v, st.nextFile, outs, st'.nextFile)
             && Rearranged(st.v[p.level], {f.number}, [], st'.v[p.level])
             && Rearranged(st.v[p.level + 1], {g.number}, outs, st'.v[p.level + 1])
             && st' == st.(v := st.v[p.level := st'.v[p.level]][p.level + 1 := st'.v[p.level + 1]],
                  nextFile := st'.nextFile,
                           pending := None)
    ensures Step(st, st', EvInstall(m, outs))
  {
    hide Merged, Survivors, Flat, Contents, FreshNumbers, Rearranged;
    assert Numbers([f]) == {f.number} && Numbers([g]) == {g.number};
  }
}
