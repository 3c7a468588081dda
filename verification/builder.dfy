/** VersionSet::Builder: a sequence of edits applied at once gives what applying them one by one would. */
module VersionBuilder {
  import opened DbFormat

  datatype FileMeta = FileMeta(number: nat, size: nat, smallest: InternalKey, largest: InternalKey)

  datatype Edit = Edit(deleted: set<(nat, nat)>, added: seq<(nat, FileMeta)>)

  predicate ValidEdit(e: Edit) {
    (forall d :: d in e.deleted ==> d.0 < NUM_LEVELS) && (forall i :: 0 <= i < |e.added| ==> e.added[i].0 < NUM_LEVELS)
  }

  /** BySmallestKey. */
  predicate Less(f: FileMeta, g: FileMeta) {
    var r := Compare(f.smallest, g.smallest);
    if r != 0 then r < 0 else f.number < g.number
  }

  predicate InOrder(fs: seq<FileMeta>) {
    forall i, j :: 0 <= i < j < |fs| ==> Less(fs[i], fs[j])
  }

  lemma LessIsOrder(f: FileMeta, g: FileMeta, h: FileMeta)
    ensures !Less(f, f)
    ensures Less(f, g) && Less(g, h) ==> Less(f, h)
    ensures f.number != g.number ==> Less(f, g) || Less(g, f)
    ensures !(Less(f, g) && Less(g, f))
  {
  }

  // ---- Specification: each edit deletes, then adds ----

  function AddedTo(e: Edit, l: nat): set<FileMeta> {
    set i | 0 <= i < |e.added| && e.added[i].0 == l :: e.added[i].1
  }

  function Files(base: seq<FileMeta>, edits: seq<Edit>, l: nat): set<FileMeta> {
    if edits == [] then set f | f in base
    else
      var e := edits[|edits| - 1];
      (set f | f in Files(base, edits[..|edits| - 1], l) && (l, f.number) !in e.deleted) + AddedTo(e, l)
  }

  // Every file that was ever in the level.
  function Ever(base: seq<FileMeta>, edits: seq<Edit>, l: nat): set<FileMeta> {
    if edits == [] then set f | f in base
    else Ever(base, edits[..|edits| - 1], l) + AddedTo(edits[|edits| - 1], l)
  }

  // A file number is added to a level at most once in its life.
  predicate NewNumbers(known: set<FileMeta>, e: Edit, l: nat) {
    && (forall f, g :: f in known && g in AddedTo(e, l) ==> f.number != g.number)
    && (forall f, g :: f in AddedTo(e, l) && g in AddedTo(e, l) && f.number == g.number ==> f == g)
  }

  // ---- The builder ----

  function Insert(fs: seq<FileMeta>, f: FileMeta): seq<FileMeta> {
    if fs == [] then [f]
    else if Less(f, fs[0]) then [f] + fs
    else if Less(fs[0], f) then [fs[0]] + Insert(fs[1..], f)
    else fs
  }

  lemma {:induction false} InsertKeeps(fs: seq<FileMeta>, f: FileMeta)
    requires InOrder(fs) && forall g :: g in fs ==> g.number != f.number
    ensures InOrder(Insert(fs, f))
    ensures forall g :: g in Insert(fs, f) <==> g in fs || g == f
  {
    if fs != [] {
      LessIsOrder(fs[0], f, f);
      assert fs[0] in fs;
      if Less(f, fs[0]) {
        forall i | 0 <= i < |fs| ensures Less(f, fs[i]) { LessIsOrder(f, fs[0], fs[i]); }
      } else {
        InsertKeeps(fs[1..], f);
        forall g | g in fs[1..] ensures Less(fs[0], g) { }
        assert fs == [fs[0]] + fs[1..];
      }
    }
  }

  predicate Alive(deleted: set<nat>, f: FileMeta) {
    f.number !in deleted
  }

  class Builder {
    const base: seq<seq<FileMeta>>
    var deleted: seq<set<nat>>
    var added: seq<seq<FileMeta>>
    ghost var edits: seq<Edit>

    ghost predicate Valid()
      reads this
    {
      && |base| == |deleted| == |added| == NUM_LEVELS
      && (forall l :: 0 <= l < NUM_LEVELS ==> LevelValid(base[l], deleted[l], added[l], edits, l))
    }

    static ghost predicate LevelValid(base: seq<FileMeta>, deleted: set<nat>, added: seq<FileMeta>, edits: seq<Edit>,
                                      l: nat) {
      && InOrder(base) && InOrder(added)
      && (forall f :: f in base || f in added <==> f in Ever(base, edits, l))
      && (forall f, g :: f in base && g in added ==> f.number != g.number)
      && (forall f, g :: f in added && g in added && f.number == g.number ==> f == g)
      && (forall f :: f in Files(base, edits, l) <==> f in Ever(base, edits, l) && Alive(deleted, f))
    }

    constructor (base: seq<seq<FileMeta>>)
      requires |base| == NUM_LEVELS && forall l :: 0 <= l < NUM_LEVELS ==> InOrder(base[l])
      ensures Valid() && edits == [] && this.base == base
    {
      this.base := base;
      deleted := seq(NUM_LEVELS, _ => {});
      added := seq(NUM_LEVELS, _ => []);
      edits := [];
    }

    /** Builder::Apply. */
    method Apply(e: Edit)
      requires Valid() && ValidEdit(e)
      requires forall l :: 0 <= l < NUM_LEVELS ==> NewNumbers(Ever(base[l], edits, l), e, l)
      modifies this
      ensures Valid() && edits == old(edits) + [e]
    {
      ghost var before := edits;
      ghost var deleted0, added0 := deleted, added;
      for l := 0 to NUM_LEVELS
        invariant |deleted| == NUM_LEVELS && added == added0 && edits == before
        invariant forall k :: 0 <= k < l ==> deleted[k] == deleted0[k] + DeletedFrom(e, k)
        invariant forall k :: l <= k < NUM_LEVELS ==> deleted[k] == deleted0[k]
      {
        deleted := deleted[l := deleted[l] + DeletedFrom(e, l)];
      }
      for i := 0 to |e.added|
        invariant |deleted| == |added| == NUM_LEVELS && edits == before
        invariant forall l :: 0 <= l < NUM_LEVELS ==>
                    Adding(base[l], deleted0[l], added0[l], e, i, l, deleted[l], added[l])
      {
        var (level, f) := e.added[i];
        assert f in AddedTo(e, level);
        AddOne(base[level], deleted0[level], added0[level], before, e, i, level, deleted[level], added[level]);
        forall l | 0 <= l < NUM_LEVELS && l != level
          ensures Adding(base[l], deleted0[l], added0[l], e, i + 1, l, deleted[l], added[l])
        {
          SkipOne(base[l], deleted0[l], added0[l], e, i, l, deleted[l], added[l]);
        }
        deleted := deleted[level := deleted[level] - {f.number}];
        added := added[level := Insert(added[level], f)];
      }
      edits := edits + [e];
      forall l | 0 <= l < NUM_LEVELS ensures LevelValid(base[l], deleted[l], added[l], edits, l) {
        ApplyLevel(base[l], deleted0[l], added0[l], before, e, l, deleted[l], added[l]);
      }
    }
  }

  function DeletedFrom(e: Edit, l: nat): set<nat> {
    set d | d in e.deleted && d.0 == l :: d.1
  }

  function AddedBefore(e: Edit, n: nat, l: nat): set<FileMeta>
    requires n <= |e.added|
  {
    set i | 0 <= i < n && e.added[i].0 == l :: e.added[i].1
  }

  // The level's state after the first n additions of an edit.
  ghost predicate Adding(base: seq<FileMeta>, deleted0: set<nat>, added0: seq<FileMeta>, e: Edit, n: nat, l: nat,
                         deleted: set<nat>, added: seq<FileMeta>)
    requires n <= |e.added|
  {
    && deleted == deleted0 + DeletedFrom(e, l) - (set f | f in AddedBefore(e, n, l) :: f.number)
    && InOrder(added) && forall f :: f in added <==> f in added0 || f in AddedBefore(e, n, l)
  }

  lemma AddedBeforeStep(e: Edit, n: nat, l: nat)
    requires n < |e.added|
    ensures AddedBefore(e, n + 1, l) == AddedBefore(e, n, l) + (if e.added[n].0 == l then {e.added[n].1} else {})
  {
  }

  lemma SkipOne(base: seq<FileMeta>, deleted0: set<nat>, added0: seq<FileMeta>, e: Edit, n: nat, l: nat,
                deleted: set<nat>, added: seq<FileMeta>)
    requires n < |e.added| && e.added[n].0 != l && Adding(base, deleted0, added0, e, n, l, deleted, added)
    ensures Adding(base, deleted0, added0, e, n + 1, l, deleted, added)
  {
  }

  lemma AddOne(base: seq<FileMeta>, deleted0: set<nat>, added0: seq<FileMeta>, edits: seq<Edit>, e: Edit, n: nat,
               l: nat,
               deleted: set<nat>, added: seq<FileMeta>)
    requires n < |e.added| && e.added[n].0 == l && Adding(base, deleted0, added0, e, n, l, deleted, added)
    requires Builder.LevelValid(base, deleted0, added0, edits, l) && NewNumbers(Ever(base, edits, l), e, l)
    ensures var f := e.added[n].1; Adding(base, deleted0, added0, e, n + 1, l, deleted - {f.number}, Insert(added, f))
  {
    var f := e.added[n].1;
    AddedBeforeStep(e, n, l);
    assert f in AddedTo(e, l);
    assert AddedBefore(e, n, l) <= AddedTo(e, l);
    if f in added {
      InsertAgain(added, f);
    } else {
      InsertKeeps(added, f);
    }
  }

  lemma {:induction false} InsertAgain(fs: seq<FileMeta>, f: FileMeta)
    requires InOrder(fs) && f in fs
    ensures Insert(fs, f) == fs
  {
    hide Less;
    LessIsOrder(fs[0], f, f);
    if fs[0] != f {
      assert f in fs[1..];
      InsertAgain(fs[1..], f);
      assert fs == [fs[0]] + fs[1..];
    }
  }

  /** One edit keeps the builder's state equal to the edits applied one by one. */
  lemma ApplyLevel(base: seq<FileMeta>, deleted0: set<nat>, added0: seq<FileMeta>, edits: seq<Edit>, e: Edit, l: nat,
                   deleted: set<nat>, added: seq<FileMeta>)
    requires Builder.LevelValid(base, deleted0, added0, edits, l) && NewNumbers(Ever(base, edits, l), e, l)
    requires Adding(base, deleted0, added0, e, |e.added|, l, deleted, added)
    ensures Builder.LevelValid(base, deleted, added, edits + [e], l)
  {
    assert (edits + [e])[..|edits|] == edits;
    assert AddedBefore(e, |e.added|, l) == AddedTo(e, l);
    forall f ensures f in Files(base, edits + [e], l) <==> f in Ever(base, edits + [e], l) && Alive(deleted, f) {
    }
  }

  // ---- Saving ----

  // The base files that come before f, from position i on (std::upper_bound).
  method UpperBound(base: seq<FileMeta>, i: nat, f: FileMeta) returns (j: nat)
    requires InOrder(base) && i <= |base|
    ensures i <= j <= |base|
    ensures forall k :: i <= k < j ==> !Less(f, base[k])
    ensures forall k :: j <= k < |base| ==> Less(f, base[k])
  {
    j := i;
    while j < |base| && !Less(f, base[j])
      invariant i <= j <= |base| && forall k :: i <= k < j ==> !Less(f, base[k])
    {
      j := j + 1;
    }
    forall k | j <= k < |base| ensures Less(f, base[k]) { LessIsOrder(f, base[j], base[k]); }
  }

  function Filter(fs: seq<FileMeta>, deleted: set<nat>): seq<FileMeta> {
    if fs == [] then []
    else Filter(fs[..|fs| - 1], deleted) + (if Alive(deleted, fs[|fs| - 1]) then [fs[|fs| - 1]] else [])
  }

  lemma {:induction false} FilterKeeps(fs: seq<FileMeta>, deleted: set<nat>)
    ensures forall f :: f in Filter(fs, deleted) <==> f in fs && Alive(deleted, f)
    ensures InOrder(fs) ==> InOrder(Filter(fs, deleted))
  {
    hide Less;
    if fs != [] {
      var rest, f := fs[..|fs| - 1], fs[|fs| - 1];
      FilterKeeps(rest, deleted);
      assert fs == rest + [f];
      if InOrder(fs) {
        forall g | g in Filter(rest, deleted) ensures Less(g, f) { assert g in rest; }
        AppendInOrder(Filter(rest, deleted), f);
      }
    }
  }

  lemma AppendInOrder(fs: seq<FileMeta>, f: FileMeta)
    requires InOrder(fs) && forall g :: g in fs ==> Less(g, f)
    ensures InOrder(fs + [f])
  {
  }

  lemma FilterAppend(fs: seq<FileMeta>, f: FileMeta, deleted: set<nat>)
    ensures Filter(fs + [f], deleted) == Filter(fs, deleted) + (if Alive(deleted, f) then [f] else [])
  {
  }

  ghost predicate BeforeRest(all: seq<FileMeta>, fs: seq<FileMeta>, n: nat) {
    forall f, k :: f in all && n <= k < |fs| ==> Less(f, fs[k])
  }

  // all is the merge of the first m files of a and the first n files of b.
  ghost predicate Merging(all: seq<FileMeta>, a: seq<FileMeta>, m: nat, b: seq<FileMeta>, n: nat)
    requires m <= |a| && n <= |b|
  {
    && InOrder(all) && BeforeRest(all, a, m) && BeforeRest(all, b, n)
    && forall f :: f in all <==> f in a[..m] || f in b[..n]
  }

  lemma TakeNext(all: seq<FileMeta>, a: seq<FileMeta>, m: nat, b: seq<FileMeta>, n: nat)
    requires m < |a| && n <= |b| && InOrder(a) && Merging(all, a, m, b, n)
    requires forall k :: n <= k < |b| ==> Less(a[m], b[k])
    ensures Merging(all + [a[m]], a, m + 1, b, n)
  {
    hide Less;
    AppendInOrder(all, a[m]);
    assert a[..m + 1] == a[..m] + [a[m]];
  }

  /** SaveTo for one level: merge the two ordered lists, dropping deleted files. */
  method SaveLevel(base: seq<FileMeta>, deleted: set<nat>, added: seq<FileMeta>) returns (out: seq<FileMeta>)
    requires InOrder(base) && InOrder(added) && forall f, g :: f in base && g in added ==> f.number != g.number
    ensures InOrder(out)
    ensures forall f :: f in out <==> (f in base || f in added) && Alive(deleted, f)
  {
    hide Less;
    out := [];
    ghost var all: seq<FileMeta> := [];
    var bi := 0;
    for ai := 0 to |added|
      invariant bi <= |base| && out == Filter(all, deleted) && Merging(all, base, bi, added, ai)
    {
      var f := added[ai];
      var pos := UpperBound(base, bi, f);
      while bi < pos
        invariant bi <= pos && out == Filter(all, deleted) && Merging(all, base, bi, added, ai)
      {
        forall k | ai <= k < |added| ensures Less(base[bi], added[k]) {
          LessIsOrder(base[bi], f, added[k]);
          assert base[bi] in base && f in added;
        }
        TakeNext(all, base, bi, added, ai);
        out := MaybeAddFile(out, all, base[bi], deleted);
        all, bi := all + [base[bi]], bi + 1;
      }
      TakeNext(all, added, ai, base, bi);
      out := MaybeAddFile(out, all, f, deleted);
      all := all + [f];
    }
    while bi < |base|
      invariant bi <= |base| && out == Filter(all, deleted) && Merging(all, base, bi, added, |added|)
    {
      TakeNext(all, base, bi, added, |added|);
      out := MaybeAddFile(out, all, base[bi], deleted);
      all, bi := all + [base[bi]], bi + 1;
    }
    assert base[..bi] == base && added[..|added|] == added;
    FilterKeeps(all, deleted);
  }

  method MaybeAddFile(out: seq<FileMeta>, ghost all: seq<FileMeta>, f: FileMeta, deleted: set<nat>)
                      returns (out': seq<FileMeta>)
    requires out == Filter(all, deleted)
    ensures out' == Filter(all + [f], deleted)
  {
    FilterAppend(all, f, deleted);
    out' := if f.number in deleted then out else out + [f];
  }

  /** SaveTo after any sequence of edits lists, in order, exactly the files left by the edits one by one. */
  method SaveTo(b: Builder) returns (v: seq<seq<FileMeta>>)
    requires b.Valid()
    ensures |v| == NUM_LEVELS
    ensures forall l :: 0 <= l < NUM_LEVELS ==> InOrder(v[l]) && forall f :: f in v[l] <==>
            f in Files(b.base[l], b.edits, l)
  {
    v := [];
    for l := 0 to NUM_LEVELS
      invariant |v| == l
      invariant forall k :: 0 <= k < l ==> InOrder(v[k]) && forall f :: f in v[k] <==> f in Files(b.base[k], b.edits, k)
    {
      var fs := SaveLevel(b.base[l], b.deleted[l], b.added[l]);
      v := v + [fs];
    }
  }

  /** An ordered list is determined by its files, so the saved version is the only one the edits allow. */
  lemma {:induction false} OrderedListUnique(a: seq<FileMeta>, b: seq<FileMeta>)
    requires InOrder(a) && InOrder(b) && forall f :: f in a <==> f in b
    ensures a == b
  {
    assert b != [] ==> b[0] in b;
    if a != [] {
      assert a[0] in b && b != [] && b[0] in a;
      var i :| 0 <= i < |a| && a[i] == b[0];
      var j :| 0 <= j < |b| && b[j] == a[0];
      LessIsOrder(a[0], b[0], a[0]);
      assert a[0] == b[0];
      forall f ensures f in a[1..] <==> f in b[1..] {
        RestOf(a, f);
        RestOf(b, f);
      }
      OrderedListUnique(a[1..], b[1..]);
    }
  }

  lemma RestOf(a: seq<FileMeta>, f: FileMeta)
    requires InOrder(a) && a != []
    ensures f in a[1..] <==> f in a && f != a[0]
  {
  }
}
