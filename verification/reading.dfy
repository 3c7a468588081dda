/** Version::Get and DBImpl::Get: an early-exit search down the levels (db/version_set, db/db_impl). */
module Reading {
  import opened DbFormat
  import opened Files
  import opened Versions
  import opened Picking
  import opened Engine

  predicate Hit(f: File, k: UserKey, s: nat) {
    Lookup(f.entries, k, s).Some?
  }

  /** The answer of the search: the entry found in the first file, in search order, that has one. */
  ghost predicate SearchAnswer(v: Version, k: UserKey, s: nat, r: Option<Entry>) {
    match r
    case None => forall l, f :: 0 <= l < NUM_LEVELS && f in v[l] ==> !Hit(f, k, s)
    case Some(e) => exists l, f :: FirstHit(v, k, s, l, f) && Lookup(f.entries, k, s) == Some(e)
  }

  ghost predicate FirstHit(v: Version, k: UserKey, s: nat, l: nat, f: File) {
    && l < NUM_LEVELS && f in v[l] && Hit(f, k, s)
    && (forall i, g :: 0 <= i < NUM_LEVELS && g in v[i] && Above(i, g, l, f) ==> !Hit(g, k, s))
    && (l > 0 ==> forall g :: g in v[l] && Hit(g, k, s) && g != f ==> Before(Largest(f), Smallest(g)))
  }

  lemma HitInRange(f: File, k: UserKey, s: nat)
    requires Hit(f, k, s)
    ensures InRange(f, k) && Lookup(f.entries, k, s).value in f.entries && AtOrAfter(Largest(f), k, s)
  {
    LookupIsFind(f.entries, k, s);
    FindSome(Elems(f.entries), k, s);
    var e := Lookup(f.entries, k, s).value;
    assert e in f.entries;
    EntriesInRange(f);
  }

  predicate NewestFirst(fs: seq<File>) {
    forall i, j :: 0 <= i < j < |fs| ==> fs[i].number > fs[j].number
  }

  /** Insertion of a level-0 file among the candidates (std::sort with NewestFirst). */
  method InsertNewestFirst(tmp: seq<File>, f: File) returns (r: seq<File>)
    requires NewestFirst(tmp)
    requires forall g :: g in tmp ==> g.number != f.number
    ensures NewestFirst(r)
    ensures forall g :: g in r <==> g in tmp || g == f
  {
    var i := 0;
    while i < |tmp| && tmp[i].number > f.number
      invariant 0 <= i <= |tmp|
      invariant forall j :: 0 <= j < i ==> tmp[j].number > f.number
    {
      i := i + 1;
    }
    r := tmp[..i] + [f] + tmp[i..];
    InsertedNewestFirst(tmp, i, f);
    assert tmp == tmp[..i] + tmp[i..];
  }

  lemma InsertedNewestFirst(tmp: seq<File>, i: nat, f: File)
    requires NewestFirst(tmp) && i <= |tmp| && forall g :: g in tmp ==> g.number != f.number
    requires forall j :: 0 <= j < i ==> tmp[j].number > f.number
    requires i < |tmp| ==> tmp[i].number <= f.number
    ensures NewestFirst(tmp[..i] + [f] + tmp[i..])
  {
  }

  /** The level-0 files whose range holds the key, newest first. */
  method Level0Candidates(files: seq<File>, k: UserKey) returns (tmp: seq<File>)
    requires forall i, j :: 0 <= i < j < |files| ==> files[i].number != files[j].number
    ensures NewestFirst(tmp)
    ensures forall f :: f in tmp <==> f in files && InRange(f, k)
  {
    tmp := [];
    for i := 0 to |files|
      invariant NewestFirst(tmp)
      invariant forall f :: f in tmp <==> f in files[..i] && InRange(f, k)
    {
      assert files[..i + 1] == files[..i] + [files[i]];
      if InRange(files[i], k) {
        tmp := InsertNewestFirst(tmp, files[i]);
      }
    }
    assert files[..|files|] == files;
  }

  /** The at most one file of a sorted level that can answer. */
  method LevelCandidate(files: seq<File>, k: UserKey, s: nat) returns (c: Option<File>)
    requires LevelSorted(files)
    ensures c.Some? ==> c.value in files
    ensures c.None? ==> forall f :: f in files ==> !Hit(f, k, s)
    ensures c.Some? && !Hit(c.value, k, s) ==> forall f :: f in files ==> !Hit(f, k, s)
    ensures c.Some? ==> forall f :: f in files && Hit(f, k, s) && f != c.value ==> Before(Largest(c.value), Smallest(f))
  {
    var index := FindFile(files, k, s);
    forall f | f in files && Hit(f, k, s) ensures exists i :: index <= i < |files| && files[i] == f {
      HitInRange(f, k, s);
      var i :| 0 <= i < |files| && files[i] == f;
    }
    if index >= |files| {
      return None;
    }
    var f := files[index];
    forall g | g in files && Hit(g, k, s) && g != f ensures Before(Largest(f), Smallest(g)) && InRange(g, k) {
      HitInRange(g, k, s);
      var i :| index <= i < |files| && files[i] == g;
    }
    LoHi(f);
    if Hit(f, k, s) {
      HitInRange(f, k, s);
    }
    if k < Lo(f) {
      return None;
    }
    if !Hit(f, k, s) {
      MissEndsSearch(f, k, s);
    }
    return Some(f);
  }

  /** A file that reaches past the lookup key without answering it ends beyond the key. */
  lemma MissEndsSearch(f: File, k: UserKey, s: nat)
    requires AtOrAfter(Largest(f), k, s) && !Hit(f, k, s)
    ensures Hi(f) > k
  {
    LookupIsFind(f.entries, k, s);
    FindNone(Elems(f.entries), k, s);
    assert Largest(f) in Elems(f.entries);
  }

  /** Version::Get. */
  method VersionGet(v: Version, k: UserKey, s: nat) returns (r: Option<Entry>)
    requires LevelsSorted(v)
    requires forall i, j :: 0 <= i < j < |v[0]| ==> v[0][i].number != v[0][j].number
    ensures SearchAnswer(v, k, s, r)
  {
    for level := 0 to NUM_LEVELS
      invariant forall l, f :: 0 <= l < level && f in v[l] ==> !Hit(f, k, s)
    {
      var files := [];
      if level == 0 {
        files := Level0Candidates(v[0], k);
        forall f | f in v[0] && f !in files ensures !Hit(f, k, s) {
          if Hit(f, k, s) { HitInRange(f, k, s); }
        }
      } else {
        var c := LevelCandidate(v[level], k, s);
        if c.Some? {
          files := [c.value];
        }
      }
      for i := 0 to |files|
        invariant forall j :: 0 <= j < i ==> !Hit(files[j], k, s)
      {
        var e := Lookup(files[i].entries, k, s);
        if e.Some? {
          if level == 0 {
            forall j, g | 0 <= j < NUM_LEVELS && g in v[j] && Above(j, g, 0, files[i]) ensures !Hit(g, k, s) {
              if g in files {
                var a :| 0 <= a < |files| && files[a] == g;
              }
            }
          }
          assert FirstHit(v, k, s, level, files[i]);
          return e;
        }
      }
      assert forall f :: f in files ==> !Hit(f, k, s);
      assert forall f :: f in v[level] ==> !Hit(f, k, s);
    }
    return None;
  }
}
