/** VersionSet::Recover: the manifest's snapshot record and edits rebuild the current version. */
module Manifest {
  import opened DbFormat
  import opened Coding
  import E = VersionEdits
  import opened VersionBuilder

  type Levels = v: seq<seq<FileMeta>> | |v| == NUM_LEVELS && forall l :: 0 <= l < NUM_LEVELS ==> InOrder(v[l])
    witness seq(NUM_LEVELS, _ => [])

  // How the stored key bytes parse as internal keys.
  type KeyReader = seq<Byte> -> InternalKey

  function Resolve(m: E.Meta, key: KeyReader): FileMeta {
    FileMeta(m.number, m.size, key(m.smallest), key(m.largest))
  }

  function ToEdit(e: E.Edit, key: KeyReader): Edit {
    Edit(set d | d in e.deletedFiles,
        seq(|e.newFiles|, i requires 0 <= i < |e.newFiles| => (e.newFiles[i].0, Resolve(e.newFiles[i].1, key))))
  }

  function ToEdits(es: seq<E.Edit>, key: KeyReader): seq<Edit> {
    seq(|es|, i requires 0 <= i < |es| => ToEdit(es[i], key))
  }

  lemma EncodableIsValid(e: E.Edit, key: KeyReader)
    requires E.Encodable(e)
    ensures ValidEdit(ToEdit(e, key))
  {
    var ds, ns := E.Deletions(e.deletedFiles), E.Additions(e.newFiles);
    forall i | 0 <= i < |e.deletedFiles| ensures e.deletedFiles[i].0 < NUM_LEVELS {
      assert ds[i] in ds && ds[i] in E.Fields(e) && E.Fits(ds[i]);
    }
    forall i | 0 <= i < |e.newFiles| ensures e.newFiles[i].0 < NUM_LEVELS {
      assert ns[i] in ns && ns[i] in E.Fields(e) && E.Fits(ns[i]);
    }
  }

  /** WriteSnapshot: every file of the version as an addition, and nothing deleted. */
  ghost predicate IsSnapshot(e: Edit, v: Levels) {
    e.deleted == {} && forall l, f :: 0 <= l < NUM_LEVELS ==> (f in AddedTo(e, l) <==> f in v[l])
  }

  // A file number is added to a level at most once.
  ghost predicate NumbersFresh(base: Levels, edits: seq<Edit>) {
    forall i, l :: 0 <= i < |edits| && 0 <= l < NUM_LEVELS ==> NewNumbers(Ever(base[l], edits[..i], l), edits[i], l)
  }

  ghost predicate Follows(prior: Levels, e: Edit, next: Levels) {
    forall l, f :: 0 <= l < NUM_LEVELS ==> (f in next[l] <==> f in Files(prior[l], [e], l))
  }

  /** LogAndApply over a run: each version is its predecessor with one edit applied. */
  ghost predicate Logged(vs: seq<Levels>, edits: seq<Edit>) {
    |vs| == |edits| + 1 && forall i :: 0 <= i < |edits| ==> Follows(vs[i], edits[i], vs[i + 1])
  }

  lemma {:induction false} StepByStep(vs: seq<Levels>, edits: seq<Edit>, l: nat)
    requires Logged(vs, edits) && l < NUM_LEVELS
    ensures forall f :: f in vs[|edits|][l] <==> f in Files(vs[0][l], edits, l)
  {
    if edits != [] {
      var n := |edits| - 1;
      var init := edits[..n];
      assert Logged(vs[..n + 1], init);
      StepByStep(vs[..n + 1], init, l);
      assert Follows(vs[n], edits[n], vs[n + 1]);
      assert [edits[n]][..0] == [];
      forall f ensures f in vs[n + 1][l] <==> f in Files(vs[0][l], edits, l) {
        assert f in vs[n + 1][l] <==> f in Files(vs[n][l], [edits[n]], l);
      }
    }
  }

  lemma {:induction false} SnapshotFirst(snap: Edit, base: Levels, edits: seq<Edit>, l: nat)
    requires IsSnapshot(snap, base) && l < NUM_LEVELS
    ensures Files([], [snap] + edits, l) == Files(base[l], edits, l)
    ensures Ever([], [snap] + edits, l) == Ever(base[l], edits, l)
  {
    if edits == [] {
      assert [snap] + edits == [snap] && [snap][..0] == [];
    } else {
      var init := edits[..|edits| - 1];
      SnapshotFirst(snap, base, init, l);
      assert ([snap] + edits)[..|edits|] == [snap] + init;
    }
  }

  lemma FreshInManifest(snap: Edit, base: Levels, edits: seq<Edit>, i: nat, l: nat)
    requires IsSnapshot(snap, base) && NumbersFresh(base, edits) && i <= |edits| && l < NUM_LEVELS
    requires forall f, g :: f in base[l] && g in base[l] && f.number == g.number ==> f == g
    ensures NewNumbers(Ever([], ([snap] + edits)[..i], l), ([snap] + edits)[i], l)
  {
    if i == 0 {
      assert ([snap] + edits)[..0] == [];
    } else {
      hide Files, Ever, AddedTo;
      SnapshotFirst(snap, base, edits[..i - 1], l);
      assert ([snap] + edits)[..i] == [snap] + edits[..i - 1];
      assert ([snap] + edits)[i] == edits[i - 1];
    }
  }

  lemma ToEditsAppend(es: seq<E.Edit>, i: nat, key: KeyReader)
    requires i < |es|
    ensures ToEdits(es[..i + 1], key) == ToEdits(es[..i], key) + [ToEdit(es[i], key)]
    ensures ToEdits(es, key)[..i] == ToEdits(es[..i], key)
  {
  }

  const NO_FILES: Levels := seq(NUM_LEVELS, _ => [])

  /** Recover: decode each record and apply it to one builder over an empty version. */
  method Recover(records: seq<seq<Byte>>, key: KeyReader, ghost es: seq<E.Edit>) returns (r: Option<seq<seq<FileMeta>>>)
    requires |records| == |es| && forall i :: 0 <= i < |es| ==>
             E.Encodable(es[i]) && records[i] == E.PutAll(E.Fields(es[i]))
    requires NumbersFresh(NO_FILES, ToEdits(es, key))
    ensures r.Some? && |r.value| == NUM_LEVELS
    ensures forall l :: 0 <= l < NUM_LEVELS ==> InOrder(r.value[l]) && forall f :: f in r.value[l] <==>
            f in Files([], ToEdits(es, key), l)
  {
    hide E.Encodable, E.PutAll, E.Fields, E.SetAll, E.ParseFields, Builder.LevelValid, NewNumbers;
    var b := new Builder(NO_FILES);
    for i := 0 to |records|
      invariant fresh(b) && b.Valid() && b.base == NO_FILES && b.edits == ToEdits(es[..i], key)
    {
      var e := E.DecodeFrom(records[i]);
      E.EditRoundTrip(es[i]);
      EncodableIsValid(es[i], key);
      ToEditsAppend(es, i, key);
      b.Apply(ToEdit(e.value, key));
    }
    assert es[..|es|] == es;
    var v := SaveTo(b);
    r := Some(v);
  }

  /** After any run, recovering from the manifest gives exactly the current version. */
  lemma RecoveredIsCurrent(v: seq<seq<FileMeta>>, snap: Edit, edits: seq<Edit>, vs: seq<Levels>)
    requires Logged(vs, edits) && IsSnapshot(snap, vs[0]) && |v| == NUM_LEVELS
    requires forall l :: 0 <= l < NUM_LEVELS ==> InOrder(v[l]) && forall f :: f in v[l] <==>
             f in Files([], [snap] + edits, l)
    ensures v == vs[|edits|]
  {
    hide Follows, IsSnapshot, Files;
    forall l | 0 <= l < NUM_LEVELS ensures v[l] == vs[|edits|][l] {
      SnapshotFirst(snap, vs[0], edits, l);
      StepByStep(vs, edits, l);
      OrderedListUnique(v[l], vs[|edits|][l]);
    }
  }

  /** The run's edits may be replayed: the manifest never adds a number to a level twice. */
  lemma ManifestFresh(snap: Edit, edits: seq<Edit>, base: Levels)
    requires IsSnapshot(snap, base) && NumbersFresh(base, edits)
    requires forall l, f, g :: 0 <= l < NUM_LEVELS && f in base[l] && g in base[l] && f.number == g.number ==> f == g
    ensures NumbersFresh(NO_FILES, [snap] + edits)
  {
    forall i, l | 0 <= i < |[snap] + edits| && 0 <= l < NUM_LEVELS
      ensures NewNumbers(Ever(NO_FILES[l], ([snap] + edits)[..i], l), ([snap] + edits)[i], l)
    {
      FreshInManifest(snap, base, edits, i, l);
    }
  }
}
