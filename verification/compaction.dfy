/** The compaction loop: which entries it drops, and why no read can tell (db/db_impl DoCompactionWork). */
module CompactionLoop {
  import opened DbFormat
  import opened Files

  // No file of the deeper levels can hold the key.
  predicate BaseLevel(deeper: seq<seq<File>>, k: UserKey) {
    forall l, i :: 0 <= l < |deeper| && 0 <= i < |deeper[l]| ==> !InRange(deeper[l][i], k)
  }

  /** Compaction::IsBaseLevelForKey: one pointer per deeper level, only ever moved forward. */
  class BaseLevelCursor {
    const deeper: seq<seq<File>>
    var ptrs: seq<nat>
    ghost var asked: Option<UserKey>

    ghost predicate Valid()
      reads this
    {
      && |ptrs| == |deeper|
      && (forall l :: 0 <= l < |deeper| ==> LevelSorted(deeper[l]))
      && (forall l :: 0 <= l < |ptrs| ==> ptrs[l] <= |deeper[l]|)
      && (forall l, i :: 0 <= l < |ptrs| && 0 <= i < ptrs[l] ==> asked.Some? && Hi(deeper[l][i]) < asked.value)
    }

    constructor (deeper: seq<seq<File>>)
      requires forall l :: 0 <= l < |deeper| ==> LevelSorted(deeper[l])
      ensures Valid() && asked == None && this.deeper == deeper
    {
      this.deeper := deeper;
      ptrs := seq(|deeper|, _ => 0);
      asked := None;
    }

    /** For keys asked in ascending order the monotone pointers answer like a scan of every deeper file. */
    method IsBaseLevelForKey(k: UserKey) returns (r: bool)
      requires Valid() && (asked.Some? ==> asked.value <= k)
      modifies this
      ensures Valid() && asked == Some(k)
      ensures r == BaseLevel(deeper, k)
    {
      asked := Some(k);
      for l := 0 to |deeper|
        invariant Valid() && asked == Some(k)
        invariant forall l', i :: 0 <= l' < l && 0 <= i < |deeper[l']| ==> !InRange(deeper[l'][i], k)
      {
        var files := deeper[l];
        while ptrs[l] < |files|
          invariant Valid() && asked == Some(k)
          invariant forall i :: 0 <= i < ptrs[l] ==> Hi(files[i]) < k
          decreases |files| - ptrs[l]
        {
          var f := files[ptrs[l]];
          if k <= Hi(f) {
            if k >= Lo(f) {
              return false;
            }
            break;
          }
          ptrs := ptrs[l := ptrs[l] + 1];
        }
        forall i | 0 <= i < |files| ensures !InRange(files[i], k) {
          if ptrs[l] < i { assert Before(Largest(files[ptrs[l]]), Smallest(files[i])); }
        }
      }
      return true;
    }
  }

  // Hidden by the previous entry of the same key, itself visible to the oldest snapshot.
  predicate Hidden(m: seq<Entry>, i: nat, snap: nat)
    requires i < |m|
  {
    i > 0 && m[i - 1].key == m[i].key && m[i - 1].sn <= snap
  }

  // A deletion that has nothing left to hide.
  predicate Obsolete(m: seq<Entry>, i: nat, snap: nat, deeper: seq<seq<File>>)
    requires i < |m|
  {
    m[i].op.Delete? && m[i].sn <= snap && BaseLevel(deeper, m[i].key)
  }

  predicate Kept(m: seq<Entry>, i: nat, snap: nat, deeper: seq<seq<File>>)
    requires i < |m|
  {
    !Hidden(m, i, snap) && !Obsolete(m, i, snap, deeper)
  }

  /** The entries among the first `n` of the merged input that the loop writes out. */
  function Survivors(m: seq<Entry>, n: nat, snap: nat, deeper: seq<seq<File>>): seq<Entry>
    requires n <= |m|
  {
    if n == 0 then []
    else Survivors(m, n - 1, snap, deeper) + (if Kept(m, n - 1, snap, deeper) then [m[n - 1]] else [])
  }

  lemma {:induction false} SurvivorsIn(m: seq<Entry>, n: nat, snap: nat, deeper: seq<seq<File>>, e: Entry)
    requires n <= |m|
    ensures e in Survivors(m, n, snap, deeper) <==> exists i :: 0 <= i < n && m[i] == e && Kept(m, i, snap, deeper)
  {
    if n > 0 {
      SurvivorsIn(m, n - 1, snap, deeper, e);
    }
  }

  lemma {:induction false} SurvivorsSorted(m: seq<Entry>, n: nat, snap: nat, deeper: seq<seq<File>>)
    requires n <= |m| && Sorted(m)
    ensures Sorted(Survivors(m, n, snap, deeper))
    ensures forall e :: e in Survivors(m, n, snap, deeper) ==> e in m[..n]
  {
    if n > 0 {
      SurvivorsSorted(m, n - 1, snap, deeper);
      assert m[..n] == m[..n - 1] + [m[n - 1]];
      var r := Survivors(m, n - 1, snap, deeper);
      forall i | 0 <= i < |r| ensures Before(r[i], m[n - 1]) {
        assert r[i] in m[..n - 1];
      }
    }
  }

  predicate KeysAscend(r: seq<Entry>) {
    forall i, j :: 0 <= i < j < |r| ==> r[i].key < r[j].key
  }

  /** With no snapshot older than the data, at most the newest entry of each user key survives. */
  lemma {:induction false} OneVersionSurvives(m: seq<Entry>, n: nat, snap: nat, deeper: seq<seq<File>>)
    requires n <= |m| && Sorted(m)
    requires forall e :: e in m ==> e.sn <= snap
    ensures KeysAscend(Survivors(m, n, snap, deeper))
  {
    if n > 0 {
      OneVersionSurvives(m, n - 1, snap, deeper);
      SurvivorsSorted(m, n - 1, snap, deeper);
      SurvivorsSorted(m, n, snap, deeper);
      var r := Survivors(m, n - 1, snap, deeper);
      if Kept(m, n - 1, snap, deeper) {
        forall i | 0 <= i < |r| ensures r[i].key < m[n - 1].key {
          assert r[i] in m[..n - 1];
          var p :| 0 <= p < n - 1 && m[p] == r[i];
          assert Before(m[p], m[n - 1]) && (p < n - 2 ==> Before(m[p], m[n - 2]));
        }
      } else {
        assert Survivors(m, n, snap, deeper) == r;
      }
    }
  }

  /** The drop rule preserves meaning at every sequence number from the oldest snapshot up.  `rest` is every other
      entry of the database; behind a deletion the rule calls obsolete it must hold nothing. */
  lemma DropPreservesReads(m: seq<Entry>, snap: nat, deeper: seq<seq<File>>, rest: set<Entry>, k: UserKey, s: nat)
    requires Sorted(m) && Versioned(Elems(m) + rest) && snap <= s
    requires forall i, e ::
               0 <= i < |m| && Newest(Elems(m) + rest, k, s, m[i]) && Obsolete(m, i, snap, deeper) && e in rest ==>
                 !Visible(e, k, s)
    ensures Matches(Find(Elems(Survivors(m, |m|, snap, deeper)) + rest, k, s), Find(Elems(m) + rest, k, s))
  {
    var r := Survivors(m, |m|, snap, deeper);
    var before, after := Elems(m) + rest, Elems(r) + rest;
    SurvivorsSorted(m, |m|, snap, deeper);
    assert m[..|m|] == m;
    assert after <= before;
    forall d | d in before && d !in after && Visible(d, k, s) ensures Droppable(before, after, k, s, d) {
      var i :| 0 <= i < |m| && m[i] == d;
      SurvivorsIn(m, |m|, snap, deeper, d);
      assert !Kept(m, i, snap, deeper);
      if Hidden(m, i, snap) {
        assert m[i - 1] in before && Before(m[i - 1], m[i]);
      } else if Newest(before, k, s, d) {
        forall e | e in before && Visible(e, k, s) ensures e !in after {
          if e != d {
            NothingOlderSurvives(m, i, snap, deeper, e);
          }
        }
      }
    }
    DroppingIsInvisible(before, after, k, s);
  }

  /** Behind an obsolete deletion every older entry of the key is dropped as hidden. */
  lemma NothingOlderSurvives(m: seq<Entry>, i: nat, snap: nat, deeper: seq<seq<File>>, d: Entry)
    requires Sorted(m) && i < |m| && m[i].sn <= snap
    requires d.key == m[i].key && d.sn < m[i].sn
    ensures d !in Survivors(m, |m|, snap, deeper)
  {
    SurvivorsIn(m, |m|, snap, deeper, d);
    forall j | 0 <= j < |m| && m[j] == d ensures !Kept(m, j, snap, deeper) {
      assert i < j;
      assert i == j - 1 || Before(m[i], m[j - 1]);
      assert Before(m[j - 1], m[j]);
      assert Hidden(m, j, snap);
    }
  }
}
