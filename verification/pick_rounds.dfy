/** Compactions triggered by size take turns: the compaction pointer reaches every file of its level. */
module PickRounds {
  import opened DbFormat
  import opened Files
  import opened Versions
  import opened Picking

  // The order Builder::SaveTo gives a level; below level 0 the files are also apart.
  ghost predicate Listed(v: Version, level: nat)
    requires level < NUM_LEVELS
  {
    var fs := v[level];
    && (forall i, j :: 0 <= i < j < |fs| ==> !Before(Smallest(fs[j]), Smallest(fs[i])))
    && (level > 0 ==> LevelSorted(fs))
  }

  /** One pick by size, as PickCompaction promises it. */
  ghost predicate SizePick(v: Version, level: nat, maxFileSize: nat, p: Option<Entry>, c: Picked, p': Option<Entry>)
    requires level + 1 < NUM_LEVELS
  {
    && ValidPick(v, level, c.in0, c.in1)
    && (exists f :: NextInTurn(v[level], p, f) && f in c.in0 && PickFor(v, level, f, maxFileSize, c))
    && p'.Some? && Greatest(c.in0, p'.value)
  }

  method PickBySize(v: Version, level: nat, pointers: seq<Option<Entry>>, maxFileSize: nat)
    returns (c: Picked, pointers': seq<Option<Entry>>)
    requires level + 1 < NUM_LEVELS && v[level] != [] && |pointers| == NUM_LEVELS
    ensures |pointers'| == NUM_LEVELS && SizePick(v, level, maxFileSize, pointers[level], c, pointers'[level])
    ensures forall l :: 0 <= l < NUM_LEVELS && l != level ==> pointers'[l] == pointers[l]
  {
    var t := BySize(level);
    var r;
    r, pointers' := PickCompaction(v, t, pointers, maxFileSize);
    c := r.value;
  }

  lemma SmallToLarge(f: File)
    ensures !Before(Largest(f), Smallest(f))
  {
  }

  /** Below level 0 the inputs for a file have no gap from it on. */
  lemma NoGapBelow(v: Version, level: nat, maxFileSize: nat, s: nat, c: Picked, e: Entry, g: nat)
    requires 0 < level && level + 1 < NUM_LEVELS && Listed(v, level) && s <= g < |v[level]|
    requires PickFor(v, level, v[level][s], maxFileSize, c) && Greatest(c.in0, e) && !Before(e, Largest(v[level][g]))
    requires forall f :: f in c.in0 ==> f in v[level]
    ensures v[level][g] in c.in0
  {
    hide Growth, Overlapping;
    var fs := v[level];
    var in0, in1 :| Started(v, level, fs[s], in0) && Completed(v, level, in0, in1, maxFileSize, c.in0, c.in1);
    var h :| h in c.in0 && e == Largest(h);
    var k :| 0 <= k < |fs| && fs[k] == h;
    NotPast(fs, k, g);
    if c.in0 != in0 || c.in1 != in1 {
      GrownMeets(v, level, in0, in1, c, maxFileSize, fs[s], h);
      MeetsBetween(v, level, in0 + in1, c.in0, s, g, k);
    } else {
      NotPast(fs, g, s);
    }
  }

  // In a sorted level a file that does not end after another does not come after it.
  lemma NotPast(fs: seq<File>, k: nat, g: nat)
    requires LevelSorted(fs) && k < |fs| && g < |fs|
    ensures !Before(Largest(fs[k]), Largest(fs[g])) ==> g <= k
    ensures g < k ==> Lo(fs[g]) <= Lo(fs[k]) && Hi(fs[g]) <= Hi(fs[k])
  {
    SmallToLarge(fs[g]);
    SmallToLarge(fs[k]);
    if g > k { assert Before(Largest(fs[k]), Smallest(fs[g])); }
    if g < k { assert Before(Largest(fs[g]), Smallest(fs[k])); }
  }

  lemma GrownMeets(v: Version, level: nat, in0: seq<File>, in1: seq<File>, c: Picked, maxFileSize: nat, f: File,
                   h: File)
    requires 0 < level && level + 1 < NUM_LEVELS && Growth(v, level, in0, in1, c.in0, c.in1, maxFileSize)
    requires f in in0 && h in c.in0
    ensures var all := in0 + in1; MinLo(all) <= Hi(f) && Lo(h) <= MaxHi(all) && Around(level, v[level], all, c.in0)
  {
    var all := in0 + in1;
    assert f in all;
    LoHi(f);
    var ub, ue :| OverlappingIn(level, v[level], MinLo(all), MaxHi(all), c.in0, ub, ue);
    TouchingIn(v[level], ub, ue);
  }

  lemma MeetsBetween(v: Version, level: nat, all: seq<File>, big: seq<File>, s: nat, g: nat, k: nat)
    requires 0 < level < NUM_LEVELS && LevelSorted(v[level]) && s <= g <= k < |v[level]|
    requires Around(level, v[level], all, big) && MinLo(all) <= Hi(v[level][s]) && Lo(v[level][k]) <= MaxHi(all)
    ensures v[level][g] in big
  {
    var fs := v[level];
    NotPast(fs, g, s);
    NotPast(fs, k, g);
    var ub, ue :| OverlappingIn(level, fs, MinLo(all), MaxHi(all), big, ub, ue);
    TouchingIn(fs, ub, ue);
    assert fs[g] in fs;
  }

  lemma NoGapAbove(v: Version, s: nat, in0: seq<File>, e: Entry, g: nat)
    requires Listed(v, 0) && Source(v, 0, in0) && s <= g < |v[0]| && v[0][s] in in0
    requires Greatest(in0, e) && !Before(e, Largest(v[0][g]))
    ensures v[0][g] in in0
  {
    LoHi(v[0][g]);
  }

  // The files past the pointer, by their places in the level.
  ghost function Ahead(fs: seq<File>, p: Option<Entry>): set<nat> {
    set i: nat | i < |fs| && PastPointer(fs[i], p)
  }

  ghost function UpTo(fs: seq<File>, n: nat): set<nat>
    requires n < |fs|
  {
    set i: nat | i < |fs| && !Before(Largest(fs[n]), Largest(fs[i]))
  }

  /** How many picks may pass before file n has its turn. */
  ghost function Turns(fs: seq<File>, p: Option<Entry>, n: nat): nat
    requires n < |fs|
  {
    if PastPointer(fs[n], p) then |Ahead(fs, p) * UpTo(fs, n)| else |Ahead(fs, p)| + |UpTo(fs, n)|
  }

  lemma Fewer(a: set<nat>, b: set<nat>, x: nat)
    requires a <= b && x in b && x !in a
    ensures |a| < |b|
  {
    NoMore(a, b - {x});
  }

  lemma {:induction false} NoMore(a: set<nat>, b: set<nat>)
    requires a <= b
    ensures |a| <= |b|
  {
    if a != {} {
      var x :| x in a;
      NoMore(a - {x}, b - {x});
    }
  }

  lemma {:induction false} SmallNumbers(s: set<nat>, n: nat)
    requires forall i :: i in s ==> i < n
    ensures |s| <= n
  {
    if n > 0 {
      SmallNumbers(s - {n - 1}, n - 1);
    } else {
      assert s == {};
    }
  }

  lemma TurnsBounded(fs: seq<File>, p: Option<Entry>, n: nat)
    requires n < |fs|
    ensures Turns(fs, p, n) <= |fs|
  {
    var a, u := Ahead(fs, p), UpTo(fs, n);
    if PastPointer(fs[n], p) {
      SmallNumbers(a * u, |fs|);
    } else {
      assert a * u == {};
      assert |a + u| == |a| + |u|;
      SmallNumbers(a + u, |fs|);
    }
  }

  lemma PickNoGap(v: Version, level: nat, maxFileSize: nat, s: nat, c: Picked, e: Entry, g: nat)
    requires level + 1 < NUM_LEVELS && Listed(v, level) && s <= g < |v[level]| && ValidPick(v, level, c.in0, c.in1)
    requires v[level][s] in c.in0 && PickFor(v, level, v[level][s], maxFileSize, c)
    requires Greatest(c.in0, e) && !Before(e, Largest(v[level][g]))
    ensures v[level][g] in c.in0
  {
    if level > 0 { NoGapBelow(v, level, maxFileSize, s, c, e, g); } else { NoGapAbove(v, s, c.in0, e, g); }
  }

  /** A pick is for the file, or brings its turn nearer. */
  lemma TurnComesNearer(v: Version, level: nat, maxFileSize: nat, p: Option<Entry>, c: Picked, p': Option<Entry>,
                        n: nat)
    requires level + 1 < NUM_LEVELS && Listed(v, level) && n < |v[level]|
    requires SizePick(v, level, maxFileSize, p, c, p') && v[level][n] !in c.in0
    ensures Turns(v[level], p', n) < Turns(v[level], p, n)
  {
    hide ValidPick, PickFor, Listed;
    var fs := v[level];
    var f :| NextInTurn(fs, p, f) && f in c.in0 && PickFor(v, level, f, maxFileSize, c);
    var s: nat :|
      && s < |fs| && f == fs[s] && (forall j :: 0 <= j < s ==> !PastPointer(fs[j], p))
      && (PastPointer(fs[s], p) || (s == 0 && forall j :: 0 <= j < |fs| ==> !PastPointer(fs[j], p)));
    if s <= n && !PastPointer(fs[n], p') { PickNoGap(v, level, maxFileSize, s, c, p'.value, n); }
    assert !PastPointer(fs[s], p');
    var a, a', u := Ahead(fs, p), Ahead(fs, p'), UpTo(fs, n);
    if PastPointer(fs[s], p) {
      assert a' <= a && s in a && s !in a';
      if PastPointer(fs[n], p) {
        assert s in u;
        Fewer(a' * u, a * u, s);
      } else {
        Fewer(a', a, s);
      }
    } else {
      assert a == {} && s in u;
      Fewer(a' * u, u, s);
    }
  }

  ghost predicate Rounds(v: Version, level: nat, maxFileSize: nat, ps: seq<Option<Entry>>, cs: seq<Picked>)
    requires level + 1 < NUM_LEVELS
  {
    |ps| == |cs| + 1 && forall i :: 0 <= i < |cs| ==> SizePick(v, level, maxFileSize, ps[i], cs[i], ps[i + 1])
  }

  lemma {:induction false} ReachedInTurn(v: Version, level: nat, maxFileSize: nat, ps: seq<Option<Entry>>,
                                         cs: seq<Picked>, n: nat, k: nat)
    requires level + 1 < NUM_LEVELS && Listed(v, level) && n < |v[level]| && Rounds(v, level, maxFileSize, ps, cs)
    requires k <= |cs| && forall i :: 0 <= i < k ==> v[level][n] !in cs[i].in0
    ensures Turns(v[level], ps[k], n) + k <= |v[level]|
  {
    hide SizePick, Turns, Listed;
    if k == 0 {
      TurnsBounded(v[level], ps[0], n);
    } else {
      ReachedInTurn(v, level, maxFileSize, ps, cs, n, k - 1);
      TurnComesNearer(v, level, maxFileSize, ps[k - 1], cs[k - 1], ps[k], n);
    }
  }

  lemma TurnsPositive(fs: seq<File>, p: Option<Entry>, n: nat)
    requires n < |fs|
    ensures Turns(fs, p, n) > 0
  {
    if PastPointer(fs[n], p) {
      Fewer({}, Ahead(fs, p) * UpTo(fs, n), n);
    } else {
      Fewer({}, UpTo(fs, n), n);
    }
  }

  /** As many picks by size as an unchanged level has files compact every one of them, wherever the pointer was. */
  lemma EveryFileHasItsTurn(v: Version, level: nat, maxFileSize: nat, ps: seq<Option<Entry>>, cs: seq<Picked>, f: File)
    requires level + 1 < NUM_LEVELS && Listed(v, level) && f in v[level] && Rounds(v, level, maxFileSize, ps, cs)
    requires |cs| >= |v[level]|
    ensures exists i :: 0 <= i < |v[level]| && f in cs[i].in0
  {
    hide SizePick, Turns, Listed;
    var n: nat :| n < |v[level]| && v[level][n] == f;
    var k := |v[level]|;
    if forall i :: 0 <= i < k ==> f !in cs[i].in0 {
      ReachedInTurn(v, level, maxFileSize, ps, cs, n, k);
      TurnsPositive(v[level], ps[k], n);
    }
  }
}
