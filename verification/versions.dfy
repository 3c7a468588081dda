/** Searching and choosing files of a version (db/version_set). */
module Versions {
  import opened DbFormat
  import opened Files

  // files_[level] for each of the seven levels; levels 1.. are sorted, level 0 may overlap.
  type Version = v: seq<seq<File>> | |v| == NUM_LEVELS witness [[], [], [], [], [], [], []]

  function TotalFileSize(fs: seq<File>): nat {
    if fs == [] then 0 else fs[0].size + TotalFileSize(fs[1..])
  }

  /** FindFile: the first file whose largest key is not before the lookup key. */
  method FindFile(files: seq<File>, k: UserKey, s: nat) returns (r: nat)
    requires LevelSorted(files)
    ensures r <= |files|
    ensures forall i :: 0 <= i < r ==> !AtOrAfter(Largest(files[i]), k, s)
    ensures forall i :: r <= i < |files| ==> AtOrAfter(Largest(files[i]), k, s)
  {
    var left, right := 0, |files|;
    while left < right
      invariant 0 <= left <= right <= |files|
      invariant forall i :: 0 <= i < left ==> !AtOrAfter(Largest(files[i]), k, s)
      invariant forall i :: right <= i < |files| ==> AtOrAfter(Largest(files[i]), k, s)
    {
      var mid := (left + right) / 2;
      LargestAscends(files, mid);
      if !AtOrAfter(Largest(files[mid]), k, s) {
        left := mid + 1;
      } else {
        right := mid;
      }
    }
    return right;
  }

  lemma LargestAscends(files: seq<File>, m: nat)
    requires LevelSorted(files) && m < |files|
    ensures forall i :: 0 <= i < m ==> Before(Largest(files[i]), Largest(files[m]))
    ensures forall i :: m < i < |files| ==> Before(Largest(files[m]), Largest(files[i]))
  {
  }

  // The range [begin, end] with None for an open end meets the range of the file.
  predicate Touches(f: File, begin: Option<UserKey>, end: Option<UserKey>) {
    !(begin.Some? && Hi(f) < begin.value) && !(end.Some? && Lo(f) > end.value)
  }

  /** SomeFileOverlapsRange: a scan of level 0, one binary search in a sorted level. */
  method SomeFileOverlapsRange(disjointSorted: bool, files: seq<File>, smallest: Option<UserKey>,
                               largest: Option<UserKey>)
    returns (r: bool)
    requires disjointSorted ==> LevelSorted(files)
    ensures r <==> exists f :: f in files && Touches(f, smallest, largest)
  {
    if !disjointSorted {
      for i := 0 to |files|
        invariant forall j :: 0 <= j < i ==> !Touches(files[j], smallest, largest)
      {
        if Touches(files[i], smallest, largest) {
          return true;
        }
      }
      return false;
    }
    var index := 0;
    if smallest.Some? {
      index := FindFile(files, smallest.value, MAX_SEQUENCE);
    }
    if index >= |files| {
      return false;
    }
    forall j | index < j < |files| ensures Lo(files[index]) <= Lo(files[j]) {
      assert Before(Largest(files[index]), Smallest(files[j]));
      assert InRange(files[index], Largest(files[index]).key) by { EntriesInRange(files[index]); }
    }
    r := !(largest.Some? && largest.value < Lo(files[index]));
    assert r ==> Touches(files[index], smallest, largest);
  }

  function Touching(files: seq<File>, begin: Option<UserKey>, end: Option<UserKey>): seq<File> {
    if files == [] then []
    else Touching(files[..|files| - 1], begin, end)
         + (if Touches(files[|files| - 1], begin, end) then [files[|files| - 1]] else [])
  }

  lemma {:induction false} TouchingIn(files: seq<File>, begin: Option<UserKey>, end: Option<UserKey>)
    ensures forall f :: f in Touching(files, begin, end) <==> f in files && Touches(f, begin, end)
  {
    if files != [] {
      TouchingIn(files[..|files| - 1], begin, end);
      assert files == files[..|files| - 1] + [files[|files| - 1]];
    }
  }

  predicate Inside(lo: UserKey, hi: UserKey, begin: Option<UserKey>, end: Option<UserKey>) {
    (begin.Some? ==> begin.value <= lo) && (end.Some? ==> hi <= end.value)
  }

  // The range swallows every file it touches.
  predicate Closed(files: seq<File>, begin: Option<UserKey>, end: Option<UserKey>) {
    forall f :: f in files && Touches(f, begin, end) ==> Inside(Lo(f), Hi(f), begin, end)
  }

  predicate Wider(begin: Option<UserKey>, end: Option<UserKey>, begin': Option<UserKey>, end': Option<UserKey>) {
    && begin.Some? == begin'.Some? && (begin.Some? ==> begin'.value <= begin.value)
    && end.Some? == end'.Some? && (end.Some? ==> end.value <= end'.value)
  }

  predicate Within(k: UserKey, begin: Option<UserKey>, end: Option<UserKey>) {
    Inside(k, k, begin, end)
  }

  // A file that meets the range holds the key in its own range.
  ghost predicate Reaches(files: seq<File>, begin: Option<UserKey>, end: Option<UserKey>, k: UserKey) {
    exists f :: f in files && Touches(f, begin, end) && InRange(f, k)
  }

  // [ub, ue] is forced: part of every closed range around [begin, end], and full of files outside [begin, end].
  ghost predicate Forced(files: seq<File>, begin: Option<UserKey>, end: Option<UserKey>, ub: Option<UserKey>,
                         ue: Option<UserKey>) {
    && Wider(begin, end, ub, ue)
    && (forall b, e :: Wider(begin, end, b, e) && Closed(files, b, e) ==> Wider(ub, ue, b, e))
    && (forall k :: Within(k, ub, ue) && !Within(k, begin, end) ==> Reaches(files, ub, ue, k))
  }

  /** GetOverlappingInputs.  In level 0 the scan restarts whenever a file widens the range: it stops at the least
      range that swallows every file it touches, and no key of that range is without a file or outside the request. */
  method GetOverlappingInputs(level: nat, files: seq<File>, begin: Option<UserKey>, end: Option<UserKey>)
    returns (inputs: seq<File>, userBegin: Option<UserKey>, userEnd: Option<UserKey>)
    ensures inputs == Touching(files, userBegin, userEnd)
    ensures forall f :: f in inputs <==> f in files && Touches(f, userBegin, userEnd)
    ensures level > 0 ==> userBegin == begin && userEnd == end
    ensures level == 0 ==> Closed(files, userBegin, userEnd)
    ensures Forced(files, begin, end, userBegin, userEnd)
  {
    var ub, ue := begin, end;
    assert Forced(files, begin, end, ub, ue);
    hide Forced, StickingOut;
    inputs := [];
    var i := 0;
    while i < |files|
      invariant 0 <= i <= |files|
      invariant inputs == Touching(files[..i], ub, ue)
      invariant level > 0 ==> ub == begin && ue == end
      invariant level == 0 ==> Closed(files[..i], ub, ue)
      invariant Forced(files, begin, end, ub, ue)
      decreases StickingOut(files, ub, ue), |files| - i
    {
      var f := files[i];
      assert files[..i + 1][..i] == files[..i];
      i := i + 1;
      if ub.Some? && Hi(f) < ub.value {
      } else if ue.Some? && Lo(f) > ue.value {
      } else {
        inputs := inputs + [f];
        if level == 0 {
          if ub.Some? && Lo(f) < ub.value {
            WidenLeft(files, begin, end, ub, ue, f);
            ub := Some(Lo(f));
            inputs := [];
            i := 0;
          } else if ue.Some? && Hi(f) > ue.value {
            WidenRight(files, begin, end, ub, ue, f);
            ue := Some(Hi(f));
            inputs := [];
            i := 0;
          }
        }
      }
    }
    assert files[..i] == files;
    TouchingIn(files, ub, ue);
    userBegin, userEnd := ub, ue;
  }

  // Ends of files that the range does not reach: every restart of the scan makes this set smaller.
  ghost function StickingOut(files: seq<File>, begin: Option<UserKey>, end: Option<UserKey>): set<(bool, int)> {
    (set i | 0 <= i < |files| && begin.Some? && Lo(files[i]) < begin.value :: (false, i)) +
    (set i | 0 <= i < |files| && end.Some? && Hi(files[i]) > end.value :: (true, i))
  }

  lemma WidenLeft(files: seq<File>, begin: Option<UserKey>, end: Option<UserKey>, ub: Option<UserKey>,
                  ue: Option<UserKey>, f: File)
    requires f in files && Touches(f, ub, ue) && Forced(files, begin, end, ub, ue)
    requires ub.Some? && Lo(f) < ub.value
    ensures Forced(files, begin, end, Some(Lo(f)), ue)
    ensures StickingOut(files, Some(Lo(f)), ue) < StickingOut(files, ub, ue)
  {
    var i :| 0 <= i < |files| && files[i] == f;
    assert (false, i) in StickingOut(files, ub, ue) && (false, i) !in StickingOut(files, Some(Lo(f)), ue);
    ForcedFile(files, begin, end, ub, ue, f);
    forall k | Within(k, Some(Lo(f)), ue) && !Within(k, begin, end) ensures Reaches(files, Some(Lo(f)), ue, k) {
      if Within(k, ub, ue) {
        var g :| g in files && Touches(g, ub, ue) && InRange(g, k);
        assert Touches(g, Some(Lo(f)), ue);
      } else {
        assert InRange(f, k) && Touches(f, Some(Lo(f)), ue);
      }
    }
  }

  lemma WidenRight(files: seq<File>, begin: Option<UserKey>, end: Option<UserKey>, ub: Option<UserKey>,
                   ue: Option<UserKey>, f: File)
    requires f in files && Touches(f, ub, ue) && Forced(files, begin, end, ub, ue)
    requires ue.Some? && Hi(f) > ue.value
    ensures Forced(files, begin, end, ub, Some(Hi(f)))
    ensures StickingOut(files, ub, Some(Hi(f))) < StickingOut(files, ub, ue)
  {
    var i :| 0 <= i < |files| && files[i] == f;
    assert (true, i) in StickingOut(files, ub, ue) && (true, i) !in StickingOut(files, ub, Some(Hi(f)));
    ForcedFile(files, begin, end, ub, ue, f);
    forall k | Within(k, ub, Some(Hi(f))) && !Within(k, begin, end) ensures Reaches(files, ub, Some(Hi(f)), k) {
      if Within(k, ub, ue) {
        var g :| g in files && Touches(g, ub, ue) && InRange(g, k);
        assert Touches(g, ub, Some(Hi(f)));
      } else {
        assert InRange(f, k) && Touches(f, ub, Some(Hi(f)));
      }
    }
  }

  lemma ForcedFile(files: seq<File>, begin: Option<UserKey>, end: Option<UserKey>, ub: Option<UserKey>,
                   ue: Option<UserKey>, f: File)
    requires f in files && Touches(f, ub, ue) && Forced(files, begin, end, ub, ue)
    ensures Lo(f) <= Hi(f)
    ensures forall b, e :: Wider(begin, end, b, e) && Closed(files, b, e) ==> Inside(Lo(f), Hi(f), b, e)
  {
  }
}
