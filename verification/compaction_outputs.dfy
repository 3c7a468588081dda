/** Where a compaction cuts its outputs: by size, and so that none meets too much of the level after next
    (db/db_impl DoCompactionWork, db/version_set ShouldStopBefore). */
module CompactionOutputs {
  import opened DbFormat
  import opened Files
  import opened Versions
  import opened CompactionLoop

  // ---- Grandparents passed by ascending keys ----

  /** How many of the files, from the first on, end before the key. */
  function Passed(gs: seq<File>, e: Entry): (r: nat)
    ensures r <= |gs| && (forall i :: 0 <= i < r ==> Before(Largest(gs[i]), e))
    ensures r < |gs| ==> !Before(Largest(gs[r]), e)
  {
    if gs == [] || !Before(Largest(gs[0]), e) then 0 else 1 + Passed(gs[1..], e)
  }

  lemma PassedUnique(gs: seq<File>, e: Entry, r: nat)
    requires r <= |gs| && (forall i :: 0 <= i < r ==> Before(Largest(gs[i]), e))
    requires r < |gs| ==> !Before(Largest(gs[r]), e)
    ensures r == Passed(gs, e)
  {
  }

  lemma PassedGrows(gs: seq<File>, a: Entry, b: Entry)
    requires !Before(b, a)
    ensures Passed(gs, a) <= Passed(gs, b)
  {
    assert forall i :: 0 <= i < Passed(gs, a) ==> Before(Largest(gs[i]), b);
  }

  /** The bytes of the files passed from key a to key b. */
  function BytesPassed(gs: seq<File>, a: Entry, b: Entry): nat {
    if Passed(gs, a) <= Passed(gs, b) then TotalFileSize(gs[Passed(gs, a)..Passed(gs, b)]) else 0
  }

  lemma {:induction false} SizeJoins(a: seq<File>, b: seq<File>)
    ensures TotalFileSize(a + b) == TotalFileSize(a) + TotalFileSize(b)
  {
    if a == [] {
      assert a + b == b;
    } else {
      SizeJoins(a[1..], b);
      assert (a + b)[1..] == a[1..] + b;
    }
  }

  lemma BytesAdd(gs: seq<File>, a: Entry, b: Entry, c: Entry)
    requires !Before(b, a) && !Before(c, b)
    ensures BytesPassed(gs, a, c) == BytesPassed(gs, a, b) + BytesPassed(gs, b, c)
  {
    PassedGrows(gs, a, b);
    PassedGrows(gs, b, c);
    var x, y, z := Passed(gs, a), Passed(gs, b), Passed(gs, c);
    assert gs[x..z] == gs[x..y] + gs[y..z];
    SizeJoins(gs[x..y], gs[y..z]);
  }

  /** In a sorted level the files passed are those that end from a on and before b. */
  lemma PassedAre(gs: seq<File>, a: Entry, b: Entry, i: nat)
    requires LevelSorted(gs) && !Before(b, a) && i < |gs|
    ensures Passed(gs, a) <= i < Passed(gs, b) <==> !Before(Largest(gs[i]), a) && Before(Largest(gs[i]), b)
  {
    PassedGrows(gs, a, b);
    if Passed(gs, a) <= i { EndsAscend(gs, Passed(gs, a), i); }
    if Passed(gs, b) <= i { EndsAscend(gs, Passed(gs, b), i); }
  }

  lemma EndsAscend(gs: seq<File>, i: nat, j: nat)
    requires LevelSorted(gs) && i <= j < |gs|
    ensures !Before(Largest(gs[j]), Largest(gs[i]))
  {
    if i < j { assert Before(Largest(gs[i]), Smallest(gs[j])); }
  }

  // ---- Where ShouldStopBefore says so ----

  // The input at which the count of passed bytes last began, as the loop comes to input n.
  function Since(m: seq<Entry>, gs: seq<File>, limit: nat, n: nat): (r: nat)
    requires n < |m|
    ensures r <= n
    decreases n, 0
  {
    if n == 0 then 0
    else if StopBefore(m, gs, limit, n - 1) then n - 1 else Since(m, gs, limit, n - 1)
  }

  /** More than the limit was passed since the last time. */
  predicate StopBefore(m: seq<Entry>, gs: seq<File>, limit: nat, n: nat)
    requires n < |m|
    decreases n, 1
  {
    BytesPassed(gs, m[Since(m, gs, limit, n)], m[n]) > limit
  }

  class GrandparentCursor {
    const gs: seq<File>
    const limit: nat
    var index: nat
    var seenKey: bool
    var overlapped: nat
    ghost var since: Option<Entry>
    ghost var asked: Option<Entry>

    ghost predicate Valid()
      reads this
    {
      && index <= |gs| && seenKey == asked.Some? == since.Some?
      && if seenKey then
           && index == Passed(gs, asked.value) && !Before(asked.value, since.value)
           && overlapped == BytesPassed(gs, since.value, asked.value)
         else index == overlapped == 0
    }

    constructor (gs: seq<File>, limit: nat)
      ensures Valid() && asked == since == None && this.gs == gs && this.limit == limit
    {
      this.gs, this.limit := gs, limit;
      index, seenKey, overlapped := 0, false, 0;
      since, asked := None, None;
    }

    /** For keys asked in ascending order: whether more than the limit was passed since it last said so. */
    method ShouldStopBefore(e: Entry) returns (stop: bool)
      requires Valid() && (asked.Some? ==> Before(asked.value, e))
      modifies this
      ensures Valid() && asked == Some(e)
      ensures var from := if old(since).Some? then old(since).value else e;
              && stop == (BytesPassed(gs, from, e) > limit) && since == Some(if stop then e else from)
    {
      ghost var from := if since.Some? then since.value else e;
      if seenKey { BytesAdd(gs, from, asked.value, e); }
      Advance(e);
      seenKey := true;
      asked := Some(e);
      stop := overlapped > limit;
      if stop { overlapped := 0; }
      since := Some(if stop then e else from);
    }

    // Past every file that ends before the key, counting those after the first key asked for.
    method Advance(e: Entry)
      requires Valid() && (asked.Some? ==> Before(asked.value, e))
      modifies this`index, this`overlapped
      ensures index == Passed(gs, e)
      ensures overlapped == old(overlapped) + if seenKey then BytesPassed(gs, asked.value, e) else 0
    {
      hide BytesPassed;
      ghost var start, base := index, overlapped;
      while index < |gs| && Before(Largest(gs[index]), e)
        invariant start <= index <= |gs|
        invariant forall i :: 0 <= i < index ==> Before(Largest(gs[i]), e)
        invariant overlapped == base + if seenKey then TotalFileSize(gs[start..index]) else 0
      {
        if seenKey {
          assert gs[start..index + 1] == gs[start..index] + [gs[index]];
          SizeJoins(gs[start..index], [gs[index]]);
          overlapped := overlapped + gs[index].size;
        }
        index := index + 1;
      }
      PassedUnique(gs, e, index);
      if seenKey { BytesAre(gs, asked.value, e); }
    }
  }

  lemma BytesAre(gs: seq<File>, a: Entry, b: Entry)
    requires !Before(b, a)
    ensures Passed(gs, a) <= Passed(gs, b)
    ensures BytesPassed(gs, a, b) == TotalFileSize(gs[Passed(gs, a)..Passed(gs, b)])
  {
    PassedGrows(gs, a, b);
  }

  // ---- The outputs ----

  datatype Outputs = Outputs(files: seq<seq<Entry>>, open: bool)

  /** After n inputs: the outputs, and whether the last one is still open. */
  function Written(m: seq<Entry>, n: nat, snap: nat, deeper: seq<seq<File>>, gs: seq<File>, limit: nat,
                   big: nat -> bool): Outputs
    requires n <= |m|
  {
    if n == 0 then Outputs([], false)
    else
      var w, i := Written(m, n - 1, snap, deeper, gs, limit, big), n - 1;
      var open := w.open && !StopBefore(m, gs, limit, i);
      if !Kept(m, i, snap, deeper) then Outputs(w.files, open)
      else Outputs(Grown(w.files, open, m[i]), !big(i))
  }

  function Grown(files: seq<seq<Entry>>, open: bool, e: Entry): seq<seq<Entry>> {
    if open && files != [] then files[|files| - 1 := files[|files| - 1] + [e]] else files + [[e]]
  }

  lemma FlatGrown(files: seq<seq<Entry>>, open: bool, e: Entry)
    ensures Flat(Grown(files, open, e)) == Flat(files) + [e]
    ensures (forall o :: o in files ==> o != []) ==> forall o :: o in Grown(files, open, e) ==> o != []
  {
    var n, grown := |files| - 1, Grown(files, open, e);
    if forall o :: o in files ==> o != [] {
      forall o | o in grown ensures o != [] {
        var i :| 0 <= i < |grown| && grown[i] == o;
        assert i < n ==> o == files[i] && files[i] in files;
        assert !open && i == n ==> o == files[i] && files[i] in files;
      }
    }
    if open && files != [] {
      assert files[n := files[n] + [e]][..n] == files[..n];
    } else {
      assert (files + [[e]])[..|files|] == files;
    }
  }

  /** DoCompactionWork over the merged input `m`; `big` says when the output file has reached its size. */
  method DoCompactionWork(m: seq<Entry>, snap: nat, c: BaseLevelCursor, g: GrandparentCursor, big: nat -> bool)
    returns (outs: seq<seq<Entry>>)
    requires Sorted(m) && c.Valid() && c.asked == None && g.Valid() && g.asked == None
    modifies c, g
    ensures outs == if snap < MAX_SEQUENCE then Written(m, |m|, snap, c.deeper, g.gs, g.limit, big).files else []
  {
    hide Passed, BytesPassed;
    outs := [];
    var open := false;
    var currentUserKey: Option<UserKey> := None;
    var lastSequenceForKey := MAX_SEQUENCE;
    for i := 0 to |m|
      invariant c.Valid() && (c.asked.Some? ==> i > 0 && c.asked.value <= m[i - 1].key)
      invariant g.Valid() && g.asked == if i == 0 then None else Some(m[i - 1])
      invariant i > 0 ==> g.since == Some(m[Next(m, g.gs, g.limit, i - 1)])
      invariant if i == 0 then currentUserKey == None else currentUserKey == Some(m[i - 1].key)
      invariant if i == 0 then lastSequenceForKey == MAX_SEQUENCE else lastSequenceForKey == m[i - 1].sn
      invariant open ==> outs != []
      invariant snap < MAX_SEQUENCE ==>
                Outputs(outs, open) == Written(m, i, snap, c.deeper, g.gs, g.limit, big)
      invariant snap >= MAX_SEQUENCE ==> outs == [] && !open
    {
      var e := m[i];
      assert i > 0 ==> Before(m[i - 1], e);
      NextIsSince(m, g.gs, g.limit, i);
      var stop := g.ShouldStopBefore(e);
      if stop && open {
        open := false;
      }
      if currentUserKey == None || currentUserKey.value != e.key {
        currentUserKey := Some(e.key);
        lastSequenceForKey := MAX_SEQUENCE;
      }
      var drop := false;
      if lastSequenceForKey <= snap {
        drop := true;
      } else if e.op.Delete? && e.sn <= snap {
        drop := c.IsBaseLevelForKey(e.key);
      }
      lastSequenceForKey := e.sn;
      assert snap < MAX_SEQUENCE ==> drop == !Kept(m, i, snap, c.deeper);
      if !drop {
        if open {
          outs := outs[|outs| - 1 := outs[|outs| - 1] + [e]];
        } else {
          outs := outs + [[e]];
          open := true;
        }
        if big(i) {
          open := false;
        }
      }
    }
  }

  // Where the count begins once input n has been asked for.
  function Next(m: seq<Entry>, gs: seq<File>, limit: nat, n: nat): (r: nat)
    requires n < |m|
    ensures r <= n
  {
    if StopBefore(m, gs, limit, n) then n else Since(m, gs, limit, n)
  }

  lemma NextIsSince(m: seq<Entry>, gs: seq<File>, limit: nat, n: nat)
    requires n < |m|
    ensures Since(m, gs, limit, n) == if n == 0 then 0 else Next(m, gs, limit, n - 1)
    ensures StopBefore(m, gs, limit, n) == (BytesPassed(gs, m[Since(m, gs, limit, n)], m[n]) > limit)
  {
  }

  // ---- What the outputs are ----

  /** Together the outputs are the survivors, in order, and none is empty. */
  lemma {:induction false} OutputsAreSurvivors(m: seq<Entry>, n: nat, snap: nat, deeper: seq<seq<File>>, gs: seq<File>,
                                               limit: nat, big: nat -> bool)
    requires n <= |m|
    ensures var w := Written(m, n, snap, deeper, gs, limit, big);
            && Flat(w.files) == Survivors(m, n, snap, deeper) && (w.open ==> w.files != [])
            && forall o :: o in w.files ==> o != []
  {
    hide StopBefore, Kept;
    if n > 0 {
      OutputsAreSurvivors(m, n - 1, snap, deeper, gs, limit, big);
      var w := Written(m, n - 1, snap, deeper, gs, limit, big);
      FlatGrown(w.files, w.open && !StopBefore(m, gs, limit, n - 1), m[n - 1]);
    }
  }

  ghost predicate LittlePassed(gs: seq<File>, limit: nat, o: seq<Entry>) {
    o != [] && BytesPassed(gs, o[0], o[|o| - 1]) <= limit
  }

  lemma LessPassed(gs: seq<File>, a: Entry, b: Entry, c: Entry)
    requires !Before(b, a) && !Before(c, b)
    ensures BytesPassed(gs, b, c) <= BytesPassed(gs, a, c)
  {
    BytesAdd(gs, a, b, c);
  }

  lemma NothingPassed(gs: seq<File>, e: Entry)
    ensures BytesPassed(gs, e, e) == 0
  {
    assert gs[Passed(gs, e)..Passed(gs, e)] == [];
  }

  // The open output began no earlier than the count did, and ends with an input seen.
  ghost predicate BeganSince(m: seq<Entry>, n: nat, gs: seq<File>, limit: nat, o: seq<Entry>, a: nat)
    requires n <= |m|
  {
    n > 0 && o != [] && Next(m, gs, limit, n - 1) <= a < n && o[0] == m[a]
  }

  ghost predicate Bounded(m: seq<Entry>, n: nat, gs: seq<File>, limit: nat, w: Outputs)
    requires n <= |m|
  {
    && (forall o :: o in w.files ==> LittlePassed(gs, limit, o))
    && (w.open ==> w.files != [] && Began(m, n, gs, limit, w.files[|w.files| - 1]))
  }

  ghost predicate Began(m: seq<Entry>, n: nat, gs: seq<File>, limit: nat, o: seq<Entry>)
    requires n <= |m|
  {
    exists a :: BeganSince(m, n, gs, limit, o, a)
  }

  lemma ExtendBounded(m: seq<Entry>, i: nat, gs: seq<File>, limit: nat, o: seq<Entry>, a: nat)
    requires Sorted(m) && i < |m| && BeganSince(m, i, gs, limit, o, a) && !StopBefore(m, gs, limit, i)
    ensures LittlePassed(gs, limit, o + [m[i]]) && BeganSince(m, i + 1, gs, limit, o + [m[i]], a)
  {
    hide BytesPassed;
    NextIsSince(m, gs, limit, i);
    var r := Since(m, gs, limit, i);
    assert r < a ==> Before(m[r], m[a]);
    assert Before(m[a], m[i]);
    LessPassed(gs, m[r], m[a], m[i]);
  }

  lemma StartBounded(m: seq<Entry>, i: nat, gs: seq<File>, limit: nat)
    requires i < |m|
    ensures LittlePassed(gs, limit, [m[i]]) && BeganSince(m, i + 1, gs, limit, [m[i]], i)
  {
    hide BytesPassed;
    NothingPassed(gs, m[i]);
  }

  lemma SkipBounded(m: seq<Entry>, i: nat, gs: seq<File>, limit: nat, o: seq<Entry>, a: nat)
    requires i < |m| && BeganSince(m, i, gs, limit, o, a) && !StopBefore(m, gs, limit, i)
    ensures BeganSince(m, i + 1, gs, limit, o, a)
  {
    NextIsSince(m, gs, limit, i);
  }

  lemma {:induction false} StaysBounded(m: seq<Entry>, n: nat, snap: nat, deeper: seq<seq<File>>, gs: seq<File>,
                                        limit: nat, big: nat -> bool)
    requires Sorted(m) && n <= |m|
    ensures Bounded(m, n, gs, limit, Written(m, n, snap, deeper, gs, limit, big))
  {
    hide StopBefore, Kept, LittlePassed, BeganSince;
    if n > 0 {
      StaysBounded(m, n - 1, snap, deeper, gs, limit, big);
      var i, w := n - 1, Written(m, n - 1, snap, deeper, gs, limit, big);
      StartBounded(m, i, gs, limit);
      assert Began(m, n, gs, limit, [m[i]]);
      if w.open && !StopBefore(m, gs, limit, i) {
        var o := w.files[|w.files| - 1];
        var a :| BeganSince(m, i, gs, limit, o, a);
        ExtendBounded(m, i, gs, limit, o, a);
        SkipBounded(m, i, gs, limit, o, a);
        assert Began(m, n, gs, limit, o) && Began(m, n, gs, limit, o + [m[i]]);
      }
    }
  }

  /** No output passes more than the limit of the level after next, whatever the sizes of the outputs. */
  lemma OutputsPassLittle(m: seq<Entry>, snap: nat, deeper: seq<seq<File>>, gs: seq<File>, limit: nat,
                          big: nat -> bool, o: seq<Entry>)
    requires Sorted(m) && o in Written(m, |m|, snap, deeper, gs, limit, big).files
    ensures o != [] && BytesPassed(gs, o[0], o[|o| - 1]) <= limit
  {
    hide BytesPassed, Written;
    StaysBounded(m, |m|, snap, deeper, gs, limit, big);
  }

  /** The output that ends with input a was closed for its size, or because too much was passed by input b. */
  ghost predicate ClosedAfter(m: seq<Entry>, gs: seq<File>, limit: nat, big: nat -> bool, o: seq<Entry>, n: nat)
    requires n <= |m|
  {
    exists a :: 0 <= a < n && o != [] && o[|o| - 1] == m[a] &&
      (big(a) || exists b :: a < b < n && StopBefore(m, gs, limit, b))
  }

  lemma ClosedLater(m: seq<Entry>, gs: seq<File>, limit: nat, big: nat -> bool, o: seq<Entry>, n: nat, n': nat)
    requires n <= n' <= |m| && ClosedAfter(m, gs, limit, big, o, n)
    ensures ClosedAfter(m, gs, limit, big, o, n')
  {
    hide StopBefore;
  }

  ghost predicate EndsWith(m: seq<Entry>, o: seq<Entry>, big: nat -> bool, n: nat)
    requires n <= |m|
  {
    o != [] && LeftOpen(m, big, o[|o| - 1], n)
  }

  ghost predicate LeftOpen(m: seq<Entry>, big: nat -> bool, e: Entry, n: nat)
    requires n <= |m|
  {
    exists a :: 0 <= a < n && e == m[a] && !big(a)
  }

  lemma StopCloses(m: seq<Entry>, gs: seq<File>, limit: nat, big: nat -> bool, o: seq<Entry>, n: nat)
    requires n < |m| && EndsWith(m, o, big, n) && StopBefore(m, gs, limit, n)
    ensures ClosedAfter(m, gs, limit, big, o, n + 1)
  {
    hide StopBefore;
  }

  // Every output but an open last one was closed for a reason.
  ghost predicate Needed(m: seq<Entry>, n: nat, gs: seq<File>, limit: nat, big: nat -> bool, w: Outputs)
    requires n <= |m|
  {
    var k := |w.files|;
    && (forall j :: 0 <= j < (if w.open then k - 1 else k) ==> ClosedAfter(m, gs, limit, big, w.files[j], n))
    && (w.open ==> k > 0 && EndsWith(m, w.files[k - 1], big, n))
  }

  lemma EndsLater(m: seq<Entry>, o: seq<Entry>, big: nat -> bool, n: nat)
    requires n < |m| && EndsWith(m, o, big, n)
    ensures EndsWith(m, o, big, n + 1)
  {
  }

  lemma NewLast(m: seq<Entry>, gs: seq<File>, limit: nat, big: nat -> bool, o: seq<Entry>, n: nat)
    requires n < |m| && o != [] && o[|o| - 1] == m[n]
    ensures if big(n) then ClosedAfter(m, gs, limit, big, o, n + 1) else EndsWith(m, o, big, n + 1)
  {
  }

  lemma {:induction false} StaysNeeded(m: seq<Entry>, n: nat, snap: nat, deeper: seq<seq<File>>, gs: seq<File>,
                                       limit: nat, big: nat -> bool)
    requires n <= |m|
    ensures Needed(m, n, gs, limit, big, Written(m, n, snap, deeper, gs, limit, big))
  {
    hide StopBefore, Kept, ClosedAfter, EndsWith;
    if n > 0 {
      StaysNeeded(m, n - 1, snap, deeper, gs, limit, big);
      var i, w := n - 1, Written(m, n - 1, snap, deeper, gs, limit, big);
      var w' := Written(m, n, snap, deeper, gs, limit, big);
      var k := |w.files|;
      forall j | 0 <= j < k && ClosedAfter(m, gs, limit, big, w.files[j], i)
        ensures ClosedAfter(m, gs, limit, big, w.files[j], n)
      {
        ClosedLater(m, gs, limit, big, w.files[j], i, n);
      }
      if w.open {
        if StopBefore(m, gs, limit, i) {
          StopCloses(m, gs, limit, big, w.files[k - 1], i);
        } else {
          EndsLater(m, w.files[k - 1], big, i);
        }
      }
      if Kept(m, i, snap, deeper) { NewLast(m, gs, limit, big, w'.files[|w'.files| - 1], i); }
    }
  }

  /** Every output but the last was closed because it was big, or because more than the limit had been passed. */
  lemma CutsAreNeeded(m: seq<Entry>, snap: nat, deeper: seq<seq<File>>, gs: seq<File>, limit: nat, big: nat -> bool,
                      j: nat)
    requires j + 1 < |Written(m, |m|, snap, deeper, gs, limit, big).files|
    ensures ClosedAfter(m, gs, limit, big, Written(m, |m|, snap, deeper, gs, limit, big).files[j], |m|)
  {
    hide ClosedAfter, Written, EndsWith;
    StaysNeeded(m, |m|, snap, deeper, gs, limit, big);
  }

  // Every entry of an output but its last left it open.
  ghost predicate NotBig(m: seq<Entry>, big: nat -> bool, o: seq<Entry>, n: nat)
    requires n <= |m|
  {
    forall k :: 0 <= k < |o| - 1 ==> LeftOpen(m, big, o[k], n)
  }

  /** An output that has become big is closed at once. */
  lemma {:induction false} BigIsClosed(m: seq<Entry>, n: nat, snap: nat, deeper: seq<seq<File>>, gs: seq<File>,
                                       limit: nat, big: nat -> bool)
    requires n <= |m|
    ensures forall o :: o in Written(m, n, snap, deeper, gs, limit, big).files ==> NotBig(m, big, o, n)
  {
    hide StopBefore, Kept;
    if n > 0 {
      BigIsClosed(m, n - 1, snap, deeper, gs, limit, big);
      var i, w := n - 1, Written(m, n - 1, snap, deeper, gs, limit, big);
      forall o | o in w.files ensures NotBig(m, big, o, n) { NotBigLater(m, big, o, i); }
      StaysNeeded(m, i, snap, deeper, gs, limit, big);
      if w.open {
        var o := w.files[|w.files| - 1];
        GrowsNotBig(m, big, o, i);
      }
    }
  }

  lemma NotBigLater(m: seq<Entry>, big: nat -> bool, o: seq<Entry>, i: nat)
    requires i < |m| && NotBig(m, big, o, i)
    ensures NotBig(m, big, o, i + 1)
  {
    forall k | 0 <= k < |o| - 1 ensures LeftOpen(m, big, o[k], i + 1) {
      assert LeftOpen(m, big, o[k], i);
    }
  }

  lemma GrowsNotBig(m: seq<Entry>, big: nat -> bool, o: seq<Entry>, i: nat)
    requires i < |m| && NotBig(m, big, o, i) && EndsWith(m, o, big, i)
    ensures NotBig(m, big, o + [m[i]], i + 1)
  {
    var o' := o + [m[i]];
    forall k | 0 <= k < |o'| - 1 ensures LeftOpen(m, big, o'[k], i + 1) {
      assert o'[k] == o[k] && LeftOpen(m, big, o[k], i);
    }
  }
}
