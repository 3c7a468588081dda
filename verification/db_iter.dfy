/** DBIter: from a stream of versioned entries to a cursor over the user keys visible at a sequence number. */
module DbIterator {
  import opened DbFormat
  import opened Cursors

  predicate Seen(items: seq<Entry>, s: nat, i: int)
    requires 0 <= i < |items|
  {
    items[i].sn <= s
  }

  // No newer version of entry i's user key is visible.
  ghost predicate First(items: seq<Entry>, s: nat, i: int)
    requires 0 <= i < |items|
  {
    forall j :: 0 <= j < i && items[j].key == items[i].key ==> !Seen(items, s, j)
  }

  /** Entry i is what the user sees for its key. */
  ghost predicate Shown(items: seq<Entry>, s: nat, i: int) {
    0 <= i < |items| && Seen(items, s, i) && items[i].op.Put? && First(items, s, i)
  }

  /** The key reads as not found. */
  ghost predicate Absent(items: seq<Entry>, s: nat, k: UserKey) {
    Read(Elems(items), k, s) == None
  }

  lemma ShownIsRead(items: seq<Entry>, s: nat, i: int)
    requires Sorted(items) && Shown(items, s, i)
    ensures Read(Elems(items), items[i].key, s) == Some(items[i].op.value)
  {
    var es, k := Elems(items), items[i].key;
    assert items[i] in es && Visible(items[i], k, s);
    FindNone(es, k, s);
    FindSome(es, k, s);
    forall d | d in es && Visible(d, k, s) ensures d.sn <= items[i].sn {
      var j :| 0 <= j < |items| && items[j] == d;
      assert Seen(items, s, j);
    }
    assert Newest(es, k, s, items[i]);
    SortedOneNewest(items, k, s, items[i], Find(es, k, s).value);
  }

  lemma ReadIsShown(items: seq<Entry>, s: nat, k: UserKey) returns (i: int)
    requires Sorted(items) && !Absent(items, s, k)
    ensures Shown(items, s, i) && items[i].key == k
  {
    var es := Elems(items);
    FindSome(es, k, s);
    var e := Find(es, k, s).value;
    i :| 0 <= i < |items| && items[i] == e;
    forall j | 0 <= j < i && items[j].key == k ensures !Seen(items, s, j) {
      assert items[j] in es && Before(items[j], items[i]);
    }
  }

  /** Keys with no shown entry are absent. */
  lemma NoneShown(items: seq<Entry>, s: nat, k: UserKey)
    requires Sorted(items) && forall i :: 0 <= i < |items| && items[i].key == k ==> !Shown(items, s, i)
    ensures Absent(items, s, k)
  {
    if !Absent(items, s, k) {
      var i := ReadIsShown(items, s, k);
    }
  }

  datatype Direction = Forward | Reverse

  // Everything skipped from here on: no shown entry in [lo, hi) has a key above the skipped one.
  ghost predicate Barren(items: seq<Entry>, s: nat, lo: int, hi: int, skipping: bool, skip: UserKey) {
    forall i :: lo <= i < hi && Shown(items, s, i) ==> skipping && items[i].key <= skip
  }

  class DBIter {
    const iter: Cursor
    const sequence: nat
    var direction: Direction
    var valid: bool
    var savedKey: Option<UserKey>
    var savedValue: Option<Value>
    ghost var cur: int

    ghost predicate Inv()
      reads this, iter
    {
      && Sorted(iter.items) && (iter.Valid() || iter.pos == NOWHERE)
      && (valid ==> Shown(iter.items, sequence, cur))
      && (valid && direction.Forward? ==> iter.pos == cur)
      && (valid && direction.Reverse? ==>
            && savedKey == Some(iter.items[cur].key) && savedValue == Some(iter.items[cur].op.value)
            && iter.pos < cur && JustBefore(iter.items, sequence, iter.pos, cur))
    }

    // The reverse position: between it and the entry shown lie only invisible entries, and behind it none of its key.
    static ghost predicate JustBefore(items: seq<Entry>, s: nat, pos: int, cur: int) {
      && 0 <= cur < |items|
      && (forall i :: 0 <= i <= pos && i < |items| ==> items[i].key < items[cur].key)
      && (forall i :: 0 <= i < |items| && pos < i < cur ==> !Seen(items, s, i))
    }

    ghost predicate Missing(k: UserKey)
      reads this
    {
      Absent(iter.items, sequence, k)
    }

    /** The current user key and value are what a read at this sequence number returns. */
    ghost predicate At(k: UserKey, v: Value)
      reads this, iter
    {
      Inv() && valid && Key() == k && Val() == v && Read(Elems(iter.items), k, sequence) == Some(v)
    }

    function Key(): UserKey
      requires Inv() && valid
      reads this, iter
    {
      if direction.Forward? then iter.items[iter.pos].key else savedKey.value
    }

    function Val(): Value
      requires Inv() && valid
      reads this, iter
    {
      if direction.Forward? then iter.items[iter.pos].op.value else savedValue.value
    }

    constructor (iter: Cursor, s: nat)
      requires Sorted(iter.items) && (iter.Valid() || iter.pos == NOWHERE)
      ensures Inv() && !valid && this.iter == iter && sequence == s
    {
      this.iter, sequence := iter, s;
      direction, valid := Forward, false;
      savedKey, savedValue := None, None;
    }

    /** From the cursor's position, the first shown entry whose key is not being skipped. */
    method FindNextUserEntry(skipping0: bool, skip0: UserKey)
      requires Sorted(iter.items) && iter.Valid() && direction.Forward?
      requires Scan(iter.items, sequence, iter.pos, iter.pos, skipping0, skip0, skipping0, skip0)
      modifies this`valid, this`savedKey, this`cur, iter
      ensures iter.Valid() || iter.pos == NOWHERE
      ensures valid == iter.Valid()
      ensures valid ==> iter.pos == cur >= old(iter.pos) && Shown(iter.items, sequence, cur)
      ensures valid && skipping0 ==> iter.items[cur].key > skip0
      ensures Barren(iter.items, sequence, old(iter.pos), if valid then cur else |iter.items|, skipping0, skip0)
    {
      var skipping, skip := skipping0, skip0;
      ghost var p, items := iter.pos, iter.items;
      ghost var q := p;
      hide Scan, Sorted, Shown, Barren;
      while iter.Valid()
        invariant iter.pos == if q == |items| then NOWHERE else q
        invariant p <= q <= |items| && Scan(items, sequence, p, q, skipping0, skip0, skipping, skip)
        decreases |items| - q
      {
        var e := iter.items[iter.pos];
        if e.sn <= sequence {
          match e.op {
            case Delete =>
              ScanDelete(items, sequence, p, q, skipping0, skip0, skipping, skip);
              skip, skipping := e.key, true;
            case Put(_) =>
              if skipping && e.key <= skip {
                ScanHidden(items, sequence, p, q, skipping0, skip0, skipping, skip);
              } else {
                ScanFound(items, sequence, p, q, skipping0, skip0, skipping, skip);
                valid, savedKey, cur := true, None, q;
                return;
              }
          }
        } else {
          ScanInvisible(items, sequence, p, q, skipping0, skip0, skipping, skip);
        }
        iter.Next();
        q := q + 1;
      }
      ScanEnd(items, sequence, p, skipping0, skip0, skipping, skip);
      savedKey, valid := None, false;
    }

    /** From the cursor's position backwards, the last shown entry. */
    method FindPrevUserEntry()
      requires Sorted(iter.items) && (iter.Valid() || iter.pos == NOWHERE) && direction.Reverse?
      modifies this`valid, this`savedKey, this`savedValue, this`direction, this`cur, iter
      ensures Inv()
      ensures valid ==> direction.Reverse? && cur <= old(iter.pos)
      ensures NoneIn(iter.items, sequence, if valid then cur else -1, old(iter.pos))
    {
      var deletion := true;
      ghost var p, items := iter.pos, iter.items;
      ghost var q := cur;
      hide Candidate, Sorted, Shown;
      while iter.Valid()
        invariant -1 <= iter.pos <= p && direction.Reverse?
        invariant deletion ==> NoneIn(items, sequence, iter.pos, p)
        invariant !deletion ==> 0 <= q < |items| && items[q].op.Put? && Candidate(items, sequence, iter.pos, q, p)
        invariant !deletion ==> savedKey == Some(items[q].key) && savedValue == Some(items[q].op.value)
        decreases iter.pos
      {
        var e := iter.items[iter.pos];
        if e.sn <= sequence {
          if !deletion && e.key < savedKey.value {
            break;
          }
          BackVisible(items, sequence, iter.pos, deletion, q, p);
          deletion := e.op.Delete?;
          if deletion {
            savedKey, savedValue := None, None;
          } else {
            savedKey, savedValue, q := Some(e.key), Some(e.op.value), iter.pos;
          }
        } else {
          BackInvisible(items, sequence, iter.pos, deletion, q, p);
        }
        iter.Prev();
      }
      if deletion {
        valid, savedKey, savedValue, direction := false, None, None, Forward;
      } else {
        valid, cur := true, q;
        CandidateIsShown(items, sequence, iter.pos, q, p);
      }
    }

    method Next()
      requires Inv() && valid
      modifies this, iter
      ensures Inv()
      ensures valid ==> old(Key()) < Key() && At(Key(), Val()) && forall k :: old(Key()) < k < Key() ==> Missing(k)
      ensures !valid ==> forall k :: old(Key()) < k ==> Missing(k)
    {
      ghost var was, items := cur, iter.items;
      if direction.Reverse? {
        direction := Forward;
        if !iter.Valid() {
          iter.SeekToFirst();
        } else {
          iter.Next();
        }
      } else {
        savedKey := Some(iter.items[iter.pos].key);
      }
      ghost var p := iter.pos;
      FindNextUserEntry(true, savedKey.value);
      AfterIs(items, sequence, p, was, if valid then cur else |items|);
      if valid { ShownIsRead(items, sequence, cur); }
    }

    method Prev()
      requires Inv() && valid
      modifies this, iter
      ensures Inv()
      ensures valid ==> Key() < old(Key()) && At(Key(), Val()) && forall k :: Key() < k < old(Key()) ==> Missing(k)
      ensures !valid ==> forall k :: k < old(Key()) ==> Missing(k)
    {
      ghost var was, items := cur, iter.items;
      if direction.Forward? {
        savedKey := Some(iter.items[iter.pos].key);
        while true
          invariant iter.Valid() && iter.pos <= was && savedKey == Some(items[was].key)
          invariant forall i :: iter.pos <= i < was ==> items[i].key == items[was].key
          decreases iter.pos
        {
          iter.Prev();
          if !iter.Valid() {
            valid, savedKey, savedValue := false, None, None;
            BeforeIs(items, sequence, -1, was, -1);
            return;
          }
          if iter.items[iter.pos].key < savedKey.value { break; }
        }
        direction := Reverse;
      }
      ghost var p := iter.pos;
      FindPrevUserEntry();
      BeforeIs(items, sequence, p, was, if valid then cur else -1);
      if valid { ShownIsRead(items, sequence, cur); }
    }

    method Seek(target: UserKey)
      requires Inv()
      modifies this, iter
      ensures Inv()
      ensures valid ==> target <= Key() && At(Key(), Val()) && forall k :: target <= k < Key() ==> Missing(k)
      ensures !valid ==> forall k :: target <= k ==> Missing(k)
    {
      direction, savedValue, savedKey := Forward, None, None;
      iter.Seek(target, sequence);
      ghost var items := iter.items;
      if iter.Valid() {
        ghost var p := iter.pos;
        FindNextUserEntry(false, target);
        FromIs(items, sequence, p, target, if valid then cur else |items|);
        if valid { ShownIsRead(items, sequence, cur); }
      } else {
        valid := false;
        FromIs(items, sequence, |items|, target, |items|);
      }
    }

    method SeekToFirst()
      requires Inv()
      modifies this, iter
      ensures Inv()
      ensures valid ==> At(Key(), Val()) && forall k :: k < Key() ==> Missing(k)
      ensures !valid ==> forall k :: Missing(k)
    {
      direction, savedValue := Forward, None;
      iter.SeekToFirst();
      ghost var items := iter.items;
      if iter.Valid() {
        FindNextUserEntry(false, 0);
        FirstIs(items, sequence, if valid then cur else |items|);
        if valid { ShownIsRead(items, sequence, cur); }
      } else {
        valid := false;
        FirstIs(items, sequence, 0);
      }
    }

    method SeekToLast()
      requires Inv()
      modifies this, iter
      ensures Inv()
      ensures valid ==> At(Key(), Val()) && forall k :: Key() < k ==> Missing(k)
      ensures !valid ==> forall k :: Missing(k)
    {
      direction, savedValue := Reverse, None;
      iter.SeekToLast();
      ghost var items := iter.items;
      FindPrevUserEntry();
      LastIs(items, sequence, if valid then cur else -1);
      if valid { ShownIsRead(items, sequence, cur); }
    }
  }

  // A visible version behind the position means the key is being skipped.
  ghost predicate Hides(items: seq<Entry>, s: nat, pos: int, skipping: bool, skip: UserKey) {
    forall j, i :: 0 <= j < pos <= i < |items| && items[j].key == items[i].key && Seen(items, s, j) ==>
        skipping && items[i].key <= skip
  }

  // Scanning forward from p has reached q.
  ghost predicate Scan(items: seq<Entry>, s: nat, p: int, q: int, skipping0: bool, skip0: UserKey, skipping: bool,
                       skip: UserKey) {
    && 0 <= p <= q <= |items| && (skipping0 ==> skipping && skip0 <= skip)
    && (forall i :: q <= i < |items| && Seen(items, s, i) && skipping ==> skip <= items[i].key)
    && Hides(items, s, q, skipping, skip)
    && (skipping ==> (skipping0 && skip == skip0) || DeletedBefore(items, s, p, q, skip))
    && Barren(items, s, p, q, skipping0, skip0)
  }

  ghost predicate DeletedBefore(items: seq<Entry>, s: nat, p: int, q: int, skip: UserKey) {
    exists i :: 0 <= p <= i < q <= |items| && Seen(items, s, i) && items[i].key == skip
  }

  lemma ScanInvisible(items: seq<Entry>, s: nat, p: int, q: int, skipping0: bool, skip0: UserKey, skipping: bool,
                      skip: UserKey)
    requires Scan(items, s, p, q, skipping0, skip0, skipping, skip) && q < |items| && !Seen(items, s, q)
    ensures Scan(items, s, p, q + 1, skipping0, skip0, skipping, skip)
  {
  }

  lemma ScanDelete(items: seq<Entry>, s: nat, p: int, q: int, skipping0: bool, skip0: UserKey, skipping: bool,
                   skip: UserKey)
    requires Sorted(items) && q < |items| && Scan(items, s, p, q, skipping0, skip0, skipping, skip)
    requires Seen(items, s, q) && items[q].op.Delete?
    ensures Scan(items, s, p, q + 1, skipping0, skip0, true, items[q].key)
  {
  }

  lemma ScanHidden(items: seq<Entry>, s: nat, p: int, q: int, skipping0: bool, skip0: UserKey, skipping: bool,
                   skip: UserKey)
    requires Sorted(items) && q < |items| && Scan(items, s, p, q, skipping0, skip0, skipping, skip)
    requires Seen(items, s, q) && skipping && items[q].key <= skip
    ensures Scan(items, s, p, q + 1, skipping0, skip0, skipping, skip)
  {
  }

  lemma ScanFound(items: seq<Entry>, s: nat, p: int, q: int, skipping0: bool, skip0: UserKey, skipping: bool,
                  skip: UserKey)
    requires q < |items| && Scan(items, s, p, q, skipping0, skip0, skipping, skip)
    requires Seen(items, s, q) && items[q].op.Put? && !(skipping && items[q].key <= skip)
    ensures Shown(items, s, q) && Barren(items, s, p, q, skipping0, skip0) && (skipping0 ==> skip0 < items[q].key)
  {
  }

  lemma ScanEnd(items: seq<Entry>, s: nat, p: int, skipping0: bool, skip0: UserKey, skipping: bool, skip: UserKey)
    requires Scan(items, s, p, |items|, skipping0, skip0, skipping, skip)
    ensures Barren(items, s, p, |items|, skipping0, skip0)
  {
  }

  ghost predicate NoneIn(items: seq<Entry>, s: nat, lo: int, hi: int) {
    forall i :: lo < i <= hi ==> !Shown(items, s, i)
  }

  lemma BackInvisible(items: seq<Entry>, s: nat, pos: int, deletion: bool, cur: int, p: int)
    requires 0 <= pos < |items| && !Seen(items, s, pos)
    requires if deletion then NoneIn(items, s, pos, p) else Candidate(items, s, pos, cur, p)
    ensures if deletion then NoneIn(items, s, pos - 1, p) else Candidate(items, s, pos - 1, cur, p)
  {
  }

  lemma BackVisible(items: seq<Entry>, s: nat, pos: int, deletion: bool, cur: int, p: int)
    requires Sorted(items) && 0 <= pos <= p < |items| && Seen(items, s, pos)
    requires if deletion then NoneIn(items, s, pos, p)
             else Candidate(items, s, pos, cur, p) && items[cur].key <= items[pos].key
    ensures if items[pos].op.Delete? then NoneIn(items, s, pos - 1, p) else Candidate(items, s, pos - 1, pos, p)
  {
  }

  // The entry at cur is the newest seen so far of its key, and nothing seen lies between the position and it.
  ghost predicate Candidate(items: seq<Entry>, s: nat, pos: int, cur: int, p: int) {
    && pos < cur <= p < |items| && 0 <= cur && Seen(items, s, cur) && items[cur].op.Put?
    && (forall i :: pos < i < cur && 0 <= i ==> !Seen(items, s, i))
    && NoneIn(items, s, cur, p)
  }

  lemma CandidateIsShown(items: seq<Entry>, s: nat, pos: int, cur: int, p: int)
    requires Sorted(items) && Candidate(items, s, pos, cur, p)
    requires pos == -1 || (0 <= pos && items[pos].key < items[cur].key)
    ensures Shown(items, s, cur) && NoneIn(items, s, cur, p) && DBIter.JustBefore(items, s, pos, cur)
  {
  }

  // hi is the next shown index after was, or past the end.
  lemma AfterIs(items: seq<Entry>, s: nat, p: int, was: int, hi: int)
    requires Sorted(items) && Shown(items, s, was) && 0 <= p <= was && was < hi <= |items|
    requires Barren(items, s, p, hi, true, items[was].key)
    requires hi < |items| ==> Shown(items, s, hi)
    ensures forall k :: items[was].key < k && (hi < |items| ==> k < items[hi].key) ==> Absent(items, s, k)
  {
    forall k | items[was].key < k && (hi < |items| ==> k < items[hi].key) ensures Absent(items, s, k) {
      NoneShown(items, s, k);
    }
  }

  lemma BeforeIs(items: seq<Entry>, s: nat, p: int, was: int, lo: int)
    requires Sorted(items) && Shown(items, s, was) && -1 <= lo <= p < was
    requires forall i :: 0 <= i < |items| && p < i < was && items[i].key < items[was].key ==> !Seen(items, s, i)
    requires NoneIn(items, s, lo, p)
    requires lo >= 0 ==> Shown(items, s, lo)
    ensures forall k :: k < items[was].key && (lo >= 0 ==> items[lo].key < k) ==> Absent(items, s, k)
  {
    forall k | k < items[was].key && (lo >= 0 ==> items[lo].key < k) ensures Absent(items, s, k) {
      NoneShown(items, s, k);
    }
  }

  lemma FromIs(items: seq<Entry>, s: nat, p: int, target: UserKey, hi: int)
    requires Sorted(items) && 0 <= p <= hi <= |items|
    requires forall i :: 0 <= i < p ==> !AtOrAfter(items[i], target, s)
    requires Barren(items, s, p, hi, false, target) && (hi < |items| ==> Shown(items, s, hi))
    ensures forall k :: target <= k && (hi < |items| ==> k < items[hi].key) ==> Absent(items, s, k)
  {
    forall k | target <= k && (hi < |items| ==> k < items[hi].key) ensures Absent(items, s, k) {
      NoneShown(items, s, k);
    }
  }

  lemma FirstIs(items: seq<Entry>, s: nat, hi: int)
    requires Sorted(items) && 0 <= hi <= |items| && Barren(items, s, 0, hi, false, 0) && (hi < |items| ==>
             Shown(items, s, hi))
    ensures forall k :: (hi < |items| ==> k < items[hi].key) ==> Absent(items, s, k)
  {
    forall k | hi < |items| ==> k < items[hi].key ensures Absent(items, s, k) {
      NoneShown(items, s, k);
    }
  }

  lemma LastIs(items: seq<Entry>, s: nat, lo: int)
    requires Sorted(items) && -1 <= lo < |items| && (lo >= 0 ==> Shown(items, s, lo))
    requires NoneIn(items, s, lo, |items| - 1)
    ensures forall k :: (lo >= 0 ==> items[lo].key < k) ==> Absent(items, s, k)
  {
    forall k | lo >= 0 ==> items[lo].key < k ensures Absent(items, s, k) {
      NoneShown(items, s, k);
    }
  }
}
