/** MergingIterator: a cursor over the sorted union of its children. */
module Merger {
  import opened DbFormat
  import opened Cursors

  // A place between entries: everything above it comes later in the order than everything below it.
  datatype Cut = Bottom | From(k: UserKey, s: int) | Top

  predicate Above(e: Entry, c: Cut) {
    match c
    case Bottom => true
    case From(k, s) => e.key > k || (e.key == k && e.sn <= s)
    case Top => false
  }

  function JustAfter(x: Entry): Cut {
    From(x.key, x.sn - 1)
  }

  function JustAt(x: Entry): Cut {
    From(x.key, x.sn)
  }

  // The first entry above the cut.
  ghost predicate ForwardPoint(items: seq<Entry>, c: Cut, pos: int) {
    if pos == NOWHERE then forall i :: 0 <= i < |items| ==> !Above(items[i], c)
    else 0 <= pos < |items| && Above(items[pos], c) && forall i :: 0 <= i < pos ==> !Above(items[i], c)
  }

  // The last entry below the cut.
  ghost predicate BackwardPoint(items: seq<Entry>, c: Cut, pos: int) {
    if pos == NOWHERE then forall i :: 0 <= i < |items| ==> Above(items[i], c)
    else 0 <= pos < |items| && !Above(items[pos], c) && forall i :: pos < i < |items| ==> Above(items[i], c)
  }

  predicate Member(lists: seq<seq<Entry>>, e: Entry) {
    exists i :: 0 <= i < |lists| && e in lists[i]
  }

  // Distinct children never hold versions of a key with the same sequence number.
  predicate Distinct(lists: seq<seq<Entry>>) {
    forall i, j, a, b :: 0 <= i < |lists| && 0 <= j < |lists| && i != j && a in lists[i] && b in lists[j] ==>
        Before(a, b) || Before(b, a)
  }

  /** m is the least member of the union above the cut. */
  ghost predicate LeastAbove(lists: seq<seq<Entry>>, c: Cut, m: Entry) {
    Member(lists, m) && Above(m, c) && forall e :: Member(lists, e) && Above(e, c) ==> e == m || Before(m, e)
  }

  ghost predicate NoneAbove(lists: seq<seq<Entry>>, c: Cut) {
    forall e :: Member(lists, e) ==> !Above(e, c)
  }

  /** m is the greatest member of the union below the cut. */
  ghost predicate GreatestBelow(lists: seq<seq<Entry>>, c: Cut, m: Entry) {
    Member(lists, m) && !Above(m, c) && forall e :: Member(lists, e) && !Above(e, c) ==> e == m || Before(e, m)
  }

  ghost predicate NoneBelow(lists: seq<seq<Entry>>, c: Cut) {
    forall e :: Member(lists, e) ==> Above(e, c)
  }

  predicate AllSorted(lists: seq<seq<Entry>>) {
    forall i :: 0 <= i < |lists| ==> Sorted(lists[i])
  }

  // ---- Positions as values ----

  ghost predicate Forwards(lists: seq<seq<Entry>>, ps: seq<int>, c: Cut) {
    |ps| == |lists| && forall i :: 0 <= i < |lists| ==> ForwardPoint(lists[i], c, ps[i])
  }

  ghost predicate Backwards(lists: seq<seq<Entry>>, ps: seq<int>, c: Cut) {
    |ps| == |lists| && forall i :: 0 <= i < |lists| ==> BackwardPoint(lists[i], c, ps[i])
  }

  predicate On(lists: seq<seq<Entry>>, ps: seq<int>, i: int) {
    0 <= i < |lists| == |ps| && 0 <= ps[i] < |lists[i]|
  }

  function At(lists: seq<seq<Entry>>, ps: seq<int>, i: int): Entry
    requires On(lists, ps, i)
  {
    lists[i][ps[i]]
  }

  // Among children lo..hi-1, cur has the smallest current entry; -1 when none has one.
  ghost predicate SmallestIn(lists: seq<seq<Entry>>, ps: seq<int>, lo: int, hi: int, cur: int) {
    if cur == -1 then forall i :: lo <= i < hi ==> !On(lists, ps, i)
    else
      && lo <= cur < hi && On(lists, ps, cur)
      && forall i :: lo <= i < hi && On(lists, ps, i) && i != cur ==> Before(At(lists, ps, cur), At(lists, ps, i))
  }

  ghost predicate LargestIn(lists: seq<seq<Entry>>, ps: seq<int>, lo: int, hi: int, cur: int) {
    if cur == -1 then forall i :: lo <= i < hi ==> !On(lists, ps, i)
    else
      && lo <= cur < hi && On(lists, ps, cur)
      && forall i :: lo <= i < hi && On(lists, ps, i) && i != cur ==> Before(At(lists, ps, i), At(lists, ps, cur))
  }

  ghost predicate Smallest(lists: seq<seq<Entry>>, ps: seq<int>, cur: int) {
    SmallestIn(lists, ps, 0, |lists|, cur)
  }

  ghost predicate Largest(lists: seq<seq<Entry>>, ps: seq<int>, cur: int) {
    LargestIn(lists, ps, 0, |lists|, cur)
  }

  lemma SmallestOfNone(lists: seq<seq<Entry>>, ps: seq<int>)
    ensures SmallestIn(lists, ps, 0, 0, -1)
  {
  }

  lemma LargestOfNone(lists: seq<seq<Entry>>, ps: seq<int>)
    ensures LargestIn(lists, ps, |lists|, |lists|, -1)
  {
  }

  lemma ConsiderSmallest(lists: seq<seq<Entry>>, ps: seq<int>, n: int, cur: int)
    requires Distinct(lists) && |ps| == |lists| && 0 <= n < |lists| && SmallestIn(lists, ps, 0, n, cur)
    ensures SmallestIn(lists, ps, 0, n + 1, if On(lists, ps, n) &&
            (cur == -1 || Before(At(lists, ps, n), At(lists, ps, cur))) then n else cur)
  {
  }

  lemma ConsiderLargest(lists: seq<seq<Entry>>, ps: seq<int>, n: int, cur: int)
    requires Distinct(lists) && |ps| == |lists| && 0 <= n < |lists| && LargestIn(lists, ps, n + 1, |lists|, cur)
    ensures LargestIn(lists, ps, n, |lists|, if On(lists, ps, n) &&
            (cur == -1 || Before(At(lists, ps, cur), At(lists, ps, n))) then n else cur)
  {
  }

  lemma SmallestIsLeast(lists: seq<seq<Entry>>, ps: seq<int>, cur: int, c: Cut)
    requires AllSorted(lists) && Forwards(lists, ps, c) && Smallest(lists, ps, cur)
    ensures cur == -1 ==> NoneAbove(lists, c)
    ensures cur != -1 ==> LeastAbove(lists, c, lists[cur][ps[cur]])
  {
    forall e | Member(lists, e) && Above(e, c)
      ensures cur != -1 && (e == lists[cur][ps[cur]] || Before(lists[cur][ps[cur]], e))
    {
      var i :| 0 <= i < |lists| && e in lists[i];
      var j :| 0 <= j < |lists[i]| && lists[i][j] == e;
      assert ForwardPoint(lists[i], c, ps[i]) && On(lists, ps, i) && ps[i] <= j;
    }
  }

  lemma LargestIsGreatest(lists: seq<seq<Entry>>, ps: seq<int>, cur: int, c: Cut)
    requires AllSorted(lists) && Backwards(lists, ps, c) && Largest(lists, ps, cur)
    ensures cur == -1 ==> NoneBelow(lists, c)
    ensures cur != -1 ==> GreatestBelow(lists, c, lists[cur][ps[cur]])
  {
    forall e | Member(lists, e) && !Above(e, c)
      ensures cur != -1 && (e == lists[cur][ps[cur]] || Before(e, lists[cur][ps[cur]]))
    {
      var i :| 0 <= i < |lists| && e in lists[i];
      var j :| 0 <= j < |lists[i]| && lists[i][j] == e;
      assert BackwardPoint(lists[i], c, ps[i]) && On(lists, ps, i) && j <= ps[i];
    }
  }

  // Moving forward, every child but the current one is already past the current entry.
  lemma OthersPast(lists: seq<seq<Entry>>, ps: seq<int>, cur: int, c: Cut, i: int)
    requires AllSorted(lists) && Distinct(lists) && Forwards(lists, ps, c) && Smallest(lists, ps, cur)
    requires 0 <= cur < |lists| && 0 <= i < |lists| && i != cur
    ensures ForwardPoint(lists[i], JustAfter(lists[cur][ps[cur]]), ps[i])
  {
    assert ForwardPoint(lists[i], c, ps[i]) && ForwardPoint(lists[cur], c, ps[cur]);
    assert ps[i] != NOWHERE ==> On(lists, ps, i);
  }

  lemma OthersBehind(lists: seq<seq<Entry>>, ps: seq<int>, cur: int, c: Cut, i: int)
    requires AllSorted(lists) && Distinct(lists) && Backwards(lists, ps, c) && Largest(lists, ps, cur)
    requires 0 <= cur < |lists| && 0 <= i < |lists| && i != cur
    ensures BackwardPoint(lists[i], JustAt(lists[cur][ps[cur]]), ps[i])
  {
    assert BackwardPoint(lists[i], c, ps[i]) && BackwardPoint(lists[cur], c, ps[cur]);
    assert ps[i] != NOWHERE ==> On(lists, ps, i);
  }

  /** Repositions a child just after x. */
  method SeekAfter(child: Cursor, x: Entry)
    requires Sorted(child.items)
    modifies child
    ensures ForwardPoint(child.items, JustAfter(x), child.pos)
  {
    child.Seek(x.key, x.sn);
    if child.Valid() && child.items[child.pos].key == x.key && child.items[child.pos].sn == x.sn {
      child.Next();
    }
  }

  /** Repositions a child just before x. */
  method SeekBefore(child: Cursor, x: Entry)
    requires Sorted(child.items)
    modifies child
    ensures BackwardPoint(child.items, JustAt(x), child.pos)
  {
    child.Seek(x.key, x.sn);
    if child.Valid() {
      child.Prev();
    } else {
      child.SeekToLast();
    }
  }

  datatype Direction = Forward | Reverse

  class MergingIterator {
    const children: seq<Cursor>
    var current: int
    var direction: Direction
    ghost var cut: Cut

    ghost function Lists(): (r: seq<seq<Entry>>)
      ensures |r| == |children| && forall i :: 0 <= i < |r| ==> r[i] == children[i].items
    {
      seq(|children|, i requires 0 <= i < |children| => children[i].items)
    }

    ghost function Positions(): (r: seq<int>)
      reads children
      ensures |r| == |children| && forall i :: 0 <= i < |r| ==> r[i] == children[i].pos
    {
      seq(|children|, i requires 0 <= i < |children| reads children => children[i].pos)
    }

    ghost predicate Shape()
    {
      && (forall i, j :: 0 <= i < j < |children| ==> children[i] != children[j])
      && AllSorted(Lists()) && Distinct(Lists())
    }

    ghost predicate Inv()
      reads this, children
    {
      && Shape()
      && (current == -1 || (0 <= current < |children| && children[current].Valid()))
      && (current != -1 && direction.Forward? ==>
           Forwards(Lists(), Positions(), cut) && Smallest(Lists(), Positions(), current))
      && (current != -1 && direction.Reverse? ==>
           Backwards(Lists(), Positions(), cut) && Largest(Lists(), Positions(), current))
    }

    predicate Valid()
      reads this
    {
      current != -1
    }

    function Item(): Entry
      requires 0 <= current < |children| && children[current].Valid()
      reads this, children
    {
      children[current].items[children[current].pos]
    }

    constructor (children: seq<Cursor>)
      requires forall i, j :: 0 <= i < j < |children| ==> children[i] != children[j]
      requires AllSorted(seq(|children|, i requires 0 <= i < |children| => children[i].items))
      requires Distinct(seq(|children|, i requires 0 <= i < |children| => children[i].items))
      ensures Inv() && !Valid() && this.children == children
    {
      this.children := children;
      current, direction := -1, Forward;
    }

    method FindSmallest()
      requires Shape() && Forwards(Lists(), Positions(), cut)
      modifies this`current
      ensures current == -1 || (0 <= current < |children| && children[current].Valid())
      ensures Smallest(Lists(), Positions(), current)
    {
      ghost var lists, ps := Lists(), Positions();
      hide SmallestIn, Distinct, Sorted, Before, AllSorted, Forwards;
      var smallest := -1;
      assert SmallestIn(lists, ps, 0, 0, -1) by { SmallestOfNone(lists, ps); }
      for i := 0 to |children|
        invariant smallest == -1 || On(lists, ps, smallest)
        invariant SmallestIn(lists, ps, 0, i, smallest)
      {
        var child := children[i];
        ConsiderSmallest(lists, ps, i, smallest);
        if child.Valid() {
          if smallest == -1 {
            smallest := i;
          } else if Before(child.items[child.pos], children[smallest].items[children[smallest].pos]) {
            smallest := i;
          }
        }
      }
      current := smallest;
    }

    method FindLargest()
      requires Shape() && Backwards(Lists(), Positions(), cut)
      modifies this`current
      ensures current == -1 || (0 <= current < |children| && children[current].Valid())
      ensures Largest(Lists(), Positions(), current)
    {
      ghost var lists, ps := Lists(), Positions();
      hide LargestIn, Distinct, Sorted, Before, AllSorted, Backwards;
      var largest, i := -1, |children| - 1;
      assert LargestIn(lists, ps, |children|, |children|, -1) by { LargestOfNone(lists, ps); }
      while i >= 0
        invariant -1 <= i < |children| && (largest == -1 || On(lists, ps, largest))
        invariant LargestIn(lists, ps, i + 1, |children|, largest)
      {
        var child := children[i];
        ConsiderLargest(lists, ps, i, largest);
        if child.Valid() {
          if largest == -1 {
            largest := i;
          } else if Before(children[largest].items[children[largest].pos], child.items[child.pos]) {
            largest := i;
          }
        }
        i := i - 1;
      }
      current := largest;
    }

    method SeekToFirst()
      requires Inv()
      modifies this, children
      ensures Inv() && direction.Forward?
      ensures if Valid() then LeastAbove(Lists(), Bottom, Item()) else NoneAbove(Lists(), Bottom)
    {
      for i := 0 to |children|
        invariant forall j :: 0 <= j < i ==> ForwardPoint(children[j].items, Bottom, children[j].pos)
      {
        children[i].SeekToFirst();
      }
      cut := Bottom;
      FindSmallest();
      direction := Forward;
      SmallestIsLeast(Lists(), Positions(), current, cut);
    }

    method SeekToLast()
      requires Inv()
      modifies this, children
      ensures Inv() && direction.Reverse?
      ensures if Valid() then GreatestBelow(Lists(), Top, Item()) else NoneBelow(Lists(), Top)
    {
      for i := 0 to |children|
        invariant forall j :: 0 <= j < i ==> BackwardPoint(children[j].items, Top, children[j].pos)
      {
        children[i].SeekToLast();
      }
      cut := Top;
      FindLargest();
      direction := Reverse;
      LargestIsGreatest(Lists(), Positions(), current, cut);
    }

    method Seek(k: UserKey, s: nat)
      requires Inv()
      modifies this, children
      ensures Inv() && direction.Forward?
      ensures if Valid() then LeastAbove(Lists(), From(k, s), Item()) else NoneAbove(Lists(), From(k, s))
    {
      for i := 0 to |children|
        invariant forall j :: 0 <= j < i ==> ForwardPoint(children[j].items, From(k, s), children[j].pos)
      {
        children[i].Seek(k, s);
      }
      cut := From(k, s);
      FindSmallest();
      direction := Forward;
      SmallestIsLeast(Lists(), Positions(), current, cut);
    }

    // The change to forward motion; afterwards the other children stand at their first entry past the current one.
    method OthersAfter()
      requires Inv() && Valid()
      modifies this`direction, children
      ensures direction.Forward? && children[current].pos == old(children[current].pos)
      ensures forall i :: 0 <= i < |children| && i != current ==>
              ForwardPoint(children[i].items, JustAfter(old(Item())), children[i].pos)
    {
      ghost var x, c, ps := Item(), current, Positions();
      if direction != Forward {
        hide ForwardPoint, Distinct, LeastAbove, Sorted, Smallest, Largest, Forwards, Backwards;
        for i := 0 to |children|
          invariant children[c].pos == ps[c]
          invariant forall j :: 0 <= j < i && j != c ==> ForwardPoint(children[j].items, JustAfter(x), children[j].pos)
        {
          if i != current {
            assert Sorted(Lists()[i]);
            SeekAfter(children[i], Item());
          }
        }
        direction := Forward;
      } else {
        forall i | 0 <= i < |children| &&
            i != c ensures ForwardPoint(children[i].items, JustAfter(x), children[i].pos) {
          OthersPast(Lists(), ps, c, cut, i);
        }
      }
    }

    method StepNext()
      requires Shape() && 0 <= current < |children| && children[current].Valid()
      requires forall i :: 0 <= i < |children| && i != current ==>
               ForwardPoint(children[i].items, JustAfter(Item()), children[i].pos)
      modifies this`cut, children[current]
      ensures cut == JustAfter(old(Item())) && Forwards(Lists(), Positions(), cut)
    {
      assert Sorted(Lists()[current]);
      StepPast(children[current].items, children[current].pos);
      hide ForwardPoint, Distinct, Sorted, AllSorted;
      cut := JustAfter(Item());
      ghost var ps := Positions();
      children[current].Next();
      forall i | 0 <= i < |children| ensures ForwardPoint(Lists()[i], cut, Positions()[i]) {
        if i != current {
          assert children[i] != children[current] && children[i].pos == ps[i];
        }
      }
    }

    /** Moves to the next entry of the union, whichever way the iterator was moving. */
    method Next()
      requires Inv() && Valid()
      modifies this, children
      ensures Inv() && direction.Forward?
      ensures if Valid() then LeastAbove(Lists(), JustAfter(old(Item())), Item())
              else NoneAbove(Lists(), JustAfter(old(Item())))
    {
      OthersAfter();
      StepNext();
      hide Forwards, Distinct, LeastAbove, Smallest, Largest, AllSorted;
      FindSmallest();
      SmallestIsLeast(Lists(), Positions(), current, cut);
    }

    // The change to backward motion: the mirror image.
    method OthersBefore()
      requires Inv() && Valid()
      modifies this`direction, children
      ensures direction.Reverse? && children[current].pos == old(children[current].pos)
      ensures forall i :: 0 <= i < |children| && i != current ==>
              BackwardPoint(children[i].items, JustAt(old(Item())), children[i].pos)
    {
      ghost var x, c, ps := Item(), current, Positions();
      if direction != Reverse {
        hide BackwardPoint, Distinct, GreatestBelow, Sorted, Smallest, Largest, Forwards, Backwards;
        for i := 0 to |children|
          invariant children[c].pos == ps[c]
          invariant forall j :: 0 <= j < i && j != c ==> BackwardPoint(children[j].items, JustAt(x), children[j].pos)
        {
          if i != current {
            assert Sorted(Lists()[i]);
            SeekBefore(children[i], Item());
          }
        }
        direction := Reverse;
      } else {
        forall i | 0 <= i < |children| && i != c ensures BackwardPoint(children[i].items, JustAt(x), children[i].pos) {
          OthersBehind(Lists(), ps, c, cut, i);
        }
      }
    }

    method StepPrev()
      requires Shape() && 0 <= current < |children| && children[current].Valid()
      requires forall i :: 0 <= i < |children| && i != current ==>
               BackwardPoint(children[i].items, JustAt(Item()), children[i].pos)
      modifies this`cut, children[current]
      ensures cut == JustAt(old(Item())) && Backwards(Lists(), Positions(), cut)
    {
      assert Sorted(Lists()[current]);
      StepPast(children[current].items, children[current].pos);
      hide BackwardPoint, Distinct, Sorted, AllSorted;
      cut := JustAt(Item());
      ghost var ps := Positions();
      children[current].Prev();
      forall i | 0 <= i < |children| ensures BackwardPoint(Lists()[i], cut, Positions()[i]) {
        if i != current {
          assert children[i] != children[current] && children[i].pos == ps[i];
        }
      }
    }

    /** Moves to the previous entry of the union, whichever way the iterator was moving. */
    method Prev()
      requires Inv() && Valid()
      modifies this, children
      ensures Inv() && direction.Reverse?
      ensures if Valid() then GreatestBelow(Lists(), JustAt(old(Item())), Item())
              else NoneBelow(Lists(), JustAt(old(Item())))
    {
      OthersBefore();
      StepPrev();
      hide Backwards, Distinct, GreatestBelow, Smallest, Largest, AllSorted;
      FindLargest();
      LargestIsGreatest(Lists(), Positions(), current, cut);
    }
  }

  lemma StepPast(items: seq<Entry>, pos: int)
    requires Sorted(items) && 0 <= pos < |items|
    ensures ForwardPoint(items, JustAfter(items[pos]), if pos + 1 == |items| then NOWHERE else pos + 1)
    ensures BackwardPoint(items, JustAt(items[pos]), pos - 1)
  {
  }
}
