/** Stealing between run queues, and the queue with a skip index. */
module SkipQueues {
  import opened TsQueues

  /**
   * Processer::StealHalf. The size was read before the queue is locked again, so it may be out of date: whatever it
   * is, no task is lost and none is in both queues.
   */
  method StealHalf(own: TSQueue, other: TSQueue, size: nat) returns (c: nat, ghost stolen: seq<Addr>)
    requires own.Valid() && other.Valid() && own != other && own.mem == other.mem && own.id == other.id
    requires Unshared(own.Spine(), other.Spine())
    modifies own, other, own.mem
    ensures own.Valid() && other.Valid() && c == |stolen| == Taken((size + 1) / 2, |old(own.elems)|)
    ensures own.elems + stolen == old(own.elems) && other.elems == old(other.elems) + stolen
    ensures Unshared(own.Spine(), other.Spine())
  {
    hide Nexts, Prevs, NoDuplicates, Unshared, Marked, SameOff, Detached;
    ghost var l, m := own.Spine(), other.Spine();
    ghost var next, prev := own.mem.next, own.mem.prev;
    var first, last, n, es := own.PopBack((size + 1) / 2);
    Apart2(l, m, own.Spine(), es);
    Survives(next, own.mem.next, l, m);
    Survives(prev, own.mem.prev, l, m);
    c, stolen := n, es;
    if c == 0 { return; }
    next, prev := own.mem.next, own.mem.prev;
    other.PushList(first, last, n, es);
    Survives(next, own.mem.next, m + es, own.Spine());
    Survives(prev, own.mem.prev, m + es, own.Spine());
    assert other.Spine() == m + es;
  }

  // l is rest followed by es, and shares nothing with m.
  lemma Apart2(l: seq<Addr>, m: seq<Addr>, rest: seq<Addr>, es: seq<Addr>)
    requires Unshared(l, m) && NoDuplicates(l) && l == rest + es
    ensures Unshared(m, l) && Unshared(m, es) && Unshared(rest, m) && Unshared(rest, m + es)
  {
    forall h | h in rest ensures h !in es {
      var i :| 0 <= i < |rest| && rest[i] == h;
      forall j | 0 <= j < |es| ensures es[j] != h { assert l[i] != l[|rest| + j]; }
    }
  }

  // ---- The skip index ----

  const SKIP: nat := 64

  // index[i] is the element that ends the i-th full stretch, counting from headOffset elements before the first.
  ghost predicate Indexes(elems: seq<Addr>, index: seq<Addr>, headOffset: nat, tailOffset: nat) {
    && headOffset < SKIP && tailOffset < SKIP && |elems| + headOffset == SKIP * |index| + tailOffset
    && (forall i :: 0 <= i < |index| ==>
         0 <= SKIP * (i + 1) - headOffset - 1 < |elems| && index[i] == elems[SKIP * (i + 1) - headOffset - 1])
  }

  lemma IndexPush(elems: seq<Addr>, index: seq<Addr>, h: nat, t: nat, e: Addr)
    requires Indexes(elems, index, h, t)
    ensures if t + 1 == SKIP then Indexes(elems + [e], index + [e], h, 0) else Indexes(elems + [e], index, h, t + 1)
  {
  }

  // Popping short of the first indexed element.
  lemma IndexShort(elems: seq<Addr>, index: seq<Addr>, h: nat, t: nat, n: nat)
    requires Indexes(elems, index, h, t) && n <= |elems| && SKIP - h > n
    ensures Indexes(elems[n..], index, h + n, t)
  {
  }

  // Popping to or past an indexed element.
  lemma IndexJump(elems: seq<Addr>, index: seq<Addr>, h: nat, t: nat, n: nat)
    requires Indexes(elems, index, h, t) && n <= |elems| && SKIP - h <= n
    ensures var f, step := (n + h - SKIP) / SKIP, (n + h - SKIP) % SKIP;
            && f < |index| && SKIP * (f + 1) - h - 1 + step == n - 1 && index[f] == elems[SKIP * (f + 1) - h - 1]
            && if f + 1 == |index| then Indexes(elems[n..], [], 0, |elems| - n)
                 else Indexes(elems[n..], index[f + 1..], step, t)
  {
  }

  class TSSkipQueue {
    const list: TSQueue
    var index: seq<Addr>
    var headOffset: nat
    var tailOffset: nat

    ghost predicate Valid()
      reads this, list, list.mem
    {
      list.Valid() && Indexes(list.elems, index, headOffset, tailOffset)
    }

    constructor (list: TSQueue)
      requires list.Valid() && list.elems == []
      ensures Valid() && this.list == list
    {
      this.list := list;
      index, headOffset, tailOffset := [], 0, 0;
    }

    method Push(e: Addr)
      requires Valid() && e !in list.Spine() && e != NULL
      modifies this, list, list.mem
      ensures Valid() && list.elems == old(list.elems) + [e]
    {
      hide Indexes, Nexts, Prevs, NoDuplicates, Marked;
      IndexPush(list.elems, index, headOffset, tailOffset, e);
      list.Push(e);
      tailOffset := tailOffset + 1;
      if tailOffset == SKIP {
        tailOffset := 0;
        index := index + [e];
      }
    }

    /** pop_front(n): exactly the first min(n, size) elements, found through the index. */
    method PopFront(n0: nat) returns (first: Addr, last: Addr, n: nat, ghost es: seq<Addr>)
      requires Valid()
      modifies this, list, list.mem
      ensures Valid() && n == (if n0 < |old(list.elems)| then n0 else |old(list.elems)|)
      ensures es == old(list.elems)[..n] && list.elems == old(list.elems)[n..]
      ensures Detached(list.mem.next, list.mem.prev, first, last, es)
    {
      hide Nexts, Prevs, NoDuplicates, Marked, Detached, Get;
      ghost var all := list.elems;
      Ends(list.Spine());
      NothingDetached(list.mem.next, list.mem.prev, list.mem.check, list.id);
      if list.head == list.tail || n0 == 0 { return NULL, NULL, 0, []; }
      n := if n0 < list.count then n0 else list.count;
      last := Locate(n);
      first, es := list.DetachFront(last, n);
    }

    // Moves the index past n elements and finds the n-th.
    method Locate(n: nat) returns (last: Addr)
      requires Valid() && 1 <= n <= |list.elems|
      modifies this
      ensures Indexes(list.elems[n..], index, headOffset, tailOffset) && last == list.elems[n - 1]
    {
      hide Nexts, Prevs, NoDuplicates, Marked, Get;
      ghost var elems, h := list.elems, headOffset;
      if SKIP - headOffset > n {
        IndexShort(elems, index, headOffset, tailOffset, n);
        headOffset := headOffset + n;
        NextAt(list.mem.next, list.Spine(), 0);
        last := Steps(Get(list.mem.next, list.head), n - 1, 0);
      } else if index == [] {
        // Every stretch that reaches this far has been indexed
        assert false;
      } else {
        IndexJump(elems, index, headOffset, tailOffset, n);
        hide Indexes;
        var forward, step := (n + headOffset - SKIP) / SKIP, (n + headOffset - SKIP) % SKIP;
        var start := index[forward];
        index := index[forward + 1..];
        if index == [] {
          tailOffset, headOffset := list.count - n, 0;
        } else {
          headOffset := step;
        }
        last := Steps(start, step, SKIP * (forward + 1) - h - 1);
      }
    }

    // Follows next from element i.
    method Steps(start: Addr, steps: nat, ghost i: nat) returns (last: Addr)
      requires list.Valid() && i + steps < |list.elems| && start == list.elems[i]
      ensures last == list.elems[i + steps]
    {
      hide Nexts, Prevs, NoDuplicates, Marked, Get;
      last := start;
      for k := 0 to steps
        invariant last == list.elems[i + k]
      {
        NextAt(list.mem.next, list.Spine(), i + k + 1);
        last := Get(list.mem.next, last);
      }
    }
  }
}
