/** The coroutine runtime's intrusive queues. */
module TsQueues {

  // A hook is named by its address.
  type Addr = int
  type Field = map<Addr, int>

  const NULL: Addr := 0

  function Get(m: Field, a: Addr): int {
    if a in m then m[a] else NULL
  }

  /** The link fields of all hooks. */
  class Hooks {
    var next: Field
    var prev: Field
    var check: Field

    constructor ()
    {
      next, prev, check := map[], map[], map[];
    }
  }

  // ---- Lists of hooks ----

  predicate NoDuplicates(l: seq<Addr>) {
    (forall i :: 0 <= i < |l| ==> l[i] != NULL) && forall i, j :: 0 <= i < j < |l| ==> l[i] != l[j]
  }

  function At(l: seq<Addr>, i: int): Addr {
    if 0 <= i < |l| then l[i] else NULL
  }

  // Following next visits l and then ends.
  predicate Nexts(next: Field, l: seq<Addr>) {
    forall i :: 0 <= i < |l| ==> Get(next, l[i]) == At(l, i + 1)
  }

  // Following prev from the end visits l backwards; what precedes the first is left open.
  predicate Prevs(prev: Field, l: seq<Addr>) {
    forall i :: 0 < i < |l| ==> Get(prev, l[i]) == At(l, i - 1)
  }

  predicate Unshared(l: seq<Addr>, m: seq<Addr>) {
    forall h :: h in l ==> h !in m
  }

  lemma JoinDup(l: seq<Addr>, m: seq<Addr>)
    requires NoDuplicates(l) && NoDuplicates(m) && Unshared(l, m)
    ensures NoDuplicates(l + m)
  {
    forall i, j | 0 <= i < j < |l + m| ensures (l + m)[i] != (l + m)[j] {
      if i < |l| <= j { assert l[i] in l && m[j - |l|] in m; }
    }
  }

  lemma JoinNext(next: Field, l: seq<Addr>, m: seq<Addr>)
    requires l != [] && m != [] && NoDuplicates(l + m) && Nexts(next, l) && Nexts(next, m)
    ensures Nexts(next[l[|l| - 1] := m[0]], l + m)
  {
    var n, t := next[l[|l| - 1] := m[0]], l + m;
    forall i | 0 <= i < |t| ensures Get(n, t[i]) == At(t, i + 1) {
      if i >= |l| { assert Get(next, m[i - |l|]) == At(m, i - |l| + 1) && t[|l| - 1] != t[i]; }
      else if i < |l| - 1 { assert t[i] != t[|l| - 1]; }
    }
  }

  lemma JoinPrev(prev: Field, l: seq<Addr>, m: seq<Addr>)
    requires l != [] && m != [] && NoDuplicates(l + m) && Prevs(prev, l) && Prevs(prev, m)
    ensures Prevs(prev[m[0] := l[|l| - 1]], l + m)
  {
    var p, t := prev[m[0] := l[|l| - 1]], l + m;
    forall i | 0 < i < |t| ensures Get(p, t[i]) == At(t, i - 1) {
      assert i != |l| ==> t[i] != t[|l|];
      if i > |l| { assert Get(prev, m[i - |l|]) == At(m, i - |l| - 1); }
    }
  }

  // What is left when l[a..b] is taken out.
  function Without(l: seq<Addr>, a: nat, b: nat): (r: seq<Addr>)
    requires a <= b <= |l|
    ensures |r| == |l| - (b - a)
  {
    l[..a] + l[b..]
  }

  lemma CutDup(l: seq<Addr>, a: nat, b: nat)
    requires a <= b <= |l| && NoDuplicates(l)
    ensures NoDuplicates(Without(l, a, b)) && NoDuplicates(l[a..b]) && Unshared(Without(l, a, b), l[a..b])
  {
  }

  // Bridging the gap in next.
  lemma CutNext(next: Field, l: seq<Addr>, a: nat, b: nat)
    requires 1 <= a < b <= |l| && NoDuplicates(l) && Nexts(next, l)
    ensures Nexts(next[l[a - 1] := At(l, b)], Without(l, a, b))
  {
  }

  // Ending the piece.
  lemma CutPieceNext(next: Field, l: seq<Addr>, a: nat, b: nat)
    requires 1 <= a < b <= |l| && NoDuplicates(l) && Nexts(next, l)
    ensures Nexts(next[l[a - 1] := At(l, b)][l[b - 1] := NULL], l[a..b])
  {
    var n, t := next[l[a - 1] := At(l, b)][l[b - 1] := NULL], l[a..b];
    forall i | 0 <= i < |t| ensures Get(n, t[i]) == At(t, i + 1) {
      assert t[i] == l[a + i];
    }
  }

  // Bridging the gap in prev.
  lemma CutPrev(prev: Field, l: seq<Addr>, a: nat, b: nat)
    requires 1 <= a < b <= |l| && NoDuplicates(l) && Prevs(prev, l)
    ensures Prevs(if b < |l| then prev[l[b] := l[a - 1]] else prev, Without(l, a, b))
    ensures Prevs(if b < |l| then prev[l[b] := l[a - 1]] else prev, l[a..b])
  {
  }

  // Writing to a hook outside l leaves l alone.
  lemma Outside(m: Field, l: seq<Addr>, h: Addr, v: int)
    requires h !in l
    ensures Nexts(m, l) ==> Nexts(m[h := v], l)
    ensures Prevs(m, l) ==> Prevs(m[h := v], l)
    ensures forall i :: 0 <= i < |l| ==> Get(m[h := v], l[i]) == Get(m, l[i])
  {
  }

  // The link before the first hook is not part of the list.
  lemma FirstIsOpen(prev: Field, l: seq<Addr>, v: Addr)
    requires Prevs(prev, l) && NoDuplicates(l) && l != []
    ensures Prevs(prev[l[0] := v], l)
  {
  }

  // ---- Frames ----

  // m' differs from m only at hooks of l.
  ghost predicate SameOff(m: Field, m': Field, l: seq<Addr>) {
    forall h :: h !in l ==> Get(m', h) == Get(m, h)
  }

  lemma SameSelf(m: Field, l: seq<Addr>)
    ensures SameOff(m, m, l)
  {
  }

  lemma SameStep(m: Field, m': Field, l: seq<Addr>, h: Addr, v: int)
    requires SameOff(m, m', l) && h in l
    ensures SameOff(m, m'[h := v], l)
  {
  }

  // The three fields change only at hooks of l.
  ghost predicate OnlyTouched(next: Field, next': Field, prev: Field, prev': Field, check: Field, check': Field,
                              l: seq<Addr>) {
    SameOff(next, next', l) && SameOff(prev, prev', l) && SameOff(check, check', l)
  }

  lemma NoneTouched(next: Field, prev: Field, check: Field, l: seq<Addr>)
    ensures OnlyTouched(next, next, prev, prev, check, check, l)
  {
  }

  lemma PushTouches(next: Field, prev: Field, check: Field, l: seq<Addr>, e: Addr, id: int)
    requires l != []
    ensures OnlyTouched(next, next[l[|l| - 1] := e][e := NULL], prev, prev[e := l[|l| - 1]], check, check[e := id],
            l + [e])
  {
    assert l[|l| - 1] in l + [e] && e in l + [e];
  }

  lemma CutSame(next: Field, prev: Field, l: seq<Addr>, a: nat, b: nat)
    requires 1 <= a < b <= |l|
    ensures SameOff(next, next[l[a - 1] := At(l, b)][l[b - 1] := NULL], l)
    ensures SameOff(prev, (if b < |l| then prev[l[b] := l[a - 1]] else prev)[l[a] := NULL], l)
  {
  }

  // Taking out one hook and its mark.
  lemma CutTouches(next: Field, prev: Field, check: Field, l: seq<Addr>, a: nat, b: nat)
    requires 1 <= a && b == a + 1 <= |l|
    ensures OnlyTouched(next, next[l[a - 1] := At(l, b)][l[a] := NULL], prev,
                        (if b < |l| then prev[l[b] := l[a - 1]] else prev)[l[a] := NULL], check, check[l[a] := NULL], l)
  {
    CutSame(next, prev, l, a, b);
  }

  // A list that shares no hook with l survives.
  lemma Survives(m: Field, m': Field, l: seq<Addr>, k: seq<Addr>)
    requires SameOff(m, m', l) && Unshared(k, l)
    ensures Nexts(m, k) ==> Nexts(m', k)
    ensures Prevs(m, k) ==> Prevs(m', k)
    ensures forall i :: 0 <= i < |k| ==> Get(m', k[i]) == Get(m, k[i])
  {
  }

  // ---- TSQueue ----

  // How many elements pop_front(n) and pop_back(n) take: at least one unless the queue is empty.
  function Taken(n: nat, size: nat): (c: nat)
    ensures c <= size
  {
    if size == 0 then 0 else if n == 0 then 1 else if n < size then n else size
  }

  // count_ is a size_t: below zero it wraps.
  const SIZE_MAX: nat := 0xffff_ffff_ffff_ffff

  predicate Marked(check: Field, l: seq<Addr>, id: int) {
    forall i :: 0 <= i < |l| ==> Get(check, l[i]) == id
  }

  class TSQueue {
    const mem: Hooks
    const head: Addr
    const id: int
    var tail: Addr
    var count: nat
    ghost var elems: seq<Addr>

    ghost function Spine(): seq<Addr>
      reads this
    {
      [head] + elems
    }

    ghost predicate Valid()
      reads this, mem
    {
      && count == |elems| && tail == Spine()[count] && NoDuplicates(Spine())
      && Nexts(mem.next, Spine()) && Prevs(mem.prev, Spine()) && Marked(mem.check, elems, id)
    }

    constructor (mem: Hooks, id: int, sentinel: Addr)
      requires sentinel != NULL && Get(mem.next, sentinel) == NULL
      ensures Valid() && elems == [] && this.mem == mem && this.id == id && head == sentinel
    {
      this.mem, this.id, head, tail, count, elems := mem, id, sentinel, sentinel, 0, [];
    }

    method Push(e: Addr)
      requires Valid() && e !in Spine() && e != NULL
      modifies this, mem
      ensures Valid() && elems == old(elems) + [e]
      ensures OnlyTouched(old(mem.next), mem.next, old(mem.prev), mem.prev, old(mem.check), mem.check,
              old(Spine()) + [e])
    {
      hide Nexts, Prevs, NoDuplicates, Unshared, Get, Marked, OnlyTouched;
      ghost var l := Spine();
      PushTouches(mem.next, mem.prev, mem.check, l, e, id);
      Alone(mem.next, mem.prev, e);
      Outside(mem.next, l, e, NULL);
      JoinDup(l, [e]);
      JoinNext(mem.next[e := NULL], l, [e]);
      JoinPrev(mem.prev, l, [e]);
      MarkOne(mem.check, elems, e, id);
      SwapWrites(mem.next, tail, e, e, NULL);
      mem.next := mem.next[tail := e];
      mem.prev := mem.prev[e := tail];
      mem.next := mem.next[e := NULL];
      mem.check := mem.check[e := id];
      tail := e;
      count := count + 1;
      elems := elems + [e];
      assert Spine() == l + [e];
    }

    method Pop() returns (r: Addr)
      requires Valid()
      modifies this, mem
      ensures Valid() && (r == NULL <==> old(elems) == [])
      ensures if r == NULL then elems == [] else old(elems) == [r] + elems && Get(mem.check, r) == NULL
      ensures OnlyTouched(old(mem.next), mem.next, old(mem.prev), mem.prev, old(mem.check), mem.check, old(Spine()))
    {
      hide Nexts, Prevs, NoDuplicates, Unshared, Marked, Detached, Get, OnlyTouched;
      ghost var l := Spine();
      Ends(l);
      NoneTouched(mem.next, mem.prev, mem.check, l);
      if head == tail { return NULL; }
      CutTouches(mem.next, mem.prev, mem.check, l, 1, 2);
      var p := Get(mem.next, head);
      NextAt(mem.next, l, 0);
      NextAt(mem.next, l, 1);
      Cut(mem.next, mem.prev, mem.check, l, 1, 2, id);
      Unmark(mem.check, elems, id);
      SwapWrites(mem.next, head, p, At(l, 2), NULL);
      var after := Get(mem.next, p);
      if p == tail { tail := head; }
      mem.next := mem.next[head := after];
      if after != NULL { mem.prev := mem.prev[after := head]; }
      mem.prev := mem.prev[p := NULL];
      mem.next := mem.next[p := NULL];
      mem.check := mem.check[p := NULL];
      count := count - 1;
      elems := elems[1..];
      assert Spine() == Without(l, 1, 2);
      r := p;
    }

    /** erase: takes out a hook of the queue.  A hook that carries the queue's mark but is not in it (run queues share
        one mark, and a detached list keeps it) is unlinked from wherever it is, and the count of this queue goes
        wrong: erase is right if and only if the marked hook is in the queue. */
    method Erase(h: Addr) returns (found: bool, ghost i: nat)
      requires Valid()
      modifies this, mem
      ensures found == (old(Get(mem.check, h)) == id)
      ensures !found ==>
                && Valid() && elems == old(elems)
                && OnlyTouched(old(mem.next), mem.next, old(mem.prev), mem.prev, old(mem.check), mem.check, [])
      ensures h in old(elems) ==> found
      ensures found ==> (Valid() <==> h in old(elems))
      ensures found && h in old(elems) ==>
                && i < |old(elems)| && old(elems)[i] == h && elems == Without(old(elems), i, i + 1)
                && OnlyTouched(old(mem.next), mem.next, old(mem.prev), mem.prev, old(mem.check), mem.check,
                     old(Spine()))
      ensures found && h !in old(elems) ==>
              elems == old(elems) && count == if old(count) == 0 then SIZE_MAX else old(count) - 1
    {
      hide Nexts, Prevs, NoDuplicates, Unshared, Marked, Get, OnlyTouched, Without;
      i := 0;
      MarkedIn(mem.check, elems, h, id);
      NoneTouched(mem.next, mem.prev, mem.check, []);
      if Get(mem.check, h) != id { return false, 0; }
      ghost var es := elems;
      if h in elems {
        i :| i < |elems| && elems[i] == h;
        Unlinks(mem.next, mem.prev, mem.check, head, elems, i, id);
      }
      var before, after := Get(mem.prev, h), Get(mem.next, h);
      if before != NULL { mem.next := mem.next[before := after]; }
      if after != NULL {
        mem.prev := mem.prev[after := before];
      } else if h == tail {
        tail := Get(mem.prev, tail);
      }
      mem.prev := mem.prev[h := NULL];
      mem.next := mem.next[h := NULL];
      mem.check := mem.check[h := NULL];
      count := if count == 0 then SIZE_MAX else count - 1;
      if h in es { elems := Without(elems, i, i + 1); }
      return true, i;
    }

    // Steps along next, at most n elements in all.
    method Walk(n: nat) returns (last: Addr, c: nat)
      requires Valid() && elems != []
      ensures c == Taken(n, |elems|) && last == elems[c - 1]
    {
      hide Nexts, Prevs, NoDuplicates, Marked, Get;
      ghost var l := Spine();
      NextAt(mem.next, l, 0);
      last := Get(mem.next, head);
      c := 1;
      NextAt(mem.next, l, 1);
      while c < n && Get(mem.next, last) != NULL
        invariant 1 <= c < |l| && last == l[c] && c <= Taken(n, |elems|)
        invariant Get(mem.next, last) == At(l, c + 1) && (At(l, c + 1) == NULL <==> c + 1 == |l|)
        decreases |l| - c
      {
        last := Get(mem.next, last);
        c := c + 1;
        NextAt(mem.next, l, c);
      }
    }

    // Steps along prev from the tail, at most n elements in all.
    method WalkBack(n: nat) returns (first: Addr, c: nat)
      requires Valid() && elems != []
      ensures c == Taken(n, |elems|) && first == elems[|elems| - c]
    {
      hide Nexts, Prevs, NoDuplicates, Marked, Get;
      ghost var l := Spine();
      Ends(l);
      first := tail;
      c := 1;
      while c < n && PrevOf(first) != NULL && PrevOf(first) != head
        invariant 1 <= c < |l| && first == l[|l| - c] && c <= Taken(n, |elems|)
        decreases |l| - c
      {
        PrevAt(mem.prev, l, |l| - c);
        HeadFirst(l, |l| - c - 1);
        first := PrevOf(first);
        c := c + 1;
      }
      PrevAt(mem.prev, l, |l| - c);
      HeadFirst(l, |l| - c - 1);
    }

    function PrevOf(h: Addr): Addr
      reads mem
    {
      Get(mem.prev, h)
    }

    /** pop_front: detaches the first elements as a list of their own. */
    method PopFront(n: nat) returns (first: Addr, last: Addr, c: nat, ghost es: seq<Addr>)
      requires Valid()
      modifies this, mem
      ensures Valid() && c == |es| == Taken(n, |old(elems)|) && old(elems) == es + elems
      ensures Detached(mem.next, mem.prev, first, last, es) && Marked(mem.check, es, id)
      ensures SameOff(old(mem.next), mem.next, old(Spine())) && SameOff(old(mem.prev), mem.prev, old(Spine())) &&
              mem.check == old(mem.check)
    {
      hide Nexts, Prevs, NoDuplicates, Marked, Detached, Get, SameOff;
      Ends(Spine());
      SameSelf(mem.next, Spine());
      SameSelf(mem.prev, Spine());
      NothingDetached(mem.next, mem.prev, mem.check, id);
      if head == tail { return NULL, NULL, 0, []; }
      last, c := Walk(n);
      first, es := DetachFront(last, c);
    }

    method DetachFront(last: Addr, c: nat) returns (first: Addr, ghost es: seq<Addr>)
      requires Valid() && 1 <= c <= |elems| && last == elems[c - 1]
      modifies this, mem
      ensures Valid() && c == |es| && old(elems) == es + elems
      ensures Detached(mem.next, mem.prev, first, last, es) && Marked(mem.check, es, id)
      ensures SameOff(old(mem.next), mem.next, old(Spine())) && SameOff(old(mem.prev), mem.prev, old(Spine())) &&
              mem.check == old(mem.check)
    {
      hide Nexts, Prevs, NoDuplicates, Unshared, Marked, Detached, Get, SameOff;
      ghost var l := Spine();
      Ends(l);
      NextAt(mem.next, l, 0);
      NextAt(mem.next, l, c);
      CutSame(mem.next, mem.prev, l, 1, c + 1);
      Cut(mem.next, mem.prev, mem.check, l, 1, c + 1, id);
      LastOfRestRange(l, 1, c + 1);
      first := Get(mem.next, head);
      es := l[1..c + 1];
      var after := Get(mem.next, last);
      if last == tail { tail := head; }
      mem.next := mem.next[head := after];
      if after != NULL { mem.prev := mem.prev[after := head]; }
      mem.prev := mem.prev[first := NULL];
      mem.next := mem.next[last := NULL];
      count := count - c;
      elems := elems[c..];
      assert Spine() == Without(l, 1, c + 1);
    }

    /** pop_back: detaches the last elements as a list of their own. */
    method PopBack(n: nat) returns (first: Addr, last: Addr, c: nat, ghost es: seq<Addr>)
      requires Valid()
      modifies this, mem
      ensures Valid() && c == |es| == Taken(n, |old(elems)|) && old(elems) == elems + es
      ensures Detached(mem.next, mem.prev, first, last, es) && Marked(mem.check, es, id)
      ensures SameOff(old(mem.next), mem.next, old(Spine())) && SameOff(old(mem.prev), mem.prev, old(Spine())) &&
              mem.check == old(mem.check)
    {
      hide Nexts, Prevs, NoDuplicates, Marked, Detached, Get, SameOff;
      Ends(Spine());
      SameSelf(mem.next, Spine());
      SameSelf(mem.prev, Spine());
      NothingDetached(mem.next, mem.prev, mem.check, id);
      if head == tail { return NULL, NULL, 0, []; }
      last := tail;
      first, c := WalkBack(n);
      es := DetachBack(first, c);
    }

    method DetachBack(first: Addr, c: nat) returns (ghost es: seq<Addr>)
      requires Valid() && 1 <= c <= |elems| && first == elems[|elems| - c]
      modifies this, mem
      ensures Valid() && c == |es| && old(elems) == elems + es
      ensures Detached(mem.next, mem.prev, first, old(tail), es) && Marked(mem.check, es, id)
      ensures SameOff(old(mem.next), mem.next, old(Spine())) && SameOff(old(mem.prev), mem.prev, old(Spine())) &&
              mem.check == old(mem.check)
    {
      hide Nexts, Prevs, NoDuplicates, Marked, Detached, Get, SameOff;
      CutBack(mem.next, mem.prev, mem.check, head, elems, |elems| - c, id);
      es := elems[|elems| - c..];
      var before := Get(mem.prev, first);
      tail := before;
      mem.prev := mem.prev[first := NULL];
      mem.next := mem.next[before := NULL];
      count := count - c;
      elems := elems[..|elems| - c];
    }

    /** push of a detached list: splices it at the tail. */
    method PushList(first: Addr, last: Addr, c: nat, ghost es: seq<Addr>)
      requires Valid() && Detached(mem.next, mem.prev, first, last, es) && c == |es| && Marked(mem.check, es, id) &&
               Unshared(Spine(), es)
      modifies this, mem
      ensures Valid() && elems == old(elems) + es
      ensures SameOff(old(mem.next), mem.next, old(Spine()) + es) &&
              SameOff(old(mem.prev), mem.prev, old(Spine()) + es) && mem.check == old(mem.check)
    {
      hide Nexts, Prevs, NoDuplicates, Unshared, Marked, Get, SameOff;
      ghost var l := Spine();
      SameSelf(mem.next, l + es);
      SameSelf(mem.prev, l + es);
      FirstIsNull(es);
      if first == NULL { return; }
      JoinDup(l, es);
      JoinNext(mem.next, l, es);
      JoinPrev(mem.prev, l, es);
      MarkBoth(mem.check, elems, es, id);
      LastStays(mem.next, l, es);
      SameStep(mem.next, mem.next, l + es, tail, first);
      SameStep(mem.next, mem.next[tail := first], l + es, last, NULL);
      SameStep(mem.prev, mem.prev, l + es, first, tail);
      count := count + c;
      mem.next := mem.next[tail := first];
      mem.prev := mem.prev[first := tail];
      mem.next := mem.next[last := NULL];
      tail := last;
      elems := elems + es;
      assert Spine() == l + es;
    }
  }

  // What unlinking the i-th element will leave.
  lemma Unlinks(next: Field, prev: Field, check: Field, head: Addr, es: seq<Addr>, i: nat, id: int)
    requires Nexts(next, [head] + es) && Prevs(prev, [head] + es) && NoDuplicates([head] + es)
    requires i < |es| && Marked(check, es, id)
    ensures var l, h := [head] + es, es[i];
            var before, after, rest := Get(prev, h), Get(next, h), [head] + Without(es, i, i + 1);
            var n := next[before := after][h := NULL];
            var p := (if after != NULL then prev[after := before] else prev)[h := NULL];
            && before == l[i] && before != NULL && (after == NULL <==> h == l[|l| - 1])
            && NoDuplicates(rest) && Nexts(n, rest) && Prevs(p, rest) &&
                 Marked(check[h := NULL], Without(es, i, i + 1), id)
            && rest[|rest| - 1] == (if after == NULL then before else l[|l| - 1])
            && OnlyTouched(next, n, prev, p, check, check[h := NULL], l)
  {
    hide Nexts, Prevs, NoDuplicates, Unshared, Marked, Detached, Get, Without, OnlyTouched;
    var l, k := [head] + es, i + 1;
    assert l[1..] == es;
    Ends(l);
    NextAt(next, l, k);
    PrevAt(prev, l, k);
    HeadFirst(l, i);
    Cut(next, prev, check, l, k, k + 1, id);
    CutTouches(next, prev, check, l, k, k + 1);
    Unmarked(check, es, id, i);
    LastOfRest(l, k);
    SpineWithout(head, es, i);
  }

  // What taking l[a..b] out of a queue will leave.
  lemma Cut(next: Field, prev: Field, check: Field, l: seq<Addr>, a: nat, b: nat, id: int)
    requires Nexts(next, l) && Prevs(prev, l) && NoDuplicates(l) && 1 <= a < b <= |l| && Marked(check, l[1..], id)
    ensures var rest, piece, n, p := Without(l, a, b), l[a..b], next[l[a - 1] := At(l, b)],
            if b < |l| then prev[l[b] := l[a - 1]] else prev;
            && NoDuplicates(rest) && Nexts(n[l[b - 1] := NULL], rest) && Prevs(p[l[a] := NULL], rest)
            && Detached(n[l[b - 1] := NULL], p[l[a] := NULL], l[a], l[b - 1], piece)
            && Marked(check, piece, id) && Marked(check, rest[1..], id) && Unshared(rest, piece)
  {
    hide Nexts, Prevs, NoDuplicates, Unshared, Marked;
    var rest, piece, n, p := Without(l, a, b), l[a..b], next[l[a - 1] := At(l, b)],
        if b < |l| then prev[l[b] := l[a - 1]] else prev;
    assert piece[0] == l[a] && piece[|piece| - 1] == l[b - 1];
    CutDup(l, a, b);
    CutNext(next, l, a, b);
    CutPieceNext(next, l, a, b);
    CutPrev(prev, l, a, b);
    Apart(rest, piece, l[a]);
    Apart(rest, piece, l[b - 1]);
    Outside(n, rest, l[b - 1], NULL);
    Outside(p, rest, l[a], NULL);
    FirstIsOpen(p, piece, NULL);
    MarkedParts(check, l, a, b, id);
  }

  // Cutting off l[k..]: its last hook already ends it.
  lemma SplitNext(next: Field, l: seq<Addr>, k: nat)
    requires Nexts(next, l) && NoDuplicates(l) && 1 <= k < |l|
    ensures Nexts(next[l[k - 1] := NULL], l[..k]) && Nexts(next[l[k - 1] := NULL], l[k..])
  {
  }

  lemma SplitPrev(prev: Field, l: seq<Addr>, k: nat)
    requires Prevs(prev, l) && NoDuplicates(l) && 1 <= k < |l|
    ensures Prevs(prev[l[k] := NULL], l[..k]) && Prevs(prev[l[k] := NULL], l[k..]) &&
            Get(prev[l[k] := NULL], l[k]) == NULL
  {
  }

  lemma SplitDup(l: seq<Addr>, k: nat)
    requires NoDuplicates(l) && k <= |l|
    ensures NoDuplicates(l[..k]) && NoDuplicates(l[k..])
  {
  }

  lemma SplitMarks(check: Field, l: seq<Addr>, k: nat, id: int)
    requires Marked(check, l, id) && k <= |l|
    ensures Marked(check, l[..k], id) && Marked(check, l[k..], id)
  {
  }

  // What pop_back leaves and returns when it takes the elements from k on.
  lemma CutBack(next: Field, prev: Field, check: Field, head: Addr, es: seq<Addr>, k: nat, id: int)
    requires Nexts(next, [head] + es) && Prevs(prev, [head] + es) && NoDuplicates([head] + es)
    requires k < |es| && Marked(check, es, id)
    ensures var before := ([head] + es)[k]; var n, p, rest := next[before := NULL], prev[es[k] := NULL],
            [head] + es[..k];
            && Get(prev, es[k]) == before && rest[k] == before && es == es[..k] + es[k..]
            && NoDuplicates(rest) && Nexts(n, rest) && Prevs(p, rest) && Marked(check, es[..k], id)
            && Detached(n, p, es[k], es[|es| - 1], es[k..]) && Marked(check, es[k..], id)
            && SameOff(next, n, [head] + es) && SameOff(prev, p, [head] + es)
  {
    hide Nexts, Prevs, NoDuplicates, Marked, SameOff, Get, Detached;
    var l := [head] + es;
    SpineSplit(head, es, k + 1);
    PrevAt(prev, l, k + 1);
    SplitNext(next, l, k + 1);
    SplitPrev(prev, l, k + 1);
    SplitDup(l, k + 1);
    SplitMarks(check, es, k, id);
    IsDetached(next[l[k] := NULL], prev[es[k] := NULL], es[k..]);
    SameSelf(next, l);
    SameSelf(prev, l);
    assert l[k] in l && l[k + 1] == es[k] && es[k] in l;
    SameStep(next, next, l, l[k], NULL);
    SameStep(prev, prev, l, es[k], NULL);
  }

  lemma IsDetached(next: Field, prev: Field, l: seq<Addr>)
    requires Nexts(next, l) && Prevs(prev, l) && NoDuplicates(l) && l != [] && Get(prev, l[0]) == NULL
    ensures Detached(next, prev, l[0], l[|l| - 1], l)
  {
  }

  lemma SpineWithout(head: Addr, es: seq<Addr>, i: nat)
    requires i < |es|
    ensures [head] + Without(es, i, i + 1) == Without([head] + es, i + 1, i + 2)
  {
  }

  lemma SpineSplit(head: Addr, es: seq<Addr>, k: nat)
    requires 1 <= k <= |es|
    ensures [head] + es[..k - 1] == ([head] + es)[..k] && ([head] + es)[k..] == es[k - 1..]
    ensures es == es[..k - 1] + es[k - 1..]
  {
  }

  lemma HeadFirst(l: seq<Addr>, i: nat)
    requires NoDuplicates(l) && i < |l|
    ensures l[i] != NULL && (l[i] == l[0] <==> i == 0)
  {
  }

  lemma FirstIsNull(l: seq<Addr>)
    requires NoDuplicates(l)
    ensures At(l, 0) == NULL <==> l == []
  {
  }

  lemma MarkBoth(check: Field, l: seq<Addr>, m: seq<Addr>, id: int)
    requires Marked(check, l, id) && Marked(check, m, id)
    ensures Marked(check, l + m, id)
  {
  }

  // Ending a joined list again changes nothing.
  lemma LastStays(next: Field, l: seq<Addr>, m: seq<Addr>)
    requires l != [] && m != [] && NoDuplicates(l + m) && Nexts(next, l) && Nexts(next, m)
    ensures Nexts(next[l[|l| - 1] := m[0]][m[|m| - 1] := NULL], l + m)
  {
    JoinNext(next, l, m);
    var t := l + m;
    assert t[|t| - 1] == m[|m| - 1];
  }

  lemma LastOfRestRange(l: seq<Addr>, a: nat, b: nat)
    requires 1 <= a < b <= |l| && NoDuplicates(l)
    ensures var rest := Without(l, a, b); rest[|rest| - 1] == if b == |l| then l[a - 1] else l[|l| - 1]
    ensures l[b - 1] == l[|l| - 1] <==> b == |l|
  {
  }

  /** A list of its own: SList. */
  predicate Detached(next: Field, prev: Field, first: Addr, last: Addr, l: seq<Addr>) {
    Nexts(next, l) && Prevs(prev, l) && NoDuplicates(l) && first == At(l, 0) && last == At(l, |l| - 1) && (l != [] ==>
        Get(prev, l[0]) == NULL)
  }

  lemma NothingDetached(next: Field, prev: Field, check: Field, id: int)
    ensures Detached(next, prev, NULL, NULL, []) && Marked(check, [], id)
  {
  }

  lemma MarkedParts(check: Field, l: seq<Addr>, a: nat, b: nat, id: int)
    requires 1 <= a <= b <= |l| && Marked(check, l[1..], id)
    ensures Marked(check, l[a..b], id) && Marked(check, Without(l, a, b)[1..], id)
  {
  }

  lemma SwapWrites(m: Field, a: Addr, b: Addr, v: int, w: int)
    requires a != b
    ensures m[a := v][b := w] == m[b := w][a := v]
  {
  }

  lemma PrevAt(prev: Field, l: seq<Addr>, i: nat)
    requires Prevs(prev, l) && 0 < i < |l|
    ensures Get(prev, l[i]) == l[i - 1]
  {
  }

  lemma Unmarked(check: Field, l: seq<Addr>, id: int, i: nat)
    requires Marked(check, l, id) && i < |l| && NoDuplicates(l)
    ensures Marked(check[l[i] := NULL], Without(l, i, i + 1), id)
  {
  }

  lemma LastOfRest(l: seq<Addr>, k: nat)
    requires 0 < k < |l| && NoDuplicates(l)
    ensures var rest := Without(l, k, k + 1); rest[|rest| - 1] == if k + 1 == |l| then l[k - 1] else l[|l| - 1]
    ensures l[k] == l[|l| - 1] <==> k + 1 == |l|
  {
  }

  lemma MarkedIn(check: Field, l: seq<Addr>, h: Addr, id: int)
    requires Marked(check, l, id)
    ensures h in l ==> Get(check, h) == id
  {
  }

  lemma Alone(next: Field, prev: Field, e: Addr)
    requires e != NULL
    ensures Nexts(next[e := NULL], [e]) && Prevs(prev, [e]) && NoDuplicates([e])
    ensures forall l :: e !in l ==> Unshared(l, [e])
  {
  }

  lemma MarkOne(check: Field, l: seq<Addr>, e: Addr, id: int)
    requires Marked(check, l, id)
    ensures Marked(check[e := id], l + [e], id)
  {
  }

  lemma Unmark(check: Field, l: seq<Addr>, id: int)
    requires Marked(check, l, id) && l != [] && NoDuplicates(l)
    ensures Marked(check[l[0] := NULL], l[1..], id) && Get(check[l[0] := NULL], l[0]) == NULL
  {
  }

  lemma Ends(l: seq<Addr>)
    requires NoDuplicates(l) && l != []
    ensures l[0] == l[|l| - 1] <==> |l| == 1
    ensures NoDuplicates(l[1..]) && l[0] != NULL
  {
  }

  lemma NextAt(next: Field, l: seq<Addr>, i: nat)
    requires Nexts(next, l) && NoDuplicates(l) && i < |l|
    ensures Get(next, l[i]) == At(l, i + 1) && (At(l, i + 1) == NULL <==> i + 1 == |l|)
  {
  }

  lemma Apart(rest: seq<Addr>, piece: seq<Addr>, p: Addr)
    requires Unshared(rest, piece) && p in piece
    ensures p !in rest
  {
  }
}
