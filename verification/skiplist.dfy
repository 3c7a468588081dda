/** The skip list: one writer, readers that take no lock. */
module SkipLists {
  import opened DbFormat

  const MAX_HEIGHT := 12

  // Nodes are never removed and no two hold equal keys, so a node is named by its key.
  datatype Node = Head | Cell(key: int)

  // next_[n] of every node, level by level; None is the null pointer.
  type Links = seq<map<Node, Option<int>>>

  predicate Precedes(a: Node, k: int) {
    a.Head? || a.key < k
  }

  predicate On(s: set<int>, a: Node) {
    a.Head? || a.key in s
  }

  // r is the first key of s after node a.
  ghost predicate IsNext(s: set<int>, a: Node, r: Option<int>) {
    && (r.Some? ==> r.value in s && Precedes(a, r.value))
    && forall j :: j in s && Precedes(a, j) ==> r.Some? && r.value <= j
  }

  // p is the last node of s before k.
  ghost predicate IsPrev(s: set<int>, k: int, p: Node) {
    && On(s, p) && Precedes(p, k)
    && forall j :: j in s && j < k ==> p.Cell? && j <= p.key
  }

  /** r is the first key of s that is at least k. */
  ghost predicate IsFirstAtLeast(s: set<int>, k: int, r: Option<int>) {
    && (r.Some? ==> r.value in s && k <= r.value)
    && forall j :: j in s && k <= j ==> r.Some? && r.value <= j
  }

  /**
   * Level l is a sorted list of exactly linked[l], threaded from the head, and every level is a sublist of the
   * one below it. Nodes that are allocated but not yet reachable on a level are not constrained.
   */
  ghost predicate WellLinked(links: Links, linked: seq<set<int>>) {
    && |links| == |linked| == MAX_HEIGHT
    && (forall l, a :: 0 <= l < MAX_HEIGHT && On(linked[l], a) ==> a in links[l] && IsNext(linked[l], a, links[l][a]))
    && (forall l :: 0 <= l < MAX_HEIGHT - 1 ==> linked[l + 1] <= linked[l])
  }

  predicate KeyIsAfterNode(k: int, n: Option<int>) {
    n.Some? && n.value < k
  }

  // Where a search may stop on a level: at a node before k whose successor is not.
  lemma StopIsPrev(s: set<int>, k: int, x: Node, n: Option<int>)
    requires On(s, x) && Precedes(x, k) && IsNext(s, x, n) && !KeyIsAfterNode(k, n)
    ensures IsPrev(s, k, x) && IsFirstAtLeast(s, k, n)
  {
  }

  // Keys of a level strictly between a node and k.
  ghost function Ahead(s: set<int>, x: Node, k: int): set<int> {
    set j | j in s && Precedes(x, j) && j < k
  }

  lemma MoveShrinks(s: set<int>, x: Node, k: int, n: Option<int>)
    requires On(s, x) && IsNext(s, x, n) && KeyIsAfterNode(k, n)
    ensures |Ahead(s, Cell(n.value), k)| < |Ahead(s, x, k)|
  {
    SmallerSet(Ahead(s, Cell(n.value), k), Ahead(s, x, k), n.value);
  }

  lemma SmallerSet(a: set<int>, b: set<int>, x: int)
    requires a <= b && x in b && x !in a
    ensures |a| < |b|
  {
    SubsetSize(a, b - {x});
  }

  lemma {:induction false} SubsetSize<T>(a: set<T>, b: set<T>)
    requires a <= b
    ensures |a| <= |b|
  {
    if |a| > 0 {
      var x :| x in a;
      SubsetSize(a - {x}, b - {x});
    }
  }

  // ---- One level's splice ----

  // x->next[l] = prev[l]->next[l]
  function Prepare(links: Links, l: nat, k: int, p: Node): Links
    requires l < |links| && p in links[l]
  {
    links[l := links[l][Cell(k) := links[l][p]]]
  }

  // prev[l]->next[l] = x
  function Publish(links: Links, l: nat, k: int, p: Node): Links
    requires l < |links|
  {
    links[l := links[l][p := Some(k)]]
  }

  // The new node is reachable on no level that does not have it linked.
  lemma PrepareKeeps(links: Links, linked: seq<set<int>>, l: nat, k: int, p: Node)
    requires WellLinked(links, linked) && l < MAX_HEIGHT && k !in linked[l] && IsPrev(linked[l], k, p)
    ensures WellLinked(Prepare(links, l, k, p), linked)
    ensures Prepared(Prepare(links, l, k, p), l, k, p)
  {
  }

  predicate Prepared(links: Links, l: nat, k: int, p: Node) {
    l < |links| && Cell(k) in links[l] && p in links[l] && links[l][Cell(k)] == links[l][p]
  }

  lemma PublishKeeps(links: Links, linked: seq<set<int>>, l: nat, k: int, p: Node)
    requires WellLinked(links, linked) && l < MAX_HEIGHT && k !in linked[l] && IsPrev(linked[l], k, p)
    requires Prepared(links, l, k, p) && (l > 0 ==> k in linked[l - 1])
    ensures WellLinked(Publish(links, l, k, p), linked[l := linked[l] + {k}])
  {
    var s, links' := linked[l] + {k}, Publish(links, l, k, p);
    assert IsNext(linked[l], p, links[l][p]);
    forall a | On(s, a) ensures a in links'[l] && IsNext(s, a, links'[l][a]) {
      assert a != Cell(k) ==> On(linked[l], a);
    }
  }

  // ---- The list ----

  class SkipList {
    var links: Links
    var maxHeight: nat
    ghost var linked: seq<set<int>>

    /** Between operations: well linked, and nothing above maxHeight. */
    ghost predicate Inv()
      reads this
    {
      && WellLinked(links, linked) && 1 <= maxHeight <= MAX_HEIGHT
      && forall l :: maxHeight <= l < MAX_HEIGHT ==> linked[l] == {}
    }

    /** The keys of the list. */
    ghost function Keys(): set<int>
      requires Inv()
      reads this
    {
      linked[0]
    }

    constructor ()
      ensures Inv() && Keys() == {}
    {
      links := seq(MAX_HEIGHT, _ => map[Head := None]);
      linked := seq(MAX_HEIGHT, _ => {});
      maxHeight := 1;
    }

    /** The first node at or after k, and on every level in use the last node before k. */
    method FindGreaterOrEqual(k: int) returns (r: Option<int>, prev: seq<Node>)
      requires Inv()
      ensures IsFirstAtLeast(Keys(), k, r)
      ensures |prev| == MAX_HEIGHT && forall l :: 0 <= l < MAX_HEIGHT ==> IsPrev(linked[l], k, prev[l])
    {
      var x, level := Head, maxHeight - 1;
      prev := seq(MAX_HEIGHT, _ => Head);
      while true
        invariant 0 <= level < maxHeight && |prev| == MAX_HEIGHT
        invariant On(linked[level], x) && Precedes(x, k)
        invariant forall l :: level < l < MAX_HEIGHT ==> IsPrev(linked[l], k, prev[l])
        decreases level, |Ahead(linked[level], x, k)|
      {
        var n := links[level][x];
        assert IsNext(linked[level], x, n);
        if KeyIsAfterNode(k, n) {
          MoveShrinks(linked[level], x, k, n);
          x := Cell(n.value);
        } else {
          StopIsPrev(linked[level], k, x, n);
          prev := prev[level := x];
          if level == 0 { return n, prev; }
          assert linked[level] <= linked[level - 1];
          level := level - 1;
        }
      }
    }

    /** The last node before k, the head if there is none. */
    method FindLessThan(k: int) returns (x: Node)
      requires Inv()
      ensures IsPrev(Keys(), k, x)
    {
      x := Head;
      var level := maxHeight - 1;
      while true
        invariant 0 <= level < maxHeight && On(linked[level], x) && Precedes(x, k)
        decreases level, |Ahead(linked[level], x, k)|
      {
        var n := links[level][x];
        assert IsNext(linked[level], x, n);
        if n.None? || n.value >= k {
          StopIsPrev(linked[level], k, x, n);
          if level == 0 { return x; }
          assert linked[level] <= linked[level - 1];
          level := level - 1;
        } else {
          MoveShrinks(linked[level], x, k, n);
          x := Cell(n.value);
        }
      }
    }

    /** The last node, the head if the list is empty. */
    method FindLast() returns (x: Node)
      requires Inv()
      ensures On(Keys(), x) && forall j :: j in Keys() ==> x.Cell? && j <= x.key
    {
      x := Head;
      var level := maxHeight - 1;
      while true
        invariant 0 <= level < maxHeight && On(linked[level], x)
        decreases level, |Beyond(linked[level], x)|
      {
        var n := links[level][x];
        assert IsNext(linked[level], x, n);
        if n.None? {
          if level == 0 { return x; }
          assert linked[level] <= linked[level - 1];
          level := level - 1;
        } else {
          SmallerSet(Beyond(linked[level], Cell(n.value)), Beyond(linked[level], x), n.value);
          x := Cell(n.value);
        }
      }
    }

    method Contains(k: int) returns (b: bool)
      requires Inv()
      ensures b <==> k in Keys()
    {
      var x, _ := FindGreaterOrEqual(k);
      b := x.Some? && x.value == k;
    }

    /** Insert, with the height RandomHeight drew. */
    method Insert(k: int, height: nat)
      requires Inv() && k !in Keys() && 1 <= height <= MAX_HEIGHT
      modifies this
      ensures Inv() && Keys() == old(Keys()) + {k}
    {
      var x, prev := FindGreaterOrEqual(k);
      if height > maxHeight {
        maxHeight := height;
      }
      ghost var before, top := linked, maxHeight;
      forall l | 0 <= l < MAX_HEIGHT ensures k !in linked[l] { LevelInBottom(links, linked, l); }
      for i := 0 to height
        invariant WellLinked(links, linked) && maxHeight == top
        invariant forall l :: 0 <= l < MAX_HEIGHT ==> linked[l] == if l < i then before[l] + {k} else before[l]
      {
        PrepareKeeps(links, linked, i, k, prev[i]);
        links := Prepare(links, i, k, prev[i]);
        PublishKeeps(links, linked, i, k, prev[i]);
        links := Publish(links, i, k, prev[i]);
        linked := linked[i := linked[i] + {k}];
      }
    }
  }

  ghost function Beyond(s: set<int>, x: Node): set<int> {
    set j | j in s && Precedes(x, j)
  }

  lemma {:induction false} LevelInBottom(links: Links, linked: seq<set<int>>, l: nat)
    requires WellLinked(links, linked) && l < MAX_HEIGHT
    ensures linked[l] <= linked[0]
  {
    if l > 0 { LevelInBottom(links, linked, l - 1); assert linked[l - 1 + 1] <= linked[l - 1]; }
  }
}
