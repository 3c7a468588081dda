/** TwoLevelIterator: an index over blocks read as one cursor over all their entries. */
module TwoLevel {
  import opened DbFormat
  import opened Cursors

  // How many entries precede block b.
  function Start(blocks: seq<seq<Entry>>, b: nat): nat
    requires b <= |blocks|
  {
    |Flat(blocks[..b])|
  }

  lemma {:induction false} FlatAt(blocks: seq<seq<Entry>>, b: nat)
    requires b < |blocks|
    ensures Start(blocks, b + 1) == Start(blocks, b) + |blocks[b]| <= |Flat(blocks)|
    ensures forall i :: 0 <= i < |blocks[b]| ==> Flat(blocks)[Start(blocks, b) + i] == blocks[b][i]
  {
    var init := blocks[..|blocks| - 1];
    var last := blocks[|blocks| - 1];
    assert Flat(blocks) == Flat(init) + last;
    if b == |blocks| - 1 {
      assert blocks[..b + 1] == blocks && blocks[..b] == init;
    } else {
      FlatAt(init, b);
      assert init[..b] == blocks[..b] && init[..b + 1] == blocks[..b + 1];
      forall i | 0 <= i < |blocks[b]| ensures Flat(blocks)[Start(blocks, b) + i] == blocks[b][i] {
        assert Flat(init)[Start(init, b) + i] == init[b][i];
      }
    }
  }

  lemma Ends(blocks: seq<seq<Entry>>)
    ensures Start(blocks, 0) == 0 && Start(blocks, |blocks|) == |Flat(blocks)|
  {
    assert blocks[..|blocks|] == blocks && blocks[..0] == [];
  }

  // The block and place of an entry.
  lemma {:induction false} Locate(blocks: seq<seq<Entry>>, p: nat, n: nat) returns (b: nat)
    requires n <= |blocks| && p < Start(blocks, n)
    ensures b < n && Start(blocks, b) <= p < Start(blocks, b + 1)
  {
    Ends(blocks);
    if p < Start(blocks, n - 1) { b := Locate(blocks, p, n - 1); } else { b := n - 1; }
  }

  /** Separators: at or after everything up to their block, before everything later. */
  ghost predicate Separated(blocks: seq<seq<Entry>>, seps: seq<InternalKey>) {
    && |seps| == |blocks|
    && (forall b, i, e :: 0 <= b <= i < |blocks| && e in blocks[b] ==> Compare(KeyOf(e), seps[i]) <= 0)
    && (forall b, i, e :: 0 <= i < b < |blocks| && e in blocks[b] ==> Compare(seps[i], KeyOf(e)) < 0)
  }

  datatype Data = Data(block: nat, pos: int)

  class TwoLevelIterator {
    const blocks: seq<seq<Entry>>
    const seps: seq<InternalKey>
    var index: int
    var data: Option<Data>

    ghost predicate Inv()
      reads this
    {
      && (index == NOWHERE || 0 <= index < |blocks|)
      && (data.Some? ==>
            index == data.value.block && (data.value.pos == NOWHERE || 0 <= data.value.pos < |blocks[index]|))
    }

    predicate Valid()
      reads this
    {
      data.Some? && data.value.pos != NOWHERE
    }

    /** The position among all entries, NOWHERE off either end. */
    ghost function Pos(): int
      requires Inv()
      reads this
    {
      if Valid() then Start(blocks, data.value.block) + data.value.pos else NOWHERE
    }

    constructor (blocks: seq<seq<Entry>>, seps: seq<InternalKey>)
      ensures Inv() && !Valid() && this.blocks == blocks && this.seps == seps
    {
      this.blocks, this.seps := blocks, seps;
      index, data := NOWHERE, None;
    }

    function Item(): (e: Entry)
      requires Inv() && Valid()
      reads this
    {
      blocks[data.value.block][data.value.pos]
    }

    /** The entry shown is the one at the position. */
    lemma ItemIsAt()
      requires Inv() && Valid()
      ensures 0 <= Pos() < |Flat(blocks)| && Item() == Flat(blocks)[Pos()]
    {
      FlatAt(blocks, data.value.block);
    }

    method InitDataBlock()
      requires index == NOWHERE || 0 <= index < |blocks|
      requires data.Some? && data.value.block == index ==>
               data.value.pos == NOWHERE || 0 <= data.value.pos < |blocks[index]|
      modifies this`data
      ensures Inv() && data.Some? == (index != NOWHERE)
    {
      if index == NOWHERE {
        data := None;
      } else if data.Some? && data.value.block == index {
      } else {
        data := Some(Data(index, NOWHERE));
      }
    }

    // p is the next entry to show: the current one, or the first after the current block.
    ghost predicate Heading(p: int)
      requires Inv()
      reads this
    {
      p == if Valid() then Pos() else if index != NOWHERE then Start(blocks, index + 1) else |Flat(blocks)|
    }

    ghost predicate HeadingBack(p: int)
      requires Inv()
      reads this
    {
      p == if Valid() then Pos() else if index != NOWHERE then Start(blocks, index) - 1 else -1
    }

    method SkipEmptyDataBlocksForward(ghost p: int)
      requires Inv() && Heading(p)
      modifies this
      ensures Inv() && Pos() == if p < |Flat(blocks)| then p else NOWHERE
    {
      hide Flat, Start;
      Ends(blocks);
      while !Valid()
        invariant Inv() && Heading(p)
        decreases if index == NOWHERE then 0 else |blocks| + 1 - index
      {
        if index == NOWHERE {
          data := None;
          return;
        }
        index := if index + 1 == |blocks| then NOWHERE else index + 1;
        InitDataBlock();
        if data.Some? {
          FlatAt(blocks, index);
          data := Some(Data(index, if blocks[index] == [] then NOWHERE else 0));
        }
      }
      FlatAt(blocks, index);
    }

    method SkipEmptyDataBlocksBackward(ghost p: int)
      requires Inv() && HeadingBack(p)
      modifies this
      ensures Inv() && Pos() == p
    {
      hide Flat, Start;
      Ends(blocks);
      while !Valid()
        invariant Inv() && HeadingBack(p)
        decreases index
      {
        if index == NOWHERE {
          data := None;
          return;
        }
        index := index - 1;
        InitDataBlock();
        if data.Some? {
          FlatAt(blocks, index);
          data := Some(Data(index, |blocks[index]| - 1));
        }
      }
    }

    method SeekToFirst()
      requires Inv()
      modifies this
      ensures Inv() && Pos() == if Flat(blocks) == [] then NOWHERE else 0
    {
      hide Flat, Start;
      Ends(blocks);
      index := if blocks == [] then NOWHERE else 0;
      InitDataBlock();
      if data.Some? {
        FlatAt(blocks, index);
        data := Some(Data(index, if blocks[index] == [] then NOWHERE else 0));
      }
      SkipEmptyDataBlocksForward(0);
    }

    method SeekToLast()
      requires Inv()
      modifies this
      ensures Inv() && Pos() == |Flat(blocks)| - 1
    {
      hide Flat, Start;
      Ends(blocks);
      index := |blocks| - 1;
      InitDataBlock();
      if data.Some? {
        FlatAt(blocks, index);
        data := Some(Data(index, |blocks[index]| - 1));
      }
      SkipEmptyDataBlocksBackward(|Flat(blocks)| - 1);
    }

    method Next()
      requires Inv() && Valid()
      modifies this
      ensures Inv() && Pos() == if old(Pos()) + 1 < |Flat(blocks)| then old(Pos()) + 1 else NOWHERE
    {
      hide Flat, Start;
      FlatAt(blocks, index);
      ghost var p := Pos();
      var d := data.value;
      data := Some(d.(pos := if d.pos + 1 == |blocks[index]| then NOWHERE else d.pos + 1));
      SkipEmptyDataBlocksForward(p + 1);
    }

    method Prev()
      requires Inv() && Valid()
      modifies this
      ensures Inv() && Pos() == old(Pos()) - 1
    {
      hide Flat, Start;
      FlatAt(blocks, index);
      ghost var p := Pos();
      var d := data.value;
      data := Some(d.(pos := d.pos - 1));
      SkipEmptyDataBlocksBackward(p - 1);
    }

    /** Seek: the index picks the block, the block the entry; an exhausted block falls through to the next. */
    method Seek(k: UserKey, s: nat)
      requires Inv() && Separated(blocks, seps)
      modifies this
      ensures Inv() && SeekPoint(Flat(blocks), k, s, Pos())
    {
      hide Flat, Start, Separated, SeekPoint;
      Ends(blocks);
      var i := FindBlock(seps, LookupKey(k, s));
      index := if i == |seps| then NOWHERE else i;
      Sizes(blocks, seps);
      InitDataBlock();
      ghost var p := |Flat(blocks)|;
      if data.Some? {
        var j := FindEntry(blocks[index], k, s);
        FlatAt(blocks, index);
        data := Some(Data(index, if j == |blocks[index]| then NOWHERE else j));
        p := Start(blocks, index) + j;
        SeekLands(blocks, seps, k, s, index, j);
      } else {
        SeekPast(blocks, seps, k, s);
      }
      SkipEmptyDataBlocksForward(p);
    }
  }

  /** The first index entry at or after the target. */
  method FindBlock(seps: seq<InternalKey>, target: InternalKey) returns (i: nat)
    ensures i <= |seps| && (i < |seps| ==> Compare(seps[i], target) >= 0)
    ensures forall j :: 0 <= j < i ==> Compare(seps[j], target) < 0
  {
    i := 0;
    while i < |seps| && Compare(seps[i], target) < 0
      invariant i <= |seps| && forall j :: 0 <= j < i ==> Compare(seps[j], target) < 0
    {
      i := i + 1;
    }
  }

  method FindEntry(block: seq<Entry>, k: UserKey, s: nat) returns (j: nat)
    ensures j <= |block| && (j < |block| ==> AtOrAfter(block[j], k, s))
    ensures forall i :: 0 <= i < j ==> !AtOrAfter(block[i], k, s)
  {
    j := 0;
    while j < |block| && !AtOrAfter(block[j], k, s)
      invariant j <= |block| && forall i :: 0 <= i < j ==> !AtOrAfter(block[i], k, s)
    {
      j := j + 1;
    }
  }

  lemma Sizes(blocks: seq<seq<Entry>>, seps: seq<InternalKey>)
    requires Separated(blocks, seps)
    ensures |seps| == |blocks|
  {
  }

  lemma CompareOrder(e: Entry, sep: InternalKey, k: UserKey, s: nat)
    ensures Compare(KeyOf(e), sep) <= 0 && Compare(sep, LookupKey(k, s)) < 0 ==> !AtOrAfter(e, k, s)
    ensures Compare(sep, LookupKey(k, s)) >= 0 && Compare(sep, KeyOf(e)) < 0 ==> AtOrAfter(e, k, s)
  {
  }

  // Everything in the blocks before i is before the target.
  lemma BlocksBefore(blocks: seq<seq<Entry>>, seps: seq<InternalKey>, k: UserKey, s: nat, i: nat, p: nat)
    requires Separated(blocks, seps) && i <= |blocks| && p < Start(blocks, i)
    requires forall j :: 0 <= j < i ==> Compare(seps[j], LookupKey(k, s)) < 0
    ensures p < |Flat(blocks)| && !AtOrAfter(Flat(blocks)[p], k, s)
  {
    hide Flat, Start, Compare, AtOrAfter;
    var b := Locate(blocks, p, i);
    FlatAt(blocks, b);
    var e := blocks[b][p - Start(blocks, b)];
    assert e in blocks[b];
    CompareOrder(e, seps[b], k, s);
  }

  lemma BlocksAfter(blocks: seq<seq<Entry>>, seps: seq<InternalKey>, k: UserKey, s: nat, i: nat, p: nat)
    requires Separated(blocks, seps) && i < |blocks| && Start(blocks, i + 1) <= p < |Flat(blocks)|
    requires Compare(seps[i], LookupKey(k, s)) >= 0
    ensures AtOrAfter(Flat(blocks)[p], k, s)
  {
    hide Flat, Start, Compare, AtOrAfter;
    Ends(blocks);
    var b := Locate(blocks, p, |blocks|);
    FlatAt(blocks, b);
    StartsGrow(blocks, b + 1, i + 1);
    var e := blocks[b][p - Start(blocks, b)];
    assert e in blocks[b];
    CompareOrder(e, seps[i], k, s);
  }

  lemma {:induction false} StartsGrow(blocks: seq<seq<Entry>>, b: nat, c: nat)
    requires b <= |blocks| && c <= |blocks|
    ensures b <= c ==> Start(blocks, b) <= Start(blocks, c)
    decreases c
  {
    hide Flat, Start;
    if b < c {
      FlatAt(blocks, c - 1);
      StartsGrow(blocks, b, c - 1);
    }
  }

  lemma SeekLands(blocks: seq<seq<Entry>>, seps: seq<InternalKey>, k: UserKey, s: nat, i: nat, j: nat)
    requires Separated(blocks, seps) && i < |blocks| && j <= |blocks[i]|
    requires Compare(seps[i], LookupKey(k, s)) >= 0 && forall b :: 0 <= b < i ==> Compare(seps[b], LookupKey(k, s)) < 0
    requires j < |blocks[i]| ==> AtOrAfter(blocks[i][j], k, s)
    requires forall l :: 0 <= l < j ==> !AtOrAfter(blocks[i][l], k, s)
    ensures var p := Start(blocks, i) + j; SeekPoint(Flat(blocks), k, s, if p < |Flat(blocks)| then p else NOWHERE)
  {
    hide Flat, Start, Compare, AtOrAfter, Separated;
    FlatAt(blocks, i);
    var items, p := Flat(blocks), Start(blocks, i) + j;
    forall q | 0 <= q < p ensures !AtOrAfter(items[q], k, s) {
      if q < Start(blocks, i) {
        BlocksBefore(blocks, seps, k, s, i, q);
      } else {
        var l := q - Start(blocks, i);
        assert items[Start(blocks, i) + l] == blocks[i][l];
      }
    }
    if p < |items| && j == |blocks[i]| { BlocksAfter(blocks, seps, k, s, i, p); }
  }

  lemma SeekPast(blocks: seq<seq<Entry>>, seps: seq<InternalKey>, k: UserKey, s: nat)
    requires Separated(blocks, seps) && forall b :: 0 <= b < |blocks| ==> Compare(seps[b], LookupKey(k, s)) < 0
    ensures SeekPoint(Flat(blocks), k, s, NOWHERE)
  {
    hide Flat, Start, Compare, AtOrAfter, Separated;
    Ends(blocks);
    forall q | 0 <= q < |Flat(blocks)| ensures !AtOrAfter(Flat(blocks)[q], k, s) {
      BlocksBefore(blocks, seps, k, s, |blocks|, q);
    }
  }
}
