/** Tables: data blocks, an index of separators between them, and a filter. */
module Tables {
  import opened DbFormat
  import opened Coding
  import opened Cursors
  import opened TwoLevel
  import B = Bloom
  import F = FilterBlocks

  // ---- Separators ----

  /** InternalKeyComparator::FindShortestSeparator, given the user comparator's answer and whether it is shorter. */
  function FindShortestSeparator(start: InternalKey, tmp: UserKey, shorter: bool): InternalKey {
    if shorter && start.ukey < tmp then InternalKey(tmp, MAX_SEQUENCE, TYPE_FOR_SEEK) else start
  }

  // The user comparator's contract: a key in [start, limit), and no change when there is no room.
  predicate UserSeparator(start: UserKey, limit: UserKey, tmp: UserKey) {
    start <= tmp && (start < limit ==> tmp < limit) && (start >= limit ==> tmp == start)
  }

  // The separator for block i is its last key, or a user key strictly between it and the next block.
  predicate SeparatorFor(last: Entry, next: Option<Entry>, sep: InternalKey) {
    sep == KeyOf(last) || (last.key < sep.ukey && (next.Some? ==> sep.ukey < next.value.key))
  }

  lemma SeparatorIsBetween(last: Entry, next: Entry, tmp: UserKey, shorter: bool)
    requires Before(last, next) && UserSeparator(last.key, next.key, tmp)
    ensures var sep := FindShortestSeparator(KeyOf(last), tmp, shorter);
            SeparatorFor(last, Some(next), sep) && Compare(KeyOf(last), sep) <= 0 && Compare(sep, KeyOf(next)) < 0
  {
  }

  // ---- A finished table ----

  datatype Table = Table(blocks: seq<seq<Entry>>, offsets: seq<nat>, seps: seq<InternalKey>, filter: seq<Byte>)

  type Spelling = UserKey -> seq<Byte>

  function Last(block: seq<Entry>): Entry
    requires block != []
  {
    block[|block| - 1]
  }

  function Following(blocks: seq<seq<Entry>>, i: nat): Option<Entry>
    requires forall b :: 0 <= b < |blocks| ==> blocks[b] != []
  {
    if i + 1 < |blocks| then Some(blocks[i + 1][0]) else None
  }

  ghost predicate Ordered(blocks: seq<seq<Entry>>) {
    && (forall b :: 0 <= b < |blocks| ==> blocks[b] != [] && Sorted(blocks[b]))
    && (forall a, b, x, y :: 0 <= a < b < |blocks| && x in blocks[a] && y in blocks[b] ==> Before(x, y))
  }

  ghost predicate Indexed(blocks: seq<seq<Entry>>, seps: seq<InternalKey>)
    requires Ordered(blocks)
  {
    |seps| <= |blocks| && forall i :: 0 <= i < |seps| ==> SeparatorFor(Last(blocks[i]), Following(blocks, i), seps[i])
  }

  ghost predicate Filtered(hash: B.Hash, spell: Spelling, t: Table) {
    |t.offsets| == |t.blocks| && forall i, e :: 0 <= i < |t.blocks| && e in t.blocks[i] ==>
        F.BlockMayMatch(hash, t.filter, t.offsets[i], spell(e.key))
  }

  ghost predicate WellFormed(hash: B.Hash, spell: Spelling, t: Table) {
    Ordered(t.blocks) && |t.seps| == |t.blocks| && Indexed(t.blocks, t.seps) && Filtered(hash, spell, t)
  }

  // ---- Lookup ----

  lemma BeforeLast(block: seq<Entry>, e: Entry)
    requires Sorted(block) && e in block
    ensures e == Last(block) || Before(e, Last(block))
  {
  }

  lemma FirstOf(block: seq<Entry>, e: Entry)
    requires Sorted(block) && e in block
    ensures e == block[0] || Before(block[0], e)
  {
  }

  // Every later entry is after the separator, and of another user key unless the separator is a real key.
  lemma AfterSeparator(blocks: seq<seq<Entry>>, seps: seq<InternalKey>, i: nat, b: nat, e: Entry)
    requires Ordered(blocks) && Indexed(blocks, seps) && i < |seps| && i < b < |blocks| && e in blocks[b]
    ensures Compare(seps[i], KeyOf(e)) < 0
    ensures seps[i] == KeyOf(Last(blocks[i])) || seps[i].ukey < e.key
  {
    var next := blocks[i + 1][0];
    assert next in blocks[i + 1] && Last(blocks[i]) in blocks[i];
    assert Before(Last(blocks[i]), e);
    assert SeparatorFor(Last(blocks[i]), Some(next), seps[i]);
    if b == i + 1 { FirstOf(blocks[b], e); } else { assert Before(next, e); }
  }

  lemma CompareUpTo(e: Entry, last: Entry, sep: InternalKey)
    requires e == last || Before(e, last)
    requires sep == KeyOf(last) || last.key < sep.ukey
    ensures Compare(KeyOf(e), sep) <= 0
  {
  }

  lemma UpToSeparator(blocks: seq<seq<Entry>>, seps: seq<InternalKey>, i: nat, b: nat, e: Entry)
    requires Ordered(blocks) && Indexed(blocks, seps) && b <= i < |seps| && e in blocks[b]
    ensures Compare(KeyOf(e), seps[i]) <= 0
  {
    var last := Last(blocks[i]);
    assert last in blocks[i];
    if b == i { BeforeLast(blocks[b], e); } else { assert Before(e, last); }
    assert SeparatorFor(last, Following(blocks, i), seps[i]);
    CompareUpTo(e, last, seps[i]);
  }

  /** A well-formed index separates the blocks, so the two-level iterator is a cursor over the whole table. */
  lemma IndexSeparates(blocks: seq<seq<Entry>>, seps: seq<InternalKey>)
    requires Ordered(blocks) && |seps| == |blocks| && Indexed(blocks, seps)
    ensures Separated(blocks, seps)
  {
    hide Indexed, Compare;
    forall b, i, e | 0 <= b <= i < |blocks| &&
        e in blocks[b] ensures Compare(KeyOf(e), seps[i]) <= 0 { UpToSeparator(blocks, seps, i, b, e); }
    forall b, i, e | 0 <= i < b < |blocks| &&
        e in blocks[b] ensures Compare(seps[i], KeyOf(e)) < 0 { AfterSeparator(blocks, seps, i, b, e); }
  }

  ghost predicate IsFirst(items: seq<Entry>, k: UserKey, s: nat, e: Entry) {
    exists p :: 0 <= p < |items| && items[p] == e && SeekPoint(items, k, s, p)
  }

  /** InternalGet: hands over the first entry at or after the key whenever that entry has the key's user key. */
  method InternalGet(hash: B.Hash, spell: Spelling, t: Table, useFilter: bool, k: UserKey, s: nat)
                     returns (r: Option<Entry>)
    requires WellFormed(hash, spell, t)
    ensures r.Some? ==> IsFirst(Flat(t.blocks), k, s, r.value)
    ensures forall e :: IsFirst(Flat(t.blocks), k, s, e) && e.key == k ==> r == Some(e)
  {
    hide Flat, Start, Compare, F.BlockMayMatch, Indexed, SeekPoint, Separated;
    IndexSeparates(t.blocks, t.seps);
    var i := FindBlock(t.seps, LookupKey(k, s));
    if i == |t.seps| {
      SeekPast(t.blocks, t.seps, k, s);
      SeekPointUnique(Flat(t.blocks), k, s, NOWHERE);
      return None;
    }
    if useFilter && !F.BlockMayMatch(hash, t.filter, t.offsets[i], spell(k)) {
      var j := FindEntry(t.blocks[i], k, s);
      NotInBlock(t, k, s, i, j);
      return None;
    }
    var j := FindEntry(t.blocks[i], k, s);
    if j < |t.blocks[i]| {
      r := Some(t.blocks[i][j]);
      FlatAt(t.blocks, i);
      SeekLands(t.blocks, t.seps, k, s, i, j);
      SeekPointUnique(Flat(t.blocks), k, s, Start(t.blocks, i) + j);
    } else {
      NotInBlock(t, k, s, i, j);
      r := None;
    }
  }

  lemma SeekPointUnique(items: seq<Entry>, k: UserKey, s: nat, p: int)
    requires SeekPoint(items, k, s, p)
    ensures forall q :: 0 <= q < |items| && SeekPoint(items, k, s, q) ==> q == p
    ensures p != NOWHERE ==> IsFirst(items, k, s, items[p]) && forall e :: IsFirst(items, k, s, e) ==> e == items[p]
    ensures p == NOWHERE ==> forall e :: !IsFirst(items, k, s, e)
  {
  }

  // When block i is where k must be and does not hold it, no entry of k is the first at or after the target.
  lemma NotInBlock(t: Table, k: UserKey, s: nat, i: nat, j: nat)
    requires Ordered(t.blocks) && |t.seps| == |t.blocks| && Indexed(t.blocks, t.seps) && i < |t.blocks| &&
             j <= |t.blocks[i]|
    requires Compare(t.seps[i], LookupKey(k, s)) >= 0 && forall b :: 0 <= b < i ==>
             Compare(t.seps[b], LookupKey(k, s)) < 0
    requires (j < |t.blocks[i]| ==> AtOrAfter(t.blocks[i][j], k, s)) && forall l :: 0 <= l < j ==>
             !AtOrAfter(t.blocks[i][l], k, s)
    requires j == |t.blocks[i]| || forall e :: e in t.blocks[i] ==> e.key != k
    ensures forall e :: IsFirst(Flat(t.blocks), k, s, e) ==> e.key != k
  {
    hide Flat, Start, Compare, Indexed, SeekPoint, Separated;
    var items, p := Flat(t.blocks), Start(t.blocks, i) + j;
    IndexSeparates(t.blocks, t.seps);
    FlatAt(t.blocks, i);
    SeekLands(t.blocks, t.seps, k, s, i, j);
    SeekPointUnique(items, k, s, if p < |items| then p else NOWHERE);
    if p < |items| {
      if j < |t.blocks[i]| {
        assert items[Start(t.blocks, i) + j] == t.blocks[i][j];
      } else {
        LaterKeyDiffers(t, k, s, i, p);
      }
    }
  }

  lemma LaterKeyDiffers(t: Table, k: UserKey, s: nat, i: nat, p: nat)
    requires Ordered(t.blocks) && |t.seps| == |t.blocks| && Indexed(t.blocks, t.seps) && i < |t.blocks|
    requires Compare(t.seps[i], LookupKey(k, s)) >= 0 && forall l :: 0 <= l < |t.blocks[i]| ==>
             !AtOrAfter(t.blocks[i][l], k, s)
    requires Start(t.blocks, i + 1) <= p < |Flat(t.blocks)|
    ensures Flat(t.blocks)[p].key != k
  {
    hide Flat, Start, Indexed;
    Ends(t.blocks);
    var b := Locate(t.blocks, p, |t.blocks|);
    FlatAt(t.blocks, b);
    StartsGrow(t.blocks, b + 1, i + 1);
    var l := p - Start(t.blocks, b);
    var e := t.blocks[b][l];
    assert Flat(t.blocks)[Start(t.blocks, b) + l] == e && e in t.blocks[b];
    AfterSeparator(t.blocks, t.seps, i, b, e);
    var last := Last(t.blocks[i]);
    assert !AtOrAfter(last, k, s);
  }

  // ---- Building ----

  // The blocks so far, the one being filled included.
  function AllBlocks(written: seq<seq<Entry>>, block: seq<Entry>): seq<seq<Entry>> {
    if block == [] then written else written + [block]
  }

  // kBlockTrailerSize: one type byte and the checksum.
  const TRAILER_SIZE: nat := 5

  class TableBuilder {
    const spell: Spelling
    const filter: F.FilterBlockBuilder
    var offset: nat
    var block: seq<Entry>
    var written: seq<seq<Entry>>
    var offsets: seq<nat>
    var index: seq<InternalKey>
    var pendingIndexEntry: bool

    ghost predicate Valid()
      reads this, filter
    {
      && Ordered(AllBlocks(written, block)) && Indexed(AllBlocks(written, block), index) && |offsets| == |written|
      && (if pendingIndexEntry then block == [] && |index| + 1 == |written|
          else |index| == |written| && (block == [] ==> written == []))
      && filter.Valid() && |filter.filterOffsets| == offset / F.BASE
      && (forall i, e :: 0 <= i < |written| && e in written[i] ==> Recorded(offsets[i], e))
      && (forall e :: e in block ==> Recorded(offset, e))
    }

    // One more block is written, at the old end of the file; with its trailer it ends at the new one.
    predicate Closed(written0: seq<seq<Entry>>, offsets0: seq<nat>, offset0: nat, block0: seq<Entry>, size: nat)
      reads this
    {
      && written == written0 + [block0] && offsets == offsets0 + [offset0] && offset == offset0 + size + TRAILER_SIZE
      && pendingIndexEntry
    }

    ghost predicate Recorded(o: nat, e: Entry)
      reads this, filter
    {
      (o, spell(e.key)) in filter.added
    }

    /** Everything added. */
    ghost function Entries(): seq<Entry>
      reads this
    {
      Flat(AllBlocks(written, block))
    }

    constructor (hash: B.Hash, bitsPerKey: nat, spell: Spelling)
      ensures Valid() && Entries() == [] && this.spell == spell && filter.hash == hash && fresh(filter)
    {
      this.spell := spell;
      filter := new F.FilterBlockBuilder(hash, bitsPerKey);
      offset, block, written, offsets, index, pendingIndexEntry := 0, [], [], [], [], false;
    }

    // The first key after a block gives that block its index entry.
    method IndexPending(e: Entry, tmp: UserKey, shorter: bool)
      requires Valid() && (forall x :: x in Entries() ==> Before(x, e))
      requires pendingIndexEntry ==> UserSeparator(Last(written[|written| - 1]).key, e.key, tmp)
      modifies this`index, this`pendingIndexEntry
      ensures !pendingIndexEntry && |index| == |written|
      ensures var blocks := AllBlocks(written, block + [e]);
              Ordered(blocks) && Indexed(blocks, index) && Flat(blocks) == Entries() + [e]
    {
      hide Flat, Sorted, Before, F.Placed, F.Admits, FindShortestSeparator, SeparatorFor, UserSeparator;
      Grow(written, block, e);
      if pendingIndexEntry {
        var last := Last(written[|written| - 1]);
        MemberOfFlat(written, |written| - 1, last);
        SeparatorIsBetween(last, e, tmp, shorter);
        assert block + [e] == [e];
        IndexGrows(written, index, e, FindShortestSeparator(KeyOf(last), tmp, shorter));
        index := index + [FindShortestSeparator(KeyOf(last), tmp, shorter)];
        pendingIndexEntry := false;
      } else {
        IndexStays(written, block, index, e);
      }
    }

    /** Add, given the user comparator's separator and whether the block has reached its size. */
    method Add(e: Entry, tmp: UserKey, shorter: bool, full: bool, size: nat)
      requires Valid() && (forall x :: x in Entries() ==> Before(x, e))
      requires pendingIndexEntry ==> UserSeparator(Last(written[|written| - 1]).key, e.key, tmp)
      modifies this, filter
      ensures Valid() && Entries() == old(Entries()) + [e]
      ensures if full then block == [] && Closed(old(written), old(offsets), old(offset), old(block) + [e], size)
              else block == old(block) + [e] && written == old(written) && offset == old(offset)
    {
      hide Flat, Ordered, Indexed, Before, F.Placed, F.Admits, UserSeparator;
      IndexPending(e, tmp, shorter);
      filter.AddKey(spell(e.key), offset);
      block := block + [e];
      if full {
        Flush(size);
      }
    }

    /** Flush: close the data block; its index entry waits for the next key. */
    method Flush(size: nat)
      requires Valid()
      modifies this, filter
      ensures Valid() && Entries() == old(Entries()) && block == []
      ensures filter.added == old(filter.added) && (old(block) == [] ==>
              index == old(index) && written == old(written) && offset == old(offset))
      ensures old(block) != [] ==> Closed(old(written), old(offsets), old(offset), old(block), size)
    {
      hide Flat, Ordered, Indexed, Before, F.Placed, F.Admits;
      if block == [] { return; }
      written := written + [block];
      offsets := offsets + [offset];
      offset := offset + size + TRAILER_SIZE;
      block := [];
      pendingIndexEntry := true;
      filter.StartBlock(offset);
    }

    /** Finish, given the user comparator's short successor of the last key: a well-formed table of what was added. */
    method Finish(tmp: UserKey, shorter: bool, size: nat) returns (t: Table)
      requires Valid() && forall e :: e in Entries() ==> e.key <= tmp
      modifies this, filter
      ensures Flat(t.blocks) == old(Entries())
      ensures |t.filter| < MOD32 ==> WellFormed(filter.hash, spell, t)
    {
      hide Flat, Ordered, Indexed, Before, F.Placed, F.Admits, F.BlockMayMatch;
      Flush(size);
      IndexLast(tmp, shorter);
      var contents := filter.Finish();
      t := Table(written, offsets, index, contents);
    }

    // The last block's index entry.
    method IndexLast(tmp: UserKey, shorter: bool)
      requires Valid() && block == [] && forall e :: e in Entries() ==> e.key <= tmp
      modifies this`index, this`pendingIndexEntry
      ensures Indexed(written, index) && |index| == |written|
    {
      hide Flat, Sorted, Before, F.Placed, F.Admits, F.BlockMayMatch;
      if pendingIndexEntry {
        var last := Last(written[|written| - 1]);
        MemberOfFlat(written, |written| - 1, last);
        index := index + [FindShortestSeparator(KeyOf(last), tmp, shorter)];
        pendingIndexEntry := false;
      }
    }
  }

  lemma MemberOfFlat(blocks: seq<seq<Entry>>, b: nat, e: Entry)
    requires b < |blocks| && e in blocks[b]
    ensures e in Flat(blocks)
  {
  }

  lemma Grow(written: seq<seq<Entry>>, block: seq<Entry>, e: Entry)
    requires Ordered(AllBlocks(written, block)) && forall x :: x in Flat(AllBlocks(written, block)) ==> Before(x, e)
    ensures Ordered(AllBlocks(written, block + [e]))
    ensures Flat(AllBlocks(written, block + [e])) == Flat(AllBlocks(written, block)) + [e]
  {
    hide Before;
    var bs := AllBlocks(written, block);
    assert (written + [block + [e]])[..|written|] == written;
    assert block != [] ==> (written + [block])[..|written|] == written;
    forall b, x | 0 <= b < |bs| && x in bs[b] ensures Before(x, e) { MemberOfFlat(bs, b, x); }
    assert block != [] ==> bs[|written|] == block;
    SortedAppend(block, e);
    forall a, b, x, y | 0 <= a < b < |written| + 1 && x in (written + [block + [e]])[a] &&
        y in (written + [block + [e]])[b]
      ensures Before(x, y)
    {
      assert x in bs[a];
    }
  }

  lemma SortedAppend(block: seq<Entry>, e: Entry)
    requires Sorted(block) && forall x :: x in block ==> Before(x, e)
    ensures Sorted(block + [e])
  {
  }

  // A new first key gives the pending block its separator.
  lemma IndexGrows(written: seq<seq<Entry>>, index: seq<InternalKey>, e: Entry, sep: InternalKey)
    requires Ordered(written) && Indexed(written, index) && |index| + 1 == |written| && Ordered(written + [[e]])
    requires SeparatorFor(Last(written[|written| - 1]), Some(e), sep)
    ensures Indexed(written + [[e]], index + [sep])
  {
  }

  // A key added to an open block changes no separator.
  lemma IndexStays(written: seq<seq<Entry>>, block: seq<Entry>, index: seq<InternalKey>, e: Entry)
    requires Ordered(AllBlocks(written, block)) && Ordered(AllBlocks(written, block + [e]))
    requires Indexed(AllBlocks(written, block), index) && |index| == |written|
    requires block == [] ==> written == []
    ensures Indexed(AllBlocks(written, block + [e]), index)
  {
  }
}
