/** The filter block: one filter for every 2 KB of file offsets. */
module FilterBlocks {
  import opened Coding
  import opened Bloom

  const BASE_LG: Byte := 11
  const BASE: nat := 2048

  function Flat(ss: seq<seq<Byte>>): seq<Byte> {
    if ss == [] then [] else Flat(ss[..|ss| - 1]) + ss[|ss| - 1]
  }

  function Lengths(ss: seq<seq<Byte>>): (r: seq<nat>)
    ensures |r| == |ss|
  {
    seq(|ss|, i requires 0 <= i < |ss| => |Flat(ss[..i])|)
  }

  lemma FlatAppend(ss: seq<seq<Byte>>, s: seq<Byte>)
    ensures Flat(ss + [s]) == Flat(ss) + s
    ensures Lengths(ss + [s]) == Lengths(ss) + [|Flat(ss)|]
  {
    assert (ss + [s])[..|ss|] == ss;
    forall i | 0 <= i < |ss| ensures (ss + [s])[..i] == ss[..i] { }
  }

  lemma {:induction false} FlatAt(ss: seq<seq<Byte>>, i: nat)
    requires i < |ss|
    ensures var a := |Flat(ss[..i])|;
            a + |ss[i]| == |Flat(ss[..i + 1])| <= |Flat(ss)| && Flat(ss)[a..a + |ss[i]|] == ss[i]
  {
    var init := ss[..|ss| - 1];
    assert ss[..i + 1][..i] == ss[..i];
    if i == |ss| - 1 {
      assert ss[..i + 1] == ss && ss[..i] == init;
    } else {
      FlatAt(init, i);
      assert init[..i] == ss[..i] && init[..i + 1] == ss[..i + 1];
      var a := |Flat(ss[..i])|;
      assert Flat(ss)[a..a + |ss[i]|] == Flat(init)[a..a + |ss[i]|];
    }
  }

  /** The finished filter block over these filters. */
  function Contents(filters: seq<seq<Byte>>): seq<Byte> {
    Flat(filters) + Fixeds(Lengths(filters)) + Fixed(|Flat(filters)| % MOD32, 4) + [BASE_LG]
  }

  // The filter of a group, empty if there are no keys.
  ghost predicate GroupFilter(hash: Hash, bitsPerKey: nat, group: seq<Key>, filter: seq<Byte>) {
    if group == [] then filter == [] else FilterOf(hash, bitsPerKey, group, filter)
  }

  ghost predicate Admits(hash: Hash, bitsPerKey: nat, groups: seq<seq<Key>>, filters: seq<seq<Byte>>) {
    |groups| == |filters| && forall g :: 0 <= g < |groups| ==> GroupFilter(hash, bitsPerKey, groups[g], filters[g])
  }

  // Where a key added for a data block at offset o went.
  ghost predicate Placed(groups: seq<seq<Key>>, pending: seq<Key>, o: nat, k: Key) {
    if o / BASE < |groups| then k in groups[o / BASE] else o / BASE == |groups| && k in pending
  }

  ghost predicate AddedFor(added: set<(nat, Key)>, g: nat, k: Key) {
    exists o :: (o, k) in added && o / BASE == g
  }

  /** Every group holds exactly the keys added for its 2 KB of offsets. */
  ghost predicate Grouped(added: set<(nat, Key)>, groups: seq<seq<Key>>, pending: seq<Key>) {
    && (forall o, k :: (o, k) in added ==> Placed(groups, pending, o, k))
    && (forall g, k :: 0 <= g < |groups| && k in groups[g] ==> AddedFor(added, g, k))
    && (forall k :: k in pending ==> AddedFor(added, |groups|, k))
  }

  lemma GroupCloses(added: set<(nat, Key)>, groups: seq<seq<Key>>, pending: seq<Key>)
    requires Grouped(added, groups, pending)
    ensures Grouped(added, groups + [pending], [])
  {
    hide AddedFor;
  }

  lemma GroupGrows(added: set<(nat, Key)>, groups: seq<seq<Key>>, pending: seq<Key>, o: nat, key: Key)
    requires Grouped(added, groups, pending) && o / BASE == |groups|
    ensures Grouped(added + {(o, key)}, groups, pending + [key])
  {
    var more := added + {(o, key)};
    assert (o, key) in more;
    forall g, k | 0 <= g < |groups| && k in groups[g] ensures AddedFor(more, g, k) {
      assert AddedFor(added, g, k);
      var p :| (p, k) in added && p / BASE == g;
      assert (p, k) in more;
    }
    forall k | k in pending + [key] ensures AddedFor(more, |groups|, k) {
      if k in pending {
        var p :| (p, k) in added && p / BASE == |groups|;
        assert (p, k) in more;
      }
    }
  }

  class FilterBlockBuilder {
    const hash: Hash
    const bitsPerKey: nat
    var keys: seq<Byte>
    var start: seq<nat>
    var result: seq<Byte>
    var filterOffsets: seq<nat>
    ghost var pending: seq<Key>
    ghost var groups: seq<seq<Key>>
    ghost var filters: seq<seq<Byte>>
    ghost var added: set<(nat, Key)>

    ghost predicate Valid()
      reads this
    {
      && keys == Flat(pending) && start == Lengths(pending)
      && result == Flat(filters) && filterOffsets == Lengths(filters)
      && Admits(hash, bitsPerKey, groups, filters) && Grouped(added, groups, pending)
    }

    constructor (hash: Hash, bitsPerKey: nat)
      ensures Valid() && added == {} && filterOffsets == [] && this.hash == hash
    {
      this.hash, this.bitsPerKey := hash, bitsPerKey;
      keys, start, result, filterOffsets := [], [], [], [];
      pending, groups, filters, added := [], [], [], {};
    }

    method GenerateFilter()
      requires Valid()
      modifies this
      ensures Valid() && added == old(added) && pending == [] && |filterOffsets| == |old(filterOffsets)| + 1
    {
      hide Flat, Lengths, MayMatch, Grouped, FilterOf;
      GroupCloses(added, groups, pending);
      if |start| == 0 {
        LengthsEmpty(pending);
        FlatAppend(filters, []);
        filterOffsets := filterOffsets + [|result|];
        filters := filters + [[]];
      } else {
        var tmp := Unflatten();
        FlatNothing();
        filterOffsets := filterOffsets + [|result|];
        var filter := CreateFilter(hash, bitsPerKey, tmp);
        FlatAppend(filters, filter);
        result := result + filter;
        filters := filters + [filter];
        keys, start := [], [];
      }
      groups := groups + [pending];
      pending := [];
    }

    method Unflatten() returns (tmp: seq<Key>)
      requires Valid()
      ensures tmp == pending
    {
      hide Flat;
      tmp := [];
      for i := 0 to |start|
        invariant tmp == pending[..i]
      {
        FlatAt(pending, i);
        EndOfKey(pending, i);
        var end := if i + 1 < |start| then start[i + 1] else |keys|;
        tmp := tmp + [keys[start[i]..end]];
      }
    }

    /** StartBlock: the data block at this offset gets filter number offset / 2 KB. */
    method StartBlock(offset: nat)
      requires Valid() && |filterOffsets| <= offset / BASE
      modifies this
      ensures Valid() && added == old(added) && |filterOffsets| == offset / BASE
    {
      while offset / BASE > |filterOffsets|
        invariant Valid() && added == old(added) && |filterOffsets| <= offset / BASE
        decreases offset / BASE - |filterOffsets|
      {
        GenerateFilter();
      }
    }

    method AddKey(key: Key, ghost offset: nat)
      requires Valid() && |filterOffsets| == offset / BASE
      modifies this
      ensures Valid() && added == old(added) + {(offset, key)} && filterOffsets == old(filterOffsets)
    {
      hide Flat, Lengths, MayMatch, Grouped, Admits;
      LengthsCount(filters, groups, hash, bitsPerKey);
      GroupGrows(added, groups, pending, offset, key);
      FlatAppend(pending, key);
      start := start + [|keys|];
      keys := keys + key;
      pending := pending + [key];
      added := added + {(offset, key)};
    }

    /** Finish: filter i is that of exactly the keys added for offsets of the i-th 2 KB, and no key is denied by the
        filter of the block it was added for. */
    method Finish() returns (contents: seq<Byte>)
      requires Valid()
      modifies this
      ensures |contents| < MOD32 ==> forall o, k :: (o, k) in added ==> BlockMayMatch(hash, contents, o, k)
      ensures added == old(added) && contents == Contents(filters) && Grouped(added, groups, [])
      ensures Admits(hash, bitsPerKey, groups, filters)
    {
      hide Flat, Lengths, MayMatch, BlockMayMatch, FilterOf;
      if |start| != 0 {
        GenerateFilter();
      }
      var arrayOffset := |result|;
      ghost var fs, gs := filters, groups;
      LengthsEmpty(pending);
      assert Admits(hash, bitsPerKey, gs, fs) && Grouped(added, gs, []);
      for i := 0 to |filterOffsets|
        invariant filterOffsets == Lengths(fs) && filters == fs && groups == gs && added == old(added)
        invariant result == Flat(fs) + Fixeds(filterOffsets[..i])
      {
        assert filterOffsets[..i + 1][..i] == filterOffsets[..i];
        result := result + Fixed(filterOffsets[i] % MOD32, 4);
      }
      assert filterOffsets[..|filterOffsets|] == filterOffsets;
      result := result + Fixed(arrayOffset % MOD32, 4);
      result := result + [BASE_LG];
      contents := result;
      assert contents == Contents(fs);
      if |contents| < MOD32 {
        forall o, k | (o, k) in added ensures BlockMayMatch(hash, contents, o, k) {
          assert Placed(gs, [], o, k);
          FilterBack(hash, fs, o, k);
          AdmitsExactlyIf(hash, bitsPerKey, gs[o / BASE], fs[o / BASE], k);
        }
      }
    }
  }

  lemma LengthsCount(filters: seq<seq<Byte>>, groups: seq<seq<Key>>, hash: Hash, bitsPerKey: nat)
    requires Admits(hash, bitsPerKey, groups, filters)
    ensures |Lengths(filters)| == |groups|
  {
  }

  lemma LengthsEmpty(ss: seq<seq<Byte>>)
    requires |Lengths(ss)| == 0
    ensures ss == []
  {
  }

  lemma FlatNothing()
    ensures Flat([]) == [] && Lengths([]) == []
  {
  }

  lemma EndOfKey(ss: seq<seq<Byte>>, i: nat)
    requires i < |ss|
    ensures (if i + 1 < |ss| then Lengths(ss)[i + 1] else |Flat(ss)|) == |Flat(ss[..i + 1])|
  {
    assert i + 1 == |ss| ==> ss[..i + 1] == ss;
  }

  // ---- Reading ----

  // v >> n
  function Shift(v: nat, n: nat): nat {
    if n == 0 then v else Shift(v / 2, n - 1)
  }

  /** KeyMayMatch on any contents: only a well-formed filter that denies the key says no. */
  predicate BlockMayMatch(hash: Hash, contents: seq<Byte>, blockOffset: nat, key: Key) {
    var n := |contents|;
    n < 5 ||
    var words := DecodeFixed(contents[n - 5..n - 1]);
    words > n - 5 ||
    var num, index := (n - 5 - words) / 4, Shift(blockOffset, contents[n - 1]);
    index >= num ||
    var start, limit := DecodeFixed(contents[words + 4 * index..words + 4 * index + 4]),
        DecodeFixed(contents[words + 4 * index + 4..words + 4 * index + 8]);
    if start <= limit <= words then MayMatch(hash, key, contents[start..limit]) else start != limit
  }

  /** On any contents, whatever the offset: the key is denied only by a filter that denies it, or an empty one. */
  lemma DeniesOnlyByFilter(hash: Hash, contents: seq<Byte>, blockOffset: nat, key: Key) returns (a: nat, b: nat)
    requires !BlockMayMatch(hash, contents, blockOffset, key)
    ensures a == b || (a < b <= |contents| && !MayMatch(hash, key, contents[a..b]))
  {
    var n := |contents|;
    var words := DecodeFixed(contents[n - 5..n - 1]);
    var at := words + 4 * Shift(blockOffset, contents[n - 1]);
    a, b := DecodeFixed(contents[at..at + 4]), DecodeFixed(contents[at + 4..at + 8]);
  }

  lemma ShiftTwo(v: nat, n: nat)
    ensures Shift(v, n + 2) == Shift(v / 4, n)
  {
  }

  lemma ShiftIsDivision(o: nat)
    ensures Shift(o, BASE_LG) == o / BASE
  {
    ShiftTwo(o, 9);
    ShiftTwo(o / 4, 7);
    assert o / 4 / 4 == o / 16;
    ShiftTwo(o / 16, 5);
    assert o / 16 / 4 == o / 64;
    ShiftTwo(o / 64, 3);
    assert o / 64 / 4 == o / 256;
    ShiftTwo(o / 256, 1);
    assert o / 256 / 4 / 2 == o / 2048;
  }

  // The two words that delimit filter i: the next offset, or for the last filter the offset of the words themselves.
  lemma Delimiters(fs: seq<seq<Byte>>, i: nat)
    requires i < |fs| && |Contents(fs)| < MOD32
    ensures var c, words := Contents(fs), |Flat(fs)|;
            && words + 4 * i + 8 <= |c|
            && DecodeFixed(c[words + 4 * i..words + 4 * i + 4]) == |Flat(fs[..i])|
            && DecodeFixed(c[words + 4 * i + 4..words + 4 * i + 8]) == |Flat(fs[..i + 1])|
  {
    hide Flat, Fixed, DecodeFixed, Fixeds;
    var c, a, ws := Contents(fs), |Flat(fs)|, Lengths(fs);
    FlatAt(fs, i);
    assert c[a..a + 4 * |fs|] == Fixeds(ws);
    FixedAt(ws, i);
    Word32(ws[i]);
    SliceOfSlice(c, a, a + 4 * |fs|, 4 * i, 4 * i + 4);
    if i + 1 < |fs| {
      FixedAt(ws, i + 1);
      FlatAt(fs, i + 1);
      Word32(ws[i + 1]);
      SliceOfSlice(c, a, a + 4 * |fs|, 4 * i + 4, 4 * i + 8);
    } else {
      EndOfKey(fs, i);
      Word32(a);
      assert c[a + 4 * i + 4..a + 4 * i + 8] == Fixed(a % MOD32, 4);
    }
  }

  lemma Header(fs: seq<seq<Byte>>)
    requires |Contents(fs)| < MOD32
    ensures var c := Contents(fs); var n := |c|;
            && n >= 5 && c[n - 1] == BASE_LG && DecodeFixed(c[n - 5..n - 1]) == |Flat(fs)| &&
                 n - 5 - |Flat(fs)| == 4 * |fs|
  {
    hide Flat, Fixed, DecodeFixed, Fixeds;
    var c := Contents(fs);
    assert c[|c| - 5..|c| - 1] == Fixed(|Flat(fs)| % MOD32, 4);
    Word32(|Flat(fs)|);
  }

  /** Reading the finished block at a data block's offset consults the filter that block's keys went into. */
  lemma FilterBack(hash: Hash, fs: seq<seq<Byte>>, o: nat, key: Key)
    requires |Contents(fs)| < MOD32 && o / BASE < |fs|
    ensures BlockMayMatch(hash, Contents(fs), o, key) == MayMatch(hash, key, fs[o / BASE])
  {
    hide Flat, Fixed, DecodeFixed, Fixeds, MayMatch, Shift, Contents;
    var i, c := o / BASE, Contents(fs);
    Header(fs);
    ShiftIsDivision(o);
    Delimiters(fs, i);
    FlatAt(fs, i);
    FilterSlice(fs, i);
  }

  lemma FilterSlice(fs: seq<seq<Byte>>, i: nat)
    requires i < |fs|
    ensures |Flat(fs[..i])| <= |Flat(fs[..i + 1])| <= |Flat(fs)| <= |Contents(fs)|
    ensures Contents(fs)[|Flat(fs[..i])|..|Flat(fs[..i + 1])|] == fs[i]
  {
    hide Flat, Fixed, Fixeds;
    FlatAt(fs, i);
    var a := |Flat(fs[..i])|;
    assert Contents(fs)[a..a + |fs[i]|] == Flat(fs)[a..a + |fs[i]|];
  }
}
