/** The Bloom filter policy: no key put in a filter is ever denied. */
module Bloom {
  import opened Coding

  type Key = seq<Byte>

  // util/hash: any function of the key.
  type Hash = Key -> nat

  // b & (1 << i)
  predicate Bit(b: nat, i: nat) {
    if i == 0 then b % 2 == 1 else Bit(b / 2, i - 1)
  }

  // b | (1 << i)
  function OrBit(b: nat, i: nat): nat {
    if i == 0 then b / 2 * 2 + 1 else OrBit(b / 2, i - 1) * 2 + b % 2
  }

  function Pow2(n: nat): nat {
    if n == 0 then 1 else 2 * Pow2(n - 1)
  }

  lemma {:induction false} OrBitFits(b: nat, i: nat, n: nat)
    requires i < n && b < Pow2(n)
    ensures OrBit(b, i) < Pow2(n)
  {
    if i > 0 { OrBitFits(b / 2, i - 1, n - 1); }
  }

  function SetBit(b: Byte, i: nat): Byte
    requires i < 8
  {
    assert Pow2(8) == 256 by { assert Pow2(4) == 16; }
    OrBitFits(b, i, 8);
    OrBit(b, i)
  }

  /** Setting a bit sets that bit and no other. */
  lemma {:induction false} OrBitSets(b: nat, i: nat, j: nat)
    ensures Bit(OrBit(b, i), j) <==> i == j || Bit(b, j)
  {
    if i > 0 && j > 0 {
      assert OrBit(b, i) / 2 == OrBit(b / 2, i - 1);
      OrBitSets(b / 2, i - 1, j - 1);
    } else if i == 0 && j > 0 {
      assert OrBit(b, i) / 2 == b / 2;
    }
  }

  predicate IsSet(a: seq<Byte>, pos: nat)
    requires pos < 8 * |a|
  {
    Bit(a[pos / 8], pos % 8)
  }

  function SetPos(a: seq<Byte>, pos: nat): (r: seq<Byte>)
    requires pos < 8 * |a|
    ensures |r| == |a|
  {
    a[pos / 8 := SetBit(a[pos / 8], pos % 8)]
  }

  // The bits set are exactly those of the set.
  ghost predicate Bits(a: seq<Byte>, on: set<nat>) {
    forall pos: nat :: pos < 8 * |a| ==> (IsSet(a, pos) <==> pos in on)
  }

  lemma SetPosBits(a: seq<Byte>, on: set<nat>, pos: nat)
    requires pos < 8 * |a| && Bits(a, on)
    ensures Bits(SetPos(a, pos), on + {pos})
  {
    hide Bit, OrBit;
    forall p: nat | p < 8 * |a| ensures IsSet(SetPos(a, pos), p) <==> p in on + {pos} {
      OrBitSets(a[pos / 8], pos % 8, p % 8);
      assert IsSet(a, p) <==> p in on;
      assert p == pos <==> p / 8 == pos / 8 && p % 8 == pos % 8;
    }
  }

  // The delta between probes: the hash turned by 17 bits.
  function Delta(h: nat): nat {
    h / 0x2_0000 + h % 0x2_0000 * 0x8000
  }

  /** All k probes of a hash are set. */
  predicate Probes(a: seq<Byte>, h: nat, delta: nat, k: nat)
    requires |a| > 0
    decreases k
  {
    k == 0 || (IsSet(a, h % (8 * |a|)) && Probes(a, (h + delta) % MOD32, delta, k - 1))
  }

  /** The positions of the k probes of a hash, among `bits` bits. */
  function Positions(bits: nat, h: nat, delta: nat, k: nat): (r: set<nat>)
    requires bits > 0
    decreases k
  {
    if k == 0 then {} else {h % bits} + Positions(bits, (h + delta) % MOD32, delta, k - 1)
  }

  lemma {:induction false} ProbesArePositions(a: seq<Byte>, on: set<nat>, h: nat, delta: nat, k: nat)
    requires |a| > 0 && Bits(a, on)
    ensures Probes(a, h, delta, k) <==> Positions(8 * |a|, h, delta, k) <= on
    decreases k
  {
    hide IsSet;
    if k > 0 {
      ProbesArePositions(a, on, (h + delta) % MOD32, delta, k - 1);
      assert IsSet(a, h % (8 * |a|)) <==> h % (8 * |a|) in on;
    }
  }

  function BloomHash(hash: Hash, key: Key): nat {
    hash(key) % MOD32
  }

  /** What KeyMayMatch answers. */
  predicate MayMatch(hash: Hash, key: Key, filter: seq<Byte>) {
    |filter| >= 2 &&
    var k := filter[|filter| - 1];
    k > 30 || Probes(filter[..|filter| - 1], BloomHash(hash, key), Delta(BloomHash(hash, key)), k)
  }

  method KeyMayMatch(hash: Hash, key: Key, filter: seq<Byte>) returns (r: bool)
    ensures r == MayMatch(hash, key, filter)
  {
    if |filter| < 2 { return false; }
    var a, k := filter[..|filter| - 1], filter[|filter| - 1];
    if k > 30 {
      return true;
    }
    var h: nat := BloomHash(hash, key);
    var delta := Delta(h);
    ghost var goal := Probes(a, h, delta, k);
    var j := 0;
    while j < k
      invariant j <= k && goal == Probes(a, h, delta, k - j)
    {
      if !IsSet(a, h % (8 * |a|)) { return false; }
      h := (h + delta) % MOD32;
      j := j + 1;
    }
    return true;
  }

  // k_ from the bits per key.
  function ProbeCount(bitsPerKey: nat): (k: nat)
    ensures 1 <= k <= 30
  {
    var k := bitsPerKey * 69 / 100;
    if k < 1 then 1 else if k > 30 then 30 else k
  }

  // Sets the k probes of one hash.
  method AddHash(a: seq<Byte>, ghost on: set<nat>, h0: nat, delta: nat, k: nat) returns (r: seq<Byte>)
    requires |a| > 0 && Bits(a, on)
    ensures |r| == |a| && Bits(r, on + Positions(8 * |a|, h0, delta, k))
  {
    hide IsSet, SetPos, Positions;
    r := a;
    var h: nat, j := h0, 0;
    ghost var done: set<nat>, goal := {}, Positions(8 * |a|, h0, delta, k);
    assert on + done == on;
    while j < k
      invariant j <= k && |r| == |a| && Bits(r, on + done)
      invariant goal == done + Positions(8 * |a|, h, delta, k - j)
    {
      NextPosition(8 * |a|, h, delta, k - j);
      SetPosBits(r, on + done, h % (8 * |a|));
      r := SetPos(r, h % (8 * |a|));
      done := done + {h % (8 * |a|)};
      assert on + done == on + (done - {h % (8 * |a|)}) + {h % (8 * |a|)};
      h := (h + delta) % MOD32;
      j := j + 1;
    }
    NextPosition(8 * |a|, h, delta, 0);
  }

  lemma NextPosition(bits: nat, h: nat, delta: nat, k: nat)
    requires bits > 0
    ensures Positions(bits, h, delta, k) ==
            if k == 0 then {} else {h % bits} + Positions(bits, (h + delta) % MOD32, delta, k - 1)
  {
  }

  function KeyPositions(hash: Hash, bits: nat, k: nat, key: Key): set<nat>
    requires bits > 0
  {
    Positions(bits, BloomHash(hash, key), Delta(BloomHash(hash, key)), k)
  }

  // The positions of all the keys.
  function AllPositions(hash: Hash, bits: nat, k: nat, keys: seq<Key>): set<nat>
    requires bits > 0
  {
    set i, p | 0 <= i < |keys| && p in KeyPositions(hash, bits, k, keys[i]) :: p
  }

  // As many bytes as the keys ask for, but at least eight.
  function FilterBytes(bitsPerKey: nat, n: nat): nat {
    (if n * bitsPerKey < 64 then 64 else n * bitsPerKey + 7) / 8
  }

  /** A filter of the right length whose bits are exactly the keys' positions. */
  ghost predicate FilterOf(hash: Hash, bitsPerKey: nat, keys: seq<Key>, filter: seq<Byte>) {
    var n, k := FilterBytes(bitsPerKey, |keys|), ProbeCount(bitsPerKey);
    && |filter| == n + 1 && filter[n] == k
    && Bits(filter[..n], AllPositions(hash, 8 * n, k, keys))
  }

  /** It admits exactly the keys all of whose positions are among them, so every key it was made of. */
  lemma AdmitsExactlyIf(hash: Hash, bitsPerKey: nat, keys: seq<Key>, filter: seq<Byte>, key: Key)
    requires FilterOf(hash, bitsPerKey, keys, filter)
    ensures var n, k := FilterBytes(bitsPerKey, |keys|), ProbeCount(bitsPerKey);
            MayMatch(hash, key, filter) <==>
            KeyPositions(hash, 8 * n, k, key) <= AllPositions(hash, 8 * n, k, keys)
    ensures key in keys ==> MayMatch(hash, key, filter)
  {
    hide IsSet, Positions, Probes, AllPositions;
    var n, k := FilterBytes(bitsPerKey, |keys|), ProbeCount(bitsPerKey);
    var h := BloomHash(hash, key);
    ProbesArePositions(filter[..n], AllPositions(hash, 8 * n, k, keys), h, Delta(h), k);
    if key in keys { OwnPositions(hash, 8 * n, k, keys, key); }
  }

  lemma OwnPositions(hash: Hash, bits: nat, k: nat, keys: seq<Key>, key: Key)
    requires bits > 0 && key in keys
    ensures KeyPositions(hash, bits, k, key) <= AllPositions(hash, bits, k, keys)
  {
    hide KeyPositions;
    var i :| 0 <= i < |keys| && keys[i] == key;
  }

  lemma OneMoreKey(hash: Hash, bits: nat, k: nat, keys: seq<Key>, i: nat)
    requires bits > 0 && i < |keys|
    ensures AllPositions(hash, bits, k, keys[..i + 1]) ==
            AllPositions(hash, bits, k, keys[..i]) + KeyPositions(hash, bits, k, keys[i])
  {
    hide KeyPositions;
    var all, some := keys[..i + 1], keys[..i];
    assert forall j :: 0 <= j < i ==> all[j] == some[j];
    forall p | p in KeyPositions(hash, bits, k, keys[i]) ensures p in AllPositions(hash, bits, k, all) {
      assert all[i] == keys[i];
    }
  }

  lemma NoBits(a: seq<Byte>)
    requires forall i :: 0 <= i < |a| ==> a[i] == 0
    ensures Bits(a, {})
  {
    forall pos: nat | pos < 8 * |a| ensures !IsSet(a, pos) { ZeroBits(pos % 8); }
  }

  lemma {:induction false} ZeroBits(i: nat)
    ensures !Bit(0, i)
  {
    if i > 0 { ZeroBits(i - 1); }
  }

  /** CreateFilter: the filter appended to dst has exactly the bits of its keys set. */
  method CreateFilter(hash: Hash, bitsPerKey: nat, keys: seq<Key>) returns (filter: seq<Byte>)
    ensures FilterOf(hash, bitsPerKey, keys, filter)
    ensures forall i :: 0 <= i < |keys| ==> MayMatch(hash, keys[i], filter)
  {
    hide IsSet, Positions, Probes, AllPositions, MayMatch;
    var bits := |keys| * bitsPerKey;
    // A minimum length keeps the false positive rate down
    if bits < 64 { bits := 64; }
    var bytes := (bits + 7) / 8;
    var k := ProbeCount(bitsPerKey);
    var a: seq<Byte> := seq(bytes, _ => 0);
    NoBits(a);
    NoPositions(hash, 8 * bytes, k);
    for i := 0 to |keys|
      invariant |a| == bytes && Bits(a, AllPositions(hash, 8 * bytes, k, keys[..i]))
    {
      var h := BloomHash(hash, keys[i]);
      OneMoreKey(hash, 8 * bytes, k, keys, i);
      a := AddHash(a, AllPositions(hash, 8 * bytes, k, keys[..i]), h, Delta(h), k);
    }
    assert keys[..|keys|] == keys;
    filter := a + [k];
    assert filter[..bytes] == a;
    forall i | 0 <= i < |keys| ensures MayMatch(hash, keys[i], filter) {
      AdmitsExactlyIf(hash, bitsPerKey, keys, filter, keys[i]);
    }
  }

  lemma NoPositions(hash: Hash, bits: nat, k: nat)
    requires bits > 0
    ensures AllPositions(hash, bits, k, []) == {}
  {
  }
}
