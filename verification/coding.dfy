/** Fixed-width, variable-length and length-prefixed encodings. */
module Coding {
  import opened DbFormat

  type Byte = x: int | 0 <= x < 256

  const MOD32: nat := 0x1_0000_0000
  const MOD64: nat := 0x1_0000_0000_0000_0000

  // ---- Varints ----

  /** The varint of v: seven bits a byte, least significant first, the top bit set on all but the last byte. */
  function Varint(v: nat): (r: seq<Byte>)
    ensures |r| > 0
  {
    if v < 128 then [v] else [128 + v % 128] + Varint(v / 128)
  }

  datatype Parsed<+T> = Parsed(value: T, rest: seq<Byte>)

  /** The number spelled by the first varint of s, if it ends within n bytes. */
  function ReadVarint(s: seq<Byte>, n: nat): (r: Option<Parsed<nat>>)
    ensures r.Some? ==> |r.value.rest| < |s|
  {
    if s == [] || n == 0 then None
    else if s[0] < 128 then Some(Parsed(s[0], s[1..]))
    else match ReadVarint(s[1..], n - 1)
      case None => None
      case Some(p) => Some(Parsed(s[0] - 128 + 128 * p.value, p.rest))
  }

  function Pow128(n: nat): (r: nat)
    ensures r > 0
  {
    if n == 0 then 1 else 128 * Pow128(n - 1)
  }

  /** A varint is self-delimiting: whatever follows it, reading gives back the number and exactly what follows. */
  lemma {:induction false} VarintRoundTrip(v: nat, rest: seq<Byte>, n: nat)
    requires 0 < n && v < Pow128(n)
    ensures ReadVarint(Varint(v) + rest, n) == Some(Parsed(v, rest))
  {
    if v < 128 {
      assert ([v] + rest)[1..] == rest;
    } else {
      assert Pow128(n) == 128 * Pow128(n - 1) && n > 1;
      VarintRoundTrip(v / 128, rest, n - 1);
      var s := Varint(v) + rest;
      assert s[0] == 128 + v % 128 && s[1..] == Varint(v / 128) + rest;
    }
  }

  lemma {:induction false} VarintLengthBound(v: nat, n: nat)
    requires 0 < n && v < Pow128(n)
    ensures |Varint(v)| <= n
  {
    if v >= 128 { VarintLengthBound(v / 128, n - 1); }
  }

  lemma Powers()
    ensures Pow128(5) == 0x8_0000_0000 && Pow128(10) == 0x40_0000_0000_0000_0000
  {
  }

  /** EncodeVarint32: written out by size. */
  function EncodeVarint32(v: nat): seq<Byte>
    requires v < MOD32
  {
    if v < 0x80 then [v]
    else if v < 0x4000 then [128 + v % 128, v / 0x80]
    else if v < 0x20_0000 then [128 + v % 128, 128 + v / 0x80 % 128, v / 0x4000]
    else if v < 0x1000_0000 then [128 + v % 128, 128 + v / 0x80 % 128, 128 + v / 0x4000 % 128, v / 0x20_0000]
    else [128 + v % 128, 128 + v / 0x80 % 128, 128 + v / 0x4000 % 128, 128 + v / 0x20_0000 % 128, v / 0x1000_0000]
  }

  lemma EncodeVarint32IsVarint(v: nat)
    requires v < MOD32
    ensures EncodeVarint32(v) == Varint(v)
  {
    assert v / 0x80 / 128 == v / 0x4000;
    assert v / 0x4000 / 128 == v / 0x20_0000;
    assert v / 0x20_0000 / 128 == v / 0x1000_0000;
    Unroll(v);
    Unroll(v / 0x80);
    Unroll(v / 0x4000);
    Unroll(v / 0x20_0000);
    Unroll(v / 0x1000_0000);
  }

  lemma Unroll(v: nat)
    ensures Varint(v) == if v < 128 then [v] else [128 + v % 128] + Varint(v / 128)
  {
  }

  /** EncodeVarint64. */
  method EncodeVarint64(v: nat) returns (r: seq<Byte>)
    requires v < MOD64
    ensures r == Varint(v)
  {
    r := [];
    var w := v;
    while w >= 128
      invariant Varint(v) == r + Varint(w)
    {
      r := r + [128 + w % 128];
      w := w / 128;
    }
    r := r + [w];
  }

  /** What a machine word of the given modulus keeps of a number. */
  function Wrapped(o: Option<Parsed<nat>>, word: nat): Option<Parsed<nat>>
    requires word > 0
  {
    match o case None => None case Some(p) => Some(Parsed(p.value % word, p.rest))
  }

  // digit << shift, as an addend.
  function Shifted(digit: nat, shift: nat): nat {
    digit * shift
  }

  /**
   * GetVarint32Ptr and GetVarint64Ptr: at most n bytes, the value accumulated in a machine word. Bits shifted
   * past the top of the word are lost.
   */
  method GetVarintPtr(s: seq<Byte>, n: nat, word: nat) returns (r: Option<Parsed<nat>>)
    requires word > 0
    ensures r == Wrapped(ReadVarint(s, n), word)
  {
    var result: nat, i: nat, shift: nat := 0, 0, 1;
    assert Continues(s, n, 0, 0, 1) by { assert s[0..] == s; }
    hide Continues, ReadVarint, Shifted;
    while i < n && i < |s|
      invariant i <= |s| && i <= n
      invariant Continues(s, n, i, result, shift)
    {
      if s[i] >= 128 {
        Accumulate(s, n, i, result, shift);
        result := result + Shifted(s[i] - 128, shift);
        shift := shift * 128;
      } else {
        EndOfVarint(s, n, i, result, shift);
        return Wrapped(Some(Parsed(result + Shifted(s[i], shift), s[i + 1..])), word);
      }
      i := i + 1;
    }
    NoEnd(s, n, i, result, shift);
    r := None;
  }

  // After i continuation bytes, what is still to be read decides the whole.
  ghost predicate Continues(s: seq<Byte>, n: nat, i: nat, result: nat, shift: nat)
    requires i <= |s| && i <= n
  {
    ReadVarint(s, n) == match ReadVarint(s[i..], n - i) {
      case None => None
      case Some(p) => Some(Parsed(result + shift * p.value, p.rest))
    }
  }

  lemma Distribute(shift: nat, d: nat, v: nat)
    ensures shift * (d + 128 * v) == Shifted(d, shift) + shift * 128 * v
  {
  }

  // One more continuation byte read.
  lemma ReadOne(s: seq<Byte>, n: nat, i: nat)
    requires i < n && i < |s| && s[i] >= 128
    ensures ReadVarint(s[i..], n - i) == match ReadVarint(s[i + 1..], n - i - 1) {
      case None => None
      case Some(p) => Some(Parsed(s[i] - 128 + 128 * p.value, p.rest))
    }
  {
  }

  lemma Accumulate(s: seq<Byte>, n: nat, i: nat, result: nat, shift: nat)
    requires i < n && i < |s| && s[i] >= 128 && Continues(s, n, i, result, shift)
    ensures Continues(s, n, i + 1, result + Shifted(s[i] - 128, shift), shift * 128)
  {
    hide ReadVarint, Shifted;
    ReadOne(s, n, i);
    match ReadVarint(s[i + 1..], n - i - 1) {
      case None =>
      case Some(p) => Distribute(shift, s[i] - 128, p.value);
    }
  }

  lemma EndOfVarint(s: seq<Byte>, n: nat, i: nat, result: nat, shift: nat)
    requires i < n && i < |s| && s[i] < 128 && Continues(s, n, i, result, shift)
    ensures ReadVarint(s, n) == Some(Parsed(result + Shifted(s[i], shift), s[i + 1..]))
  {
    assert s[i..][1..] == s[i + 1..];
  }

  lemma NoEnd(s: seq<Byte>, n: nat, i: nat, result: nat, shift: nat)
    requires (i == n <= |s| || i == |s| <= n) && Continues(s, n, i, result, shift)
    ensures ReadVarint(s, n) == None
  {
  }

  function GetVarint32(s: seq<Byte>): (r: Option<Parsed<nat>>)
    ensures r.Some? ==> |r.value.rest| < |s|
  {
    Wrapped(ReadVarint(s, 5), MOD32)
  }

  function GetVarint64(s: seq<Byte>): (r: Option<Parsed<nat>>)
    ensures r.Some? ==> |r.value.rest| < |s|
  {
    Wrapped(ReadVarint(s, 10), MOD64)
  }

  lemma GetPutVarint32(v: nat, rest: seq<Byte>)
    requires v < MOD32
    ensures GetVarint32(Varint(v) + rest) == Some(Parsed(v, rest))
  {
    hide ReadVarint, Varint, Pow128;
    Powers();
    VarintRoundTrip(v, rest, 5);
  }

  lemma GetPutVarint64(v: nat, rest: seq<Byte>)
    requires v < MOD64
    ensures GetVarint64(Varint(v) + rest) == Some(Parsed(v, rest))
  {
    hide ReadVarint, Varint, Pow128;
    Powers();
    VarintRoundTrip(v, rest, 10);
  }

  // ---- Length-prefixed strings ----

  /** PutLengthPrefixedSlice: the size is cut to 32 bits. */
  function PutSlice(s: seq<Byte>): seq<Byte> {
    Varint(|s| % MOD32) + s
  }

  function GetSlice(s: seq<Byte>): (r: Option<Parsed<seq<Byte>>>)
    ensures r.Some? ==> |r.value.rest| < |s|
  {
    match GetVarint32(s)
    case None => None
    case Some(p) => if |p.rest| >= p.value then Some(Parsed(p.rest[..p.value], p.rest[p.value..])) else None
  }

  lemma GetPutSlice(s: seq<Byte>, rest: seq<Byte>)
    requires |s| < MOD32
    ensures GetSlice(PutSlice(s) + rest) == Some(Parsed(s, rest))
  {
    hide Varint, GetVarint32;
    GetPutVarint32(|s|, s + rest);
    assert PutSlice(s) + rest == Varint(|s|) + (s + rest);
  }

  /** The prefix is exact: a string longer than the format allows does not come back. */
  lemma LongSliceIsCut(s: seq<Byte>)
    ensures GetSlice(PutSlice(s)) == Some(Parsed(s, [])) <==> |s| < MOD32
  {
    GetPutVarint32(|s| % MOD32, s);
    if |s| < MOD32 { GetPutSlice(s, []); assert PutSlice(s) + [] == PutSlice(s); }
  }

  // ---- Fixed width ----

  function Fixed(v: nat, n: nat): (r: seq<Byte>)
    ensures |r| == n
  {
    if n == 0 then [] else [v % 256] + Fixed(v / 256, n - 1)
  }

  function DecodeFixed(s: seq<Byte>): nat {
    if s == [] then 0 else s[0] + 256 * DecodeFixed(s[1..])
  }

  function Pow256(n: nat): (r: nat)
    ensures r > 0
  {
    if n == 0 then 1 else 256 * Pow256(n - 1)
  }

  lemma {:induction false} FixedRoundTrip(v: nat, n: nat)
    requires v < Pow256(n)
    ensures DecodeFixed(Fixed(v, n)) == v
  {
    if n > 0 { FixedRoundTrip(v / 256, n - 1); }
  }

  lemma Powers256()
    ensures Pow256(4) == MOD32 && Pow256(8) == MOD64
  {
  }

  // An array of 32-bit words.
  function Fixeds(ns: seq<nat>): (r: seq<Byte>)
    ensures |r| == 4 * |ns|
  {
    if ns == [] then [] else Fixeds(ns[..|ns| - 1]) + Fixed(ns[|ns| - 1] % MOD32, 4)
  }

  // The four bytes of word i.
  lemma {:induction false} FixedAt(ns: seq<nat>, i: nat)
    requires i < |ns|
    ensures Fixeds(ns)[4 * i..4 * i + 4] == Fixed(ns[i] % MOD32, 4)
  {
    hide Fixed;
    var init := ns[..|ns| - 1];
    if i == |ns| - 1 {
      assert Fixeds(ns)[4 * i..4 * i + 4] == Fixed(ns[i] % MOD32, 4);
    } else {
      FixedAt(init, i);
      assert Fixeds(ns)[4 * i..4 * i + 4] == Fixeds(init)[4 * i..4 * i + 4];
    }
  }

  lemma Word32(n: nat)
    requires n < MOD32
    ensures DecodeFixed(Fixed(n % MOD32, 4)) == n
  {
    hide Fixed, DecodeFixed, Pow256;
    Powers256();
    FixedRoundTrip(n, 4);
  }

  lemma SliceOfSlice(s: seq<Byte>, a: nat, b: nat, i: nat, j: nat)
    requires a <= b <= |s| && i <= j <= b - a
    ensures s[a..b][i..j] == s[a + i..a + j]
  {
    assert forall k :: 0 <= k < j - i ==> s[a..b][i..j][k] == s[a + i..a + j][k];
  }
}
