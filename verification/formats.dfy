/** The byte formats on sample values, field by field. */
module Formats {
  import opened Coding
  import V = VersionEdits
  import L = Log
  import W = WriteBatches
  import B = Blocks
  import F = FilterBlocks
  import P = Bloom

  // Seven bits a byte, least significant first.
  lemma Varints()
    ensures Varint(0) == [0] && Varint(5) == [5] && Varint(127) == [127] && Varint(300) == [172, 2]
  {
  }

  lemma Words(a: nat, b: nat, c: nat, d: nat)
    requires a < 256 && b < 256 && c < 256 && d < 256
    ensures Fixed(a + 256 * (b + 256 * (c + 256 * d)), 4) == [a, b, c, d]
  {
    var v2 := c + 256 * d;
    var v1 := b + 256 * v2;
    var v0 := a + 256 * v1;
    assert v0 % 256 == a && v0 / 256 == v1 && v1 % 256 == b && v1 / 256 == v2 && v2 % 256 == c && v2 / 256 == d;
    assert Fixed(d, 1) == [d] by { assert Fixed(d / 256, 0) == []; }
    assert Fixed(v2, 2) == [c] + Fixed(d, 1);
    assert Fixed(v1, 3) == [b] + Fixed(v2, 2);
  }

  /** Every field of a manifest record: its tag, then level, number, size, and keys with their lengths. */
  lemma EditBytes()
    ensures V.Put(V.Comparator([120])) == [1, 1, 120]
    ensures V.Put(V.LogNumber(5)) == [2, 5]
    ensures V.Put(V.NextFileNumber(5)) == [3, 5]
    ensures V.Put(V.LastSequence(300)) == [4, 172, 2]
    ensures V.Put(V.CompactPointer(0, [97])) == [5, 0, 1, 97]
    ensures V.Put(V.DeletedFile(0, 5)) == [6, 0, 5]
    ensures V.Put(V.NewFile(0, V.Meta(300, 5, [97], [98]))) == [7, 0, 172, 2, 5, 1, 97, 1, 98]
    ensures V.Put(V.PrevLogNumber(0)) == [9, 0]
  {
    Varints();
    Small();
  }

  lemma Small()
    ensures Varint(1) == [1] && Varint(2) == [2] && Varint(3) == [3] && Varint(4) == [4] && Varint(6) == [6]
    ensures Varint(7) == [7] && Varint(9) == [9]
  {
  }

  /** A log fragment: checksum, length, type, payload; and a record that begins six bytes before the end of a block. */
  lemma LogBytes(sum: L.Checksum, crc: nat, data: seq<Byte>)
    requires crc == L.Crc(sum, 1, data) && |data| == 3
    ensures L.Physical(sum, L.TypeOf(true, true), data) == Fixed(crc, 4) + [3, 0, 1] + data
    ensures L.Emit(sum, 32762, data, true) == [0, 0, 0, 0, 0, 0] + (Fixed(crc, 4) + [3, 0, 1] + data)
    ensures L.TypeOf(true, false) == 2 && L.TypeOf(false, false) == 3 && L.TypeOf(false, true) == 4
  {
    assert data[..3] == data;
    assert L.NextStart(32762) == 32768 && L.FragmentLength(32762, 3) == 3;
  }

  lemma HeaderBytes()
    ensures W.Header(258, 2) == [2, 1, 0, 0, 0, 0, 0, 0] + [2, 0, 0, 0]
  {
    Words(2, 0, 0, 0);
    Words(0, 0, 0, 0);
    hide Fixed;
    FixedStep(258, 7);
    FixedStep(1, 6);
    FixedStep(0, 5);
    FixedStep(0, 4);
  }

  lemma FixedStep(v: nat, n: nat)
    ensures Fixed(v, n + 1) == [v % 256] + Fixed(v / 256, n)
  {
  }

  /** A batch: sequence number, count, then each update's type, key and value. */
  lemma BatchBytes()
    ensures W.Header(258, 2) == [2, 1, 0, 0, 0, 0, 0, 0] + [2, 0, 0, 0]
    ensures W.Records([W.Put([97], [98, 99]), W.Delete([100])]) == [1, 1, 97, 2, 98, 99] + [0, 1, 100]
  {
    HeaderBytes();
    Small();
    hide Fixed, W.Header;
    var us := [W.Put([97], [98, 99]), W.Delete([100])];
    assert us[..1] == [us[0]] && us[..1][..0] == [];
  }

  const FIRST_PAIR := B.Pair([97, 98], [1])
  const SECOND_PAIR := B.Pair([97, 99], [2])

  lemma EntryBytes()
    ensures B.EntryBytes(0, FIRST_PAIR) == [0, 2, 1, 97, 98, 1] && B.EntryBytes(1, SECOND_PAIR) == [1, 1, 1, 99, 2]
  {
    Varints();
    Small();
  }

  lemma TwoEntries()
    ensures var es := [FIRST_PAIR, SECOND_PAIR];
            B.SharedAt(es, 16, 0) == 0 && B.SharedAt(es, 16, 1) == 1 && B.Starts(16, 2) == [0]
  {
    assert B.Counter(16, 0) == 0 && B.Counter(16, 1) == 1;
    assert B.Shared([97, 98], [97, 99]) == 1;
  }

  /** A block of two entries: the second key shares its first byte; then the restart array and its length. */
  lemma BlockBytes()
    ensures B.Encoded([FIRST_PAIR, SECOND_PAIR], 16) ==
            [0, 2, 1, 97, 98, 1] + [1, 1, 1, 99, 2] + [0, 0, 0, 0] + [1, 0, 0, 0]
  {
    hide B.SharedAt, B.Starts, B.EntryBytes, Fixed;
    var es := [FIRST_PAIR, SECOND_PAIR];
    TwoEntries();
    EntryBytes();
    Words(0, 0, 0, 0);
    Words(1, 0, 0, 0);
    assert B.Data(es, 16, 0) == [];
    assert B.Data(es, 16, 1) == [0, 2, 1, 97, 98, 1];
    assert B.Data(es, 16, 2) == [0, 2, 1, 97, 98, 1] + [1, 1, 1, 99, 2];
    assert B.RestartOffsets(es, 16, [0]) == [0];
    assert Fixeds([0]) == Fixed(0, 4) by { assert Fixeds([0][..0]) == []; }
  }

  /** A filter block without filters. */
  lemma FilterBytes()
    ensures F.Contents([]) == [0, 0, 0, 0, 11]
  {
    Words(0, 0, 0, 0);
  }

  lemma Parts(a: nat, b: nat)
    requires a < 0x8000
    ensures (a + b * 0x8000) / 0x8000 == b && (a + b * 0x8000) % 0x8000 == a
  {
  }

  /** The number of probes for some bits per key, and the step between probes as a turn of the hash by 17 bits. */
  lemma BloomSettings(h: nat)
    requires h < MOD32
    ensures P.ProbeCount(1) == 1 && P.ProbeCount(10) == 6 && P.ProbeCount(100) == 30
    ensures var d := P.Delta(h); d < MOD32 && d / 0x8000 + d % 0x8000 * 0x2_0000 == h
  {
    Parts(h / 0x2_0000, h % 0x2_0000);
  }
}
