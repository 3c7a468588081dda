/** Block::Iter: a cursor over a finished block. */
module BlockIterator {
  import opened DbFormat
  import opened Coding
  import opened Blocks

  // ---- Decoding one entry ----

  datatype Header = Header(shared: nat, nonShared: nat, valueLength: nat, rest: seq<Byte>)

  function Checked(h: Header): Option<Header> {
    if |h.rest| % MOD32 < (h.nonShared + h.valueLength) % MOD32 then None else Some(h)
  }

  /** DecodeEntry, on the bytes from the entry to the restart array. */
  function DecodeEntry(s: seq<Byte>): Option<Header> {
    if |s| < 3 then None
    else if s[0] < 128 && s[1] < 128 && s[2] < 128 then Checked(Header(s[0], s[1], s[2], s[3..]))
    else match GetVarint32(s)
      case None => None
      case Some(a) => match GetVarint32(a.rest)
        case None => None
        case Some(b) => match GetVarint32(b.rest)
          case None => None
          case Some(c) => Checked(Header(a.value, b.value, c.value, c.rest))
  }

  lemma OneByte(v: nat)
    ensures Varint(v)[0] < 128 <==> v < 128
    ensures v < 128 ==> Varint(v) == [v]
  {
  }

  lemma FastPath(a: nat, b: nat, c: nat, body: seq<Byte>)
    ensures var s := Varint(a) + (Varint(b) + (Varint(c) + body));
            |s| >= 3 && (s[0] < 128 && s[1] < 128 && s[2] < 128 ==>
                s[0] == a && s[1] == b && s[2] == c && s[3..] == body)
  {
    hide Varint;
    OneByte(a);
    OneByte(b);
    OneByte(c);
  }

  lemma SlowPath(a: nat, b: nat, c: nat, body: seq<Byte>)
    requires a < MOD32 && b < MOD32 && c < MOD32
    ensures var s := Varint(a) + (Varint(b) + (Varint(c) + body));
            && GetVarint32(s) == Some(Parsed(a, Varint(b) + (Varint(c) + body)))
            && GetVarint32(Varint(b) + (Varint(c) + body)) == Some(Parsed(b, Varint(c) + body))
            && GetVarint32(Varint(c) + body) == Some(Parsed(c, body))
  {
    hide Varint, GetVarint32;
    GetPutVarint32(a, Varint(b) + (Varint(c) + body));
    GetPutVarint32(b, Varint(c) + body);
    GetPutVarint32(c, body);
  }

  lemma HeaderBack(a: nat, b: nat, c: nat, body: seq<Byte>)
    requires a < MOD32 && b + c <= |body| < MOD32
    ensures DecodeEntry(Varint(a) + (Varint(b) + (Varint(c) + body))) == Some(Header(a, b, c, body))
  {
    hide Varint, GetVarint32, Checked;
    FastPath(a, b, c, body);
    SlowPath(a, b, c, body);
    CheckedFits(Header(a, b, c, body));
  }

  lemma CheckedFits(h: Header)
    requires h.nonShared + h.valueLength <= |h.rest| < MOD32
    ensures Checked(h) == Some(h)
  {
  }

  lemma EntrySplit(shared: nat, e: Pair, tail: seq<Byte>)
    requires shared <= |e.key| < MOD32 && |EntryBytes(shared, e) + tail| < MOD32
    ensures |e.key| - shared + |e.value| + |tail| < MOD32
    ensures EntryBytes(shared, e) + tail ==
            Varint(shared) + (Varint(|e.key| - shared) + (Varint(|e.value|) + (e.key[shared..] + e.value + tail)))
  {
    hide Varint;
    assert |e.key| - shared + |e.value| + |tail| < MOD32;
  }

  /** A written entry decodes to what was written, by the fast path or the slow one. */
  lemma EntryBack(shared: nat, e: Pair, tail: seq<Byte>)
    requires shared <= |e.key| < MOD32 && |EntryBytes(shared, e) + tail| < MOD32
    ensures DecodeEntry(EntryBytes(shared, e) + tail) ==
            Some(Header(shared, |e.key| - shared, |e.value|, e.key[shared..] + e.value + tail))
  {
    hide Varint, DecodeEntry, EntryBytes;
    EntrySplit(shared, e, tail);
    HeaderBack(shared, |e.key| - shared, |e.value|, e.key[shared..] + e.value + tail);
  }

  // ---- Where things are in a block ----

  predicate Fits(es: seq<Pair>, interval: nat)
    requires interval >= 1
  {
    |Encoded(es, interval)| < MOD32 && forall i :: 0 <= i < |es| ==> |es[i].key| < MOD32
  }

  lemma {:induction false} DataGrows(es: seq<Pair>, interval: nat, i: nat, j: nat)
    requires interval >= 1 && i <= j <= |es|
    ensures Offset(es, interval, i) <= Offset(es, interval, j) &&
            Data(es, interval, j)[..Offset(es, interval, i)] == Data(es, interval, i)
    ensures i < j ==> Offset(es, interval, i) < Offset(es, interval, j)
    decreases j
  {
    hide EntryBytes;
    if i < j {
      DataGrows(es, interval, i, j - 1);
      var d := Data(es, interval, j - 1);
      assert Data(es, interval, j)[..|d|] == d;
    }
  }

  lemma OffsetOrder(es: seq<Pair>, interval: nat, i: nat, j: nat)
    requires interval >= 1 && i <= |es| && j <= |es|
    ensures Offset(es, interval, i) < Offset(es, interval, j) <==> i < j
  {
    hide Data;
    if i < j { DataGrows(es, interval, i, j); } else { DataGrows(es, interval, j, i); }
  }

  // The bytes from entry i to the end of the data.
  function From(es: seq<Pair>, interval: nat, i: nat): seq<Byte>
    requires interval >= 1 && i <= |es|
  {
    DataGrows(es, interval, i, |es|);
    Data(es, interval, |es|)[Offset(es, interval, i)..]
  }

  lemma EntryAt(es: seq<Pair>, interval: nat, i: nat)
    requires interval >= 1 && i < |es|
    ensures From(es, interval, i) == EntryBytes(SharedAt(es, interval, i), es[i]) + From(es, interval, i + 1)
    ensures Offset(es, interval, i + 1) == Offset(es, interval, i) + |EntryBytes(SharedAt(es, interval, i), es[i])|
  {
    hide EntryBytes;
    DataGrows(es, interval, i, |es|);
    DataGrows(es, interval, i + 1, |es|);
    var d, a, b := Data(es, interval, |es|), Offset(es, interval, i), Offset(es, interval, i + 1);
    assert d[..b] == Data(es, interval, i + 1) && d[a..] == d[..b][a..] + d[b..];
  }

  function GetRestartPoint(data: seq<Byte>, restarts: nat, index: nat): nat
    requires restarts + 4 * index + 4 <= |data|
  {
    DecodeFixed(data[restarts + 4 * index..restarts + 4 * index + 4])
  }

  lemma RestartBack(es: seq<Pair>, interval: nat, i: nat)
    requires interval >= 1 && Fits(es, interval) && i < |Starts(interval, |es|)|
    ensures var r, data := Offset(es, interval, |es|), Encoded(es, interval);
            r + 4 * i + 4 <= |data| && GetRestartPoint(data, r, i) == Offset(es, interval, Starts(interval, |es|)[i])
  {
    hide Data, Starts, Fixeds, Fixed, DecodeFixed;
    var starts, d := Starts(interval, |es|), Data(es, interval, |es|);
    var ns := RestartOffsets(es, interval, starts);
    FixedAt(ns, i);
    DataGrows(es, interval, starts[i], |es|);
    Word32(ns[i]);
    var r, data := |d|, Encoded(es, interval);
    assert data[r..r + 4 * |ns|] == Fixeds(ns);
    assert data[r + 4 * i..r + 4 * i + 4] == data[r..r + 4 * |ns|][4 * i..4 * i + 4];
  }

  /** Block's constructor: where the restart array starts and how long it is; None for a malformed block. */
  function Open(data: seq<Byte>): (r: Option<(nat, nat)>)
    ensures r.Some? <==> |data| >= 4 && 4 + 4 * DecodeFixed(data[|data| - 4..]) <= |data|
    ensures r.Some? ==> r.value.0 + 4 * r.value.1 + 4 == |data|
  {
    if |data| < 4 then None
    else
      var num := DecodeFixed(data[|data| - 4..]);
      if num > (|data| - 4) / 4 then None else Some((|data| - (1 + num) * 4, num))
  }

  lemma OpenBack(es: seq<Pair>, interval: nat)
    requires interval >= 1 && Fits(es, interval)
    ensures Open(Encoded(es, interval)) == Some((Offset(es, interval, |es|), |Starts(interval, |es|)|))
  {
    hide Data, Starts, Fixeds, Fixed, DecodeFixed;
    var starts, data := Starts(interval, |es|), Encoded(es, interval);
    assert data[|data| - 4..] == Fixed(|starts| % MOD32, 4);
    Word32(|starts|);
  }

  // ---- The iterator ----

  ghost predicate Transitive(lt: (Key, Key) -> bool) {
    forall a, b, c :: lt(a, b) && lt(b, c) ==> lt(a, c)
  }

  predicate Increasing(lt: (Key, Key) -> bool, es: seq<Pair>) {
    forall i, j :: 0 <= i < j < |es| ==> lt(es[i].key, es[j].key)
  }

  // What an iterator knows once it has parsed entry i of a block.
  ghost predicate Standing(es: seq<Pair>, interval: nat, i: int, current: nat, key: Key, value: seq<Byte>, next: nat)
    requires interval >= 1
  {
    0 <= i < |es| && current == Offset(es, interval, i) && key == es[i].key && value == es[i].value &&
        next == Offset(es, interval, i + 1)
  }

  // Ready to parse entry j: the key holds the prefix that j shares.
  ghost predicate Ready(es: seq<Pair>, interval: nat, j: int, key: Key, next: nat)
    requires interval >= 1
  {
    && 0 <= j <= |es| && next == Offset(es, interval, j)
    && (j < |es| ==>
          && SharedAt(es, interval, j) <= |key|
          && key[..SharedAt(es, interval, j)] == es[j].key[..SharedAt(es, interval, j)])
  }

  // Restart block r is where the search for what precedes entry i begins.
  ghost predicate InRegion(starts: seq<nat>, r: int, i: int) {
    0 <= r < |starts| && starts[r] <= i && (r + 1 < |starts| ==> i <= starts[r + 1])
  }

  lemma ReadyNext(es: seq<Pair>, interval: nat, i: nat)
    requires interval >= 1 && i < |es|
    ensures Ready(es, interval, i + 1, es[i].key, Offset(es, interval, i + 1))
  {
  }

  lemma ReadyStart(es: seq<Pair>, interval: nat, r: nat)
    requires interval >= 1 && r < |Starts(interval, |es|)|
    ensures Ready(es, interval, Starts(interval, |es|)[r], [], Offset(es, interval, Starts(interval, |es|)[r]))
  {
    hide Data, Starts;
    StartsShape(interval, |es|);
  }

  // Decoding an entry in place: where its key bytes and value lie.
  lemma Pieces(data: seq<Byte>, p: nat, limit: nat, sh: nat, e: Pair, tail: seq<Byte>, key: Key)
    requires p <= limit <= |data| < MOD32 && sh <= |e.key| < MOD32 && data[p..limit] == EntryBytes(sh, e) + tail
    requires sh <= |key| && key[..sh] == e.key[..sh]
    ensures var o := DecodeEntry(data[p..limit]);
            && o.Some? && o.value.shared <= |key| && |o.value.rest| <= limit - p
            && var q := limit - |o.value.rest|; var h := o.value;
            && q + h.nonShared + h.valueLength == limit - |tail|
            && key[..h.shared] + data[q..q + h.nonShared] == e.key
            && data[q + h.nonShared..q + h.nonShared + h.valueLength] == e.value
  {
    hide EntryBytes, DecodeEntry;
    EntryBack(sh, e, tail);
    EntryTail(sh, e, tail, data[p..limit]);
    var non, body := |e.key| - sh, e.key[sh..] + e.value + tail;
    var q := limit - |body|;
    SliceOfSlice(data, p, limit, q - p, limit - p);
    SliceOfSlice(data, q, limit, 0, non);
    SliceOfSlice(data, q, limit, non, non + |e.value|);
    assert body[..non] == e.key[sh..] && body[non..non + |e.value|] == e.value;
    Rejoined(key, e.key, sh);
  }

  lemma EntryTail(shared: nat, e: Pair, tail: seq<Byte>, s: seq<Byte>)
    requires shared <= |e.key| && s == EntryBytes(shared, e) + tail
    ensures var body := e.key[shared..] + e.value + tail; |body| <= |s| && s[|s| - |body|..] == body
  {
  }

  // The block's bytes from entry j to the restart array.
  lemma Region(es: seq<Pair>, interval: nat, j: nat)
    requires interval >= 1 && j < |es|
    ensures var data, p, limit := Encoded(es, interval), Offset(es, interval, j), Offset(es, interval, |es|);
            && p < Offset(es, interval, j + 1) <= limit <= |data|
            && data[p..limit] == EntryBytes(SharedAt(es, interval, j), es[j]) + From(es, interval, j + 1)
            && |From(es, interval, j + 1)| == limit - Offset(es, interval, j + 1)
  {
    hide Data, Starts, Fixeds, EntryBytes, SharedAt;
    var data, d := Encoded(es, interval), Data(es, interval, |es|);
    DataGrows(es, interval, j, |es|);
    DataGrows(es, interval, j + 1, |es|);
    EntryAt(es, interval, j);
    assert data[..|d|] == d;
    assert data[Offset(es, interval, j)..|d|] == d[Offset(es, interval, j)..];
  }

  // Decoding at a ready position gives the entry.
  lemma ParseBack(es: seq<Pair>, interval: nat, j: nat, key: Key)
    requires interval >= 1 && Fits(es, interval) && j < |es| && Ready(es, interval, j, key, Offset(es, interval, j))
    ensures Offset(es, interval, j) < Offset(es, interval, |es|) <= |Encoded(es, interval)|
    ensures var data, limit := Encoded(es, interval), Offset(es, interval, |es|);
            var p := Offset(es, interval, j);
            var o := DecodeEntry(data[p..limit]);
            && o.Some? && o.value.shared <= |key| && |o.value.rest| <= limit - p
            && var q := limit - |o.value.rest|; var h := o.value;
            && q + h.nonShared + h.valueLength == Offset(es, interval, j + 1) <= limit
            && key[..h.shared] + data[q..q + h.nonShared] == es[j].key
            && data[q + h.nonShared..q + h.nonShared + h.valueLength] == es[j].value
  {
    hide Data, Starts, Encoded, EntryBytes, DecodeEntry, SharedAt, From, Offset;
    Region(es, interval, j);
    Pieces(Encoded(es, interval), Offset(es, interval, j), Offset(es, interval, |es|), SharedAt(es, interval, j),
        es[j], From(es, interval, j + 1), key);
  }

  class Iter {
    const lt: (Key, Key) -> bool
    const data: seq<Byte>
    const restarts: nat
    const numRestarts: nat
    var current: nat
    var restartIndex: nat
    var key: Key
    var valueStart: nat
    var valueLength: nat
    ghost const es: seq<Pair>
    ghost const interval: nat
    ghost var at: int

    // The iterator is over a finished block.
    ghost predicate Shape()
    {
      && interval >= 1 && Fits(es, interval) && data == Encoded(es, interval)
      && restarts == Offset(es, interval, |es|) && numRestarts == |Starts(interval, |es|)|
    }

    ghost predicate Inv()
      reads this
    {
      && Shape() && valueStart + valueLength <= |data|
      && (Valid() ==> Standing(es, interval, at, current, key, data[valueStart..valueStart + valueLength],
           valueStart + valueLength)
                      && InRegion(Starts(interval, |es|), restartIndex, at))
      && (!Valid() ==> at == -1 || at == |es|)
    }

    predicate Valid()
      reads this
    {
      current < restarts
    }

    /** The cursor is at entry i, or off either end. */
    ghost predicate Sits(i: int)
      reads this
    {
      Inv() && at == i && (Valid() <==> 0 <= i < |es|)
    }

    constructor (lt: (Key, Key) -> bool, data: seq<Byte>, restarts: nat, numRestarts: nat, ghost es: seq<Pair>,
                 ghost interval: nat)
      requires interval >= 1 && Fits(es, interval) && data == Encoded(es, interval) &&
               Open(data) == Some((restarts, numRestarts))
      ensures Sits(-1) && this.es == es && this.lt == lt && this.interval == interval
    {
      hide Data, Starts, Encoded, Open;
      OpenBack(es, interval);
      this.lt, this.data, this.restarts, this.numRestarts, this.es, this.interval := lt, data, restarts, numRestarts,
          es, interval;
      current, restartIndex, key, valueStart, valueLength, at := restarts, numRestarts, [], 0, 0, -1;
    }

    method SeekToRestartPoint(index: nat)
      requires Shape() && index < numRestarts
      modifies this`key, this`restartIndex, this`valueStart, this`valueLength
      ensures restartIndex == index
      ensures Ready(es, interval, Starts(interval, |es|)[index], key, valueStart + valueLength)
    {
      hide Data, Starts, Encoded, GetRestartPoint;
      RestartBack(es, interval, index);
      ReadyStart(es, interval, index);
      key := [];
      restartIndex := index;
      valueStart, valueLength := GetRestartPoint(data, restarts, index), 0;
    }

    /** ParseNextKey, when entry j comes next. */
    method ParseNextKey(ghost j: int) returns (more: bool)
      requires Shape() && Ready(es, interval, j, key, valueStart + valueLength)
      requires restartIndex < numRestarts && Starts(interval, |es|)[restartIndex] <= j
      modifies this
      ensures Sits(j) && more == (j < |es|)
    {
      hide Data, Starts, Encoded, GetRestartPoint, DecodeEntry, Fits, SharedAt;
      OffsetOrder(es, interval, j, |es|);
      current := valueStart + valueLength;
      at := j;
      if current >= restarts {
        current, restartIndex := restarts, numRestarts;
        DataFits(es, interval);
        return false;
      }
      ParseBack(es, interval, j, key);
      var h := DecodeEntry(data[current..restarts]).value;
      var q := restarts - |h.rest|;
      key := key[..h.shared] + data[q..q + h.nonShared];
      valueStart, valueLength := q + h.nonShared, h.valueLength;
      AdvanceRestart(j);
      return true;
    }

    // Moves to the last restart point before the current entry.
    method AdvanceRestart(ghost j: int)
      requires Shape() && 0 <= j < |es| && current == Offset(es, interval, j)
      requires restartIndex < numRestarts && Starts(interval, |es|)[restartIndex] <= j
      modifies this`restartIndex
      ensures InRegion(Starts(interval, |es|), restartIndex, j)
    {
      hide Data, Starts, Encoded, GetRestartPoint, Fits, Offset;
      StartsShape(interval, |es|);
      while restartIndex + 1 < numRestarts
        invariant restartIndex < numRestarts && Starts(interval, |es|)[restartIndex] <= j
        decreases numRestarts - restartIndex
      {
        RestartBack(es, interval, restartIndex + 1);
        OffsetOrder(es, interval, Starts(interval, |es|)[restartIndex + 1], j);
        if GetRestartPoint(data, restarts, restartIndex + 1) >= current { break; }
        restartIndex := restartIndex + 1;
      }
    }

    method SeekToFirst()
      requires Inv()
      modifies this
      ensures Sits(0)
    {
      hide Data, Starts, Encoded, Fits, SharedAt, Ready;
      StartsShape(interval, |es|);
      SeekToRestartPoint(0);
      var _ := ParseNextKey(0);
    }

    method SeekToLast()
      requires Inv()
      modifies this
      ensures Sits(|es| - 1)
    {
      hide Data, Starts, Encoded, Fits, SharedAt;
      StartsShape(interval, |es|);
      ghost var j: int := Starts(interval, |es|)[numRestarts - 1];
      SeekToRestartPoint(numRestarts - 1);
      while true
        invariant Shape() && Ready(es, interval, j, key, valueStart + valueLength)
        invariant restartIndex < numRestarts && Starts(interval, |es|)[restartIndex] <= j
        invariant es != [] ==> j < |es|
        decreases |es| - j
      {
        var more := ParseNextKey(j);
        if !more { at := -1; break; }
        OffsetOrder(es, interval, j + 1, |es|);
        if valueStart + valueLength >= restarts { break; }
        ReadyNext(es, interval, j);
        j := j + 1;
      }
    }

    method Next()
      requires Inv() && Valid()
      modifies this
      ensures Sits(old(at) + 1)
    {
      hide Data, Starts, Encoded, Fits, SharedAt;
      ReadyNext(es, interval, at);
      var _ := ParseNextKey(at + 1);
    }

    /** Prev: back to a restart point before the current entry, then forward to the entry that ends where it starts. */
    method Prev()
      requires Inv() && Valid()
      modifies this
      ensures Sits(old(at) - 1)
    {
      hide Data, Starts, Encoded, Fits, SharedAt, Offset;
      var original := current;
      ghost var i := at;
      var found := BackUp();
      if !found {
        current, restartIndex, at := restarts, numRestarts, -1;
        return;
      }
      SeekToRestartPoint(restartIndex);
      ghost var j: int := Starts(interval, |es|)[restartIndex];
      while true
        invariant Shape() && Ready(es, interval, j, key, valueStart + valueLength) && j < i < |es|
        invariant restartIndex < numRestarts && Starts(interval, |es|)[restartIndex] <= j
        decreases |es| - j
      {
        var more := ParseNextKey(j);
        OffsetOrder(es, interval, j + 1, i);
        if !more || valueStart + valueLength >= original { break; }
        ReadyNext(es, interval, j);
        j := j + 1;
      }
    }

    // The restart point to start the forward walk from.
    method BackUp() returns (found: bool)
      requires Inv() && Valid()
      modifies this`restartIndex
      ensures found ==> restartIndex < numRestarts && Starts(interval, |es|)[restartIndex] < at
      ensures !found ==> at == 0
    {
      hide Data, Starts, Encoded, Fits, GetRestartPoint, Offset;
      StartsShape(interval, |es|);
      while true
        invariant restartIndex < numRestarts && Starts(interval, |es|)[restartIndex] <= at
        decreases restartIndex
      {
        RestartBack(es, interval, restartIndex);
        OffsetOrder(es, interval, Starts(interval, |es|)[restartIndex], at);
        if GetRestartPoint(data, restarts, restartIndex) < current { return true; }
        if restartIndex == 0 { return false; }
        restartIndex := restartIndex - 1;
      }
    }

    /** Seek: binary search over restart points, then linear search inside one. */
    method Seek(target: Key)
      requires Inv() && Transitive(lt) && Increasing(lt, es)
      modifies this
      ensures Inv() && 0 <= at <= |es| && Sits(at)
      ensures forall i :: 0 <= i < at ==> lt(es[i].key, target)
      ensures at < |es| ==> !lt(es[at].key, target)
    {
      hide Data, Starts, Encoded, Fits, SharedAt, Transitive, Increasing;
      var left := FindRestart(target);
      StartsShape(interval, |es|);
      ghost var j: int := Starts(interval, |es|)[left];
      SeekToRestartPoint(left);
      AllBefore(lt, es, target, j);
      while true
        invariant Shape() && Ready(es, interval, j, key, valueStart + valueLength)
        invariant restartIndex < numRestarts && Starts(interval, |es|)[restartIndex] <= j
        invariant forall i :: 0 <= i < j ==> lt(es[i].key, target)
        decreases |es| - j
      {
        var more := ParseNextKey(j);
        if !more { return; }
        if !lt(key, target) { return; }
        ReadyNext(es, interval, j);
        j := j + 1;
      }
    }

    // The binary search over restart points: where the forward walk to the target begins.
    method FindRestart(target: Key) returns (left: nat)
      requires Shape() && Transitive(lt) && Increasing(lt, es)
      ensures left < numRestarts
      ensures left == 0 || (Starts(interval, |es|)[left] < |es| && lt(es[Starts(interval, |es|)[left]].key, target))
    {
      hide Data, Starts, Encoded, Fits, SharedAt, Transitive, Increasing, DecodeEntry, GetRestartPoint;
      StartsShape(interval, |es|);
      left := 0;
      var right := numRestarts - 1;
      while left < right
        invariant 0 <= left <= right < numRestarts
        invariant left == 0 || (Starts(interval, |es|)[left] < |es| && lt(es[Starts(interval, |es|)[left]].key, target))
      {
        var mid := (left + right + 1) / 2;
        ghost var s := Starts(interval, |es|)[mid];
        RestartBack(es, interval, mid);
        ReadyStart(es, interval, mid);
        ParseBack(es, interval, s, []);
        var region := GetRestartPoint(data, restarts, mid);
        var h := DecodeEntry(data[region..restarts]).value;
        var midKey := data[restarts - |h.rest|..restarts - |h.rest| + h.nonShared];
        assert [] + midKey == midKey;
        if lt(midKey, target) {
          left := mid;
        } else {
          right := mid - 1;
        }
      }
    }
  }

  lemma AllBefore(lt: (Key, Key) -> bool, es: seq<Pair>, target: Key, j: nat)
    requires Transitive(lt) && Increasing(lt, es) && (j == 0 || (j < |es| && lt(es[j].key, target)))
    ensures forall i :: 0 <= i < j ==> lt(es[i].key, target)
  {
  }

  lemma DataFits(es: seq<Pair>, interval: nat)
    requires interval >= 1
    ensures Offset(es, interval, |es|) <= |Encoded(es, interval)|
  {
  }

  /** Building a block from any pairs and iterating over it gives the pairs back, whatever the restart interval. */
  method BuildAndRead(lt: (Key, Key) -> bool, es: seq<Pair>, interval: nat) returns (pairs: seq<Pair>)
    requires interval >= 1 && Fits(es, interval)
    ensures pairs == es
  {
    hide Data, Starts, Encoded, Fits, Offset, InRegion;
    var b := new BlockBuilder(interval);
    for i := 0 to |es|
      invariant fresh(b) && b.Valid() && b.interval == interval && b.es == es[..i]
    {
      b.Add(es[i].key, es[i].value);
    }
    assert es[..|es|] == es;
    var contents := b.Finish();
    OpenBack(es, interval);
    var (restarts, numRestarts) := Open(contents).value;
    var it := new Iter(lt, contents, restarts, numRestarts, es, interval);
    it.SeekToFirst();
    pairs := [];
    while it.Valid()
      invariant fresh(it) && it.es == es && it.interval == interval && it.Sits(|pairs|) && |pairs| <= |es| &&
                pairs == es[..|pairs|]
      decreases |es| - |pairs|
    {
      pairs := pairs + [Pair(it.key, it.data[it.valueStart..it.valueStart + it.valueLength])];
      it.Next();
    }
  }
}
