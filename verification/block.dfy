/** Table blocks: prefix-compressed entries followed by an array of restart points. */
module Blocks {
  import opened Coding

  type Key = seq<Byte>

  datatype Pair = Pair(key: Key, value: seq<Byte>)

  // ---- Layout ----

  function Shared(a: Key, b: Key): (n: nat)
    ensures n <= |a| && n <= |b| && a[..n] == b[..n]
    ensures n < |a| && n < |b| ==> a[n] != b[n]
  {
    if a == [] || b == [] || a[0] != b[0] then 0
    else
      var n := 1 + Shared(a[1..], b[1..]);
      assert a[..n] == [a[0]] + a[1..][..n - 1] && b[..n] == [b[0]] + b[1..][..n - 1];
      n
  }

  // counter_ after n additions.
  function Counter(interval: nat, n: nat): (c: nat)
    requires interval >= 1
    ensures c <= interval
  {
    if n == 0 then 0
    else
      var c := Counter(interval, n - 1);
      if c < interval then c + 1 else 1
  }

  // The entries written without sharing at a recorded restart point.
  function Starts(interval: nat, n: nat): (r: seq<nat>)
    requires interval >= 1
    ensures |r| >= 1 && forall i :: 0 <= i < |r| ==> r[i] <= n
  {
    if n == 0 then [0]
    else Starts(interval, n - 1) + if Counter(interval, n - 1) == interval then [n - 1] else []
  }

  function SharedAt(es: seq<Pair>, interval: nat, i: nat): (r: nat)
    requires interval >= 1 && i < |es|
    ensures r <= |es[i].key|
  {
    if i == 0 || Counter(interval, i) == interval then 0 else Shared(es[i - 1].key, es[i].key)
  }

  function EntryBytes(shared: nat, e: Pair): (r: seq<Byte>)
    requires shared <= |e.key|
    ensures |r| >= 3
  {
    Varint(shared % MOD32) +
    (Varint((|e.key| - shared) % MOD32) + (Varint(|e.value| % MOD32) + (e.key[shared..] + e.value)))
  }

  /** The bytes of the first n entries. */
  function Data(es: seq<Pair>, interval: nat, n: nat): seq<Byte>
    requires interval >= 1 && n <= |es|
  {
    if n == 0 then [] else Data(es, interval, n - 1) + EntryBytes(SharedAt(es, interval, n - 1), es[n - 1])
  }

  function Offset(es: seq<Pair>, interval: nat, i: nat): nat
    requires interval >= 1 && i <= |es|
  {
    |Data(es, interval, i)|
  }

  function RestartOffsets(es: seq<Pair>, interval: nat, starts: seq<nat>): (r: seq<nat>)
    requires interval >= 1 && forall i :: 0 <= i < |starts| ==> starts[i] <= |es|
    ensures |r| == |starts|
  {
    seq(|starts|, i requires 0 <= i < |starts| => Offset(es, interval, starts[i]))
  }

  lemma {:induction false} StartsShape(interval: nat, n: nat)
    requires interval >= 1
    ensures var s := Starts(interval, n);
            && s[0] == 0 && (forall i, j :: 0 <= i < j < |s| ==> s[i] < s[j])
            && (forall i :: 0 <= i < |s| ==> s[i] == 0 || (s[i] < n && Counter(interval, s[i]) == interval))
  {
    if n > 0 { StartsShape(interval, n - 1); }
  }

  /** The finished block. */
  function Encoded(es: seq<Pair>, interval: nat): seq<Byte>
    requires interval >= 1
  {
    var starts := Starts(interval, |es|);
    Data(es, interval, |es|) + Fixeds(RestartOffsets(es, interval, starts)) + Fixed(|starts| % MOD32, 4)
  }

  // Adding entries does not move the earlier ones.
  lemma {:induction false} DataPrefix(es: seq<Pair>, e: Pair, interval: nat, n: nat)
    requires interval >= 1 && n <= |es|
    ensures Data(es + [e], interval, n) == Data(es, interval, n)
  {
    hide EntryBytes, Shared, Counter;
    if n > 0 { DataPrefix(es, e, interval, n - 1); }
  }

  // ---- Builder ----

  class BlockBuilder {
    const interval: nat
    var buffer: seq<Byte>
    var restarts: seq<nat>
    var counter: nat
    var lastKey: Key
    ghost var es: seq<Pair>

    ghost predicate Valid()
      reads this
    {
      && interval >= 1 && buffer == Data(es, interval, |es|)
      && restarts == RestartOffsets(es, interval, Starts(interval, |es|))
      && counter == Counter(interval, |es|)
      && lastKey == if es == [] then [] else es[|es| - 1].key
    }

    constructor (interval: nat)
      requires interval >= 1
      ensures Valid() && es == [] && this.interval == interval
    {
      this.interval := interval;
      buffer, restarts, counter, lastKey, es := [], [0], 0, [], [];
    }

    /** Add: share a prefix with the last key, or record a restart point and write the key whole. */
    method Add(key: Key, value: seq<Byte>)
      requires Valid()
      modifies this
      ensures Valid() && es == old(es) + [Pair(key, value)]
    {
      hide Data, EntryBytes, Shared, Starts, RestartOffsets, SharedAt, Counter;
      ghost var was := es;
      var shared := 0;
      if counter < interval {
        shared := CountShared(lastKey, key);
      } else {
        restarts := restarts + [|buffer|];
        counter := 0;
      }
      Rejoined(lastKey, key, shared);
      buffer := buffer + EntryBytes(shared, Pair(key, value));
      lastKey := lastKey[..shared] + key[shared..];
      counter := counter + 1;
      es := es + [Pair(key, value)];
      Grown(was, Pair(key, value), interval);
    }

    /** Finish. */
    method Finish() returns (contents: seq<Byte>)
      requires Valid()
      modifies this`buffer
      ensures contents == Encoded(es, interval)
    {
      hide Data, EntryBytes;
      ghost var data := buffer;
      for i := 0 to |restarts|
        invariant buffer == data + Fixeds(restarts[..i])
      {
        assert restarts[..i + 1][..i] == restarts[..i];
        buffer := buffer + Fixed(restarts[i] % MOD32, 4);
      }
      assert restarts[..|restarts|] == restarts;
      buffer := buffer + Fixed(|restarts| % MOD32, 4);
      contents := buffer;
    }
  }

  lemma Rejoined(a: Key, b: Key, n: nat)
    requires n <= |a| && n <= |b| && (n == 0 || a[..n] == b[..n])
    ensures a[..n] + b[n..] == b
  {
  }

  method CountShared(a: Key, b: Key) returns (n: nat)
    ensures n == Shared(a, b)
  {
    n := 0;
    while n < |a| && n < |b| && a[n] == b[n]
      invariant n <= |a| && n <= |b|
      invariant Shared(a, b) == n + Shared(a[n..], b[n..])
    {
      n := n + 1;
    }
  }

  // What one addition does to the layout.
  lemma Grown(es: seq<Pair>, e: Pair, interval: nat)
    requires interval >= 1
    ensures var n, es' := |es|, es + [e];
            && Counter(interval, n + 1) == (if Counter(interval, n) < interval then Counter(interval, n) + 1 else 1)
            && SharedAt(es', interval, n) ==
                 (if Counter(interval, n) == interval then 0 else Shared(if es == [] then [] else es[n - 1].key, e.key))
            && Data(es', interval, n + 1) == Data(es, interval, n) + EntryBytes(SharedAt(es', interval, n), e)
            && RestartOffsets(es', interval, Starts(interval, n + 1)) ==
               (RestartOffsets(es, interval, Starts(interval, n)) + if Counter(interval, n) == interval
                   then [|Data(es, interval, n)|] else [])
  {
    hide EntryBytes, Shared;
    DataPrefix(es, e, interval, |es|);
    GrownRestarts(es, e, interval);
  }

  lemma GrownRestarts(es: seq<Pair>, e: Pair, interval: nat)
    requires interval >= 1
    ensures RestartOffsets(es + [e], interval, Starts(interval, |es| + 1)) ==
            (RestartOffsets(es, interval, Starts(interval, |es|)) + if Counter(interval, |es|) == interval
                then [|Data(es, interval, |es|)|] else [])
  {
    hide Data;
    var starts := Starts(interval, |es|);
    DataPrefix(es, e, interval, |es|);
    forall i | 0 <= i < |starts| ensures Offset(es + [e], interval, starts[i]) == Offset(es, interval, starts[i]) {
      DataPrefix(es, e, interval, starts[i]);
    }
  }
}
