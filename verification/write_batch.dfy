/** WriteBatch: the byte form of a batch of updates, and how writers' batches are joined. */
module WriteBatches {
  import opened DbFormat
  import opened Coding

  const HEADER: nat := 12
  const DELETION: Byte := 0
  const VALUE: Byte := 1

  datatype Update = Put(key: seq<Byte>, value: seq<Byte>) | Delete(key: seq<Byte>)

  function PutUpdate(u: Update): (r: seq<Byte>)
    ensures |r| > 0
  {
    match u
    case Put(k, v) => [VALUE] + (PutSlice(k) + PutSlice(v))
    case Delete(k) => [DELETION] + PutSlice(k)
  }

  function Records(us: seq<Update>): seq<Byte> {
    if us == [] then [] else Records(us[..|us| - 1]) + PutUpdate(us[|us| - 1])
  }

  // One record of Iterate; None is a corruption status.
  function GetUpdate(s: seq<Byte>): (r: Option<Parsed<Update>>)
    requires s != []
    ensures r.Some? ==> |r.value.rest| < |s|
  {
    if s[0] == VALUE then
      match GetSlice(s[1..])
      case None => None
      case Some(k) => match GetSlice(k.rest)
        case None => None
        case Some(v) => Some(Parsed(Update.Put(k.value, v.value), v.rest))
    else if s[0] == DELETION then
      match GetSlice(s[1..])
      case None => None
      case Some(k) => Some(Parsed(Update.Delete(k.value), k.rest))
    else None
  }

  // The handler calls Iterate makes, and whether it reached the end of the input.
  function Calls(s: seq<Byte>): (seq<Update>, bool)
    decreases |s|
  {
    if s == [] then ([], true)
    else match GetUpdate(s)
      case None => ([], false)
      case Some(p) =>
        var (us, ok) := Calls(p.rest);
        ([p.value] + us, ok)
  }

  predicate Fits(u: Update) {
    |u.key| < MOD32 && (u.Put? ==> |u.value| < MOD32)
  }

  lemma UpdateBack(u: Update, rest: seq<Byte>)
    requires Fits(u)
    ensures GetUpdate(PutUpdate(u) + rest) == Some(Parsed(u, rest))
  {
    hide PutSlice, GetSlice;
    var s := PutUpdate(u) + rest;
    match u {
      case Put(k, v) =>
        var t := PutSlice(k) + (PutSlice(v) + rest);
        assert s == [VALUE] + t && s[1..] == t;
        GetPutSlice(k, PutSlice(v) + rest);
        GetPutSlice(v, rest);
      case Delete(k) =>
        var t := PutSlice(k) + rest;
        assert s == [DELETION] + t && s[1..] == t;
        GetPutSlice(k, rest);
    }
  }

  /** Iterating over encoded records makes exactly the calls that were recorded, in order. */
  lemma {:induction false} CallsBack(us: seq<Update>, rest: seq<Byte>)
    requires forall i :: 0 <= i < |us| ==> Fits(us[i])
    ensures Calls(Records(us) + rest) == (us + Calls(rest).0, Calls(rest).1)
    decreases |us|
  {
    hide PutUpdate, GetUpdate, Fits;
    if us == [] {
      assert Records(us) + rest == rest && us + Calls(rest).0 == Calls(rest).0;
    } else {
      var init, u := us[..|us| - 1], us[|us| - 1];
      UpdateBack(u, rest);
      assert Records(us) + rest == Records(init) + (PutUpdate(u) + rest);
      CallsBack(init, PutUpdate(u) + rest);
      assert init + ([u] + Calls(rest).0) == us + Calls(rest).0;
    }
  }

  lemma {:induction false} RecordsConcat(a: seq<Update>, b: seq<Update>)
    ensures Records(a + b) == Records(a) + Records(b)
  {
    hide PutUpdate;
    if b == [] {
      assert a + b == a;
    } else {
      var init, u := b[..|b| - 1], b[|b| - 1];
      RecordsConcat(a, init);
      assert (a + b)[..|a + b| - 1] == a + init;
      assert Records(a + b) == Records(a + init) + PutUpdate(u);
      assert Records(b) == Records(init) + PutUpdate(u);
    }
  }

  function Header(sequence: nat, count: nat): (r: seq<Byte>)
    ensures |r| == HEADER
  {
    Fixed(sequence % MOD64, 8) + Fixed(count % MOD32, 4)
  }

  lemma HeaderBack(sequence: nat, count: nat)
    requires sequence < MOD64 && count < MOD32
    ensures DecodeFixed(Header(sequence, count)[..8]) == sequence &&
            DecodeFixed(Header(sequence, count)[8..12]) == count
  {
    hide Fixed, DecodeFixed, Pow256;
    Powers256();
    FixedRoundTrip(sequence, 8);
    FixedRoundTrip(count, 4);
    assert Header(sequence, count)[..8] == Fixed(sequence, 8) && Header(sequence, count)[8..12] == Fixed(count, 4);
  }

  lemma WrittenBack(rep: seq<Byte>, sequence: nat, us: seq<Update>)
    requires sequence < MOD64 && |us| < MOD32 && (forall i :: 0 <= i < |us| ==> Fits(us[i]))
    requires rep == Header(sequence, |us|) + Records(us)
    ensures Calls(rep[HEADER..]) == (us, true) && DecodeFixed(rep[8..12]) == |us|
  {
    hide Header, Records, DecodeFixed, Fits, GetUpdate;
    HeaderBack(sequence, |us|);
    assert rep[8..12] == Header(sequence, |us|)[8..12];
    assert rep[HEADER..] == Records(us) + [];
    CallsBack(us, []);
    assert us + [] == us;
  }

  class WriteBatch {
    var rep: seq<Byte>
    ghost var updates: seq<Update>
    ghost var sequence: nat

    ghost predicate Valid()
      reads this
    {
      && sequence < MOD64 && |updates| < MOD32 && (forall i :: 0 <= i < |updates| ==> Fits(updates[i]))
      && rep == Header(sequence, |updates|) + Records(updates)
    }

    constructor ()
      ensures Valid() && updates == [] && sequence == 0
    {
      rep := Header(0, 0);
      updates, sequence := [], 0;
    }

    method Clear()
      modifies this
      ensures Valid() && updates == [] && sequence == 0
    {
      rep := Header(0, 0);
      updates, sequence := [], 0;
    }

    method Count() returns (n: nat)
      requires Valid()
      ensures n == |updates|
    {
      hide Header, Records, DecodeFixed;
      HeaderBack(sequence, |updates|);
      assert rep[8..12] == Header(sequence, |updates|)[8..12];
      n := DecodeFixed(rep[8..12]);
    }

    // The header with a new count.
    method SetCount(n: nat)
      requires Valid() && n < MOD32
      modifies this`rep
      ensures rep == Header(sequence, n) + old(rep)[HEADER..]
    {
      hide Records, Fixed;
      rep := rep[..8] + Fixed(n % MOD32, 4) + rep[12..];
      assert rep[..8] == Fixed(sequence % MOD64, 8);
    }

    method SetSequence(s: nat)
      requires Valid() && s < MOD64
      modifies this
      ensures Valid() && updates == old(updates) && sequence == s
    {
      hide Records, Fixed;
      rep := Fixed(s % MOD64, 8) + rep[8..];
      sequence := s;
    }

    method AddUpdate(u: Update)
      requires Valid() && Fits(u) && |updates| + 1 < MOD32
      modifies this
      ensures Valid() && updates == old(updates) + [u] && sequence == old(sequence)
    {
      hide Header, PutUpdate;
      ghost var us := updates;
      var n := Count();
      SetCount(n + 1);
      assert (us + [u])[..|us|] == us;
      rep := rep + PutUpdate(u);
      updates := us + [u];
    }

    /** Append: the source's updates follow the destination's; the source is left alone. */
    method Append(src: WriteBatch)
      requires Valid() && src.Valid() && src != this && |updates| + |src.updates| < MOD32
      modifies this
      ensures Valid() && updates == old(updates) + src.updates && sequence == old(sequence)
    {
      hide Header, Records, Fits;
      var n := Count();
      var m := src.Count();
      RecordsConcat(updates, src.updates);
      ghost var both := updates + src.updates;
      SetCount(n + m);
      rep := rep + src.rep[HEADER..];
      updates := both;
    }

    /** Iterate over any bytes: the calls made before the first bad record, and whether the status is OK, which it is if
        every record parses and the count in the header is right. */
    method Iterate() returns (calls: seq<Update>, ok: bool)
      ensures |rep| < HEADER ==> calls == [] && !ok
      ensures |rep| >= HEADER ==>
                calls == Calls(rep[HEADER..]).0 && ok == (Calls(rep[HEADER..]).1 && |calls| == DecodeFixed(rep[8..12]))
      ensures Valid() ==> ok && calls == updates
    {
      hide Header, GetUpdate, Records, DecodeFixed, Fits;
      calls, ok := [], false;
      if |rep| < HEADER { return; }
      var input := rep[HEADER..];
      assert [] + Calls(input).0 == Calls(input).0;
      while input != []
        invariant Calls(rep[HEADER..]) == (calls + Calls(input).0, Calls(input).1)
        decreases |input|
      {
        var u := GetUpdate(input);
        if u.None? { break; }
        assert calls + ([u.value.value] + Calls(u.value.rest).0) == calls + [u.value.value] + Calls(u.value.rest).0;
        calls := calls + [u.value.value];
        input := u.value.rest;
      }
      ok := input == [] && |calls| == DecodeFixed(rep[8..12]);
      if Valid() { WrittenBack(rep, sequence, updates); }
    }

    /** InsertInto: update i gets sequence number Sequence() + i. */
    method InsertInto() returns (entries: seq<(nat, Update)>)
      requires Valid()
      ensures |entries| == |updates| && forall i :: 0 <= i < |entries| ==> entries[i] == (sequence + i, updates[i])
    {
      hide Header, Records, DecodeFixed, Fits, Calls, GetUpdate;
      HeaderBack(sequence, |updates|);
      assert rep[..8] == Header(sequence, |updates|)[..8];
      var s := DecodeFixed(rep[..8]);
      var calls, _ := Iterate();
      entries := [];
      for i := 0 to |calls|
        invariant |entries| == i && s == sequence + i
        invariant forall j :: 0 <= j < i ==> entries[j] == (sequence + j, updates[j])
      {
        entries := entries + [(s, calls[i])];
        s := s + 1;
      }
    }
  }

  // ---- Joining the queue's batches ----

  // A queued call of DBImpl::Write; a null batch asks for a compaction.
  datatype Writer = Writer(batch: WriteBatch?, sync: bool)

  ghost function Updates(w: Writer): seq<Update>
    reads w.batch
  {
    if w.batch == null then [] else w.batch.updates
  }

  ghost function Joined(ws: seq<Writer>): seq<Update>
    reads set w | w in ws :: w.batch
  {
    if ws == [] then [] else Joined(ws[..|ws| - 1]) + Updates(ws[|ws| - 1])
  }

  lemma JoinedNothing(ws: seq<Writer>)
    ensures Joined(ws[..0]) == []
  {
  }

  lemma JoinedAppend(ws: seq<Writer>, n: nat)
    requires n < |ws|
    ensures Joined(ws[..n + 1]) == Joined(ws[..n]) + Updates(ws[n])
  {
    assert ws[..n + 1][..n] == ws[..n];
  }

  const MAX_SIZE: nat := 1048576
  const SMALL: nat := 131072

  // The bytes of all the batches.
  ghost function Size(ws: seq<Writer>): nat
    reads set w | w in ws :: w.batch
  {
    if ws == [] then 0
    else Size(ws[..|ws| - 1]) + if ws[|ws| - 1].batch == null then 0 else |ws[|ws| - 1].batch.rep|
  }

  lemma SizeAppend(ws: seq<Writer>, n: nat)
    requires n < |ws|
    ensures Size(ws[..n + 1]) == Size(ws[..n]) + if ws[n].batch == null then 0 else |ws[n].batch.rep|
  {
    assert ws[..n + 1][..n] == ws[..n];
  }

  // A small write is not held up by much.
  function SizeLimit(first: nat): nat {
    if first <= SMALL then first + SMALL else MAX_SIZE
  }

  /** Whether the group of the first n writers may take one more. */
  ghost predicate MayJoin(ws: seq<Writer>, n: nat)
    requires n < |ws| && ws[0].batch != null
    reads set w | w in ws :: w.batch
  {
    && !(ws[n].sync && !ws[0].sync)
    && (ws[n].batch != null ==> Size(ws[..n + 1]) <= SizeLimit(|ws[0].batch.rep|))
  }

  // What BuildBatchGroup may rely on.
  ghost predicate Queue(ws: seq<Writer>, tmp: WriteBatch)
    reads tmp, set w | w in ws :: w.batch
  {
    && ws != [] && ws[0].batch != null && tmp.Valid() && tmp.updates == [] && |Joined(ws)| < MOD32
    && forall w :: w in ws && w.batch != null ==> w.batch.Valid() && w.batch != tmp
  }

  /**
   * BuildBatchGroup: a prefix of the queue whose updates, joined in queue order, become one batch. A sync write is
   * never taken into a group led by a non-sync write, and the callers' own batches are not touched.
   */
  method BuildBatchGroup(ws: seq<Writer>, tmp: WriteBatch) returns (result: WriteBatch, n: nat)
    requires Queue(ws, tmp)
    modifies tmp
    ensures 1 <= n <= |ws| && result.Valid() && (result == tmp || result == ws[0].batch)
    ensures result.updates == Joined(ws[..n]) == old(Joined(ws[..n]))
    ensures !ws[0].sync ==> forall i :: 0 <= i < n ==> !ws[i].sync
    ensures (forall i :: 1 <= i < n ==> MayJoin(ws, i)) && (n < |ws| ==> !MayJoin(ws, n))
    ensures forall w :: w in ws && w.batch != null ==> w.batch.Valid() && w.batch.updates == old(w.batch.updates)
  {
    hide Joined, Records, Header, Fits, WriteBatch.Valid, Size;
    var first := ws[0];
    result := first.batch;
    var size := |first.batch.rep|;
    var maxSize := MAX_SIZE;
    if size <= SMALL {
      maxSize := size + SMALL;
    }
    n := 1;
    JoinedAppend(ws, 0);
    JoinedNothing(ws);
    SizeAppend(ws, 0);
    NoSize(ws);
    while n < |ws|
      invariant 1 <= n <= |ws| && result.Valid() && (result == tmp || result == first.batch)
      invariant result == first.batch ==> tmp.Valid() && tmp.updates == []
      invariant forall w :: w in ws && w.batch != null ==>
                w.batch.Valid() && w.batch != tmp && w.batch.updates == old(w.batch.updates)
      invariant result.updates == Joined(ws[..n])
      invariant !first.sync ==> forall i :: 0 <= i < n ==> !ws[i].sync
      invariant size == Size(ws[..n]) && forall i :: 1 <= i < n ==> MayJoin(ws, i)
    {
      var w := ws[n];
      SizeAppend(ws, n);
      if w.sync && !first.sync {
        break;
      }
      JoinedAppend(ws, n);
      if w.batch != null {
        size := size + |w.batch.rep|;
        if size > maxSize {
          break;
        }
        JoinedBound(ws, n + 1);
        JoinBatch(result, first.batch, tmp, w.batch);
        result := tmp;
      }
      n := n + 1;
    }
  }

  // The first batch is copied when a second one joins it: a caller's batch is never added to.
  method JoinBatch(result: WriteBatch, first: WriteBatch, tmp: WriteBatch, b: WriteBatch)
    requires first.Valid() && tmp.Valid() && b.Valid() && first != tmp && b != tmp
    requires result == tmp || (result == first && tmp.updates == [])
    requires |result.updates| + |b.updates| < MOD32
    modifies tmp
    ensures tmp.Valid() && tmp.updates == old(result.updates) + b.updates
  {
    hide Records, Header, Fits, WriteBatch.Valid;
    if result == first {
      tmp.Append(first);
    }
    tmp.Append(b);
  }

  lemma NoSize(ws: seq<Writer>)
    ensures Size(ws[..0]) == 0
  {
  }

  lemma {:induction false} JoinedBound(ws: seq<Writer>, n: nat)
    requires n <= |ws|
    ensures |Joined(ws[..n])| <= |Joined(ws)|
    decreases |ws| - n
  {
    if n < |ws| {
      JoinedAppend(ws, n);
      JoinedBound(ws, n + 1);
    } else {
      assert ws[..n] == ws;
    }
  }
}
