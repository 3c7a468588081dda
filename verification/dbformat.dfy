/** Internal keys, entries and what a read at a sequence number means (db/dbformat). */
module DbFormat {

  datatype Option<+T> = None | Some(value: T)

  // A user key is its rank in the total order of the user-supplied comparator.
  type UserKey = int

  // An opaque payload: no operation below looks inside a value.
  type Value = int

  const NUM_LEVELS := 7
  const MAX_MEM_COMPACT_LEVEL := 2

  datatype Op = Delete | Put(value: Value)

  const MAX_SEQUENCE: nat := 0xff_ffff_ffff_ffff

  type SequenceNumber = n: nat | n <= MAX_SEQUENCE

  // One versioned write.
  datatype Entry = Entry(key: UserKey, sn: SequenceNumber, op: Op)

  datatype InternalKey = InternalKey(ukey: UserKey, sn: nat, vtype: nat)

  const TYPE_DELETION := 0
  const TYPE_VALUE := 1
  const TYPE_FOR_SEEK := TYPE_VALUE

  function Pack(sn: nat, vtype: nat): nat {
    sn * 256 + vtype
  }

  /** InternalKeyComparator::Compare: ascending user key, then descending packed sequence number and type. */
  function Compare(a: InternalKey, b: InternalKey): int {
    if a.ukey < b.ukey then -1
    else if a.ukey > b.ukey then 1
    else if Pack(a.sn, a.vtype) > Pack(b.sn, b.vtype) then -1
    else if Pack(a.sn, a.vtype) < Pack(b.sn, b.vtype) then 1
    else 0
  }

  function KeyOf(e: Entry): InternalKey {
    InternalKey(e.key, e.sn, if e.op.Delete? then TYPE_DELETION else TYPE_VALUE)
  }

  function LookupKey(k: UserKey, s: nat): InternalKey {
    InternalKey(k, s, TYPE_FOR_SEEK)
  }

  /** The order of entries: distinct entries of a database never share a sequence number. */
  predicate Before(a: Entry, b: Entry) {
    a.key < b.key || (a.key == b.key && a.sn > b.sn)
  }

  /** Not skipped by a seek to user key `k` at sequence number `s`. */
  predicate AtOrAfter(e: Entry, k: UserKey, s: nat) {
    e.key > k || (e.key == k && e.sn <= s)
  }

  /** The packed comparison is exactly the order of entries, and a lookup key skips exactly the entries that are
      too new: tagging the seek key with the highest-numbered type makes both types at sequence `s` visible. */
  lemma CompareIsEntryOrder(a: Entry, b: Entry, k: UserKey, s: nat)
    requires a.key == b.key && a.sn == b.sn ==> a == b
    ensures Compare(KeyOf(a), KeyOf(b)) < 0 <==> Before(a, b)
    ensures Compare(KeyOf(a), KeyOf(b)) == 0 <==> a == b
    ensures Compare(KeyOf(a), LookupKey(k, s)) >= 0 <==> AtOrAfter(a, k, s)
  {
  }

  /** The packed tag of an entry gives back its sequence number, and whether it is a value or a deletion. */
  lemma TagBack(e: Entry)
    ensures var tag := Pack(KeyOf(e).sn, KeyOf(e).vtype);
            tag / 256 == e.sn && (tag % 256 == 1 <==> e.op.Put?) && (tag % 256 == 0 <==> e.op.Delete?)
  {
    assert e.sn * 256 % 256 == 0;
  }

  predicate Sorted(r: seq<Entry>) {
    forall i, j :: 0 <= i < j < |r| ==> Before(r[i], r[j])
  }

  /** What every sorted structure (skip list, table) answers to a lookup: seek, then compare user keys. */
  function Lookup(r: seq<Entry>, k: UserKey, s: nat): Option<Entry> {
    if r == [] then None
    else if AtOrAfter(r[0], k, s) then (if r[0].key == k then Some(r[0]) else None)
    else Lookup(r[1..], k, s)
  }

  // ---- Meaning: a database is a set of entries; a read at s sees the newest entry not newer than s ----

  predicate Visible(e: Entry, k: UserKey, s: nat) {
    e.key == k && e.sn <= s
  }

  ghost predicate Newest(es: set<Entry>, k: UserKey, s: nat, e: Entry) {
    e in es && Visible(e, k, s) && forall d :: d in es && Visible(d, k, s) ==> d.sn <= e.sn
  }

  ghost predicate Versioned(es: set<Entry>) {
    forall a, b :: a in es && b in es && a.sn == b.sn ==> a == b
  }

  ghost function Find(es: set<Entry>, k: UserKey, s: nat): Option<Entry> {
    if exists e :: Newest(es, k, s, e) then
      var e :| Newest(es, k, s, e); Some(e)
    else None
  }

  function Result(o: Option<Entry>): Option<Value> {
    if o.Some? && o.value.op.Put? then Some(o.value.op.value) else None
  }

  /** The specification of DB::Get: the value of the newest visible entry, if that entry is not a deletion. */
  ghost function Read(es: set<Entry>, k: UserKey, s: nat): Option<Value> {
    Result(Find(es, k, s))
  }

  lemma FindNewest(es: set<Entry>, k: UserKey, s: nat, e: Entry)
    requires Versioned(es) && Newest(es, k, s, e)
    ensures Find(es, k, s) == Some(e)
  {
  }

  /** A finite set with a visible entry has a newest one. */
  lemma {:induction false} NewestExists(es: set<Entry>, k: UserKey, s: nat, e: Entry) returns (n: Entry)
    requires e in es && Visible(e, k, s)
    ensures Newest(es, k, s, n)
    decreases es
  {
    if d :| d in es && Visible(d, k, s) && d.sn > e.sn {
      var rest := es - {e};
      n := NewestExists(rest, k, s, d);
      assert es == rest + {e};
    } else {
      n := e;
    }
  }

  lemma FindNone(es: set<Entry>, k: UserKey, s: nat)
    ensures Find(es, k, s) == None <==> forall e :: e in es ==> !Visible(e, k, s)
  {
    if e :| e in es && Visible(e, k, s) {
      var n := NewestExists(es, k, s, e);
    }
  }

  lemma FindSome(es: set<Entry>, k: UserKey, s: nat)
    requires Find(es, k, s).Some?
    ensures Newest(es, k, s, Find(es, k, s).value)
  {
  }

  ghost predicate Newer(a: set<Entry>, b: set<Entry>) {
    forall x, y :: x in a && y in b && x.key == y.key ==> x.sn > y.sn
  }

  /** Searching newer data first and older data only on a miss is a read of the union. */
  lemma FindLayered(a: set<Entry>, b: set<Entry>, k: UserKey, s: nat)
    requires Versioned(a + b) && Newer(a, b)
    ensures Find(a + b, k, s) == if Find(a, k, s).Some? then Find(a, k, s) else Find(b, k, s)
  {
    FindNone(a, k, s);
    FindNone(b, k, s);
    FindNone(a + b, k, s);
    if Find(a, k, s).Some? {
      FindSome(a, k, s);
      FindNewest(a + b, k, s, Find(a, k, s).value);
    } else if Find(b, k, s).Some? {
      FindSome(b, k, s);
      FindNewest(a + b, k, s, Find(b, k, s).value);
    }
  }

  // Dropping `d` from `a`, leaving `b`, is invisible to a read of `k` at `s`: a newer entry already hid it, or it is
  // a deletion and nothing it hid is left.
  ghost predicate Droppable(a: set<Entry>, b: set<Entry>, k: UserKey, s: nat, d: Entry) {
    || (exists e :: e in a && Visible(e, k, s) && e.sn > d.sn)
    || (d.op.Delete? && forall e :: e in b && Visible(e, k, s) ==> e.sn > d.sn)
  }

  // The same entry, or nothing in place of a deletion.
  predicate Matches(r: Option<Entry>, t: Option<Entry>) {
    r == t || (r.None? && t.value.op.Delete?)
  }

  lemma DroppingIsInvisible(a: set<Entry>, b: set<Entry>, k: UserKey, s: nat)
    requires b <= a && Versioned(a)
    requires forall d :: d in a && d !in b && Visible(d, k, s) ==> Droppable(a, b, k, s, d)
    ensures Matches(Find(b, k, s), Find(a, k, s))
  {
    FindNone(a, k, s);
    FindNone(b, k, s);
    if Find(a, k, s).Some? {
      FindSome(a, k, s);
      var t := Find(a, k, s).value;
      if t in b {
        FindNewest(b, k, s, t);
      }
    }
  }

  /** Runs of entries read one after the other. */
  function Flat(runs: seq<seq<Entry>>): seq<Entry> {
    if runs == [] then [] else Flat(runs[..|runs| - 1]) + runs[|runs| - 1]
  }

  function Elems(r: seq<Entry>): set<Entry> {
    set e | e in r
  }

  /** Seeking in a sorted run finds the newest visible entry. */
  lemma {:induction false} LookupIsFind(r: seq<Entry>, k: UserKey, s: nat)
    requires Sorted(r)
    ensures Lookup(r, k, s) == Find(Elems(r), k, s)
  {
    FindNone(Elems(r), k, s);
    if r != [] {
      if AtOrAfter(r[0], k, s) {
        if r[0].key == k {
          assert Newest(Elems(r), k, s, r[0]);
          assert forall e :: Newest(Elems(r), k, s, e) ==> e == r[0];
        }
      } else {
        LookupIsFind(r[1..], k, s);
        assert forall e :: Newest(Elems(r), k, s, e) <==> Newest(Elems(r[1..]), k, s, e);
        FindNone(Elems(r[1..]), k, s);
        if Find(Elems(r), k, s).Some? {
          FindSome(Elems(r), k, s);
          SortedOneNewest(r, k, s, Find(Elems(r), k, s).value, Find(Elems(r[1..]), k, s).value);
        }
      }
    }
  }

  lemma SortedOneNewest(r: seq<Entry>, k: UserKey, s: nat, a: Entry, b: Entry)
    requires Sorted(r) && Newest(Elems(r), k, s, a) && Newest(Elems(r), k, s, b)
    ensures a == b
  {
  }
}
