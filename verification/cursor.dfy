/** What every internal iterator is: a cursor over a sorted sequence of entries. */
module Cursors {
  import opened DbFormat

  const NOWHERE := -1

  /** The first entry a seek does not skip. */
  ghost predicate SeekPoint(items: seq<Entry>, k: UserKey, s: nat, pos: int) {
    if pos == NOWHERE then forall i :: 0 <= i < |items| ==> !AtOrAfter(items[i], k, s)
    else 0 <= pos < |items| && AtOrAfter(items[pos], k, s) && forall i :: 0 <= i < pos ==> !AtOrAfter(items[i], k, s)
  }

  class Cursor {
    const items: seq<Entry>
    var pos: int

    predicate Valid()
      reads this
    {
      0 <= pos < |items|
    }

    constructor (items: seq<Entry>)
      ensures this.items == items && pos == NOWHERE
    {
      this.items := items;
      pos := NOWHERE;
    }

    method SeekToFirst()
      modifies this
      ensures pos == if items == [] then NOWHERE else 0
    {
      pos := if items == [] then NOWHERE else 0;
    }

    method SeekToLast()
      modifies this
      ensures pos == |items| - 1
    {
      pos := |items| - 1;
    }

    method Next()
      requires Valid()
      modifies this
      ensures pos == if old(pos) + 1 == |items| then NOWHERE else old(pos) + 1
    {
      pos := if pos + 1 == |items| then NOWHERE else pos + 1;
    }

    method Prev()
      requires Valid()
      modifies this
      ensures pos == old(pos) - 1
    {
      pos := pos - 1;
    }

    method Seek(k: UserKey, s: nat)
      modifies this
      ensures SeekPoint(items, k, s, pos)
    {
      var i := 0;
      while i < |items| && !AtOrAfter(items[i], k, s)
        invariant i <= |items| && forall j :: 0 <= j < i ==> !AtOrAfter(items[j], k, s)
      {
        i := i + 1;
      }
      pos := if i == |items| then NOWHERE else i;
    }
  }
}
