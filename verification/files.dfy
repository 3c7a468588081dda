/** Table files, the user-key ranges they span, and sorted levels (db/version_edit.h, db/version_set). */
module Files {
  import opened DbFormat

  datatype FileData = FileData(number: nat, size: nat, entries: seq<Entry>)

  // A table file is never empty, and holds its entries in internal key order.
  type File = f: FileData | f.entries != [] && Sorted(f.entries)
    witness FileData(0, 0, [Entry(0, 0, Delete)])

  function Smallest(f: File): Entry {
    f.entries[0]
  }

  function Largest(f: File): Entry {
    f.entries[|f.entries| - 1]
  }

  function Lo(f: File): UserKey {
    Smallest(f).key
  }

  function Hi(f: File): UserKey {
    Largest(f).key
  }

  predicate InRange(f: File, k: UserKey) {
    Lo(f) <= k <= Hi(f)
  }

  predicate Overlaps(f: File, lo: UserKey, hi: UserKey) {
    Lo(f) <= hi && lo <= Hi(f)
  }

  lemma EntriesInRange(f: File)
    ensures forall e :: e in f.entries ==> InRange(f, e.key)
  {
  }

  // A level below level 0: files follow each other in internal key order.
  predicate LevelSorted(fs: seq<File>) {
    forall i, j :: 0 <= i < j < |fs| ==> Before(Largest(fs[i]), Smallest(fs[j]))
  }

  ghost function FileEntries(fs: seq<File>): set<Entry> {
    set f, e | f in fs && e in f.entries :: e
  }
}
