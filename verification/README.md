# Models of the storage engine and the coroutine runtime

The proxy rests on two libraries: a log-structured key-value store (LevelDB) and a coroutine runtime (libgo). This
project models the parts of both that have to be right for anything above them to be right, and proves what they
promise.

## The storage engine

* **The tree of tables as a state machine** (`engine*.dfy`, over `dbformat`, `files`, `versions`, `picking`,
  `compaction`, `reading`). Steps are writes, memtable switches, flushes, compaction picks and installs, trivial moves,
  taking or releasing snapshots, and crashes with the reopen after them; flushes and writes may fall between a pick and
  its install. The specification is the set of all entries ever written, read at a sequence number.
  `EngineRuns.SnapshotFreeRuns` and `EngineRuns.SnapshotFreeGet` are the whole-run theorems for runs without snapshots.
* **What a client sees** (`map_runs.dfy`). The history reads as a plain map that batches update, and at a snapshot as that
  map was when the snapshot was taken (`MapRuns.HistoryIsMap`, `MapRuns.SnapshotIsMap`).
* **Which files are compacted and where outputs end** (`picking`, `pick_rounds`, `compaction_outputs`): size-triggered picks
  reach every file of a level in turn, and no output passes too much of the level after next.
* **Where the engine falls short, and exactly when** (`straddle.dfy`). Output tables are cut by size and not at a
  user-key boundary, and a pick below level 0 may take one file alone. Once a snapshot has kept two versions of a key in
  one level, a move (`StraddleRun.SnapshotsBreakGet`) or a merge (`MergeRun.MergeBreaksGet`) can push the newer version
  below the older, and a merge can drop a tombstone and leave what it hid (`DeletionRun.MergeRevivesKey`). An entry is
  live if it is the right answer at a snapshot still held or at the last sequence number. `Straddle.MoveIsCorrectExactlyIf`
  and `Straddle.MergeIsCorrectExactlyIf` say exactly which moves and merges leave every readable answer right, by the
  files and live entries the step meets; `Straddle.RunIsCorrectExactlyIf` lifts this to whole runs: Get is right
  throughout if and only if every merge and move met the condition. An answer is right if it is the newest entry itself,
  or nothing where that entry is a tombstone; an older entry counts as wrong even where a client could not tell, because
  it carries the same value or is a tombstone like the newest.
* **What iterators see** (`iterator_runs.dfy`). An iterator merges memtables and all tables, so a version that sinks below
  an older one is still found. `IteratorRuns.IteratorsAreRightExactlyIf` is stated on the keys and values shown: over
  whole runs they are the history's if and only if no merge drops a live deletion above a value that then shows through.
* **Durability** (`durability*.dfy`). Logs, manifest, versions with reference counts, unfinished outputs, garbage
  collection, crash and reopen. `DurabilitySteps.EveryRunRecovers` and `DurabilitySteps.DeleteIsSafe`.
* **Engine and disk together** (`joint.dfy`, `joint_runs.dfy`). Both machines take their steps side by side, related by
  what manifest, tables and logs hold; every step keeps the relation. `JointRuns.CrashIsReopening` derives from it that a
  recovery is the engine's reopening, and `JointRuns.RunsAreEngineRuns` carries the theorems on engine runs over.
* **Group commit** (`write_batch.dfy`, `group_writes.dfy`): the writer queue as interleaved steps.
* **Iterators and search structures** (`db_iter`, `merger`, `two_level`, `block_iter`, `skiplist`, `skiplist_runs`):
  each is shown to be a cursor over one sorted sequence, the skip list also while a node is being linked in.
* **Formats** (`coding`, `version_edit`, `manifest`, `builder`, `log`, `log_runs`, `block`, `filter_block`, `bloom`,
  `table`): writers and readers that undo each other, the log also under truncation at any byte and under damage to a
  fragment (`log_damage.dfy`); `formats.dfy` pins the bytes themselves on sample values.

## The coroutine runtime

* **BlockObject** (`block_object.dfy`): the check for a signal and the wait are separate, and the dispatcher looks a
  second time. When that second look succeeds the coroutine keeps its blocked state, and a later plain yield sends it into
  the wait again. `BlockObjects.YieldLosesSignal` loses a signal this way; `BlockObjects.StraightExactlyIf` says that
  signals are conserved and only open waits are queued exactly if no coroutine yields in that state and comes back to the
  dispatcher. `BlockObjects.WaitEndsByItsOwn` settles the race of signals and timers.
* **Channel and CoRWMutex** (`channel.dfy`, `rwmutex.dfy`) are safe in every interleaving, signals stored or lost
  between a check and its wait included. `Channels.DeliversExactlyIf` says when no item is left without its signal.
  The leftover state can shut the lock for good: `RwMutexes.AdmitsExactlyIf` says that a newcomer can still get in exactly
  while no coroutine has yielded in that state, and `RwMutexes.WriterParksItself` is a run in which a writer ends up
  waiting for itself.
* **Queues** (`ts_queue.dfy`, `skip_queue.dfy`): the intrusive lists refine sequences, link by link.

User keys appear as their rank in the comparator's order and values as opaque tokens; sequence numbers, levels and
byte layouts are the program's own. Class fields stand for the objects' fields; the hooks of the intrusive queues live
in maps from address to link.

## Model

| member | source | states |
|---|---|---|
| DbFormat.CompareIsEntryOrder | ic-dpi/ic-leveldb/db/dbformat.cc:50-66 | the packed comparison orders entries by user key, then newest first, and a lookup key skips exactly the entries too new for its snapshot |
| DbFormat.TagBack | ic-dpi/ic-leveldb/db/dbformat.h:166-176 | the packed tag gives back the sequence number and says whether the entry is a value or a deletion |
| DbFormat.LookupIsFind | ic-dpi/ic-leveldb/db/memtable.cc:108-143 | seek-then-compare in a sorted run returns the newest visible entry of the key, nothing if there is none |
| DbFormat.FindLayered | ic-dpi/ic-leveldb/db/db_impl.cc:1117-1163 | asking newer data first and older data only on a miss equals reading their union |
| DbFormat.DroppingIsInvisible | ic-dpi/ic-leveldb/db/db_impl.cc:959-979 | entries each hidden by a newer visible entry, or tombstones with nothing older left, may go: the newest visible entry stays the same, or was such a tombstone and nothing is found |
| Versions.FindFile | ic-dpi/ic-leveldb/db/version_set.cc:86-105 | binary search returns the first file whose largest key is not before the lookup key |
| Versions.SomeFileOverlapsRange | ic-dpi/ic-leveldb/db/version_set.cc:121-156 | true exactly if some file of the level meets the user-key range, in level 0 by scanning and in sorted levels by one binary search |
| Versions.GetOverlappingInputs | ic-dpi/ic-leveldb/db/version_set.cc:531-573 | terminates although level 0 restarts its scan, and returns without duplicates exactly the files meeting the least range closed under overlap that contains the one asked for |
| Picking.PickLevelForMemTableOutput | ic-dpi/ic-leveldb/db/version_set.cc:502-528 | the level is as deep as it may be: below level 0 no file of it or above meets the new table, no level passed has too heavy grandparents, and it stops short only for an overlap or for those |
| Picking.GetRange | ic-dpi/ic-leveldb/db/version_set.cc:1229-1249 | the least and greatest internal key of the inputs |
| Picking.SetupOtherInputs | ic-dpi/ic-leveldb/db/version_set.cc:1350-1409 | the next level's inputs are exactly the files that meet the inputs' span; the inputs grow to all files that meet the common span exactly if that adds files, none to the next level's, within the size limit; no user key of the common span is without an input; the pointer is the greatest key compacted |
| Picking.PickCompaction | ic-dpi/ic-leveldb/db/version_set.cc:1296-1348 | the compaction is for the seeked file, or for the first file past the level's pointer and the level's first if there is none, completed in that way; the pointer moves to the greatest key compacted and no other pointer moves |
| PickRounds.PickBySize | ic-dpi/ic-leveldb/db/version_set.cc:1296-1348 | each size-triggered pick is one turn of the rounds below |
| PickRounds.EveryFileHasItsTurn | ic-dpi/ic-leveldb/db/version_set.cc:1303-1322 | wherever the pointer was, as many size-triggered picks as an unchanged level has files compact every one of them |
| CompactionLoop.BaseLevelCursor.IsBaseLevelForKey | ic-dpi/ic-leveldb/db/version_set.cc:1482-1501 | for keys asked in ascending order the never-rewound pointers answer like a full scan of every deeper level |
| CompactionOutputs.DoCompactionWork | ic-dpi/ic-leveldb/db/db_impl.cc:893-1053 | the loop writes exactly the outputs characterised below; nothing at all if the smallest snapshot were the largest sequence number |
| CompactionOutputs.GrandparentCursor.ShouldStopBefore | ic-dpi/ic-leveldb/db/version_set.cc:1503-1526 | for keys asked in ascending order: whether the files of the level after next that were passed since it last said so exceed the limit |
| CompactionOutputs.OutputsAreSurvivors | ic-dpi/ic-leveldb/db/db_impl.cc:893-1053 | together the outputs are the surviving entries, in order, and none is empty |
| CompactionOutputs.OutputsPassLittle | ic-dpi/ic-leveldb/db/version_set.cc:1503-1526 | from its first to its last key no output passes more than the limit's bytes of the level after next |
| CompactionOutputs.PassedAre | ic-dpi/ic-leveldb/db/version_set.cc:1503-1513 | in a sorted level the files passed between two keys are exactly those that end from the first key on and before the second |
| CompactionOutputs.CutsAreNeeded | ic-dpi/ic-leveldb/db/db_impl.cc:938-1000 | every output but the last was closed for its size or because that limit was exceeded |
| CompactionOutputs.BigIsClosed | ic-dpi/ic-leveldb/db/db_impl.cc:996-1003 | an output that has reached its size is closed at once |
| CompactionLoop.DropPreservesReads | ic-dpi/ic-leveldb/db/db_impl.cc:906-979 | at any user key and any sequence number from the smallest snapshot up, outputs plus the rest of the database answer like inputs plus the rest, unless a tombstone dropped as obsolete is the newest visible entry and the rest holds an older one |
| CompactionLoop.OneVersionSurvives | ic-dpi/ic-leveldb/db/db_impl.cc:941-979 | without older snapshots at most one entry per user key survives a compaction |
| CompactionLoop.SurvivorsSorted | ic-dpi/ic-leveldb/db/db_impl.cc:921-1000 | what survives of a sorted input is sorted |
| EngineSteps.WriteKeepsInv | ic-dpi/ic-leveldb/db/db_impl.cc:1203-1274 | a batch enters the memtable with sequence numbers above everything stored and is part of the history at once |
| EngineSteps.SwitchKeepsInv | ic-dpi/ic-leveldb/db/db_impl.cc:1328-1389 | switching memtables moves data, loses none and keeps the age order |
| EngineSteps.SnapshotKeepsInv | ic-dpi/ic-leveldb/db/snapshot.h:51-64 | a new snapshot is readable from the start and kept in order; what it shows is stated by MapRuns.SnapshotIsMap |
| EngineSteps.ReleaseKeepsInv | ic-dpi/ic-leveldb/db/snapshot.h:73-80 | releasing any snapshot leaves the others readable |
| EngineSteps.PickEstablishes | ic-dpi/ic-leveldb/db/version_set.cc:1296-1409 | every pick: the next level's inputs are exactly those that meet the inputs' span, the common span has no gap, and in level 0 what stays behind is newer |
| EngineSteps.PickKeepsInv | ic-dpi/ic-leveldb/db/db_impl.cc:893-911 | every pick: the smallest snapshot read with it bounds every snapshot live then or taken while the compaction runs |
| EngineSteps.FlushKeepsInv | ic-dpi/ic-leveldb/db/db_impl.cc:493-570 | a flush at the picked level, even between another compaction's pick and install, keeps levels sorted, live entries above older ones, and all reads |
| EngineSteps.ReopenKeepsInv | ic-dpi/ic-leveldb/db/db_impl.cc:279-491 | a crash followed by a reopen that replays the logs into new level-0 tables loses no entry, keeps live entries above older ones, and leaves every read at the last sequence number as it was |
| EngineInstall.InstallKeepsReads | ic-dpi/ic-leveldb/db/db_impl.cc:872-1053 | installing a merge that is closed under user key changes no answer at any sequence number a client can still read |
| EngineInstall.InstallKeepsInv | ic-dpi/ic-leveldb/db/db_impl.cc:872-891 | installing such a merge keeps the engine invariant, with flushes between pick and install allowed |
| EngineInstall.InstallKeepsShape | ic-dpi/ic-leveldb/db/db_impl.cc:872-891 | installing any merge whatever keeps levels sorted, file numbers unique and every entry stored once |
| EngineInstall.MoveKeepsInv | ic-dpi/ic-leveldb/db/db_impl.cc:723-741 | a trivial move keeps the engine invariant if the moved file holds no live version of a key that goes on in its level |
| Reading.Level0Candidates | ic-dpi/ic-leveldb/db/version_set.cc:357-373 | the level-0 files whose range holds the key, each once, newest first |
| Reading.LevelCandidate | ic-dpi/ic-leveldb/db/version_set.cc:374-390 | in a sorted level only the file found by binary search can answer |
| Reading.VersionGet | ic-dpi/ic-leveldb/db/version_set.cc:332-429 | Get stops at the first file, in search order, that answers the key and returns that answer |
| EngineRuns.DbGet | ic-dpi/ic-leveldb/db/db_impl.cc:1117-1163 | DBImpl::Get tries memtable, immutable memtable and version, in that order |
| EngineRuns.SearchIsFind | ic-dpi/ic-leveldb/db/version_set.cc:332-429 | where no live entry lies below an older entry of its key, the early-exit search finds every answer that is live |
| EngineRuns.GetIsRead | ic-dpi/ic-leveldb/db/db_impl.cc:1117-1163 | in every good state a Get at a snapshot or at the last sequence number, even with writes landing meanwhile, equals a read of the whole history |
| EngineRuns.ClosedRunsKeepInv | ic-dpi/ic-leveldb/db/db_impl.cc:692-775 | with any snapshots held, and crashes included, every run whose merges and moves are closed under user key keeps the invariant |
| EngineRuns.ClosedRunsReadSnapshots | ic-dpi/ic-leveldb/db/db_impl.cc:1117-1192 | in such runs every live snapshot and the latest state read exactly the history |
| EngineRuns.SnapshotFreeRuns | ic-dpi/ic-leveldb/db/db_impl.cc:692-775 | in every run without snapshots, crashes included, levels below 0 stay sorted and share no user key, and every key's entries get older with depth, with no condition on the compactions |
| EngineRuns.SnapshotFreeGet | ic-dpi/ic-leveldb/db/db_impl.cc:1117-1163 | in every such run Get returns the latest write |
| MapRuns.HistoryIsMap | ic-dpi/ic-leveldb/db/db_impl.cc:1203-1274 | in every run a read of the history at the last sequence number is a lookup in the plain map that the batches update, each batch's operations in order |
| MapRuns.SnapshotIsMap | ic-dpi/ic-leveldb/db/db_impl.cc:1184-1192 | in every run, for as long as a snapshot is held, whatever others are released, the history reads at it as the map was when it was taken |
| MapRuns.GetIsLookup | ic-dpi/ic-leveldb/db/db_impl.cc:1117-1163 | while merges and moves are closed under user key, Get is a lookup in the map |
| MapRuns.SnapshotGetIsLookup | ic-dpi/ic-leveldb/db/db_impl.cc:1117-1192 | and Get at a held snapshot is a lookup in the map as it was when the snapshot was taken |
| MapRuns.SnapshotFreeGetIsLookup | ic-dpi/ic-leveldb/db/db_impl.cc:1117-1163 | in runs without snapshots, crashes included, Get is a lookup in the map with no condition |
| MapRuns.IteratorListsMap | ic-dpi/ic-leveldb/db/db_impl.cc:1165-1175 | while no merge revives a deleted key, an iterator shows exactly the keys and values of the map |
| MapRuns.SnapshotIteratorListsMap | ic-dpi/ic-leveldb/db/db_impl.cc:1165-1187 | and at a held snapshot exactly those of the map as it was when the snapshot was taken |
| Straddle.MoveIsCorrectExactlyIf | ic-dpi/ic-leveldb/db/db_impl.cc:723-741 | from a good state, a trivial move leaves every Get at a readable sequence number right if and only if the moved file holds no version of its last user key that is live while another file of the level goes on with that key |
| Straddle.MergeIsCorrectExactlyIf | ic-dpi/ic-leveldb/db/db_impl.cc:872-1053 | from a good state, a merge leaves every Get at a readable sequence number right if and only if no live version of a key sinks below older versions its level keeps, and no live tombstone is dropped while the next level keeps older versions of its key |
| Straddle.RunIsCorrectExactlyIf | ic-dpi/ic-leveldb/db/db_impl.cc:692-775 | in any run, with any snapshots, flushes between pick and install, and crashes: Get is right at every readable sequence number in every state up to the n-th if and only if every merge and move before it met that condition |
| Straddle.MoveKeepsSearchExactlyIf | ic-dpi/ic-leveldb/db/db_impl.cc:723-741 | counting also sequence numbers nobody can read any more, a move keeps every search correct if and only if no other file of the level goes on with the moved file's last user key |
| StraddleRun.SnapshotsBreakGet | ic-dpi/ic-leveldb/db/db_impl.cc:1005-1011 | one concrete run with one snapshot held after which Get of the latest state returns the overwritten value although the newest version is stored |
| MergeRun.MergeBreaksGet | ic-dpi/ic-leveldb/db/db_impl.cc:1005-1011 | one concrete run with one snapshot held whose last step is a merge of two levels, after which Get of the latest state returns an overwritten value |
| DeletionRun.MergeRevivesKey | ic-dpi/ic-leveldb/db/db_impl.cc:959-972 | one concrete run, all snapshots released, whose last merge drops a tombstone while the next file keeps what it hid: Get of the deleted key answers the old value |
| Durability.RecoverManifest | ic-dpi/ic-leveldb/db/version_set.cc:906-1030 | replaying manifest records equals folding their edits; missing mandatory fields are an error |
| DurabilityInv.RecoveryIsExact | ic-dpi/ic-leveldb/db/db_impl.cc:279-491 | in every invariant state, manifest plus the logs numbered from log_number on rebuild exactly the entries and last sequence number held, plus at most the one batch logged and not yet applied, nothing twice |
| DurabilitySteps.LogKeepsInv | ic-dpi/ic-leveldb/db/db_impl.cc:1227-1233 | appending a batch to the log before applying it keeps recovery exact |
| DurabilitySteps.SwitchKeepsInv | ic-dpi/ic-leveldb/db/db_impl.cc:1366-1386 | opening a new log while the old memtable waits keeps recovery exact |
| DurabilitySteps.FinishFlushKeepsInv | ic-dpi/ic-leveldb/db/db_impl.cc:539-570 | a flush's edit names the log it still needs; writes going on meanwhile are safe |
| DurabilitySteps.AppendKeepsInv | ic-dpi/ic-leveldb/db/version_set.cc:821-904 | the manifest record written with the mutex released describes the version about to be installed |
| DurabilitySteps.InstallKeepsInv | ic-dpi/ic-leveldb/db/version_set.cc:804-904 | installing the version written to the manifest keeps recovery and reference counts exact |
| DurabilitySteps.ReleaseKeepsInv | ic-dpi/ic-leveldb/db/version_set.cc:482-493 | reference counts stay exact when a holder lets go, so a version leaves the list with its last holder |
| DurabilitySteps.DeleteIsSafe | ic-dpi/ic-leveldb/db/db_impl.cc:221-277 | DeleteObsoleteFiles removes no table of a version somebody holds, none being written, and no log an unflushed memtable needs |
| DurabilitySteps.DeleteLeavesOnlyNeeded | ic-dpi/ic-leveldb/db/db_impl.cc:221-277 | and it leaves only tables of the current version, of one somebody holds, or being written, and logs a recovery replays |
| DurabilitySteps.ReopenRestores | ic-dpi/ic-leveldb/db/db_impl.cc:279-368 | after a crash and a reopen the database holds what a recovery of the old state gives, with nothing left to replay |
| DurabilitySteps.RecoveryIsPossible | ic-dpi/ic-leveldb/db/db_impl.cc:279-491 | from every invariant state some recovery exists |
| DurabilitySteps.EveryRunRecovers | ic-dpi/ic-leveldb/db/db_impl.cc:279-491 | in every state of every run, reopenings included, a recovery is exact |
| JointRuns.LogsHoldMemtables | ic-dpi/ic-leveldb/db/db_impl.cc:370-491 | whenever the process dies, the logs a recovery replays hold what the engine's memtables held, and the batch logged last |
| JointRuns.CrashIsReopening | ic-dpi/ic-leveldb/db/db_impl.cc:279-491 | whatever tables a recovery dumps, the engine has a reopening that stores just those, with the dumped tables in level 0 beside the version the manifest names |
| JointRuns.RunsStayGood | ic-dpi/ic-leveldb/db/db_impl.cc:493-570 | in every joint run, crashes included: the manifest names the engine's version, the tables hold its files, and both sides hold the same memtables and last sequence number |
| JointRuns.RunsAreEngineRuns | ic-dpi/ic-leveldb/db/db_impl.cc:692-775 | the engine of every joint run is at the end of a run of the engine alone that writes the same map, with no snapshot if none was taken, so all that is proved of those runs holds |
| JointRuns.CrashLosesNothing | ic-dpi/ic-leveldb/db/db_impl.cc:279-491 | in every joint run a crash and the recovery after it keep every write and every stored entry, and add the batch that had reached the log |
| JointRuns.LoggedIsStored | ic-dpi/ic-leveldb/db/db_impl.cc:1203-1274 | every batch logged has taken effect once and in order, by being applied or by being replayed, but for one still on its way |
| JointRuns.MergeCanBeRecorded | ic-dpi/ic-leveldb/db/db_impl.cc:872-891 | every merge whose outputs are written can be made out as an edit and recorded |
| JointRuns.MoveCanBeRecorded | ic-dpi/ic-leveldb/db/db_impl.cc:723-741 | every trivial move can be made out as an edit and recorded |
| JointRuns.GetAcrossCrashes | ic-dpi/ic-leveldb/db/db_impl.cc:1117-1163 | in every joint run without snapshots Get is a lookup in the map made by all batches that ever reached a log, whatever crashes came before, but for one still on its way to the memtable |
| VersionBuilder.Builder.Apply | ic-dpi/ic-leveldb/db/version_set.cc:666-710 | after any edits the builder's state equals applying each edit delete-then-add |
| VersionBuilder.SaveLevel | ic-dpi/ic-leveldb/db/version_set.cc:712-757 | one merge pass gives the ordered list of exactly the files not deleted |
| VersionBuilder.SaveTo | ic-dpi/ic-leveldb/db/version_set.cc:712-773 | per level, in order, exactly the files left by the edits applied one by one |
| VersionBuilder.OrderedListUnique | ic-dpi/ic-leveldb/db/version_set.cc:712-757 | the ordered list of a set of files is unique, so the saved version is the only possible one |
| Coding.VarintRoundTrip | ic-dpi/ic-leveldb/util/coding.cc:81-158 | a varint reads back as its number and leaves exactly what followed it |
| Coding.EncodeVarint32IsVarint | ic-dpi/ic-leveldb/util/coding.cc:47-73 | the unrolled encoder writes the same bytes as the general one |
| Coding.EncodeVarint64 | ic-dpi/ic-leveldb/util/coding.cc:81-90 | the loop writes seven bits a byte, least significant first |
| Coding.GetVarintPtr | ic-dpi/ic-leveldb/util/coding.cc:112-158 | on any bytes: the number spelled within the byte limit, cut to the machine word, or failure |
| Coding.VarintLengthBound | ic-dpi/ic-leveldb/util/coding.cc:75-96 | a 32-bit number takes at most 5 bytes and a 64-bit number at most 10 (7 bits a byte) |
| Coding.GetPutSlice | ic-dpi/ic-leveldb/util/coding.cc:98-192 | length-prefixed strings round trip and are self-delimiting |
| Coding.LongSliceIsCut | ic-dpi/ic-leveldb/util/coding.cc:98-101 | the round trip holds if and only if the length fits in 32 bits |
| Coding.FixedRoundTrip | ic-dpi/ic-leveldb/util/coding.cc:9-45 | fixed-width little-endian numbers round trip |
| VersionEdits.EncodeTo | ic-dpi/ic-leveldb/db/version_edit.cc:41-86 | appends the edit's fields in the order and form the decoder expects |
| VersionEdits.DecodeFrom | ic-dpi/ic-leveldb/db/version_edit.cc:109-210 | on any bytes: all fields in order, or a corruption status for a bad tag, level or payload |
| VersionEdits.FieldsBack | ic-dpi/ic-leveldb/db/version_edit.cc:41-210 | any sequence of encoded fields parses back to itself |
| VersionEdits.EditRoundTrip | ic-dpi/ic-leveldb/db/version_edit.cc:41-210 | decoding an encoded edit gives the edit back |
| Manifest.SnapshotFirst | ic-dpi/ic-leveldb/db/version_set.cc:1107-1135 | starting from a snapshot record over an empty version equals starting from that version |
| Manifest.StepByStep | ic-dpi/ic-leveldb/db/version_set.cc:821-904 | versions made one edit at a time hold what all the edits together give |
| Manifest.Recover | ic-dpi/ic-leveldb/db/version_set.cc:906-1030 | decoding the records and applying them to one builder gives, ordered, the files of the edits one by one |
| Manifest.RecoveredIsCurrent | ic-dpi/ic-leveldb/db/version_set.cc:906-1030 | the version rebuilt from the snapshot record and the run's edits is the current version |
| Manifest.ManifestFresh | ic-dpi/ic-leveldb/db/version_set.cc:1107-1135 | a manifest written by such a run never adds a file number to a level twice |
| DbIterator.ShownIsRead | ic-dpi/ic-leveldb/db/db_iter.cc:173-203 | an entry the iterator may show carries the value a read of its key returns |
| DbIterator.ReadIsShown | ic-dpi/ic-leveldb/db/db_iter.cc:173-203 | every key that reads as present has such an entry |
| DbIterator.DBIter.FindNextUserEntry | ic-dpi/ic-leveldb/db/db_iter.cc:173-203 | the first entry to show from here on, skipping hidden and deleted keys |
| DbIterator.DBIter.FindPrevUserEntry | ic-dpi/ic-leveldb/db/db_iter.cc:232-272 | the last entry to show up to here, leaving the position just before its key's visible entries |
| DbIterator.DBIter.Next | ic-dpi/ic-leveldb/db/db_iter.cc:146-171 | moves to the least present user key above, with the value a read at the sequence gives, from either direction |
| DbIterator.DBIter.Prev | ic-dpi/ic-leveldb/db/db_iter.cc:205-230 | moves to the greatest present user key below, from either direction |
| DbIterator.DBIter.Seek | ic-dpi/ic-leveldb/db/db_iter.cc:274-286 | moves to the least present user key at or above the target |
| DbIterator.DBIter.SeekToFirst | ic-dpi/ic-leveldb/db/db_iter.cc:288-297 | moves to the least present user key |
| DbIterator.DBIter.SeekToLast | ic-dpi/ic-leveldb/db/db_iter.cc:299-304 | moves to the greatest present user key |
| Merger.MergingIterator.FindSmallest | ic-dpi/ic-leveldb/table/merger.cc:155-168 | the child with the smallest current entry, none if all are off the end |
| Merger.MergingIterator.FindLargest | ic-dpi/ic-leveldb/table/merger.cc:170-183 | the child with the largest current entry |
| Merger.SmallestIsLeast | ic-dpi/ic-leveldb/table/merger.cc:155-168 | when all children stand at their first entry past a point, the smallest is the union's first entry past it |
| Merger.LargestIsGreatest | ic-dpi/ic-leveldb/table/merger.cc:170-183 | the mirror image for moving backwards |
| Merger.MergingIterator.Next | ic-dpi/ic-leveldb/table/merger.cc:59-83 | moves to the next entry of the sorted union, direction changes and exhausted children included |
| Merger.MergingIterator.Prev | ic-dpi/ic-leveldb/table/merger.cc:85-112 | moves to the previous entry of the sorted union |
| Merger.MergingIterator.Seek | ic-dpi/ic-leveldb/table/merger.cc:51-57 | moves to the union's first entry not before the target |
| Merger.MergingIterator.SeekToFirst | ic-dpi/ic-leveldb/table/merger.cc:35-41 | moves to the union's first entry |
| Merger.MergingIterator.SeekToLast | ic-dpi/ic-leveldb/table/merger.cc:43-49 | moves to the union's last entry |
| IteratorRuns.ChildrenHoldAll | ic-dpi/ic-leveldb/db/db_impl.cc:1079-1104 | memtables, level-0 tables and one concatenation per deeper level are sorted, share no entry and hold the whole database |
| IteratorRuns.FirstInUnion | ic-dpi/ic-leveldb/table/merger.cc:35-41 | the merging iterator starts at the first place of the one sorted list of all children, and has none exactly if that is empty |
| IteratorRuns.LastInUnion | ic-dpi/ic-leveldb/table/merger.cc:43-49 | from the end it starts at the last place of that list |
| IteratorRuns.NextInUnion | ic-dpi/ic-leveldb/table/merger.cc:59-83 | where it goes next is the next place of that list, and it ends exactly after the last |
| IteratorRuns.PrevInUnion | ic-dpi/ic-leveldb/table/merger.cc:85-112 | where it goes back to is the place before |
| IteratorRuns.SeekInUnion | ic-dpi/ic-leveldb/table/merger.cc:51-57 | where it seeks to is the seek point of that list |
| IteratorRuns.ListingIsReading | ic-dpi/ic-leveldb/db/db_iter.cc:146-304 | an iterator over the database shows exactly the history's keys and values if and only if every read of the stored entries equals a read of the history |
| IteratorRuns.StepKeepsGround | ic-dpi/ic-leveldb/db/db_impl.cc:692-775 | every step, merges and moves of any kind and crashes included, keeps what iterators rest on: sorted levels, unique numbers, each entry once, memtables newer than tables |
| IteratorRuns.InstallReadsExactlyIf | ic-dpi/ic-leveldb/db/db_impl.cc:872-1053 | a merge leaves what iterators show right if and only if it drops no live deletion whose key then shows an older value that its level keeps |
| IteratorRuns.IteratorsAreRightExactlyIf | ic-dpi/ic-leveldb/db/db_impl.cc:1079-1104 | in any run, with any snapshots and crashes: iterators at every readable sequence number show exactly the history throughout, if and only if no merge before did so |
| TwoLevel.TwoLevelIterator.SkipEmptyDataBlocksForward | ic-dpi/ic-leveldb/table/two_level_iterator.cc:125-136 | skips exhausted and empty blocks to the next entry overall |
| TwoLevel.TwoLevelIterator.SkipEmptyDataBlocksBackward | ic-dpi/ic-leveldb/table/two_level_iterator.cc:138-149 | skips back to the previous entry overall |
| TwoLevel.TwoLevelIterator.Next | ic-dpi/ic-leveldb/table/two_level_iterator.cc:112-116 | moves one entry on in the concatenation of all blocks |
| TwoLevel.TwoLevelIterator.Prev | ic-dpi/ic-leveldb/table/two_level_iterator.cc:118-122 | moves one entry back in the concatenation of all blocks |
| TwoLevel.TwoLevelIterator.Seek | ic-dpi/ic-leveldb/table/two_level_iterator.cc:91-96 | lands on the first entry of the concatenation not before the target |
| TwoLevel.TwoLevelIterator.SeekToFirst | ic-dpi/ic-leveldb/table/two_level_iterator.cc:98-103 | lands on the first entry |
| TwoLevel.TwoLevelIterator.SeekToLast | ic-dpi/ic-leveldb/table/two_level_iterator.cc:105-110 | lands on the last entry |
| TwoLevel.TwoLevelIterator.ItemIsAt | ic-dpi/ic-leveldb/table/two_level_iterator.cc:34-44 | the entry shown is the one at that position of the concatenation |
| SkipLists.PublishKeeps | ic-dpi/ic-leveldb/db/skiplist.h:363-369 | linking the new node on one level keeps every level a sorted sublist of the one below |
| SkipLists.PrepareKeeps | ic-dpi/ic-leveldb/db/skiplist.h:363-369 | setting the new node's own link first is invisible to readers |
| SkipLists.SkipList.FindGreaterOrEqual | ic-dpi/ic-leveldb/db/skiplist.h:261-281 | the first key not before the target, and on every level the last node before it |
| SkipLists.SkipList.FindLessThan | ic-dpi/ic-leveldb/db/skiplist.h:283-302 | the last key before the target |
| SkipLists.SkipList.FindLast | ic-dpi/ic-leveldb/db/skiplist.h:304-322 | the last key |
| SkipLists.SkipList.Insert | ic-dpi/ic-leveldb/db/skiplist.h:336-370 | adds exactly the key, whatever height was drawn |
| SkipLists.SkipList.Contains | ic-dpi/ic-leveldb/db/skiplist.h:372-380 | true exactly if the key is in the list |
| SkipListRuns.StepKeepsInv | ic-dpi/ic-leveldb/db/skiplist.h:336-370 | sortedness and sublists hold between any two atomic steps of an insert, with a search under way |
| SkipListRuns.EverySearchIsCorrect | ic-dpi/ic-leveldb/db/skiplist.h:261-281 | in every interleaving a search returns the true first node at or after its key as of its last load on level 0 |
| SkipListRuns.SearchProgresses | ic-dpi/ic-leveldb/db/skiplist.h:261-281 | every load lowers the measure of levels and nodes ahead |
| SkipListRuns.SearchEnds | ic-dpi/ic-leveldb/db/skiplist.h:261-281 | a search's loads are bounded by the work at its start plus one per link made meanwhile |
| SkipListRuns.InsertTakesEffect | ic-dpi/ic-leveldb/db/skiplist.h:336-370 | in every interleaving an insert that has ended has added its key, and nothing else, to exactly the levels below its height |
| SkipListRuns.InsertGoesOn | ic-dpi/ic-leveldb/db/skiplist.h:336-370 | an insert is never stuck and each of its steps brings its end nearer |
| Log.Writer.AddRecord | ic-dpi/ic-leveldb/db/log_writer.cc:36-82 | appends the record cut into typed fragments that never cross a block, trailers zeroed |
| Log.Writer.EmitPhysicalRecord | ic-dpi/ic-leveldb/db/log_writer.cc:84-109 | appends checksum, length, type and payload and advances the block offset |
| Log.Reader.ReadPhysicalRecord | ic-dpi/ic-leveldb/db/log_reader.cc:194-276 | on any file: the next fragment, end of file, or a bad record with its report, exactly as the position-based definition says |
| Log.Reader.ReadRecord | ic-dpi/ic-leveldb/db/log_reader.cc:59-177 | on any file: the next logical record with its offset and all corruption reports on the way |
| LogRuns.FragmentBack | ic-dpi/ic-leveldb/db/log_reader.cc:194-276 | a written fragment reads back if the file holds all of it and reads as end of file if it was cut |
| LogRuns.RecordBack | ic-dpi/ic-leveldb/db/log_reader.cc:59-177 | a written record reads back whole with its offset, or as end of file if cut anywhere |
| LogRuns.WriteLog | ic-dpi/ic-leveldb/db/log_writer.cc:36-109 | writing records one after another gives the file the theorems speak of |
| LogRuns.ReadLog | ic-dpi/ic-leveldb/db/log_reader.cc:59-177 | reading until end of file collects exactly the records and reports of the file |
| LogRuns.TruncatedLog | ic-dpi/ic-leveldb/db/log_reader.cc:59-276 | for any records and any byte prefix of their file: exactly the wholly contained records, in order, with their offsets, then end of file and no report |
| LogDamage.ReturnedIsGenuine | ic-dpi/ic-leveldb/db/log_reader.cc:225-276 | on any file a fragment is returned only if its bytes carry its length, type and the checksum of both type and payload |
| LogDamage.EveryRecordIsGenuine | ic-dpi/ic-leveldb/db/log_reader.cc:59-276 | on any file every record returned is the payloads, in order, of such fragments typed full, or first to last, and its offset is the first one's |
| LogDamage.MismatchIsReported | ic-dpi/ic-leveldb/db/log_reader.cc:248-262 | a fragment whose checksum is wrong yields no record and one report, of it and the rest of its block |
| LogDamage.DamagedLog | ic-dpi/ic-leveldb/db/log_reader.cc:59-276 | a written log with one fragment so damaged reads as exactly the records before that fragment's and those from the first one on that starts after its block, and the damage is the first thing reported |
| Blocks.CountShared | ic-dpi/ic-leveldb/table/block_builder.cc:79-85 | the loop counts the longest common prefix |
| Blocks.BlockBuilder.Add | ic-dpi/ic-leveldb/table/block_builder.cc:73-107 | appends the prefix-compressed entry, recording a restart point every interval entries |
| Blocks.BlockBuilder.Finish | ic-dpi/ic-leveldb/table/block_builder.cc:63-71 | the finished block is entries, restart offsets and their count |
| BlockIterator.EntryBack | ic-dpi/ic-leveldb/table/block.cc:53-74 | a written entry decodes to what was written, by the one-byte fast path or the general one |
| BlockIterator.RestartBack | ic-dpi/ic-leveldb/table/block.cc:99-102 | restart i reads back as the offset of the entry it was recorded for |
| BlockIterator.OpenBack | ic-dpi/ic-leveldb/table/block.cc:23-38 | opening a finished block finds its restart array; opening any bytes fails exactly if the announced array does not fit |
| BlockIterator.Iter.ParseNextKey | ic-dpi/ic-leveldb/table/block.cc:226-253 | parses the next entry of a finished block, or stops after the last |
| BlockIterator.Iter.Next | ic-dpi/ic-leveldb/table/block.cc:139-142 | moves exactly one entry on |
| BlockIterator.Iter.Prev | ic-dpi/ic-leveldb/table/block.cc:144-163 | moves exactly one entry back, undoing Next |
| BlockIterator.Iter.Seek | ic-dpi/ic-leveldb/table/block.cc:165-203 | lands on the first key not before the target, for any transitive order in which the keys increase |
| BlockIterator.Iter.FindRestart | ic-dpi/ic-leveldb/table/block.cc:166-191 | binary search ends at a restart point before the target or at the first one |
| BlockIterator.BuildAndRead | ic-dpi/ic-leveldb/table/block_builder.cc:63-107 | building a block from any pairs with any restart interval and iterating over it gives the pairs back |
| BlockIterator.Iter.SeekToFirst | ic-dpi/ic-leveldb/table/block.cc:205-208 | lands on the first entry |
| BlockIterator.Iter.SeekToLast | ic-dpi/ic-leveldb/table/block.cc:210-215 | lands on the last entry |
| Bloom.OrBitSets | ic-dpi/ic-leveldb/util/bloom.cc:57 | setting a bit sets that bit and no other |
| Bloom.AddHash | ic-dpi/ic-leveldb/util/bloom.cc:50-60 | sets exactly the probes of a hash besides what was set |
| Bloom.CreateFilter | ic-dpi/ic-leveldb/util/bloom.cc:35-61 | the filter has the length the keys ask for, exactly their probes set, and so admits every key it was built from |
| Bloom.AdmitsExactlyIf | ic-dpi/ic-leveldb/util/bloom.cc:35-87 | such a filter admits a key if and only if all its probes are among those of the keys |
| Bloom.KeyMayMatch | ic-dpi/ic-leveldb/util/bloom.cc:63-87 | on any filter: false exactly if it is too short or some probe bit is clear, unless the probe count is reserved |
| FilterBlocks.FilterBlockBuilder.GenerateFilter | ic-dpi/ic-leveldb/table/filter_block.cc:52-76 | one more filter over exactly the keys added since the last, an empty one if there were none |
| FilterBlocks.FilterBlockBuilder.StartBlock | ic-dpi/ic-leveldb/table/filter_block.cc:22-28 | after it the next filter's number is the block offset divided by 2 KB |
| FilterBlocks.FilterBlockBuilder.AddKey | ic-dpi/ic-leveldb/table/filter_block.cc:30-34 | the key is recorded for the current block offset |
| FilterBlocks.FilterBlockBuilder.Finish | ic-dpi/ic-leveldb/table/filter_block.cc:36-50 | filter i is that of exactly the keys added for blocks in the i-th 2 KB, so the reader denies no key for the offset of the block it was added under |
| FilterBlocks.FilterBack | ic-dpi/ic-leveldb/table/filter_block.cc:78-109 | reading at an offset consults exactly the filter that offset's keys went into |
| FilterBlocks.DeniesOnlyByFilter | ic-dpi/ic-leveldb/table/filter_block.cc:95-109 | on any contents a key is denied only by a filter that denies it or an empty one |
| Tables.SeparatorIsBetween | ic-dpi/ic-leveldb/db/dbformat.cc:68-85 | the separator is at or after the last key and before the next, and a new user key lies strictly between theirs |
| Tables.IndexSeparates | ic-dpi/ic-leveldb/table/table_builder.cc:100-107 | the index separates the blocks, which is what the two-level iterator needs |
| Tables.TableBuilder.Add | ic-dpi/ic-leveldb/table/table_builder.cc:92-121 | adds the entry; index, blocks and filter keys stay consistent, and the block is closed exactly if it is full |
| Tables.TableBuilder.Flush | ic-dpi/ic-leveldb/table/table_builder.cc:123-137 | closes the block at the file's end, which moves by its size and trailer, without changing the contents; its index entry waits for the next key |
| Tables.TableBuilder.Finish | ic-dpi/ic-leveldb/table/table_builder.cc:199-254 | a well-formed table of exactly the entries added, in order |
| Tables.InternalGet | ic-dpi/ic-leveldb/table/table.cc:221-250 | with or without filter, hands over the first entry not before the key whenever that entry has the key's user key, and never any other entry |
| Formats.EditBytes | ic-dpi/ic-leveldb/db/version_edit.cc:41-86 | every kind of manifest field on sample values, byte for byte |
| Formats.LogBytes | ic-dpi/ic-leveldb/doc/log_format.md:1-60 | a fragment's bytes, the type codes, and the zeros that fill a block too short for a header |
| Formats.BatchBytes | ic-dpi/ic-leveldb/db/write_batch.cc:5-14 | a batch's header and records on sample values, byte for byte |
| Formats.BlockBytes | ic-dpi/ic-leveldb/table/block_builder.cc:5-27 | a block of two entries that share a prefix, byte for byte |
| Formats.FilterBytes | ic-dpi/ic-leveldb/table/filter_block_test.cc:44-52 | a filter block without filters, byte for byte |
| Formats.BloomSettings | ic-dpi/ic-leveldb/util/bloom.cc:22-54 | the number of probes for sample bits per key, and the step between probes |
| WriteBatches.CallsBack | ic-dpi/ic-leveldb/db/write_batch.cc:46-84 | iterating encoded records makes exactly the recorded calls in order |
| WriteBatches.WriteBatch.Clear | ic-dpi/ic-leveldb/db/write_batch.cc:37-40 | a cleared batch is well formed and holds no update |
| WriteBatches.WriteBatch.SetSequence | ic-dpi/ic-leveldb/db/write_batch.cc:98-100 | sets the sequence number and changes neither count nor updates |
| WriteBatches.WriteBatch.AddUpdate | ic-dpi/ic-leveldb/db/write_batch.cc:102-113 | Put and Delete append one record and count it |
| WriteBatches.WriteBatch.Append | ic-dpi/ic-leveldb/db/write_batch.cc:145-149 | the source's updates follow the destination's, counts add, the source is untouched |
| WriteBatches.WriteBatch.Iterate | ic-dpi/ic-leveldb/db/write_batch.cc:46-84 | on any bytes: the calls of the records before the first bad one, and OK exactly if all parse and the header's count is right; a batch built by these operations iterates to its updates and is OK |
| WriteBatches.WriteBatch.InsertInto | ic-dpi/ic-leveldb/db/write_batch.cc:132-138 | update i gets the batch's sequence number plus i |
| WriteBatches.BuildBatchGroup | ic-dpi/ic-leveldb/db/db_impl.cc:1278-1324 | joins in order the longest queue prefix that takes no sync write under a non-sync leader and keeps within the size limit, and disturbs no caller's batch |
| GroupWrites.StepKeepsInv | ic-dpi/ic-leveldb/db/db_impl.cc:1203-1274 | every step of the queue, log, sync and memtable keeps the accounts below |
| GroupWrites.LogIsQueue | ic-dpi/ic-leveldb/db/db_impl.cc:1203-1274 | in every interleaving the log is the calls' updates in the order they entered the queue, each exactly once, with contiguous sequence ranges |
| GroupWrites.BatchesAreAtomic | ic-dpi/ic-leveldb/db/db_impl.cc:1241-1254 | a reader at LastSequence sees a call's updates all or none, and the memtable already holds those it sees |
| GroupWrites.SyncedBeforeReturn | ic-dpi/ic-leveldb/db/db_impl.cc:1235-1240 | across any number of log switches, a sync call returns only after a log record that holds all its updates is synced |
| GroupWrites.EveryCallCanReturn | ic-dpi/ic-leveldb/db/db_impl.cc:1203-1274 | from every state the calls already made can all return with no further call needed |
| BlockObjects.RunsKeepQueue | trafficRecorder/libgo/block_object.cpp:97-190 | in every run a queued waiter implies no stored signal and the queue lists each queued task once |
| BlockObjects.StraightExactlyIf | trafficRecorder/libgo/processer.cpp:66-70 | throughout a run posted and initial signals equal stored and taken ones and every queued coroutine has an open wait, if and only if no coroutine yields with a leftover sys_block and is then dispatched |
| BlockObjects.YieldIsHarmlessExactlyIf | trafficRecorder/libgo/processer.cpp:66-70 | a plain yield and the dispatch after it leave the object's signals and queue alone if and only if the coroutine's state is not sys_block |
| BlockObjects.YieldLosesSignal | trafficRecorder/libgo/block_object.cpp:30-53 | a concrete run in which two signals are posted, one wait is satisfied and none is left |
| BlockObjects.SignalsConserved | trafficRecorder/libgo/block_object.cpp:86-190 | in runs without such a dispatch posted plus initial signals equal stored plus taken ones, and every blocking wait is open or ended exactly once, by a signal or its timeout |
| BlockObjects.WaitEndsByItsOwn | trafficRecorder/libgo/block_object.cpp:123-151 | in every run a blocking wait that ends was given a signal, or was timed and ended by the timer set for it and no other, and the answer of the timed wait says which |
| BlockObjects.LateTimerIsHarmless | trafficRecorder/libgo/block_object.cpp:171-187 | a timer that fires after its wait has ended changes nothing |
| BlockObjects.TimedWaitCanEnd | trafficRecorder/libgo/block_object.cpp:159-190 | in every run a queued timed wait can be ended by its timer |
| BlockObjects.ServedInOrder | trafficRecorder/libgo/block_object.cpp:97-122 | while a task queued before is still queued, Wakeup does not pass it over |
| BlockObjects.StaleBySecondLook | trafficRecorder/libgo/processer.cpp:66-70 | in every run a leftover sys_block comes from a wait satisfied by the second look, and has been there since |
| Channels.PopNeverEmpty | trafficRecorder/libgo/channel.h:134-158 | a pop holding a read signal meets a non-empty queue |
| Channels.ChannelIsSafe | trafficRecorder/libgo/channel.h:120-276 | in every interleaving, signals stored or lost between a caller's check and its wait, withdrawn and timed pops included: no pop on an empty queue, first in first out, and never more items queued than the capacity and the pops in flight |
| Channels.DeliversExactlyIf | trafficRecorder/libgo/channel.h:120-276 | in every interleaving, each queued item has a stored read signal, a pop that holds one or a push about to post one, and each permit is stored, held, or stands for an item or a pop in flight, if and only if no signal was lost to a coroutine that did not ask for it |
| Channels.QuietCounts | trafficRecorder/libgo/channel.h:100-118 | between calls of such runs the stored read signals count the items and the stored permits the free places |
| Channels.PopAloneDelivers | trafficRecorder/libgo/channel.h:134-276 | then a pop, blocking, timed or trying, alone on a channel that holds items is over within four steps and has returned the first item |
| Channels.PopCanGoOn | trafficRecorder/libgo/channel.h:134-276 | and until then it always has a next step |
| Channels.PushAloneDelivers | trafficRecorder/libgo/channel.h:119-132 | and a push alone on a channel with room needs no wait and leaves its item last with a signal for it |
| RwMutexes.LookKeepsInv | trafficRecorder/libgo/co_rwmutex.cpp:20-45 | a reader enters only while the mutex is free |
| RwMutexes.CheckKeepsInv | trafficRecorder/libgo/co_rwmutex.cpp:54-70 | a writer enters only when no reader is counted in |
| RwMutexes.UnlockKeepsInv | trafficRecorder/libgo/co_mutex.cpp:33-37 | an unlock gives the signal to the first in the mutex's queue, be it a writer or a coroutine sent there by a leftover state, or stores it if the queue is empty: at most one holder, and a stored signal means an empty queue |
| RwMutexes.MutualExclusion | trafficRecorder/libgo/co_rwmutex.cpp:20-80 | in every interleaving, the gap between check and wait and lost signals included, no writer beside a reader or another writer, and the reader count is never negative |
| RwMutexes.AdmitsExactlyIf | trafficRecorder/libgo/co_rwmutex.cpp:20-80 | after any run, a coroutine outside the lock has a continuation in which it reads, and one in which it writes, if and only if no coroutine has so far made a plain yield with a leftover sys_block |
| RwMutexes.CanClear | trafficRecorder/libgo/co_rwmutex.cpp:20-80 | before any such yield, those inside can all finish, after which the mutex is free and no reader is counted in |
| RwMutexes.ShutForGood | trafficRecorder/libgo/co_rwmutex.cpp:20-80 | after such a yield, a coroutine outside the lock that is not queued ahead of the one sent there by its leftover state never reads or writes, whatever happens |
| RwMutexes.DeadForGood | trafficRecorder/libgo/co_rwmutex.cpp:20-80 | once every holder of the mutex waits in its own queue, no later run lets anyone in, those queued included |
| RwMutexes.NoSecondLookNoLoss | trafficRecorder/libgo/co_rwmutex.cpp:20-80 | while no lock was got by the second look, every coroutine outside can still get in |
| RwMutexes.WriterParksItself | trafficRecorder/libgo/co_rwmutex.cpp:54-59 | a concrete run after which a writer holds the mutex, waits in that mutex's queue, no reader is left, and nobody ever gets in again |
| TsQueues.TSQueue.Push | trafficRecorder/libgo/ts_queue.h:171-182 | appends the hook, and touches no hook but it and the queue's |
| TsQueues.TSQueue.Pop | trafficRecorder/libgo/ts_queue.h:184-198 | removes and returns the first hook, null if empty, and touches no hook outside the queue |
| TsQueues.TSQueue.Erase | trafficRecorder/libgo/ts_queue.h:264-276 | a hook without the queue's mark is left alone; a marked one is removed exactly, touching no hook outside the queue, if and only if it is in the queue, and otherwise the count goes wrong by one, modulo 2^64 |
| TsQueues.TSQueue.PopFront | trafficRecorder/libgo/ts_queue.h:214-230 | detaches the first elements in order: n of them, but at least one and at most all; touches no hook outside the queue |
| TsQueues.TSQueue.PopBack | trafficRecorder/libgo/ts_queue.h:233-247 | detaches the last elements in order, and touches no hook outside the queue |
| TsQueues.TSQueue.PushList | trafficRecorder/libgo/ts_queue.h:200-211 | splices a detached list at the tail in order |
| SkipQueues.StealHalf | trafficRecorder/libgo/processer.cpp:108-118 | whatever size was read earlier, no task is lost, duplicated or reordered between the two run queues |
| SkipQueues.TSSkipQueue.Push | trafficRecorder/libgo/ts_queue.h:337-355 | appends and keeps every 64th element indexed |
| SkipQueues.TSSkipQueue.Locate | trafficRecorder/libgo/ts_queue.h:367-389 | the index leads to exactly the n-th element and stays right for what is left |
| SkipQueues.TSSkipQueue.PopFront | trafficRecorder/libgo/ts_queue.h:357-397 | exactly the first min(n, size) elements, after any history of pushes and pops |

## Left out

- CompactionOutputs.DoCompactionWork: keys that do not parse, which the loop passes through, are not modelled; when an output has reached its size is an input.
- Durability.RecoverManifest: does not model prev_log_number, the comparator name check, reuse_logs or paranoid_checks.
- EngineSteps.ReopenKeepsInv: that the logs hold what the memtables held is part of the step here, and is derived for every joint run by JointRuns.LogsHoldMemtables.
- JointRuns.RunsStayGood: a flush, merge or move counts for the engine from its record in the manifest on, before its version is installed in memory; sequence numbers do not run out.
- DurabilityInv.RecoveryIsExact: assumes that what was appended to a log or manifest survives; loss of unsynced bytes is covered for one file by LogRuns.TruncatedLog.
- Blocks.BlockBuilder.Add: round trips are for keys and blocks under 4 GiB, the width of the format's length fields.
- BlockIterator.Iter.ParseNextKey: the corruption branches are not modelled, since a finished block never reaches them.
- VersionBuilder.Builder.Apply: edits that add one file number twice to a level are excluded, which LogAndApply never writes, and compaction pointers are not kept.
- Manifest.Recover: records are encodings of edits whose files are new to their level, as every manifest written is; other bytes are covered by VersionEdits.DecodeFrom.
- Log.Reader.ReadPhysicalRecord: the initial offset is zero, as in every caller.
- WriteBatches.WriteBatch.AddUpdate: updates whose sizes or number do not fit 32 bits are excluded.
- Tables.TableBuilder.Add: whether a block is full, its stored size and the user comparator's separator are inputs; compression is the identity.
- Tables.TableBuilder.Finish: gives the table as blocks, index and filter; metaindex, footer and their offsets are not modelled.
- Merger.MergingIterator.Next: children are assumed to hold no entry twice, as distinct tables and memtables do.
- DbIterator.DBIter.Next: entries are well formed, so the corrupted-key status does not arise, and the stream cannot be empty after a change of direction; read sampling is not modelled.
- SkipLists.SkipList.Insert: a node is named by its key, and atomic loads and stores are taken as sequentially consistent.
- BlockObjects.SignalsConserved: coroutines only; the polling loop for plain threads is not modelled.
- BlockObjects.WaitEndsByItsOwn: block_sequence_ does not wrap around at 2^32, so no timer outlives that many waits of its task.
- Channels.ChannelIsSafe: the two BlockObjects appear by their signal counts, so which of several waiters is woken first is left open.
- RwMutexes.AdmitsExactlyIf: says that a newcomer can get in, not that a spinning reader or writer eventually does, which depends on the scheduler.
- SkipQueues.StealHalf: the two locked sections are taken one after the other; other queue operations between them each refine their own sequence.
- Manual CompactRange, which may pick inputs with gaps, and repair.
- Error paths of writes, syncs and manifest updates, and the background-error state they set.
- Statistics and scores that only decide when to compact: allowed_seeks, read sampling, floating-point level scores.
- The bodies of the user comparator, of the hash and of the checksum: any order, any hash and any checksum shared by writer and reader.
- Table files' metaindex, footer and block cache.
- Networking, HTTP scanning, DNS and packet capture of the proxy, and its Redis pool.
- Coroutine context switching, timers' trigger times, sleeping and I/O waits.
