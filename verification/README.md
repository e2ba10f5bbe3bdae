# Proofs about LevelDB, the disruptor, the coost allocator and coost JSON

Dafny models of the four parts of this repository whose correctness depends on several
operations at once, and proofs about them. `dafny verify dfyconfig.toml` checks everything.

**LevelDB, the store.** The database is a state machine over memtable, immutable memtable, seven
levels of files, snapshots and at most one running compaction, picked or manual (`DbState`, `DbSteps`).
Its specification is the write history alone. The main theorem, `DbSteps.RunGetRefinesHistory`, is about
every run in which each flush is harmless: it does not put its table into the level that the outputs of
the running compaction go to, over the range of one of them. In every state of such a run, a read at a
live snapshot returns the newest write of the key with a sequence number at most the snapshot, whatever
was flushed, moved, compacted or dropped meanwhile, and with flushes and writes between the start of a
compaction and its installation. The condition is exact: a run that has installed its compactions kept
its levels disjoint if and only if all its flushes were harmless (`Interleaving.SoundIffCareful`), and a
run with one that was not loses a published write (`Interleaving.LostWrite`). Compactions that the
database picks itself cover their range without gaps, and then every flush is harmless
(`DbSteps.PickedRunsAreCareful`); a manual compaction need not. Below the theorem stand the code that
picks compaction inputs (`Inputs`, `Picking`), installs version edits (`Edits`) and decides which
entries a compaction drops (`Compaction`); beside it the class that runs these steps (`DBImpl`), the skip
list with a writer and lock-free readers (`SkipList`), the iterators (`DBIter`, `Scan`, `Merger`,
`TwoLevel`), the group commit with its log (`GroupCommit`), and recovery: replaying the logged edits of
any such run gives back the version the run had reached (`Recovery`).

**LevelDB, the formats.** Blocks with shared key prefixes, tables with index and Bloom filters, the
log, write batches and version edits are modelled on bytes, and each reader undoes its writer
(`Coding`, `BlockFormat`, `BlockBuilder`, `BlockIter`, `Filter`, `Table`, `TableBuilder`, `Log`,
`LogWriter`, `Tokens`, `VersionEdit`, `WriteBatch`), the layouts said byte by byte in `Formats`. A log cut off at any byte yields exactly the
records it holds whole, and nothing is reported as corrupt. `HandleTable` and `Cache` are one shard of the LRU cache.

**disruptor--.** Publishers, consumers and gating sequences as a state machine in which every read
and every write of a shared sequence is a step of its own (`Disruptor`), and what its threads can always
still do, up to draining the ring from every reachable state (`Progress`).

**coost.** The small and large block allocators with frees by other threads between any two steps of
the owner (`Bitset`, `MemBlock`, `ThreadAlloc`), and the JSON parser with its two explicit stacks, the
printers and their round trip (`JsonText`, `JsonNumber`, `JsonTree`, `JsonPrinter`, `JsonParser`,
`JsonRoundTrip`, `JsonReader`). Among trees without doubles, exactly those whose keys hold no quote and
no zero byte come back (`JsonKeys`). The parser accepts exactly the texts of a grammar that knows nothing
of its labels and stacks (`JsonGrammar`, `JsonScalars`), and the indented print is given line by line
(`JsonPretty`).

`Guard` is a proof device: a costly fact is stated under a marker and unfolded only where a proof names the marker.

What the results rest on:

- The user comparator is a total order. User keys are `real`, since every countable total order embeds
  in the reals; `==` then means "compares equal". The comparator's key shortening keeps its contract
  (a separator lies between its two keys, a successor is not below its key).
- Sequences of the ring buffer stay below the largest 64-bit number, where its waits end.
- Sequence numbers stay below the largest one the tag can hold; lengths and counts that the formats
  store in 32 bits fit them; a key's or value's length is below 2^32.
- The hash of keys and the checksum are parameters of which nothing is assumed but that they are
  functions (the checksum is masked and unmasked consistently). Keys that compare equal therefore hash
  alike, which a user comparator other than the bytewise one has to provide for the filters never to
  hide a key. Block compression is the identity.
- Memory is sequentially consistent: an acquire load sees the latest release store.
- Sizes that steer a choice but not its correctness (when a block, a table or a group is full, how many
  bytes may overlap, which level is compacted next) are parameters, so the results hold for every choice.

## Model

| member | source | states |
|---|---|---|
| `DbFormat.RunGetIsAnswer` | leveldb/db/memtable.cc:102-136 | one seek to the lookup key with the user-key test returns the newest entry of a sorted run visible at the snapshot, or none when there is none |
| `DbFormat.InsertSortedKeepsOrder` | leveldb/db/memtable.cc:76-100 | adding an entry with a new internal key keeps the run ordered by user key and descending tag |
| `Version.FindFile` | leveldb/db/version_set.cc:87-105 | the binary search returns the first file whose largest key is at or after the target, or the number of files |
| `Version.Search` | leveldb/db/version_set.cc:281-400 | searching level 0 newest first and then one file a level, and stopping at the first that knows the key, computes `VersionGet` |
| `Version.VersionGetIsAnswer` | leveldb/db/version_set.cc:281-400 | with the version invariant, the first hit is the newest visible entry of all files of all levels |
| `Inputs.SomeFileOverlapsRange` | leveldb/db/version_set.cc:121-156 | true exactly when some file overlaps the user-key range; for sorted levels by one binary search |
| `Inputs.PickLevelForMemTableOutput` | leveldb/db/version_set.cc:470-495 | the loop finds the level that the specification `PickLevel` gives |
| `Inputs.PickLevelAvoidsOverlap` | leveldb/db/version_set.cc:470-495 | a level below 0 is chosen only when nothing at it or above overlaps the new table |
| `Inputs.PickLevelIsGreedy` | leveldb/db/version_set.cc:470-495 | the table goes down as long as the next level has nothing to overlap and the level after it not too many overlapping bytes, and no further than level 2 |
| `Inputs.GetOverlappingInputs` | leveldb/db/version_set.cc:498-538 | returns exactly the files that overlap a range; at level 0 that range is the least one that contains the given range and that no file straddles |
| `Inputs.GetRange` | leveldb/db/version_set.cc:1187-1206 | the smallest and largest internal key of a set of files |
| `Inputs.FindSmallestBoundaryFile` | leveldb/db/version_set.cc:1326-1344 | the first file that begins in the same user key after the given key, or none if there is none |
| `Inputs.AddBoundaryInputs` | leveldb/db/version_set.cc:1360-1383 | extends the inputs, by files of the level only, until no user key is split between an input and a file left behind; nothing is added when none is split |
| `Picking.SetupOtherInputs` | leveldb/db/version_set.cc:1385-1446 | the inputs of both levels are closed: files left at the upper level are newer than all upper inputs, files left at the lower level meet no user key of the inputs; they are the chosen files and those below them, each with boundary files, and grow to all upper files in the range exactly if these are more, stay below the size limit and need no more lower files |
| `Picking.PickCompaction` | leveldb/db/version_set.cc:1252-1304 | around any seed file the chosen inputs are closed, contain the seed and cover a connected key range; they are what SetupOtherInputs makes of the seed, at level 0 of the least closed range around it |
| `Picking.CompactRange` | leveldb/db/version_set.cc:1448-1479 | a manual compaction finds inputs exactly when some file overlaps the range; they are closed, and come from the overlapping files, from level 1 up from the shortest prefix of these that reaches the size limit |
| `Edits.AddFileKeepsInv` | leveldb/db/version_set.cc:672-730 | adding a flushed table at the level picked for it keeps order, disjointness, recency between levels and unique numbers |
| `Edits.ReplaceKeepsInv` | leveldb/db/version_set.cc:672-730 | replacing closed inputs by outputs made of their entries keeps the version invariant |
| `Compaction.Cursor.IsBaseLevelForKey` | leveldb/db/version_set.cc:1517-1536 | for keys asked in order, the forward-only cursors answer what a scan of all deeper levels would |
| `Compaction.Cursor.DoCompactionWork` | leveldb/db/db_impl.cc:892-1014 | the tables written hold, in input order, exactly what some reader may need: every entry but those hidden by a newer one that every reader sees, and tombstones that every reader sees and that no file two or more levels down has in its range; tables are cut exactly where the answers of ShouldStopBefore and of the size test say |
| `Compaction.OneVisibleVersion` | leveldb/db/db_impl.cc:952-963 | of the versions of a user key that every reader sees, the output of a compaction has at most one |
| `Compaction.NeededIsUnique` | leveldb/db/db_impl.cc:952-978 | what is demanded of the output leaves no choice |
| `Compaction.KeptIsSorted` | leveldb/db/db_impl.cc:892-1014 | the surviving entries are in internal-key order |
| `DbState.GetRefinesHistory` | leveldb/db/db_impl.cc:1115-1160 | with the invariant, Get at a live snapshot returns what the write history says |
| `DbSteps.StepKeepsInv` | leveldb/db/db_impl.cc:549-1160 | every step (write, sequence number lost to an error, publish, switch, flush, move, begin and install of a compaction picked or manual, snapshot taken or released) keeps the invariant, a flush if it is harmless |
| `DbSteps.ConnectedIsHarmless` | leveldb/db/db_impl.cc:505-580 | while a compaction of inputs that cover their range without gaps runs, every flush is harmless |
| `DbSteps.RunKeepsInv` | leveldb/db/db_impl.cc:549-1160 | every state of every run of harmless flushes has the invariant, and the history only grows |
| `DbSteps.RunGetRefinesHistory` | leveldb/db/db_impl.cc:1115-1160 | in every state of every run of harmless flushes, a read at any live snapshot returns the newest write of the key at or below it, deletions counting as absence |
| `DbSteps.SnapshotReadsAreStable` | leveldb/db/db_impl.cc:1115-1190 | a snapshot reads the same value at any two moments of a run of harmless flushes at which it is live |
| `DbSteps.PickedRunsAreCareful` | leveldb/db/db_impl.cc:702-781 | a run whose compactions all cover their range, as picked ones do, has harmless flushes only |
| `Interleaving.FlushThenInstall` | leveldb/db/db_impl.cc:923-933 | a flush during a compaction, followed by the installation, keeps the invariant, and the levels disjoint, exactly if the flushed table went to a level other than that of the outputs or is disjoint from each of them |
| `Interleaving.SoundIffCareful` | leveldb/db/db_impl.cc:702-781 | for every run that has installed its compactions: all its versions are sound exactly if all its flushes were harmless |
| `Interleaving.LostWrite` | leveldb/db/db_impl.cc:892-933 | a run from the empty database, with a flush into the gap of a manual compaction, after which a published write is found by no read |
| `DbSteps.InstallPreservesReads` | leveldb/db/db_impl.cc:874-890 | installing a compaction, with gaps between its inputs or without, changes no read at or above the oldest snapshot, although writes and harmless flushes happened since it began |
| `DbSteps.DroppedIsDispensable` | leveldb/db/db_impl.cc:956-996 | an entry a compaction dropped is superseded by a write no reader can miss, or is a tombstone with nothing older left anywhere |
| `DBImpl.DB.AddToMemTable` | leveldb/db/write_batch.cc:121-137 | one record enters the memtable under the next sequence number: the step Insert |
| `DBImpl.DB.SetLastSequence` | leveldb/db/db_impl.cc:1251 | the group is published: the step Publish |
| `DBImpl.DB.SkipRecord` | leveldb/db/db_impl.cc:1228-1251 | a record of a group that failed leaves nothing but a used-up sequence number: the step Skip |
| `DBImpl.DB.SwitchMemTable` | leveldb/db/db_impl.cc:1390-1393 | the memtable becomes immutable: the step Switch |
| `DBImpl.DB.CompactMemTable` | leveldb/db/db_impl.cc:505-580 | the immutable memtable becomes a table at the picked level: the step Flush; the invariant is kept if the flush is harmless |
| `DBImpl.DB.PrepareCompaction` | leveldb/db/db_impl.cc:892-1050 | the pending outputs of closed inputs carry fresh numbers and exactly the entries that some reader from the oldest snapshot up, or from the last sequence number if there is none, may need |
| `DBImpl.DB.BackgroundCompaction` | leveldb/db/db_impl.cc:702-781 | around any seed: the step Move of the seed if it is alone, has nothing below it and may move, otherwise the step Begin, with inputs that contain the seed and cover their range |
| `DBImpl.DB.InstallCompactionResults` | leveldb/db/db_impl.cc:874-890 | one edit removes the inputs and adds the outputs: the step Install |
| `DBImpl.DB.ManualCompaction` | leveldb/db/db_impl.cc:702-781 | done exactly when nothing overlaps the range, otherwise the step Begin at that level with the inputs that CompactRange gives |
| `DBImpl.DB.GetSnapshot` | leveldb/db/db_impl.cc:1181-1184 | the snapshot is the last published sequence number and is live: the step Snapshot |
| `DBImpl.DB.ReleaseSnapshot` | leveldb/db/db_impl.cc:1186-1190 | one snapshot is gone and nothing else changes: the step Release |
| `DBImpl.DB.Get` | leveldb/db/db_impl.cc:1115-1160 | returns the newest write the history has at the given snapshot, or at the last published sequence number |
| `VersionBuilder.FoldIsInstall` | leveldb/db/version_set.cc:629-730 | taking a sequence of edits into one builder and saving once equals installing them one at a time, when no number is added twice to a level |
| `VersionBuilder.ReaddedNumberRevives` | leveldb/db/version_set.cc:629-730 | a number given to another file after a deletion makes the two differ |
| `VersionBuilder.SnapshotFirst` | leveldb/db/version_set.cc:1069-1097 | installing the edit WriteSnapshot writes, and then others, on nothing equals installing the others on the version |
| `VersionBuilder.RecoveredIsInstalled` | leveldb/db/version_set.cc:861-992 | replaying a snapshot and the edits after it through one builder gives the version that installing them gave |
| `Recovery.StepRecorded` | leveldb/db/version_set.cc:777-859 | the edit each step logs, saved on the version before it, gives the version after it, and adds no number its level ever had |
| `Recovery.RecoveryIsExact` | leveldb/db/version_set.cc:861-992 | for any two moments of any run of harmless flushes, replaying the snapshot of the first and the edits logged since gives exactly the version of the second |
| `SkipList.ActKeepsInv` | leveldb/db/skiplist.h:334-366 | every single store of an insertion keeps each level a sorted sublist of the one below |
| `SkipList.ActKeepsReader` | leveldb/db/skiplist.h:258-279 | a store by the writer keeps what a reader has established and moves it back by at most the one node newly linked |
| `SkipList.SearchUnderInsert` | leveldb/db/skiplist.h:258-366 | a search interleaved in any way with an insertion ends within its own distance plus the nodes linked meanwhile, on the least node at or after the key |
| `SkipList.List.FindGreaterOrEqual` | leveldb/db/skiplist.h:258-279 | the least node at or after the key, and for every level the last node before it |
| `SkipList.List.FindLessThan` | leveldb/db/skiplist.h:281-300 | the greatest node before the key, or the head |
| `SkipList.List.FindLast` | leveldb/db/skiplist.h:302-320 | the last node, or the head of an empty list |
| `SkipList.List.Insert` | leveldb/db/skiplist.h:334-366 | the list gains exactly the new node, at any height |
| `SkipList.List.Contains` | leveldb/db/skiplist.h:368-376 | true exactly when some node has the key |
| `DBIter.DBIterator.FindNextUserEntry` | leveldb/db/db_iter.cc:177-207 | stops at the least live user key of the range: not deleted, newest version visible at the sequence number |
| `DBIter.DBIterator.FindPrevUserEntry` | leveldb/db/db_iter.cc:236-276 | stops with key and value of the greatest live user key below the bound |
| `DBIter.DBIterator.Next` | leveldb/db/db_iter.cc:141-175 | from either direction, the least live user key above the current one |
| `DBIter.DBIterator.Prev` | leveldb/db/db_iter.cc:209-234 | from either direction, the greatest live user key below the current one |
| `DBIter.DBIterator.Seek` | leveldb/db/db_iter.cc:278-290 | the least live user key at or above the target |
| `Scan.ScanForward` | leveldb/db/db_iter.cc:141-301 | a whole scan shows exactly the live pairs, each key once, ascending |
| `Scan.ScanBackward` | leveldb/db/db_iter.cc:209-310 | a whole backward scan shows exactly the live pairs, descending |
| `Scan.LiveMatchesHistory` | leveldb/db/db_iter.cc:141-310 | a pair is live in the store exactly when the history's newest write of the key at the snapshot puts that value |
| `Merger.SmallestIsFirst` | leveldb/table/merger.cc:148-161 | the least of the children's heads is the first entry of the merged sequence above the bound |
| `Merger.LargestIsLast` | leveldb/table/merger.cc:163-176 | the greatest of the children's entries is the last one below the bound |
| `Merger.MergingIterator.Next` | leveldb/table/merger.cc:55-79 | moves one step in the merge of the children, also after a change of direction |
| `Merger.MergingIterator.Prev` | leveldb/table/merger.cc:81-108 | moves one step back in the merge, also after a change of direction |
| `Merger.MergingIterator.Seek` | leveldb/table/merger.cc:47-53 | the first merged entry at or after the target |
| `TwoLevel.SeekIsInBlock` | leveldb/table/two_level_iterator.cc:82-87 | with separating index keys, the seek position in all data is the one in the block the index names |
| `TwoLevel.TwoLevelIterator.Seek` | leveldb/table/two_level_iterator.cc:82-87 | the first entry at or after the target in the concatenation of the blocks, past empty ones |
| `TwoLevel.TwoLevelIterator.CurrentIsShown` | leveldb/table/two_level_iterator.cc:31-39 | a valid iterator shows the entry of the concatenation that its position stands for |
| `TwoLevel.TwoLevelIterator.Next` | leveldb/table/two_level_iterator.cc:103-126 | the next entry of the concatenation, past empty blocks |
| `TwoLevel.TwoLevelIterator.Prev` | leveldb/table/two_level_iterator.cc:109-139 | the previous entry of the concatenation, past empty blocks |
| `Coding.Varint32Inverse` | leveldb/util/coding.cc:86-114 | decoding an encoded 32-bit number anywhere in a buffer returns it and the position after it |
| `Coding.Varint64Inverse` | leveldb/util/coding.cc:116-133 | the same for 64 bits |
| `Formats.VarintOfTwo` | leveldb/util/coding.cc:21-60 | a varint of two bytes: the low seven bits first, marked as not the last |
| `Formats.FixedOfFour` | leveldb/util/coding.h:54-62 | a fixed 32-bit number: low byte first |
| `BlockFormat.EntryDecodes` | leveldb/table/block.cc:55-76 | an encoded entry decodes to its shared length, its key rest and its value |
| `Formats.EntryLayout` | leveldb/table/block_builder.cc:16-22 | the bytes of a block entry, in the order the format gives |
| `BlockFormat.FastIsSlow` | leveldb/table/block.cc:55-76 | the one-byte fast path reads what the general path reads |
| `BlockBuilder.BlockBuilder.Add` | leveldb/table/block_builder.cc:71-105 | appends the entry, sharing the longest common prefix with the last key except at a restart, where nothing is shared |
| `BlockBuilder.BlockBuilder.Finish` | leveldb/table/block_builder.cc:61-69 | the bytes are the entries, the restart offsets and their count |
| `BlockIter.BlockIsReadable` | leveldb/table/block.cc:55-76 | every entry of a finished block decodes at its offset, and every restart point holds a whole key |
| `BlockIter.FinishedIsBlock` | leveldb/table/block.cc:21-41 | the bytes that a builder finishes are a block as the iterator needs it: count, restart offsets and every entry readable |
| `BlockIter.Iter.CurrentEntry` | leveldb/table/block.cc:127-136 | a valid iterator shows key and value of the entry it stands at |
| `BlockIter.Iter.ParseNextKey` | leveldb/table/block.cc:250-277 | rebuilds the key of the next entry from the last key, and stops exactly at the restart array |
| `BlockIter.Iter.Seek` | leveldb/table/block.cc:164-227 | by binary search over restart points and a linear scan, the first entry not below the target, for any strict weak order the entries follow |
| `BlockIter.Iter.Prev` | leveldb/table/block.cc:143-162 | the entry before, found again from a restart point, or the end |
| `Filter.CreateFilter` | leveldb/util/bloom.cc:28-54 | every key the filter was made of matches it, and a bit is set only if some key probes it; the size is the bits asked for in whole bytes, at least 64 |
| `Filter.ProbeIs` | leveldb/util/bloom.cc:42-53 | the probes of a hash are the hash plus multiples of the hash rotated by 17, in 32 bits |
| `Filter.DeltaRotates` | leveldb/util/bloom.cc:47 | the step between probes is a rotation: rotating on gives the hash back |
| `Filter.KeyMayMatch` | leveldb/util/bloom.cc:56-80 | the probes test exactly the bits the filter's hash gives; reserved probe counts match everything |
| `Filter.FilterBlockBuilder.StartBlock` | leveldb/table/filter_block.cc:21-27 | filters exist up to the offset, and every key stays covered |
| `Filter.FilterBlockBuilder.Finish` | leveldb/table/filter_block.cc:35-49 | every key added matches the filter of the offset it was added at |
| `Table.SeparatorIsTight` | leveldb/db/dbformat.cc:65-82 | the shortened separator is at or after the last key of a block and before the first key of the next |
| `Table.SuccessorIsAbove` | leveldb/db/dbformat.cc:84-97 | the shortened successor is not below the last key |
| `Table.InternalGet` | leveldb/table/table.cc:214-242 | index, filter and one block find what a seek in all entries of the table finds: a filter never hides a key |
| `TableBuilder.TableBuilder.Add` | leveldb/table/table_builder.cc:94-123 | the table gains the entry, with the pending index entry made from the neighbouring keys; the block in hand is closed exactly if it is full |
| `TableBuilder.TableBuilder.Finish` | leveldb/table/table_builder.cc:213-268 | the finished table is well formed (bounds separate the blocks, filters cover their keys) and holds exactly the entries added |
| `Log.ReadPhysicalRecord` | leveldb/db/log_reader.cc:189-271 | one physical record, or end of file, or a bad record with what is reported |
| `Log.ReadRecord` | leveldb/db/log_reader.cc:56-174 | assembles the fragments of one record, reporting what does not fit |
| `Log.TruncatedLogReadsBack` | leveldb/db/log_reader.cc:56-174 | reading any prefix of a written log yields exactly the records it contains whole, in order, and reports nothing |
| `Log.WholeLogReadsBack` | leveldb/db/log_reader.cc:189-271 | reading a written log yields all its records and reports nothing |
| `Log.FragmentIsChecked` | leveldb/db/log_reader.cc:189-271 | whatever the bytes are, a fragment is returned only if it stands there whole with the checksum of its type and payload |
| `Log.RecordIsChecked` | leveldb/db/log_reader.cc:56-174 | whatever the bytes are, a record is returned only if its fragments stand in the file in order, each checked, of the types of one record, and the record is their payloads joined |
| `Log.ParseReports` | leveldb/db/log_reader.cc:219-262 | a wrong checksum or length drops the rest of the block and is reported once; a fragment cut off by the end of the file and zeros are not reported |
| `LogWriter.Writer.AddRecord` | leveldb/db/log_writer.cc:34-80 | the file only grows, and holds one record more, whatever its length and the place in the block |
| `LogWriter.Writer.EmitNext` | leveldb/db/log_writer.cc:42-80 | the next fragment has the type its place in the record demands and ends at the block boundary unless the record ends |
| `Formats.FragmentLayout` | leveldb/db/log_writer.cc:82-98 | the bytes of a fragment: checksum of type and payload, length, type, payload |
| `LogWriter.Writer.ReadsBack` | leveldb/db/log_writer.cc:34-108 | at any time the file reads back as the records added, and any prefix of it as exactly the records whose last fragment ends in it, without a report |
| `Tokens.TokensRead` | leveldb/db/version_edit.cc:87-104 | a sequence of encoded tokens reads back as the sequence |
| `VersionEdit.DecodeFrom` | leveldb/db/version_edit.cc:106-204 | the loop computes the decoding of the tagged fields, or the error |
| `VersionEdit.RoundTrip` | leveldb/db/version_edit.cc:42-204 | every edit whose fields fit the format decodes from its encoding to itself, whatever order the deleted files were written in |
| `Formats.NumberField` | leveldb/db/version_edit.cc:14-25 | tag and number of each field that holds a number |
| `Formats.ComparatorField` | leveldb/db/version_edit.cc:43-46 | the bytes of the comparator field |
| `Formats.PointerField` | leveldb/db/version_edit.cc:64-68 | the bytes of a compaction pointer |
| `Formats.DeletedField` | leveldb/db/version_edit.cc:70-74 | the bytes of a deleted file |
| `Formats.NewFileField` | leveldb/db/version_edit.cc:76-84 | the bytes of a new file |
| `WriteBatch.AddHolds` | leveldb/db/write_batch.cc:98-109 | Put and Delete append one operation and count it |
| `WriteBatch.AppendHolds` | leveldb/db/write_batch.cc:144-148 | appending a batch appends its operations and keeps the sequence number |
| `WriteBatch.IterateIsOps` | leveldb/db/write_batch.cc:42-80 | iterating over a batch yields its operations, and the count agrees |
| `WriteBatch.Operations` | leveldb/db/write_batch.cc:42-80 | too short, malformed or wrongly counted batches are refused, others yield their operations |
| `Formats.PutLayout` | leveldb/db/write_batch.cc:9-13 | the bytes of a put |
| `Formats.DeleteLayout` | leveldb/db/write_batch.cc:9-13 | the bytes of a deletion |
| `Formats.BatchLayout` | leveldb/db/write_batch.cc:5-8 | the bytes of a batch: sequence number, count and records |
| `GroupCommit.BuildBatchGroup` | leveldb/db/db_impl.cc:1275-1321 | the group is the longest prefix of the queue that size and sync allow, and its batch holds the members' operations in order |
| `GroupCommit.GroupIsLongest` | leveldb/db/db_impl.cc:1275-1321 | a length is that of the group exactly if the prefix may be one group and no longer one may: no sync for a leader who does not sync, and the bytes below the bound that the first batch sets |
| `GroupCommit.GroupRecord` | leveldb/db/db_impl.cc:1219-1230 | the bytes that are logged decode to the group's operations under the next sequence number, and the last sequence number moves by their count |
| `GroupCommit.WriteAhead` | leveldb/db/db_impl.cc:1228-1251 | in every state of every run, failures included, each operation in the memtable stands in a logged group under its own sequence number, and log and memtable are in that order |
| `GroupCommit.MergedIsSerial` | leveldb/db/db_impl.cc:1200-1272 | inserting the merged batch equals inserting the members' batches one after another with consecutive sequence numbers |
| `GroupCommit.StepKeepsInv` | leveldb/db/db_impl.cc:1200-1272 | every step of writers and leader, failures included, keeps the order of writers, the sequence numbers and the memtable |
| `GroupCommit.CompletedInOrder` | leveldb/db/db_impl.cc:1200-1272 | in every run writers complete once, in the order of arrival; the rest are queued in order |
| `GroupCommit.RunRangesAreDisjoint` | leveldb/db/db_impl.cc:1200-1272 | in every run completed writers have disjoint, ascending ranges of sequence numbers |
| `GroupCommit.CommitIsSerial` | leveldb/db/db_impl.cc:1200-1272 | in every run, between groups, the memtable holds what writing the successful batches one by one would have put there |
| `GroupCommit.SyncIsHonoured` | leveldb/db/db_impl.cc:1275-1321 | nobody who asked for a sync was served by a leader who did not |
| `GroupCommit.NothingAfterFailure` | leveldb/db/db_impl.cc:1241-1247 | after a failed sync no state of the run logs or inserts anything more, and every later writer is told of an error |
| `HandleTable.Table.Insert` | leveldb/util/cache.cc:79-93 | the table maps the key to the new handle and returns the one it had, also when it grows |
| `HandleTable.Table.Remove` | leveldb/util/cache.cc:95-103 | the key is gone and its handle returned |
| `HandleTable.Table.Resize` | leveldb/util/cache.cc:123-147 | rehashing into twice as many buckets keeps the mapping and the load bound |
| `Cache.RefKeeps` | leveldb/util/cache.cc:218-224 | taking a reference keeps counts, lists and charges in agreement with what clients hold |
| `Cache.UnrefKeeps` | leveldb/util/cache.cc:226-238 | dropping one does too; the deleter runs exactly when it was the last |
| `Cache.EvictIsLeastPrefix` | leveldb/util/cache.cc:294-301 | eviction drops the shortest prefix of the unreferenced handles, oldest first, that meets the capacity, or all of them |
| `Cache.WithoutSplices` | leveldb/util/cache.cc:240-243 | taking a handle off a list leaves the others in their order |
| `Cache.BusyStays` | leveldb/util/cache.cc:294-301 | a handle that a client holds survives eviction and is still found |
| `Cache.LRUCache.Lookup` | leveldb/util/cache.cc:253-260 | returns the handle of the key, now referenced once more and off the list of idle ones, with the value that is stored for the key, or nothing; no stored value changes |
| `Cache.LRUCache.Release` | leveldb/util/cache.cc:262-265 | the deleter runs exactly when the last reference goes; a handle that nobody holds any more goes to the newest end of the list; no key, value or charge changes |
| `Cache.LRUCache.Insert` | leveldb/util/cache.cc:267-304 | the new handle has the key, value and charge given, is held by the caller and takes the place of the old one; then the least prefix is evicted; the charges fit or nothing evictable is left; of the other handles none is new or changed and none that a client holds is gone |
| `Cache.LRUCache.Erase` | leveldb/util/cache.cc:308-322 | the key leaves the table and its value is stored no more, the other values stay, and the handle lives on exactly while clients hold it |
| `Cache.LRUCache.Remember` | leveldb/util/cache.cc:253-322 | after an insertion and any calls that neither insert nor erase its key, a lookup that finds the key finds the value inserted, and finds the very handle if its holder has not given it back |
| `Cache.LRUCache.Prune` | leveldb/util/cache.cc:324-334 | drops every handle no client holds, oldest first, each deleted once, and no other |
| `Disruptor.GetMinimumSequence` | disruptor--/disruptor/sequence.h:109-118 | the least of the values, or the largest number if there are none |
| `Disruptor.GuardIsTurn` | disruptor--/disruptor/claim_strategy.h:136-143 | for an unpublished claim the guard can only hold with equality: it is the turn of that publisher |
| `Disruptor.OnePasses` | disruptor--/disruptor/claim_strategy.h:136-143 | no two publishers are between guard and addition at once |
| `Disruptor.StepKeepsInv` | disruptor--/disruptor/claim_strategy.h:114-143 | every step of every thread keeps the invariant; guard and addition to the cursor are two steps |
| `Disruptor.RunKeepsInv` | disruptor--/disruptor/sequencer.h:83-94 | every state of every run has it |
| `Disruptor.GrantsShareNoSlot` | disruptor--/disruptor/claim_strategy.h:114-124 | two sequences held by publishers never share a slot of the ring, when some consumer gates |
| `Disruptor.RunSharesNoSlot` | disruptor--/disruptor/claim_strategy.h:114-124 | the same in every state of every run |
| `Disruptor.GrantSparesConsumers` | disruptor--/disruptor/claim_strategy.h:114-124 | a held slot is never one whose event a gating consumer, or one it waits for, has still to finish |
| `Disruptor.RunSparesConsumers` | disruptor--/disruptor/claim_strategy.h:114-124 | the same in every state of every run |
| `Disruptor.ShownIsPublished` | disruptor--/disruptor/wait_strategy.h:139-149 | everything a wait has shown a consumer is published |
| `Disruptor.RunCursorIsPublished` | disruptor--/disruptor/sequencer.h:90-94 | in every state of every run a claimed sequence is at or below the cursor exactly when it is published |
| `Disruptor.UpstreamIsAhead` | disruptor--/disruptor/wait_strategy.h:360-371 | whatever a gating consumer waits for, directly or not, is at least as far as it is |
| `Disruptor.UnguardedPublish` | disruptor--/disruptor/claim_strategy.h:95-96 | without the guard the cursor stays right exactly when claims are published in order |
| `Disruptor.UngatedGrantsShareASlot` | disruptor--/disruptor/claim_strategy.h:114-124 | without a gating consumer, for every ring size, some run lets two publishers hold one slot |
| `Disruptor.OversizeClaimOverlaps` | disruptor--/disruptor/claim_strategy.h:114-124 | a claim overlaps itself exactly when it is larger than the ring |
| `Progress.WaitReturnsAll` | disruptor--/disruptor/wait_strategy.h:139-149 | a wait that is satisfied returns exactly what is available: the cursor, or the least sequence seen of those waited for; one that is not leaves everything as it was |
| `Progress.CatchUp` | disruptor--/disruptor/wait_strategy.h:139-149 | from every state with the invariant a consumer finishes, by its own steps, all that is available to it |
| `Progress.ReachesCursor` | disruptor--/disruptor/wait_strategy.h:139-149 | in every state of every run a consumer that waits for no other can reach the cursor by its own steps |
| `Progress.Grant` | disruptor--/disruptor/claim_strategy.h:114-124 | a claim is granted by its own steps once every gating consumer has finished what it would overwrite |
| `Progress.CachedGrants` | disruptor--/disruptor/claim_strategy.h:114-124 | with the cached minimum alone a claim is granted at once exactly if that leaves it room |
| `Progress.ProbeStoresLeast` | disruptor--/disruptor/claim_strategy.h:126-134 | what is cached is the least sequence read |
| `Progress.HasAvailableCapacity` | disruptor--/disruptor/claim_strategy.h:126-134 | there is capacity exactly if every gating consumer has finished the event that one more would overwrite |
| `Progress.PublishTurn` | disruptor--/disruptor/sequencer.h:90-94 | the publisher whose turn it is moves the cursor to the end of its claim by its own steps |
| `Progress.RunDrains` | disruptor--/disruptor/sequencer.h:83-94 | no run comes to a standstill: from every state of it, all that is claimed can be published and finished by all consumers, if none waits for itself |
| `Bitset.RFind` | coost/src/mem.cc:262-295 | the highest bit set at or below the word of a position, or -1 if there is none |
| `MemBlock.Block.Alloc` | coost/src/mem.cc:392-398 | grants the units from the bump position exactly when they fit; no earlier grant changes |
| `MemBlock.Block.Free` | coost/src/mem.cc:402-408 | one grant is given back; the bump position falls to its start if it was the last one held, to 0 if it was the only one, and stays otherwise; the block reports itself empty exactly when nothing is held |
| `MemBlock.Block.XFree` | coost/src/mem.cc:410-413 | a free by another thread marks one live grant as waiting and touches nothing else |
| `MemBlock.Block.ReclaimRemote` | coost/src/mem.cc:443-464 | with other threads freeing between any two steps: the remote frees that the top word had at first are all reclaimed; where, from some word up, all that was held had been freed, all of it is, and the bump position falls to or below the lowest of it, to 0 if that was all; no live grant is lost |
| `MemBlock.Block.TryHardAlloc` | coost/src/mem.cc:443-471 | after reclaiming, grants the units exactly when they fit; it must succeed if, from some word up, all that was held had been freed, and that leaves room enough |
| `MemBlock.Block.Realloc` | coost/src/mem.cc:415-422 | grows a grant in place exactly when it is the last one and there is room |
| `MemBlock.Block.Accounted` | coost/src/mem.cc:392-471 | every grant is in one place: live, waiting in the remote set, or given back for good |
| `ThreadAlloc.Slots.Alloc` | coost/src/mem.cc:300-366 | hands out a slot that was free, and fails only when all are taken |
| `ThreadAlloc.AddressDecodes` | coost/src/mem.cc:791-825 | from an address alone the arithmetic finds block and unit |
| `ThreadAlloc.Arena.Alloc` | coost/src/mem.cc:717-789 | a success leaves one new live range in the front block and every other grant as it was or reclaimed; the front block serves if it has room; a new block is taken only if the blocks tried have none; with a new block to be had it succeeds |
| `ThreadAlloc.Arena.Free` | coost/src/mem.cc:791-825 | exactly the range at the address is freed; a block leaves the list only when it is empty, with both bit sets zero |
| `ThreadAlloc.Arena.RemoteFree` | coost/src/mem.cc:791-825 | a free by another thread marks exactly the range at the address |
| `ThreadAlloc.Arena.Realloc` | coost/src/mem.cc:827-858 | the range stays at its address exactly when it is long enough, or is the last of the front block with room behind it; all other grants stay |
| `ThreadAlloc.Arena.LiveRangesDisjoint` | coost/src/mem.cc:717-858 | live ranges, of one block or of two, never share a byte and never leave their block |
| `JsonText.ParseString` | coost/src/json.cc:414-452 | jumping from backslash to backslash with the nearest quote known reads every text as the character-by-character definition does, errors included |
| `JsonText.EscapedReads` | coost/src/json.cc:414-452 | an escaped string followed by a quote is read back, for every string of bytes |
| `JsonText.WriteString` | coost/src/json.cc:668-686 | copying stretches between characters to escape writes the escaped string between quotes |
| `JsonNumber.CompareIsOrder` | coost/src/json.cc:580-588 | between digit strings of one length the order of bytes is the order of numbers |
| `JsonNumber.IntegerReads` | coost/src/json.cc:526-592 | every 64-bit integer, the smallest included, is read back from its decimal text whatever follows that cannot belong to a number |
| `JsonScalars.NumberEndIff` | coost/src/json.cc:544-569 | a number is scanned to a position, with or without fraction and exponent, exactly if the grammar of numbers says so |
| `JsonScalars.NumberMeans` | coost/src/json.cc:544-605 | a number without fraction and exponent is an integer exactly if it lies between the smallest signed and the largest unsigned 64-bit number, and every other one is a double |
| `JsonScalars.NoNumber` | coost/src/json.cc:544-569 | what is no number is refused |
| `JsonScalars.SimpleEscapes` | coost/src/json.cc:400-412 | the escapes of one character, what each stands for, and that all others are refused |
| `JsonScalars.Utf8Decodes` | coost/src/json.cc:505-521 | every code point is encoded as UTF-8 in the shortest form |
| `JsonScalars.HexDigitIs` | coost/src/json.cc:454-461 | the hexadecimal digits, in either case, and their values |
| `JsonScalars.SingleMeans` | coost/src/json.cc:488-524 | an escape of four digits that is no high surrogate reads as the UTF-8 of that code point |
| `JsonScalars.PairMeans` | coost/src/json.cc:488-524 | a pair of surrogates reads as the UTF-8 of the code point it stands for |
| `JsonScalars.OthersRefused` | coost/src/json.cc:463-504 | fewer digits, and a high surrogate without a low one, are refused |
| `JsonPrinter.Stream.Print` | coost/src/json.cc:665-773 | the recursive printers with their replaced last comma append exactly the text of the tree, compact or indented |
| `JsonPretty.WritesLines` | coost/src/json.cc:729-773 | the indented print is the lines of the tree: brackets on lines of their own, the lines of every item moved right by the indentation, commas between items |
| `JsonParser.StepValid` | coost/src/json.cc:231-398 | every label keeps the discipline of the two stacks, so no pop can fail |
| `JsonParser.CleanUpEmpties` | coost/src/json.cc:379-397 | the error exit empties both stacks and leaves a well-formed tree for release |
| `JsonParser.ParseEmpties` | coost/src/json.cc:231-398 | on every text the parser ends, with both stacks empty, and what it returns is a tree: 64-bit integers, keys and values in turn |
| `JsonParser.Parser.Parse` | coost/src/json.cc:231-398 | the loop over labels on the two mutable stacks computes the machine's outcome, whose language `JsonGrammar` gives, and leaves both stacks empty |
| `JsonGrammar.ParsedIffDocument` | coost/src/json.cc:231-398 | the parser accepts a text with a tree exactly if the whole text, between white space, is in the grammar with that tree |
| `JsonGrammar.RefusedIffNot` | coost/src/json.cc:231-398 | every text is answered, and refused exactly if the grammar gives it no tree |
| `JsonRoundTrip.ValueReads` | coost/src/json.cc:231-398 | a printed value is pushed, whatever state of the machine waits for it |
| `JsonReader.TextParses` | coost/src/json.cc:231-398 | a printed tree between any white space parses to the tree |
| `JsonReader.CompactRoundTrip` | coost/src/json.cc:665-724 | parsing the compact print of any tree without doubles, with keys free of quotes and zero bytes, returns the tree |
| `JsonReader.PrettyRoundTrip` | coost/src/json.cc:727-774 | the same for the indented print, at any indentation |
| `JsonKeys.ParsedKeys` | coost/src/json.cc:231-398 | no tree that the parser accepts, of any text, has a key with a quote in it |
| `JsonKeys.WriteCut` | coost/src/json.cc:665-774 | a tree is printed as the tree whose keys are cut at their first zero byte |
| `JsonKeys.CompactRoundTripIff` | coost/src/json.cc:665-724 | a tree without doubles comes back from its compact print exactly if no key of it, at any depth, holds a quote or a zero byte |
| `JsonKeys.PrettyRoundTripIff` | coost/src/json.cc:727-774 | the same for the indented print |
| `JsonKeys.CompactGivesCut` | coost/src/json.cc:665-724 | what comes back from a tree with zero bytes in its keys, but no quotes: the tree with its keys cut |

## Left out

- Log.TruncatedLogReadsBack: the reader starts at offset 0, as both of its callers do; skipping to an initial block and resynchronising after it are not modelled.
- Log.WholeLogReadsBack: the same.
- Inputs.GetOverlappingInputs: takes the level's files and whether it is level 0; the debug check of the level number is not modelled.
- DBImpl.DB.ManualCompaction: starts the compaction; the loop over levels and the rest of a range cut off by size are repeated calls.
- DBImpl.DB.CompactMemTable: the log number in the edit and write errors are left out.
- DBImpl.DB.SwitchMemTable: delays, level-0 limits and the change of log file are left out.
- Picking.SetupOtherInputs: grandparents and the compaction pointer only steer later choices and are left out.
- Picking.PickCompaction: the seed that score, seeks and compaction pointer would choose is a parameter, so the result holds for every seed.
- Compaction.Cursor.DoCompactionWork: the flush inside the loop is the step Flush of `DbSteps`; keys that do not parse and write errors are left out.
- VersionBuilder.SnapshotFirst: comparator name and compaction pointers of the snapshot record are left out.
- VersionBuilder.RecoveredIsInstalled: file lists only; log number, next file number and last sequence number are left out.
- Recovery.StepRecorded: file lists only, as above.
- Recovery.RecoveryIsExact: file lists only, as above; runs with a harmful flush are left out, because a debug build aborts there and a release build keeps an unsound version.
- BlockIter.Iter.ParseNextKey: the block is one a builder finished; the corruption exit for other bytes is left out.
- BlockIter.Iter.Seek: the same.
- Filter.FilterBlockBuilder.Finish: the bytes of the offset array are left out.
- TableBuilder.TableBuilder.Finish: the bytes of the metaindex block and the footer are left out.
- Log.ReadPhysicalRecord: read errors and an initial offset are left out.
- Log.ReadRecord: an initial offset and resynchronising after it are left out.
- ThreadAlloc.Arena.Alloc: where a new block lies is a parameter.
- ThreadAlloc.Arena.Free: returning an empty block to its parent is left out.
- JsonText.WriteString: truncation in debug output is left out.
- JsonPrinter.Stream.Print: truncation in debug output is left out; the text of a double is a parameter.
- JsonReader.CompactRoundTrip: trees with doubles are left out, because printing and reading them is foreign code. For trees without doubles the exact condition is `JsonKeys.CompactRoundTripIff`.
- JsonReader.PrettyRoundTrip: the same, with `JsonKeys.PrettyRoundTripIff`.
- ThreadAlloc.Arena.Realloc: when it fails, the caller's allocation, copy and free are the two other operations in turn; requests that change the size class are not modelled.
- GlobalAlloc, HugeBlock lists and the operating system behind them: where a new block lies is a parameter of `ThreadAlloc.Arena.Alloc`; `ThreadAlloc.Slots` models one word of slots by itself.
- Requests above 128 KB, which go to malloc, and the static allocators.
- Corrupt blocks, tables and version edits beyond being refused; checksum failures of blocks; the block cache's use by tables.
- Byte layout of the filter block's offset array and of the table footer.
- Compression, file system, environment, background scheduling, statistics, and shutdown; errors while writing tables.
- Replay of the write-ahead log into memtables on opening, file deletion, and file number reuse after a crash.
- Choosing the next level to compact by score or by seeks, and cutting tables by size and grandparent overlap: both are parameters.
- Reference counts of versions, memtables and readers: a model state keeps whatever a reader can see.
- Weak memory: acquire and release orders are taken as sequential consistency.
- Overflow of 64-bit sequence numbers in the ring buffer, alerts, time-outs and the blocking wait.
- The sharding of the LRU cache over sixteen shards, and its total charge.
- Builder::SaveTo is a function (a merge followed by removals), not the merging loop with its iterator.
- Debug output of JSON with truncated strings, and access to members by path.
- The networking and coroutine libraries beside these (brpc, cpp-tbox, muduo, netLink, CppFreeMock), which share no protocol with the parts modelled.

## Findings

Where the code does not keep what it promises; each has a lemma with an input and the exact condition.

- A flush during a manual compaction can lose a write. `VersionSet::CompactRange` (leveldb/db/version_set.cc:1448-1479)
  takes files with gaps between them, and the compaction loop flushes the immutable memtable (leveldb/db/db_impl.cc:923-933)
  to a level picked without regard to the compaction. The table can land in such a gap of the outputs' level, and an
  output then covers it. `Interleaving.LostWrite`: keys 1 and 9 flushed twice, a manual compaction of level 1, key 5
  flushed meanwhile; afterwards no read finds key 5. A debug build stops at the check in `Builder::SaveTo`
  (leveldb/db/version_set.cc:698-711). Exact condition: `Interleaving.FlushThenInstall`, `Interleaving.SoundIffCareful`.
- An integer in JSON between 2^63 and 2^64 - 1 is read as a negative number (`JsonScalars.NumberMeans`).
- JSON keys are printed without escapes and as C strings. A key with a quote does not come back, and one with a zero
  byte comes back cut (`JsonKeys.CompactRoundTripIff`, `JsonKeys.CompactGivesCut`).
- Without a gating consumer two publishers can hold one slot of the ring, whatever its size
  (`Disruptor.UngatedGrantsShareASlot`); a claim larger than the ring overlaps itself (`Disruptor.OversizeClaimOverlaps`).
- A file number given to another file after its deletion makes recovery differ from installing the edits one at a time
  (`VersionBuilder.ReaddedNumberRevives`); no run of the database gives one level a number twice (`Recovery.StepRecorded`).
