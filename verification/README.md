# Ambar, modelled and proved

Ambar is an LSM-tree storage engine: writes go to a log and a memtable, full
memtables become sorted tables arranged in seven levels, and a background
thread merges tables downwards.  Its parts agree with each other only through
invariants that no single function checks.  This project models the parts that
carry those invariants and proves what each promises the others.  It is written
in Dafny 4.11; `dafny verify dfyconfig.toml` checks all of it.

The specification of the whole store is in `Entries`: a set of entries, each a
user key, a sequence number, a kind and a value, where a read of a user key at
a snapshot takes the newest entry at or below it.

**Levels and compaction** (`Keys`, `Entries`, `Levels`, `VersionGet`,
`CompactionInputs`, `CompactionWork`, `Grandparents`, `FlushPlacement`,
`LevelReplace`, `LevelRuns`, `LevelReads`, `ManualGap`).  `VersionGet.Get`
reads the specification under the level invariants.  `LevelRuns.RunIsSound`
proves that every run of flushes, trivial moves and compactions, with flushes
installed in the middle of a compaction, keeps those invariants and every read,
provided no flush lands in a gap: at the output level of the compaction under
way, between entries that compaction keeps.  `LevelRuns.FlushIff` proves this
is the exact condition.  For picked compactions it always holds, because their
inputs form one connected interval (`LevelRuns.PickedRunIsSound`), so a read of
the installed version is a read of everything the run flushed
(`LevelReads.PickedRunReads`).  For `compact_range` the condition can fail:
`ManualGap.ManualGapBreaksLevels` is a run from an empty database that ends
with a level out of order.  `CompactionWork.DropsIff` says exactly what a
compaction leaves out.

**Manifest** (`VersionBuilder`, `ManifestRuns`, `EditCodec`).  Replaying a
snapshot and the edits since in one builder gives the version the live set
reached one edit at a time, for every run above, and the numbers the last
records carry.  An edit's bytes decode to the edit if and only if its levels
exist and its keys have a trailer.

**Durability** (`Disks`, `Durability`, `DurabilityFrames`, `DurabilityProofs`,
`DurabilityRuns`, `DurabilityProgress`).  The protocol of log, tables, manifest
and CURRENT as steps on a disk that keeps per-file durable prefixes, the old
contents of a file written over until its next sync, and an ordered journal of
directory operations; cut at any point, including inside a recovery that writes
over what an earlier cut recovery left.  `DurabilityRuns.RunIsDurable`: the
batches recovery finds, in the order of their sequence numbers, are a prefix of
the committed ones that holds every batch ever acknowledged with sync, and the
numbers given out next are above all of them, which is what `LevelRuns` asks of
a flush.  `DurabilityRuns.AcknowledgedSurvives` says the same of one write and
the sync after it.  `DurabilityProgress` gives the steps by which the database
is always reopened, its log always flushed, its tables always merged.

**Group commit** (`GroupCommit`, `GroupCommitInv`, `GroupCommitProofs`,
`GroupCommitRuns`, `GroupBuilding`).  The writer queue as an interleaving of
steps: one leader, success told if and only if the batch was written, log order
equal to queue order, no missed wake-up, nobody touched after it returned,
never stuck, and each batch its own range of sequence numbers.

**Codecs** (`Encoding`, `LzFormat`, `LzDecoder`, `LzEncoder`, `LzBlock`,
`WalFormat`, `WalProofs`, `WalDamage`, `WalWriter`, `WalReader`, `BlockFormat`,
`BlockBuilders`, `BlockReaders`, `BlockCursors`).  Each has an independent
definition of what the bytes mean; what the writer produces reads back.  On
arbitrary bytes the decompressor and the log reader agree with that definition,
and the block reader ends without leaving the block.  The checksum (CRC32C,
section 12.1 of RFC 3720) is any function of the bytes it covers.

**Cursors** (`Merger`, `TwoLevel`, `DbIter`).  Each iterator, under any mix of
seeks and changes of direction, is an index into one sorted sequence.

**Index-like structures** (`Separators`, `Bloom`, `FilterBlocks`,
`EntryBlocks`, `Tables`, `TableBuilders`, `LruLinks`, `LruTable`, `LruBooks`,
`LruShard`, `SkipLists`, `SkipListWriter`).  A table never loses a lookup; the
cache shard keeps its counts, lists and charges over every call; a skip-list
reader interleaved with the writer's individual stores gets the true successor
at its last load.

Where documentation and code differ, the model follows the code.

## Model

| member | source | states |
|---|---|---|
| `Keys.Compare` | src/comparator.cpp:13-16 | negative, zero or positive exactly as the bytes compare lexicographically |
| `Keys.RankIsLexicographic` | src/comparator.cpp:13-16 | the real-valued rank the proofs order keys by is the lexicographic order, and tells keys apart |
| `Keys.CompareInternal` | src/dbformat.hpp:100-111 | a total order: user key ascending, then the trailer descending, zero only for equal keys |
| `Keys.LookupKeySplits` | src/dbformat.hpp:119-124 | an internal key is at or after the lookup key for (user, snapshot) iff its user key is later, or it is a version of this user key that the snapshot sees |
| `Entries.ViewOfNewer` | src/dbformat.hpp:87-111 | two stores that read alike still do after the same newer entries are added to both |
| `VersionGet.FindFile` | src/version_set.cpp:63-77 | the first file whose largest key is at or after the key: everything before ends below it, nothing from there on does |
| `VersionGet.SearchFileFinds` | src/version_set.cpp:235-253 | the entry a file answers with is the newest one of the user key in that file at or below the snapshot |
| `VersionGet.SearchFileMisses` | src/version_set.cpp:235-253 | a file that answers nothing holds no visible version; and if the lookup key is within its bounds, the file reaches past the user key |
| `VersionGet.NewestCovering` | src/version_set.cpp:318-326 | one pass finds the newest covering level-0 file older than the last one searched, or there is none |
| `VersionGet.LevelAnswer` | src/version_set.cpp:334-346 | below level 0 the one file the search lands on speaks for the whole level, also when the versions of a user key are split over neighbouring files |
| `VersionGet.GetLevelZero` | src/version_set.cpp:311-330 | newest-first passes: an answer is the newest visible version of the whole level; no answer means no visible version in it |
| `VersionGet.GetFromLevel` | src/version_set.cpp:334-346 | the answer of one deeper level, or proof that it holds no visible version |
| `VersionGet.Get` | src/version_set.cpp:255-348 | under the level invariants, stopping at the first answer equals reading the newest entry at or below the snapshot over all entries of all files |
| `CompactionInputs.GetOverlappingInputs` | src/version_set.cpp:361-405 | exactly the files that overlap the range it ends with; in level 0 that range is the fixed point of widening by files that stick out, and restarting terminates |
| `CompactionInputs.GetRange` | src/version_set.cpp:795-814 | the smallest and largest internal key, each reached by one of the files |
| `CompactionInputs.BoundaryEndIsTight` | src/version_set.cpp:1089-1116 | the boundary closure of a run stops at the first file that does not continue the last user key |
| `CompactionInputs.FindBoundaryFile` | src/version_set.cpp:1089-1116 | the file just after the largest key that starts with the same user key, the smallest such one |
| `CompactionInputs.AddBoundaryInputs` | src/version_set.cpp:1089-1116 | a run of a sorted level grows to its boundary closure; a level-0 set that is already closed is left alone |
| `CompactionInputs.OverlappingIsRun` | src/version_set.cpp:361-405 | in a sorted level the overlapping files are one run of neighbours |
| `CompactionInputs.LowerInputs` | src/version_set.cpp:1123-1138 | the files of the next level that must come along: they cover every key of the upper inputs and end at boundaries |
| `CompactionInputs.ExpandInputs` | src/version_set.cpp:1143-1174 | the free widening is taken if and only if it brings more files, the whole stays under fifty files' worth, and the lower inputs stay as many; the inputs are then still safe and connected |
| `CompactionInputs.SetupOtherInputs` | src/version_set.cpp:1120-1187 | the seed is completed by the files that go on with its last user key, then perhaps widened; the lower inputs are exactly those the upper ones need; the whole is safe, connected if the seed was; the pointer is where the upper inputs end and the grandparents are the files over the whole range |
| `CompactionInputs.PickCompaction` | src/version_set.cpp:1023-1078 | an automatically picked compaction has safe inputs that form one connected interval and include the file it was picked for: the one charged with seeks, or the first that ends past the compaction pointer, wrapping round; the new pointer is where the inputs end |
| `CompactionInputs.CompactRange` | src/version_set.cpp:1189-1216 | a manual compaction has safe inputs that include what was asked for: below level 0 the fewest files from the front that reach one file's worth, in level 0 all that overlap; nothing is promised about the ground between them; nothing found means nothing overlaps |
| `CompactionInputs.CutToOneFile` | src/version_set.cpp:1195-1208 | the shortest prefix whose sizes reach the limit, or all of it |
| `CompactionWork.Compaction.IsBaseLevelForKey` | src/version_set.cpp:1276-1297 | asked for user keys in order, the resumable scan answers exactly whether no deeper file spans the key |
| `CompactionWork.OlderIsDropped` | src/db_impl.cpp:1424-1427 | after one version at or below the snapshot, every later one of that key in the merge is dropped |
| `CompactionWork.DropsIff` | src/db_impl.cpp:1411-1442 | the rule that looks one entry back drops exactly the entries with an earlier version of their key at or below the snapshot, and the tombstones at or below it whose key no file from level + 2 on spans |
| `CompactionWork.DroppedNewest` | src/db_impl.cpp:1424-1440 | if the newest visible version is dropped it is a tombstone, and nothing of the key stays visible |
| `CompactionWork.KeptPreservesViews` | src/db_impl.cpp:1411-1442 | the drop rule changes no read at any live snapshot, given that nothing left behind is older than a tombstone dropped at its base level |
| `CompactionWork.CutIsSorted` | src/db_impl.cpp:1444-1462 | however a sorted stream is cut into files, the files are sorted and disjoint |
| `CompactionWork.DecideDrop` | src/db_impl.cpp:1411-1442 | the decision the loop makes from its two carried variables is the rule stated over the whole merge |
| `CompactionWork.DoCompactionWork` | src/db_impl.cpp:1359-1489 | an input entry is in an output if and only if it is neither shadowed nor a spent tombstone; the outputs are sorted and disjoint, none goes on past its size or past an input that cuts, and every one but the last ends at such a place |
| `Grandparents.OverlapCounter.ShouldStopBefore` | src/version_set.cpp:1299-1323 | for keys in order, true exactly when the files two levels down that ended since the count began are more than ten outputs' worth; the count begins at the first key and after every cut |
| `FlushPlacement.SomeFileOverlapsRange` | src/version_set.cpp:79-106 | true iff some file of the level overlaps the range; the binary search below level 0 misses none |
| `FlushPlacement.PickLevelForMemtableOutput` | src/version_set.cpp:414-443 | level 0 if that is not clear; else as deep as it may sink, at most level 2, each level on the way clear and with little overlap below; no level down to it shares a user key with the file |
| `LevelReplace.ReplaceIff` | src/db_impl.cpp:1348-1357 | installing outputs keeps the level invariants iff no output spans a file left behind in the output level; LevelRuns.FlushIff turns this into a condition on the flush that causes it |
| `LevelReplace.NothingIsSpanned` | src/version_set.cpp:1120-1187 | safe inputs satisfy that condition |
| `LevelRuns.ClearOfConnected` | src/version_set.cpp:414-443 | a flushed range that shares no user key with the files of a connected interval lies wholly to one side of it |
| `LevelRuns.FlushKeepsJob` | src/db_impl.cpp:1370-1398 | any flush installed in the middle of a compaction leaves its inputs and its tombstone rule sound |
| `LevelRuns.FlushKeepsInv` | src/db_impl.cpp:1250-1284 | a flush that does not land in a gap keeps the whole run invariant |
| `LevelRuns.ConnectedHasNoGap` | src/version_set.cpp:1023-1078 | where the inputs form one connected interval, as picked ones do, no flush can land in a gap |
| `LevelRuns.GapBreaks` | src/version_set.cpp:1189-1216 | a file left behind with kept entries on both sides admits a finish whose result is out of order: it is constructed |
| `LevelRuns.FlushIff` | src/version_set.cpp:414-443 | after a flush in the middle of a compaction, every way of finishing keeps the levels iff the flush did not go to the output level between entries the compaction keeps |
| `LevelRuns.RestIsNewer` | src/version_set.cpp:1276-1297 | what a finishing compaction leaves behind holds no version older than a tombstone it drops, though the check looked at the version it began from |
| `LevelRuns.FinishKeepsViews` | src/db_impl.cpp:1348-1489 | a finished compaction changes no read of any user key at any snapshot at or above its smallest one |
| `LevelRuns.MoveKeepsInv` | src/db_impl.cpp:1124-1150 | a trivial move keeps the run invariant |
| `LevelRuns.NextKeepsInv` | src/db_impl.cpp:1089-1203 | every step of the level machinery, picked and manual compactions alike, keeps the run invariant unless it is a flush into a gap |
| `LevelRuns.RunIsSound` | src/db_impl.cpp:1089-1203 | over every run of flushes, trivial moves and compactions of either kind, with flushes in the middle and none of them into a gap: levels below 0 sorted and disjoint, newer versions shallower, and every read equals a read of all that was ever flushed |
| `LevelRuns.PickedRunIsSound` | src/version_set.cpp:1023-1187 | the same over every run whose compactions were picked, with nothing asked of the flushes |
| `LevelReads.HistoryIsFlushed` | src/db_impl.cpp:1250-1284 | what a state remembers as flushed is exactly what the flushes before it flushed |
| `LevelReads.RunReads` | src/db_impl.cpp:1089-1203 | at any snapshot that no compaction of the run went above, a read of the installed version is a read of everything the run flushed |
| `LevelReads.PickedRunReads` | src/version_set.cpp:1023-1187 | the same over every run whose compactions were picked, with nothing asked of the flushes |
| `LevelReads.CompactionKeeps` | src/db_impl.cpp:1359-1489 | from the step that begins a compaction to the one that finishes it, flushes between: an input entry is in an output if and only if it is neither shadowed below the live snapshot nor a tombstone spent in the version the compaction began from |
| `ManualGap.ManualGapBreaksLevels` | src/version_set.cpp:1189-1216 | a run from an empty database, each state given: two flushes, a manual compaction of both files, a flush into the gap between them, and a finish with the kept entries in one output, after which the levels are out of order |
| `ManualGap.AskForAll` | src/version_set.cpp:1189-1216 | compact_range, asked for all of level 1 of that database, takes exactly those two files and none below |
| `VersionBuilder.OrderIsUnique` | src/version_set.cpp:468-489 | a level is determined by its set of files |
| `VersionBuilder.MergeLevel` | src/version_set.cpp:517-554 | the merge is in order and holds exactly the files of the base or added that are not deleted |
| `VersionBuilder.Builder.Apply` | src/version_set.cpp:491-515 | the pending state of every level forgets what the edit deletes and then remembers what it adds |
| `VersionBuilder.Builder.SaveTo` | src/version_set.cpp:517-554 | every level saved is the ordered sequence of exactly the files the pending state keeps |
| `VersionBuilder.ReplayStep` | src/version_set.cpp:491-554 | one more edit in the shared builder is one more installed version |
| `VersionBuilder.ReplayAgrees` | src/version_set.cpp:893-979 | a snapshot and all later edits in one builder give the version that installing them one at a time reached, if no number is added to a level twice |
| `VersionBuilder.InstallEdit` | src/version_set.cpp:617-635 | the next version holds exactly what the edit adds and, of the rest, what it does not delete |
| `VersionBuilder.Recover` | src/version_set.cpp:871-1020 | recovery rebuilds the last installed version; each number is that of the last record that carries one; refused if and only if a record names another comparator or none carries a number it needs; the fresh manifest's number is above the old one's |
| `ManifestRuns.ReplaceEditIff` | src/db_impl.cpp:1348-1357 | installing a compaction's edit is replacing its inputs by its outputs, and nothing else is |
| `ManifestRuns.AddEditIff` | src/db_impl.cpp:1205-1239 | installing a flush's edit is adding its file to the chosen level |
| `ManifestRuns.RunNeverReadds` | src/version_set.cpp:893-979 | no run of the level machinery ever adds a file number to a level twice |
| `ManifestRuns.RunReplays` | src/version_set.cpp:893-979 | for every run: replaying a snapshot and the edits logged since gives back the version the run reached, with its level invariants |
| `EditCodec.ReadField` | src/version_edit.cpp:103-203 | for arbitrary bytes, a decoded field lies within them, makes progress, names a real level and has keys long enough to be internal keys |
| `EditCodec.FieldReads` | src/version_edit.cpp:52-91 | a written field is read back where it was written unless it is one the decoder refuses |
| `EditCodec.DecodesFrom` | src/version_edit.cpp:94-211 | decoding a written record gathers its fields in order, or fails if any is refused |
| `EditCodec.EncodeTo` | src/version_edit.cpp:52-91 | the appended bytes are fields that gather to exactly this edit, and are acceptable iff the edit is |
| `EditCodec.DecodeFrom` | src/version_edit.cpp:94-211 | the loop computes the recursive decoding, and never yields a level or key that would be read out of bounds |
| `EditCodec.EncodeThenDecode` | src/version_edit.cpp:52-211 | an edit comes back from its record iff its levels exist and its keys have a trailer; otherwise decoding fails |
| `DbIter.ShownIsView` | src/db_iter.cpp:124-158 | an entry the iterator may show is what a read of its user key at the snapshot returns |
| `DbIter.ViewIsShown` | src/db_iter.cpp:124-158 | every user key with a visible value has exactly one such entry |
| `DbIter.TurningReturns` | src/db_iter.cpp:85-186 | stepping forward and back, or back and forward, returns to the same key |
| `DbIter.Iter.FindNextUserEntry` | src/db_iter.cpp:124-158 | stops on the first entry from where it stands on that is shown and not of the key being skipped |
| `DbIter.Iter.FindPrevUserEntry` | src/db_iter.cpp:195-235 | ends on the last shown entry at or before where the internal iterator stands, with its key and value saved |
| `DbIter.Iter.Next` | src/db_iter.cpp:85-115 | moves to the first shown entry after the current one, from either direction |
| `DbIter.Iter.Prev` | src/db_iter.cpp:160-186 | moves to the last shown entry before the current one, from either direction |
| `DbIter.Iter.Seek` | src/db_iter.cpp:237-247 | stands on the first shown entry whose user key is at or after the target |
| `DbIter.Iter.SeekToFirst` | src/db_iter.cpp:249-258 | stands on the first shown entry |
| `DbIter.Iter.SeekToLast` | src/db_iter.cpp:260-265 | stands on the last shown entry |
| `DbIter.Iter.Key` | src/db_iter.cpp:22-26 | the user key of the shown entry, whichever direction the iterator came from |
| `DbIter.Iter.GetValue` | src/db_iter.cpp:28-31 | the value of the shown entry, whichever direction the iterator came from |
| `Merger.SmallestIsNext` | src/merger.cpp:129-140 | with the children split at a position of the union, the smallest of their entries is the union's next |
| `Merger.LargestIsPrevious` | src/merger.cpp:142-153 | the largest of the children's previous entries is the union's previous |
| `Merger.SeekSplits` | src/merger.cpp:38-42 | seeking every child to a key splits them all at the union's first entry at or after it |
| `Merger.UnionExists` | src/merger.cpp:26-42 | children with distinct keys always have one sorted union |
| `Merger.FindSmallest` | src/merger.cpp:129-140 | a child holding the smallest current key, none iff all are exhausted |
| `Merger.FindLargest` | src/merger.cpp:142-153 | a child holding the largest current key, none iff all are exhausted |
| `Merger.MergingIterator.Current` | src/merger.cpp:21-24 | valid exactly within the union, and delivers its entry at the cursor |
| `Merger.MergingIterator.Seek` | src/merger.cpp:38-42 | the cursor is the union's first position at or after the target |
| `Merger.MergingIterator.SeekToFirst` | src/merger.cpp:26-30 | the cursor is the union's front |
| `Merger.MergingIterator.SeekToLast` | src/merger.cpp:32-36 | the cursor is the union's last entry |
| `Merger.MergingIterator.Next` | src/merger.cpp:44-68 | the cursor moves on by exactly one, also after a change of direction |
| `Merger.MergingIterator.Prev` | src/merger.cpp:70-92 | the cursor moves back by exactly one, also after a change of direction |
| `TwoLevel.SeekInBlock` | src/two_level_iterator.cpp:29-34 | the index seek and then the block seek give the position in the concatenation |
| `TwoLevel.TwoLevelIterator.SkipEmptyBlocksForward` | src/two_level_iterator.cpp:77-88 | does not move the cursor in the concatenation, only opens the block it is in |
| `TwoLevel.TwoLevelIterator.SkipEmptyBlocksBackward` | src/two_level_iterator.cpp:90-101 | goes to the last entry before the used-up block |
| `TwoLevel.TwoLevelIterator.InitDataBlock` | src/two_level_iterator.cpp:108-120 | the open block is the one the index names |
| `TwoLevel.TwoLevelIterator.Seek` | src/two_level_iterator.cpp:29-34 | first position of the concatenation at or after the target |
| `TwoLevel.TwoLevelIterator.SeekToFirst` | src/two_level_iterator.cpp:36-41 | the front of the concatenation, past empty blocks |
| `TwoLevel.TwoLevelIterator.SeekToLast` | src/two_level_iterator.cpp:43-48 | the last entry of the concatenation, before empty blocks |
| `TwoLevel.TwoLevelIterator.Next` | src/two_level_iterator.cpp:50-53 | one position on |
| `TwoLevel.TwoLevelIterator.Prev` | src/two_level_iterator.cpp:55-58 | one position back |
| `TwoLevel.TwoLevelIterator.Current` | src/two_level_iterator.cpp:22-27 | the entry of the concatenation at the cursor |
| `Encoding.VarintRoundTrip` | src/encoding.cpp:9-57 | a 32-bit number is read back from where it was written, and where it ends |
| `Encoding.Varint64RoundTrip` | src/encoding.cpp:9-57 | the same for 64 bits |
| `Encoding.VarintIsShort` | src/encoding.cpp:9-23 | a varint fits in so many bytes exactly when its value does |
| `Encoding.Fixed32RoundTrip` | src/encoding.hpp:22-66 | a fixed-width number is read back from where it was written |
| `LzFormat.CopiedIs` | src/compress.cpp:290-328 | an overlapping match is determined by repeating with the period of its offset |
| `LzFormat.MatchPieceReads` | src/compress.cpp:82-99 | the reference decoder reads a written sequence back: its literals, offset and match length |
| `LzFormat.LastPieceReads` | src/compress.cpp:82-99 | and the last one, which has no match |
| `LzDecoder.WildCopyWithin` | src/compress.cpp:73-80 | eight-byte steps at least eight behind deliver the bytes of a byte-at-a-time copy, and stay in the buffer while a step of room is left |
| `LzDecoder.ReadExtra` | src/compress.cpp:240-248 | reads a continued length, or stops once it exceeds the room, where a byte-at-a-time reading would be refused too |
| `LzDecoder.TakeLiterals` | src/compress.cpp:256-278 | never reads outside the input or writes outside the output, and takes the literals the reference takes |
| `LzDecoder.TakeMatch` | src/compress.cpp:290-328 | never writes outside the output, and delivers the match the reference delivers |
| `LzDecoder.DecompressInto` | src/compress.cpp:225-330 | for any input and any declared length: accepts exactly the bodies that the reference decoder expands to that many bytes, and delivers those bytes |
| `LzEncoder.PutLength` | src/compress.cpp:47-54 | the continuation bytes of a length |
| `LzEncoder.EmitSequence` | src/compress.cpp:82-99 | writes exactly one sequence, within the room the size bound leaves |
| `LzEncoder.ExtendMatch` | src/compress.cpp:157-168 | the match is extended to its very end, and every byte of it repeats the text |
| `LzEncoder.FindMatch` | src/compress.cpp:140-155 | a match is taken exactly when the slot holds a position not too far back with the same bytes, and it is as long as it can be; the slot then holds this position |
| `LzEncoder.MatchPieceSize` | src/compress.cpp:103-107 | a sequence costs at most what it stands for, one byte in 255 aside |
| `LzEncoder.CompressBlock` | src/compress.cpp:109-188 | for any hash and table size the body expands to the input, in at most n + n/255 + 2 bytes; a run of one byte takes at most n/255 + 6 |
| `LzBlock.ExpandWorth` | src/compress.cpp:190-211 | no body delivers more than 255 bytes for each of its own, so the declared-length check turns no well-formed block away |
| `LzBlock.DecompressBlock` | src/compress.cpp:190-223 | accepts exactly the well-formed blocks, whatever the bytes |
| `LzBlock.RoundTrip` | src/compress.cpp:109-223 | decompressing what was compressed gives it back, for every input and any hash |
| `WalFormat.FramesChained` | src/wal.cpp:15-63 | the fragments of a record follow one another with the padding the block size asks for |
| `WalFormat.FragmentsFill` | src/wal.cpp:15-63 | every fragment of a record but its last ends at the end of a block, and together they are the record |
| `WalWriter.LogWriter.EmitPhysicalRecord` | src/wal.cpp:65-90 | appends header and payload with their checksum |
| `WalWriter.LogWriter.AddRecord` | src/wal.cpp:15-63 | the file becomes the log of one more record, of any size, empty ones included |
| `WalProofs.RecordsRead` | src/wal.cpp:306-352 | the first k records of a written log are read back whole |
| `WalProofs.CutLog` | src/wal.cpp:243-352 | cutting a written log at any byte leaves exactly the records whose last fragment ends by the cut, and the read ends cleanly if and only if the cut is at the end of a record or of the padding after it |
| `WalProofs.CutExists` | src/wal.cpp:243-352 | for every cut there is such a number of records |
| `WalProofs.OneRecordAt` | src/wal.cpp:306-352 | at most one record lies at a place |
| `WalProofs.ReadsEveryRecord` | src/wal.cpp:306-352 | on any bytes, every record is read up to the first place where none lies, and the read ends cleanly if and only if nothing is there |
| `WalDamage.DamageFollowed` | src/wal.cpp:157-241 | with one fragment's checksum broken and an intact one after it, the search for a readable record succeeds |
| `WalDamage.DamagedLog` | src/wal.cpp:157-241 | then reading yields exactly the records before the damaged one and stops with a failure that is followed |
| `WalReader.Verifies` | src/wal.cpp:149-153 | a whole record of a known type that carries its checksum |
| `WalReader.VerifiesToBlockEnd` | src/wal.cpp:173-189 | records back to back to the end of the block, and at least one |
| `WalReader.SearchBlock` | src/wal.cpp:205-241 | a find is a record that verifies at or after where a search began; no find means neither search has one to find |
| `WalReader.LogReader.ReadableRecordFollows` | src/wal.cpp:205-241 | over the rest of this block and every later one: never misses a record the two searches define, never reports one that does not verify |
| `WalReader.LogReader.StopReading` | src/wal.cpp:157-167 | ends the read, and damaged() says whether a readable record follows |
| `WalReader.ParseHeader` | src/wal.cpp:264-297 | the checks of a header in their order, with the same outcome as the byte-level format |
| `WalReader.LogReader.ReadPhysicalRecord` | src/wal.cpp:243-304 | the next fragment the format defines, block by block, or its stop |
| `WalReader.LogReader.ReadRecord` | src/wal.cpp:306-352 | the next record the format defines, fragments joined, or the stop at the right place, truncated() set in the middle of a record |
| `WalReader.LogReader.ReadAll` | src/wal.cpp:306-352 | every record of any file, exactly as the format defines |
| `WalReader.ReadLog` | src/wal.cpp:306-352 | for arbitrary bytes: every record up to the first place where none lies; truncated() unless nothing is there; damaged() told as the two searches say |
| `WalReader.ReadCutLog` | src/wal.cpp:15-352 | writer, cut and reader together: exactly the whole records come back, truncated() if and only if the cut took a part of one, damaged() only for something that verifies past everything whole |
| `WalReader.ReadDamagedLog` | src/wal.cpp:157-297 | writer, damage and reader together: the records before it come back and damaged() is set |
| `Disks.RecoversAll` | src/db_impl.cpp:320-334 | recovery through a manifest whose last sequence number bounds its tables goes on from that number, or from right after the last batch of the logs if that is higher, above every batch it brings back |
| `DurabilityFrames.CoversCrash` | tests/sim_file_system.hpp:16-65 | a version whose files are safe on the disk reads the same batches after any cut the model allows, up to a tail of the last log |
| `DurabilityProofs.ManifestSurvives` | src/version_set.cpp:617-713 | after a cut the manifest holds the installed version or the one in flight, whole |
| `DurabilityProofs.UpCrash` | src/db_impl.cpp:536-659 | a cut while open: CURRENT leads to a manifest through which recovery finds the prefix that was kept |
| `DurabilityProofs.OpeningCrash` | src/db_impl.cpp:242-427 | a cut inside recovery, which may be writing over files an earlier cut recovery left under the same names |
| `DurabilityProofs.CrashIsSafe` | src/db_impl.cpp:242-427 | a cut at any point leaves a prefix of the history that holds every batch acknowledged with sync; recovery finds exactly it, and goes on above its numbers |
| `DurabilityProofs.UpWrite` | src/db_impl.cpp:563-598 | a batch numbered after the last one and appended to the active log keeps the invariant |
| `DurabilityProofs.UpRotate` | src/db_impl.cpp:797-845 | the rotation, after the two syncs it does first, keeps the invariant |
| `DurabilityProofs.UpLogEdit` | src/version_set.cpp:659-673 | appending the manifest record of an edit already made keeps the invariant |
| `DurabilityProofs.UpPlan` | src/version_set.cpp:617-634 | an edit about tables already safe on the disk, with the last sequence number given out, keeps the invariant |
| `DurabilityProofs.EditCovers` | src/db_impl.cpp:1205-1239 | the version a flush's edit leads to holds the same batches as the one before it |
| `DurabilityProofs.UpInstall` | src/version_set.cpp:617-713 | installing a version whose record is synced keeps the invariant |
| `DurabilityProofs.UpRemove` | src/db_impl.cpp:1491-1546 | removing files no version in play needs keeps the invariant |
| `DurabilityProofs.OpeningCreate` | src/builder.cpp:14-64 | an opening may write over any stray file: the invariant holds whether a cut shows the old contents or the new |
| `DurabilityProofs.OpeningWriteManifest` | src/version_set.cpp:637-654 | the fresh manifest and its tables hold what the old one and the logs did |
| `DurabilityProofs.OpeningSwitch` | src/filename.cpp:126-161 | the rename of a durable pointer to a durable manifest keeps the invariant |
| `DurabilityProofs.OpeningFinish` | src/db_impl.cpp:242-427 | the opening ends with the history it recovered |
| `DurabilityRuns.StepKeepsInv` | src/db_impl.cpp:242-852 | every step of the protocol, crashes included, keeps the invariant |
| `DurabilityRuns.StepKeepsSynced` | src/db_impl.cpp:536-659 | no step loses a batch acknowledged with sync or reorders the history; a sync acknowledges all of it |
| `DurabilityRuns.RunKeepsSynced` | src/db_impl.cpp:536-852 | over a run, what a state counts as acknowledged stays a prefix of the history |
| `DurabilityRuns.RunIsDurable` | src/db_impl.cpp:242-852 | cut the power at any point of any run: the batches recovery finds, in the order of their sequence numbers, are exactly a prefix of the committed ones, with every batch ever acknowledged with sync in its place, and new numbers start above them all |
| `DurabilityRuns.OneOrder` | src/db_impl.cpp:563-566 | a set of numbered batches has one order, so the prefix is the only one |
| `DurabilityRuns.SyncedSurvives` | src/db_impl.cpp:595-595 | everything written when a sync returned is found after every later cut, in the order it was written |
| `DurabilityRuns.AcknowledgedSurvives` | src/db_impl.cpp:563-659 | a batch written and then synced before any cut is found after every later cut |
| `DurabilityRuns.OnlyWrittenIsFound` | src/db_impl.cpp:294-334 | whatever is found after a cut was written by some step of the run |
| `DurabilityProgress.CanOpen` | src/db_impl.cpp:242-427 | from every state a cut can leave, steps of the protocol, given one by one, lead to an open database with the same history |
| `DurabilityProgress.AlwaysReopens` | src/db_impl.cpp:242-427 | cut the power at any point of any run, and the database can be opened with exactly what recovery finds |
| `DurabilityProgress.CanFlush` | src/db_impl.cpp:1205-1239 | an open database can always move its log into a table: all of the history is then in tables, the new log is empty and the old one's name is gone |
| `DurabilityProgress.CanCompact` | src/db_impl.cpp:1348-1357 | any tables of the version can be merged into one that stands for them, after which each may be removed |
| `GroupCommitRuns.StepKeepsInv` | src/db_impl.cpp:536-753 | every step of every writer keeps the protocol invariant |
| `GroupCommitRuns.RunKeepsInv` | src/db_impl.cpp:536-753 | so does every interleaving |
| `GroupCommitRuns.OneLeader` | src/db_impl.cpp:536-561 | one leader at a time |
| `GroupCommitRuns.AnswersAreFinal` | src/db_impl.cpp:642-656 | no step changes an answer once given |
| `GroupCommitRuns.AnsweredOnce` | src/db_impl.cpp:642-656 | over a run a writer has at most one answer |
| `GroupCommitRuns.ReturnedIsAnswered` | src/db_impl.cpp:550-556 | a writer that has returned has been answered |
| `GroupCommitRuns.LogFollowsQueue` | src/db_impl.cpp:716-753 | over every run, log order is queue order, a record counts exactly its writers' entries, and each record is numbered from where the one before left off |
| `GroupCommitRuns.OwnRange` | src/db_impl.cpp:563-567 | within a record the writers' own ranges follow one another from its first number to its last |
| `GroupCommitRuns.RangesDisjoint` | src/db_impl.cpp:563-567 | no two writers share a sequence number: an earlier arrival's range ends before a later one's begins |
| `GroupCommitRuns.ToldTheTruth` | src/db_impl.cpp:563-656 | a writer with a batch, leader or member, is told its write succeeded if and only if its batch is in a record that was written; it is in one at most, synced if it asked for that |
| `GroupCommitRuns.RecordIsWrite` | src/db_impl.cpp:577-595 | every record is one write of the log by the leader at the front, with the outcome that write had, synced exactly if the leader asked |
| `GroupCommitRuns.FailureIsLast` | src/db_impl.cpp:631-637 | after a write of the log that failed, none follows |
| `GroupCommitRuns.AloneIsTold` | src/db_impl.cpp:559-562 | a leader that logs nothing is told how making room went |
| `GroupCommitRuns.FreeWhileAway` | src/db_impl.cpp:568-601 | while the leader waits for room or writes the log, others may join the queue |
| `GroupBuilding.BuildBatchGroup` | src/db_impl.cpp:716-753 | the largest group from the front that may go together and stays under the cap; a small leader waits for little more than its own write |
| `GroupCommitRuns.NoMissedWakeUp` | src/db_impl.cpp:80-107 | asleep means not released yet, or being woken is the leader's next step |
| `GroupCommitRuns.NoneTouchedAfterReturn` | src/db_impl.cpp:642-657 | the leader touches no writer that has returned |
| `GroupCommitRuns.NeverStuck` | src/db_impl.cpp:661-714 | while anyone waits, the leader or the writer promoted to lead can move |
| `BlockFormat.EntryDecodes` | src/block.cpp:54-84 | an entry is read back from where it was written: lengths, own key bytes and value |
| `BlockFormat.ShortHeader` | src/block.cpp:54-84 | the fast path for three one-byte lengths reads what the general path does |
| `BlockFormat.EntryReads` | src/block.cpp:226-275 | entry i of a laid-out block, given the key before it, is key and value i |
| `BlockFormat.RestartReads` | src/block.cpp:200-202 | the restart table is read back, and its size |
| `BlockBuilders.BlockBuilder.Add` | src/block_builder.cpp:38-67 | one more pair, sharing exactly the longest common prefix, or a restart every interval |
| `BlockBuilders.BlockBuilder.Finish` | src/block_builder.cpp:69-76 | the bytes are a block of exactly the added pairs, with a restart every interval and every other entry sharing all it can |
| `BlockReaders.Decode` | src/block.cpp:54-84 | decodes any bytes as the format does, within the limit |
| `BlockReaders.SearchRestarts` | src/block.cpp:322-347 | the last restart point whose key is below the target, or the first, for any block; refuses malformed ones |
| `BlockReaders.Find` | src/block.cpp:299-377 | the first pair at or after the target of a built block; on any other bytes it ends without leaving them |
| `BlockCursors.BlockIter.ParseNextEntry` | src/block.cpp:226-275 | moves to the next pair of a built block, or past its end |
| `BlockCursors.BlockIter.Seek` | src/block.cpp:130-177 | the first pair at or after the target |
| `BlockCursors.BlockIter.SeekToFirst` | src/block.cpp:179-182 | the first pair |
| `BlockCursors.BlockIter.SeekToLast` | src/block.cpp:184-193 | the last pair |
| `BlockCursors.BlockIter.Next` | src/block.cpp:105-105 | one pair on |
| `BlockCursors.BlockIter.Prev` | src/block.cpp:112-128 | one pair back: the inverse of next |
| `BlockCursors.BlockIter.Current` | src/block.cpp:99-103 | delivers exactly the added pair at the cursor |
| `EntryBlocks.ParseRoundTrip` | src/dbformat.hpp:52-95 | an internal key is parsed back from its bytes |
| `EntryBlocks.InternalOrders` | src/dbformat.hpp:100-111 | the engine's comparator on bytes is an order of the keys that have a trailer |
| `EntryBlocks.PlaceIsOrder` | src/dbformat.hpp:100-111 | it orders encoded keys as the keys themselves are ordered |
| `EntryBlocks.BuiltHolds` | src/block_builder.cpp:38-76 | a finished block of encoded entries is one its reader can search under that comparator |
| `EntryBlocks.FindEntry` | src/block.cpp:299-377 | searching the bytes of such a block delivers the first entry at or after the target |
| `Separators.ShortestSeparator` | src/comparator.cpp:18-38 | if there is a byte between the two after what they share, a key strictly between that ends there; else the start itself |
| `Separators.CutIsShortest` | src/comparator.cpp:18-38 | no key from start up to limit is shorter than that |
| `Separators.ShortSuccessor` | src/comparator.cpp:40-51 | at or after the key, ending at its first byte below 255; the key itself only if there is none |
| `Separators.SuccessorIsShortest` | src/comparator.cpp:40-51 | no key at or after this one is shorter than that |
| `Separators.InternalShortestSeparator` | src/comparator.cpp:63-84 | at or after the start, before the limit; shortened as far as it can be whenever that is shorter than the start |
| `Separators.InternalShortSuccessor` | src/comparator.cpp:86-97 | at or after the key, with a user key as short as can be |
| `Bloom.CreateFilter` | src/bloom.cpp:31-61 | the bits set are exactly the probes of the keys, so every one of them is admitted, for any hash |
| `Bloom.AdmitsIff` | src/bloom.cpp:63-86 | a filter admits a key if and only if every probe of it is a probe of some key that went in |
| `Bloom.ProbeIs` | src/bloom.cpp:52-60 | probe j is the hash and j times the delta, in 32 bits |
| `Bloom.DeltaRotates` | src/bloom.cpp:53-53 | the delta is the hash rotated, from which it comes back |
| `Bloom.KeyMayMatch` | src/bloom.cpp:63-86 | answers as the filter's bits say, and for filters it cannot read admits everything |
| `FilterBlocks.FilterBlockBuilder.StartBlock` | src/filter_block.cpp:12-24 | closes every region before the block's own; pending keys go to the region they were added for |
| `FilterBlocks.FilterBlockBuilder.GenerateFilter` | src/filter_block.cpp:31-54 | one more region with the filter of exactly the pending keys, empty if there are none |
| `FilterBlocks.FilterBlockBuilder.Finish` | src/filter_block.cpp:56-68 | the bytes are a filter block of all regions |
| `FilterBlocks.FilterFor` | src/filter_block.cpp:70-113 | for any bytes, stays within them; for a filter block, the filter of the offset's region, and none if and only if the region has no keys |
| `FilterBlocks.FilterMayMatch` | src/filter_block.cpp:96-119 | a key is ruled out if and only if the filter of the block's region rules it out, which no key added for the region is; other bytes rule out nothing unless some of them say so |
| `Tables.InternalGet` | src/table.cpp:262-299 | search of the index block's bytes, filter, and search of one data block's bytes deliver the first entry at or after the target whenever it has the target's user key, and none of that user key otherwise |
| `Tables.IndexSpeaks` | src/table.cpp:262-299 | the one block the index names decides the lookup for the whole table, shortened separators included |
| `Tables.LaterUser` | src/table.cpp:262-299 | past the end of the block the shortened separator leads to, the user key has no entries |
| `Tables.SearchTable` | src/version_set.cpp:266-302 | a file kept as a table answers a version's lookup as the whole of its sorted entries would |
| `TableBuilders.TableBuilder.Add` | src/table_builder.cpp:39-68 | the table under construction holds one more entry, its block written out exactly when it is full; every separator separates, every user key is filed under its block's region |
| `TableBuilders.TableBuilder.SettlePending` | src/table_builder.cpp:45-55 | the deferred separator lies at or after its block and before the next entry, shortened as far as can be |
| `TableBuilders.TableBuilder.Flush` | src/table_builder.cpp:70-88 | the block is written where the one before it ends, and the filter moves to the region after it |
| `TableBuilders.TableBuilder.Finish` | src/table_builder.cpp:140-193 | a table of exactly the entries added, its blocks end to end in the file, whose index separates and whose filter, if there is a policy, admits every key |
| `TableBuilders.TableBuilder.PutLast` | src/table_builder.cpp:174-181 | the last separator is as short as a key at or after the last one can be |
| `LruLinks.RemovedRing` | src/cache.cpp:122-125 | unlinking by the node's own two pointers takes exactly it off the list it is on |
| `LruLinks.UnlinkFromLru` | src/cache.cpp:122-125 | and leaves the other list as it was |
| `LruLinks.AppendToLru` | src/cache.cpp:128-133 | appending goes to the young end |
| `LruTable.Find` | src/cache.cpp:50-58 | the one entry with these key bytes, or there is none |
| `LruTable.Insert` | src/cache.cpp:62-77 | the new entry replaces exactly the one with its key, in its chain |
| `LruTable.Remove` | src/cache.cpp:79-91 | takes exactly that entry out |
| `LruShard.Shard.Unlink` | src/cache.cpp:122-125 | off whichever list it is on |
| `LruShard.Shard.DropRef` | src/cache.cpp:232-239 | after the reference that is no longer accounted for is dropped, references are handles plus one while cached, an entry is freed exactly once and only when it is gone, and what is cached is as it was |
| `LruShard.Shard.FinishErase` | src/cache.cpp:223-230 | out of the cache, charge and table, alive while held |
| `LruShard.Shard.EvictToCapacity` | src/cache.cpp:241-249 | evicts a prefix of the entries in the order they were let go, no more than needed, and never a held one |
| `LruShard.Shard.Insert` | src/cache.cpp:153-178 | the inserter holds the new entry; the entry of its key is replaced; the oldest are evicted for room |
| `LruShard.Shard.Lookup` | src/cache.cpp:180-192 | a hit is the entry of the key, held and not evictable; a miss means there is none |
| `LruShard.Shard.Release` | src/cache.cpp:194-205 | the last user of a cached entry makes it the youngest evictable one; of an erased one, frees it |
| `LruShard.Shard.Erase` | src/cache.cpp:207-212 | no entry of this key is cached any more, every other one is |
| `LruShard.Shard.Destroy` | src/cache.cpp:139-148 | every entry there ever was has been freed exactly once |
| `LruShard.Shard.WithinCapacity` | src/cache.cpp:241-249 | with nothing held, usage is within capacity |
| `LruShard.Shard.HeldIsKept` | src/cache.cpp:223-239 | an entry with a handle is never freed and never evictable |
| `LruShard.Shard.OldestFirst` | src/cache.cpp:119-119 | the entry evicted first was let go before every other evictable one |
| `SkipLists.LoadIsRight` | src/skiplist.hpp:188-204 | one load keeps a reader on the list; a load that ends the search delivers the first node at or after the key at that moment |
| `SkipLists.ReaderStaysOn` | src/skiplist.hpp:188-204 | over any interleaving of loads with the writer's stores |
| `SkipLists.SearchIsRight` | src/skiplist.hpp:188-204 | whatever is stored in between, the result is the true successor in the list as it is at the last load |
| `SkipListWriter.FindGreaterOrEqual` | src/skiplist.hpp:188-204 | the first node at or after the key, and the node to splice after on every level; terminates |
| `SkipListWriter.FindLessThan` | src/skiplist.hpp:206-220 | the last node below the key, or the head |
| `SkipListWriter.OwnStored` | src/skiplist.hpp:270-271 | the store into the new node is seen by nobody |
| `SkipListWriter.Published` | src/skiplist.hpp:272-273 | after the publishing store every level is sorted and a sublist of the one below |
| `SkipListWriter.HeightStored` | src/skiplist.hpp:257-266 | raising the height early keeps every level as it was |
| `SkipListWriter.SkipList.Splice` | src/skiplist.hpp:268-274 | two stores put the node on one more level, each leaving a sound list |
| `SkipListWriter.SkipList.Insert` | src/skiplist.hpp:246-275 | the node is in its place on every level below its height and on no other, and every state a store leaves has the old bottom level or the new one |

## Left out

- VersionGet.Get: tables that cannot be read and seek statistics are not modelled; every table opens and its entries parse.
- CompactionWork.DoCompactionWork: keys that do not parse (kept verbatim by the source) are not modelled; an early end by shutdown or a failed flush is LevelRuns' abandoned compaction, which installs nothing; which inputs ask for a cut is any function, of which Grandparents.OverlapCounter.ShouldStopBefore is the source's.
- CompactionInputs.PickCompaction: which level is picked, compaction scores and seek charges are not modelled; any level and any compaction pointer is allowed.
- CompactionInputs.CompactRange: the loop over levels that `DBImpl::compact_range` runs around it is not modelled.
- VersionBuilder.Recover: works on edits as values; that a record's bytes are the edit is EditCodec.EncodeThenDecode, on file metadata without the table's entries; a manifest that ends in damage, which the source refuses, is not modelled.
- EditCodec.EncodeTo: the deleted files are written in some order, not in the ascending one the source's set gives.
- DbIter.Iter.Next: internal keys that do not parse, which make the source's iterator stop with an error, are not modelled; neither is the release of a large saved value.
- Merger.MergingIterator.Next: child iterators that fail are not modelled; each child is a sorted sequence and a cursor.
- TwoLevel.TwoLevelIterator.Seek: blocks that cannot be read are not modelled.
- LzEncoder.CompressBlock: the sizing of the hash table is a parameter.
- WalWriter.LogWriter.AddRecord: failing appends are not modelled.
- WalReader.LogReader.ReadAll: a read error of the device is not modelled; a short read happens only at the end of the file.
- WalDamage.DamagedLog: says nothing about damage to a length field, where what is found depends on the payload.
- DurabilityRuns.RunIsDurable: logs are sequences of whole batches, justified by WalProofs.CutLog; tails with holes or garbage, syncs of a file that also commit its name, failing I/O, a process that dies without a power cut, making a new database, empty batches (which take no number) and the previous-log number of old formats are not modelled; a table is the set of batches it holds, since what merging keeps of them is LevelRuns.RunIsSound.
- Disks.RecoversAll: that the manifest's number bounds its tables is an assumption here, and kept by every step in DurabilityRuns.StepKeepsInv.
- GroupCommitRuns.RunKeepsInv: a group is any run of writers that may join it, of which GroupBuilding.BuildBatchGroup gives the one the source forms; memory orderings are taken as sequentially consistent.
- GroupCommitRuns.NeverStuck: no fairness is modelled, so it says a step is possible, not that it is taken.
- BlockReaders.Find: error messages are not modelled, only that the block is refused.
- BlockBuilders.BlockBuilder.Add: requires keys and values below four gibibytes, whose lengths the source cuts to 32 bits without a check.
- BlockBuilders.BlockBuilder.Finish: requires a block below four gibibytes, for the same reason.
- FilterBlocks.FilterBlockBuilder.Finish: requires the filters to stay below four gibibytes; the source stores offsets in 32 bits without a check.
- TableBuilders.TableBuilder.Finish: requires the filters, if there is a policy, to stay below four gibibytes; the footer, the metaindex block, block compression and trailers are not modelled; the size of a block and when it is full are any functions.
- Tables.InternalGet: opening a table, decoding a handle and reading blocks through the cache are a function from the handle's bytes to a block and an offset; blocks that do not parse are not modelled here.
- EntryBlocks.FindEntry: requires a target with a sequence number of 56 bits, as the source's packing does.
- LruShard.Shard.Insert: the split into sixteen shards by hash is not modelled; entries are numbers with their fields in maps, the two lists are next and previous links between those numbers, and a hash chain is a sequence of them.
- SkipListWriter.SkipList.Insert: the height is any from one to twelve; memory orderings and the arena are not modelled, so every load and store is atomic and in order.
- SkipLists.SearchIsRight: says what a search that ends delivers, not that a search racing an unbounded stream of insertions ends.
- find_last and seek_to_last of the skip list, the memtable's own encoding and write-batch framing are not modelled.
- Repair, the table cache, options, statistics, backpressure, snapshots as a list, and the command-line tools are not modelled.
- Real file I/O and its platform branches are not modelled.
