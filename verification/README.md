# Micius storage engine: a verified model

Micius stores time series. A batch of points is split over shards, written to the
write-ahead log of each shard by a group-commit task, inserted into the shard's
memtable and acknowledged. A background sweep turns a full memtable into a columnar
chunk file, registers it in the chunk index, publishes a watermark and deletes log
segments up to the watermark of the last snapshot. Snapshots of the index, compaction
of chunk files and queries happen alongside. After a crash the snapshot is loaded and
the log above its watermarks is replayed.

This project models that engine in Dafny and proves what it keeps. It stands in four
layers, and the layers are then joined.

1. **Durability protocol** (`Durability*`, `ReplayOrder`, `Catalog`, `Opening*`). Commits, inserts,
   sweeps, segment deletion, any number of overlapping snapshot workers and crashes are steps of
   one transition system. The invariant is not that watermarks grow, because overlapping
   snapshots can move the persisted watermark backwards. It is that every log entry at or
   below any bound that deletion may use is in a chunk named by the snapshot on disk.
   `Catalog` adds the index with its time entries and the copies snapshots take of it, and
   `Opening` what a restart makes of that copy once the recovery chunks are registered.
2. **Log** (`WalFrames`, `PartialFrames`, `WalSegments`, `GroupCommit*`, `WalRuns`, `WalRestart`,
   `WalTurns`,
   `WalDirectory`). Framing, recovery from files cut at any byte, rotation, deletion, restart, and
   the group-commit loop over every message stream, batch split and I/O failure.
3. **Chunk file** (`SeriesKeys`, `KeyParsing`, `ChunkFormat`, `ChunkWriter`, `ChunkReader`,
   `ChunkRoundTrip`, `ChunkIntegrity`, `ChunkTables`, `ChunkStats`). The two-pass writer with
   absolute offsets against the cursor-based reader, what the reader makes of any other bytes,
   and the statistics it reports.
4. **Index, memtable, compaction, query** (`Memtable`, `Pruning`, `ChunkIndex`,
   `IndexPersistence`, `Merging`, `Compaction*`, `ChunkStore`, `Query`, `Routing`). Fast
   structures against plain maps, merges against the visible content, queries against a
   full scan.

`DiskLog`, `DiskRuns` and `EndToEnd` join them. Runs of the engine act on segment files and chunk
files, and each is shown to be a run of the protocol whose logs and chunks are the bytes on disk,
in order. A restart from what a crash leaves of those bytes then reads every acknowledged slot
back, exactly unless a recovery chunk has taken over the only entries that lead to it. The run
takes three things for granted, and they are named in its actions: a rotation could open its new
file, a failed log write left nothing in the file, and rows and frames fit their formats with
series keys that print unambiguously.

Objects with fields are classes (`WalWriter`, `WalTask`, `Memtable`, `ChunkIndex`); loops are
methods with loops. Each has a specification function, and the laws are proved of that
function. Library code is a parameter with a stated law: lz4 and the protobuf codec undo
themselves, the checksum is any function, the bloom filter has no false negatives, the series
hash tells the series in use apart and hashing in pieces equals hashing at once.

## Where the code falls short of its intent

Each of these is a lemma with the failing case, next to the exact condition.

- The watermark a sweep publishes is read after the flush, so it also covers entries that were
  committed but not in the flushed batch. It is honest exactly when nothing of the shard is
  outstanding at that moment (`ReadSeqExact`). Otherwise a crash after the next snapshot loses
  acknowledged points (`UnsettledReadLoses`, `OverlappingAppendLoses`).
- A failed chunk write drops the drained points, and a later watermark covers them
  (`FailedFlushLoses`).
- Time index entries are keyed by the first timestamp alone. A flush keeps all entries exactly
  when none of its series starts where an entry of that series already does
  (`FlushKeepsEntriesExact`, `SharedStartHides`).
- For the same reason the chunk a restart writes from the replayed log can take the entry of a
  chunk in the snapshot. An acknowledged slot is visible after opening exactly when it is not
  held only by chunks whose entries were taken (`AckedVisibleExact`), in particular when no
  replayed series starts where the snapshot has an entry of it (`AckedVisible`);
  `RecoveryHidesAcked` is a run where an acknowledged point is out of sight.
- Overlapping snapshots can leave an older snapshot on disk after the log was deleted up to a
  newer one (`DeletedAboveSnapshot`). Everything above the watermark on disk is still in the log
  exactly when no deletion went above it (`LogAboveSnapshotExact`), which one snapshot at a time
  guarantees (`SerialSnapshotsKeepLog`). The deleted entries are in chunks of the snapshot.
- A group is merged in order of file size, so a slot written twice can fall back to its older
  value (`OlderValueWins`). Of each slot the value of the last chunk in the order of the group is
  left (`MergeLeavesExact`), so all values survive exactly when the merged chunks agree where they
  overlap (`MergeExact`).
- A rotation that cannot open its new file leaves a deletion tag on a segment that is still
  written to (`RotateExact`, `FailedRotateLoses`).
- A failed log write can leave part of a frame. Later frames are then all read if and only if it
  left nothing, unless a remainder passes the checksum by coincidence (`AllLaterReadExact`,
  `PartialFrameExact`, `CoincidenceReads`).
- A restart deletes the highest segment before any snapshot names the recovery chunk
  (`OpenDeletesHighest`, `SecondCrashExact`), and can hand out sequences at or below the watermark
  (`ResumedNumberExact`). Earlier segments carry the maximal tag, which the `<=` test never
  selects, although the comment beside it calls them safe to delete.
- A comma in a metric name, or a comma or equals sign in a tag key, breaks the printed series key
  (`PrintParse`, `CommaInMetricCollides`).
- A batch is sorted by shard with an unstable sort. Two points of one batch for the same slot can
  end up in either order (`OrderDecides`); without such conflicts the order does not matter
  (`ConsistentBatch`).
- Inserts of overlapping appends may not follow commit order. Replay gives a slot the memtable's
  value exactly when the newest logged write of the slot wrote that value (`SlotExact`), so the
  order matters only for entries that write the same slot (`ConflictsDecide`). `OutOfOrderDiffers`
  is a run in which replay brings back another value.

## Model

| member | source | states |
|---|---|---|
| DurabilityInvariant.InvStep | storage-engine/src/server/mod.rs:508-523 | Every step of the server, under the guard that a watermark is only read when its shard is settled, keeps the invariant: each entry at or below any watermark or deletion bound is in a chunk named by the index or snapshot that bound relies on, and every entry is in exactly one place. |
| DurabilityInvariant.ReadSeqExact | storage-engine/src/server/mod.rs:695-696 | In every state that satisfies the invariant, the watermark about to be published is covered by the index if and only if no committed entry of the shard is in flight, in the memtable or lost by a failed flush. |
| DurabilityInvariant.SafeStep | storage-engine/src/server/mod.rs:667-696 | Once named chunks hold every entry of a shard up to a bound, no later step of any kind undoes it. |
| DurabilityTheorems.RunInv | storage-engine/src/server/mod.rs:647-703 | The invariant holds at the end of every guarded run. |
| DurabilityTheorems.CrashKeeps | storage-engine/src/server/mod.rs:87-115 | In every such state a crash loses no point of an entry whose append was not abandoned: a chunk named by the snapshot on disk or the replayed log gives its slot a value. What opening then shows of it is stated by the rows of Opening. |
| DurabilityTheorems.NoAckedPointLost | storage-engine/src/server/mod.rs:259-290 | From a fresh start, after any guarded run with overlapping snapshots and segment deletion and a crash at its end, every point of every inserted, hence every acknowledged, entry is in a chunk the snapshot names or among the replayed entries. |
| DurabilityTheorems.OnlyAppendedRecovered | storage-engine/src/server/mod.rs:87-115 | Recovery yields only slots and values that some append wrote. |
| DurabilityTheorems.SoleValueRecovered | storage-engine/src/server/mod.rs:101-115 | A slot written with one value only has exactly that value in the chunks the snapshot names and the replayed entries, both directions. |
| DurabilityTheorems.SnapshotSelfConsistent | storage-engine/src/server/mod.rs:605-623 | The chunks of the snapshot on disk hold every entry up to its watermarks, and every entry not abandoned is in one of its chunks or replayed from the log. |
| DurabilityTheorems.BoundStaysCovered | storage-engine/src/server/mod.rs:698-703 | A bound that was covered once is covered by whatever snapshot is on disk from then on. |
| DurabilityTheorems.GcBoundCovered | storage-engine/src/server/mod.rs:702-703 | The bound a sweep loads for deletion, and every persisted watermark, stay covered for the rest of the run, although the persisted watermark may move backwards. |
| DurabilityTheorems.NonOverlappingFlushesAreSafe | storage-engine/src/server/mod.rs:654-696 | Runs in which flushes of a shard do not overlap its appends and no flush fails satisfy the guard. |
| DurabilityLimits.UnsettledReadLoses | storage-engine/src/server/mod.rs:695-696 | From any state in which an entry is outstanding at the watermark read there is a run, ending in a crash, that loses the points only this entry holds. |
| DurabilityLimits.OverlappingAppendLoses | storage-engine/src/server/mod.rs:654-696 | A concrete run: an append between drain and watermark read is acknowledged and lost. |
| DurabilityLimits.FailedFlushLoses | storage-engine/src/server/mod.rs:733-738 | A concrete run: a failed chunk write followed by a successful flush loses an acknowledged point. |
| DurabilityLimits.PersistedMovesBackwards | storage-engine/src/server/mod.rs:508-523 | A concrete guarded run of two overlapping snapshots lowers the persisted watermark. |
| DurabilityLimits.DeletedAboveSnapshot | storage-engine/src/server/mod.rs:508-523 | A concrete guarded run of two overlapping snapshots: the log is deleted above the watermark of the snapshot that ends up on disk. |
| DurabilityLog.LoggedExact | storage-engine/src/server/mod.rs:702-714 | Over every guarded run a synced entry is in the log if and only if it was there at the start or was synced since, and no deletion of the run named its sequence. |
| DurabilityLog.LogAboveSnapshotExact | storage-engine/src/server/mod.rs:508-523 | After every guarded run all entries above the watermark on disk are replayed from the log if and only if no deletion took a sequence above that watermark. |
| DurabilityLog.SerialSnapshotsKeepLog | storage-engine/src/server/mod.rs:508-523 | That is the case after every guarded run with one snapshot at a time. |
| ReplayOrder.ReplayRebuildsMemtable | storage-engine/src/server/mod.rs:101-109 | After every run of a shard, log deletions and failed appends included, that ends at rest with nothing above the watermark given up: replay reads exactly the entries of the memtable, in its order if and only if all inserts followed commit order, and with the same value for every slot whose conflicting entries did. |
| ReplayOrder.OutOfOrderDiffers | storage-engine/src/server/mod.rs:285-290 | A run of sync, publish and two inserts against commit order, after which replay gives the slot another value than the memtable has. |
| ReplayOrder.RunAccounted | storage-engine/src/server/mod.rs:285-290 | Over every run of a shard the log is in commit order, every logged entry was flushed, is in the memtable, waits for its insert or was abandoned, and every entry in the memtable or waiting is in the log unless its sequence was deleted. |
| ReplayOrder.SlotExact | storage-engine/src/server/mod.rs:101-109 | Slot by slot: replay and memtable agree if and only if the logged entry with the highest sequence that writes the slot and the entry inserted last of those that write it give it the same value. |
| ReplayOrder.ConflictsDecide | storage-engine/src/server/mod.rs:101-109 | They agree on a slot when just the entries that give it different values were inserted in commit order. |
| ReplayOrder.LastCommittedRecovered | storage-engine/src/server/mod.rs:101-115 | When inserts follow commit order, after every guarded run and a crash a chunk the snapshot names or the replayed log gives every slot the value of the last committed entry that writes it, whatever older values other chunks hold. |
| Catalog.RunLinked | storage-engine/src/server/mod.rs:663-696 | Over every guarded run whose flushed series start where no entry of theirs does, the live index and the copies in the temporary file and on disk each agree with the chunk tables and file every chunk the protocol names in them. |
| Opening.OpenIndex | storage-engine/src/server/mod.rs:101-115 | The loop over the shards writes one chunk of what was replayed and registers its series, in shard order. |
| Opening.OpenedEntries | storage-engine/src/index/chunk_index.rs:60-63 | After opening, an entry is that of a recovery chunk exactly where a replayed series starts, and that of the snapshot everywhere else. |
| Opening.OpenedVisibleExact | storage-engine/src/server/mod.rs:87-115 | A value is visible after opening if and only if it was replayed, or an entry of the snapshot that no recovery chunk takes leads to it. |
| Opening.AckedVisibleExact | storage-engine/src/server/mod.rs:87-115 | After every such run and a crash, a slot of an acknowledged point is visible after opening if and only if it is not held only by chunks whose entries the recovery chunks take. |
| Opening.AckedVisible | storage-engine/src/server/mod.rs:87-115 | It is visible when no replayed series starts where the snapshot has an entry of that series. |
| Opening.AllAckedVisibleExact | storage-engine/src/server/mod.rs:87-115 | The same for all acknowledged slots at once, both directions. |
| OpeningLimits.RecoveryHidesAcked | storage-engine/src/server/mod.rs:101-115 | A concrete guarded run: two points flushed and in a snapshot, the first written again, a crash; the recovery chunk takes the entry and the second acknowledged point is out of sight. |
| WalFrames.RecoverBuffer | storage-engine/src/wal/recovery.rs:56-105 | The cursor loop over one segment collects what the recursive frame scan of the buffer collects, errors included. |
| WalFrames.Recover | storage-engine/src/wal/recovery.rs:42-109 | All segments are replayed in order, each from its own start. |
| WalFrames.CompleteIsMaximal | storage-engine/src/wal/recovery.rs:58-70 | The frames counted as complete within a cut are exactly those that fit. |
| WalFrames.ScanTruncated | storage-engine/src/wal/recovery.rs:58-104 | Reading any prefix of a written segment yields exactly its complete frames, and reports a torn write exactly when at least a header of a partial frame is left. |
| WalFrames.TornTailRecovery | storage-engine/src/wal/recovery.rs:51-106 | Recovery over complete segments, one segment cut at any byte and complete later segments returns, in order, the points above the watermark of all complete frames, with the exact torn flag, counts and highest sequence. |
| PartialFrames.CaughtExact | storage-engine/src/wal/recovery.rs:58-86 | The scan stops at a place if and only if what follows is shorter than a header, shorter than its stated length, or fails the checksum. |
| PartialFrames.PartialFrameExact | storage-engine/src/wal/group_commit.rs:179-186 | After a failed write that left a whole header: nothing later is read while later frames do not fill the missing part or the checksum of the mixed payload differs; otherwise exactly the mixed payload is decoded and the scan goes on inside the later frames. |
| PartialFrames.LaterFrames | storage-engine/src/wal/group_commit.rs:179-186 | For every length left behind, header or not, and all later frames: nothing left means all are read, something left that the checksum catches means none is. |
| PartialFrames.AllLaterReadExact | storage-engine/src/wal/group_commit.rs:179-240 | When remainders do not pass the checksum, all later frames are read if and only if the failed write left nothing. |
| PartialFrames.CoincidenceReads | storage-engine/src/wal/recovery.rs:78-86 | That condition is needed: with a checksum that does not tell payloads apart a later frame is read through a partial one. |
| WalSegments.WalWriter.constructor | storage-engine/src/wal/writer.rs:30-63 | A writer on an empty directory starts with sequence 0 and segment 1. |
| WalSegments.WalWriter.Resume | storage-engine/src/wal/writer.rs:30-63 | Reopening resumes the given segment and records every earlier number with the maximal tag. |
| WalSegments.WalWriter.Write | storage-engine/src/wal/writer.rs:77-80 | Entries are appended to the file the handle writes to, and the size grows by their frames. |
| WalSegments.WalWriter.Append | storage-engine/src/wal/writer.rs:70-89 | The sequence advances even on failure; a synced batch is in the open file; past the size threshold the segment is rotated. |
| WalSegments.WalWriter.Rotate | storage-engine/src/wal/writer.rs:119-132 | The old segment is tagged with the current sequence before the new file is opened; a failed open keeps the old handle and size. |
| WalSegments.WalWriter.DrainCompletedBefore | storage-engine/src/wal/writer.rs:148-159 | Exactly the completed segments with a tag at or below the bound are dropped and returned, in order. |
| WalSegments.WroteOk | storage-engine/src/wal/group_commit.rs:179-186 | Writing newly numbered entries keeps the tags honest and adds exactly these entries to the log. |
| WalSegments.RotateExact | storage-engine/src/wal/writer.rs:119-132 | A rotation keeps the writer's invariant if and only if the new file could be opened, and never changes the log. |
| WalSegments.DrainConserves | storage-engine/src/wal/writer.rs:148-159 | A drain removes a prefix of the completed segments, never the open one; every frame above the bound stays and none appears. |
| WalSegments.FailedRotateLoses | storage-engine/src/wal/writer.rs:119-132 | After a failed rotation the next frame is deleted by a drain at a bound below its own sequence. |
| WalRestart.NamesSortLikeNumbers | storage-engine/src/wal/writer.rs:162-164 | Twenty-digit segment names are ordered like the 64-bit segment numbers, so sorting by name is chronological. |
| WalRestart.NameReadsBack | storage-engine/src/wal/writer.rs:162-175 | A segment name is twenty decimal digits and the suffix, and the digits read back give the number. |
| WalRestart.OpenShard | storage-engine/src/server/mod.rs:117-144 | Reopening, rotating past replayed segments and draining at the replayed or snapshot sequence, as one new writer state. |
| WalRestart.OpenDeletesHighest | storage-engine/src/server/mod.rs:131-144 | A restart on existing segments deletes exactly the highest one, unless only empty entries were above the watermark, and continues in the next number. |
| WalRestart.SecondCrashExact | storage-engine/src/server/mod.rs:131-144 | A second crash before a snapshot replays the same entries if and only if the highest segment held none above the watermark. |
| WalRestart.ResumedNumberExact | storage-engine/src/wal/recovery.rs:92-100 | The next sequence after a restart is above the watermark if and only if something was replayed or the watermark is 0. |
| WalDirectory.RecoverDirectory | storage-engine/src/wal/recovery.rs:42-109 | Recovery over a directory, torn segments anywhere included, returns the points above the watermark of all entries that read, in segment order. |
| WalDirectory.OpenedHonest | storage-engine/src/server/mod.rs:117-144 | After a restart the older segments are untouched and every tag, maximal or not, bounds the entries of its segment. |
| WalDirectory.CommittedAfterRestart | storage-engine/src/server/mod.rs:117-144 | A restart on any readable directory, then any run of the log task with rotations and drains, then a crash that cuts the open segment at any byte: the next recovery of the bytes returns exactly the entries of the remaining segments and some unsynced ones, among them every point synced since the restart above the drained bound and the watermark. |
| GroupCommit.WalTask.GatherBatch | storage-engine/src/wal/group_commit.rs:144-176 | A batch is sorted by message kind with consecutive sequences; surplus rotate requests are refused at once. |
| GroupCommit.WalTask.CommitBatch | storage-engine/src/wal/group_commit.rs:178-198 | One write and sync of all frames, then the last sequence is published, then each append is answered with its own sequence. |
| GroupCommit.WalTask.RotateWhenFull | storage-engine/src/wal/group_commit.rs:199-203 | A segment at or above the threshold, and no other, is left for the next number and recorded with the current sequence; the new file starts empty if it can be opened, and a failure is not reported to anyone. |
| GroupCommit.WalTask.ServeDrains | storage-engine/src/wal/group_commit.rs:205-212 | All drain requests are served with their maximum and get the same list. |
| GroupCommit.WalTask.ServeRotate | storage-engine/src/wal/group_commit.rs:214-221 | An explicit rotation drains every completed segment, or reports the failure. |
| GroupCommit.WalTask.HandleBatch | storage-engine/src/wal/group_commit.rs:144-240 | One turn of the loop: one write and sync, then publish, then replies, then rotation, drains at their maximum, explicit rotation; on failure every request is told so. If write and rotation succeed the open segment ends below the threshold. |
| GroupCommitTheorems.OneReplyEach | storage-engine/src/wal/group_commit.rs:121-241 | Over any run of any batches and I/O outcomes a request is answered exactly as often as it was received. |
| GroupCommitTheorems.AcknowledgedIsDurable | storage-engine/src/wal/group_commit.rs:189-198 | Over any run sequences strictly increase, an append is acknowledged only after its frame was synced and a sequence at least as high was published, and no published sequence is unsynced. |
| WalTurns.FullSegmentRotates | storage-engine/src/wal/group_commit.rs:199-203 | After every turn whose write and rotation succeed the open segment is below a threshold above 0, whatever it was before. |
| WalTurns.RotatesExactly | storage-engine/src/wal/group_commit.rs:178-212 | Without an explicit rotation the segment number rises, by one, if and only if the batch fills the segment; it is then recorded with the last sequence handed out, and exactly the completed segments that no drain request reaches stay. |
| WalTurns.RotatesOnRequest | storage-engine/src/wal/group_commit.rs:199-221 | An explicit rotation comes on top of that: one more segment is left, and all completed ones with a 64-bit tag are dropped if the new file opens; if not, the old handle and all tags stay. |
| WalTurns.RunSized | storage-engine/src/wal/group_commit.rs:178-203 | Over every run whose rotations succeed the size counter is the length of the open file, and that stays below the threshold. |
| WalTurns.TurnSettles | storage-engine/src/wal/group_commit.rs:149-240 | Every request of a batch gets the reply that settles it: an append its own consecutive sequence or a failure, a drain and the first rotation success or failure by the outcome of the turn, a second rotation a failure. |
| WalTurns.RepliesNameDeleted | storage-engine/src/wal/group_commit.rs:205-221 | A turn takes exactly those segments out of the log that its replies name for deletion, and all drain requests of a turn get the same list. |
| WalRuns.SyncedSurvives | storage-engine/src/wal/group_commit.rs:199-221 | Over any run of turns from any writer with honest tags, fresh or reopened, whose rotations succeed: every entry synced since the last explicit rotation and above every requested bound is in a segment, and every entry in a segment was there before or was synced. |
| WalRuns.DeletionConservesLog | storage-engine/src/wal/group_commit.rs:199-221 | From a fresh writer the segment order and the tags stay exact as well, although a turn serves all drains with their maximum and an explicit rotation drains everything. |
| WalRuns.SyncedIsObserved | storage-engine/src/wal/group_commit.rs:178-198 | The entries counted as synced are those an observer of the events of the run sees synced. |
| SeriesKeys.PrintKey | storage-engine/src/types.rs:36-52 | The buffer loop prints metric and tags in key order. |
| SeriesKeys.ParseKey | storage-engine/src/types.rs:55-71 | The parsing loop is the split at commas and at the first equals sign, with both error cases. |
| SeriesKeys.SeriesIdFromParts | storage-engine/src/types.rs:81-91 | Feeding the hasher piecewise hashes the printed key. |
| SeriesKeys.PrintParse | storage-engine/src/types.rs:36-71 | Parsing undoes printing if and only if metric and tag values have no comma and tag keys neither comma nor equals sign. |
| SeriesKeys.PrintInjective | storage-engine/src/types.rs:36-52 | Such keys print differently when they differ. |
| SeriesKeys.CommaInMetricCollides | storage-engine/src/types.rs:36-52 | A comma in a metric name makes two different series print alike. |
| KeyParsing.SplitJoined | storage-engine/src/types.rs:58-58 | Splitting undoes joining, for all parts without the separator. |
| KeyParsing.SplitOnceExact | storage-engine/src/types.rs:65-67 | A part is cut at its first equals sign, and refused exactly when it has none. |
| KeyParsing.ParseExact | storage-engine/src/types.rs:55-71 | Of all parts joined by commas: a key exactly when the bytes are UTF-8 and every part after the first has an equals sign, with the two errors told apart; the metric is the first part, and a tag set twice has its last value. |
| KeyParsing.Utf8Exact | storage-engine/src/types.rs:56-57 | The UTF-8 test accepts exactly the encodings, by section 3 of RFC 3629, of sequences of Unicode scalar values. |
| ChunkFormat.EncodeDeltas | storage-engine/src/chunk/format.rs:124-135 | The loop computes first timestamp and wrapped differences. |
| ChunkFormat.DecodeDeltas | storage-engine/src/chunk/format.rs:139-150 | The loop computes the wrapped running sums. |
| ChunkFormat.DeltaRoundTrip | storage-engine/src/chunk/format.rs:124-150 | Decoding undoes encoding for every list of 64-bit timestamps, wrap-around included. |
| ChunkFormat.SortedDeltasDoNotWrap | storage-engine/src/chunk/format.rs:124-135 | On sorted lists spanning less than 2^63 every difference is exact and positive. |
| ChunkFormat.TimesRoundTrip | storage-engine/src/chunk/format.rs:153-168 | The timestamp column bytes decode to the timestamps. |
| ChunkFormat.WordsRoundTrip | storage-engine/src/chunk/format.rs:158-176 | The value column bytes decode to the values, bit for bit. |
| ChunkFormat.WordAt | storage-engine/src/chunk/format.rs:158-176 | Word i lies in bytes 8 i to 8 i + 7. |
| ChunkFormat.DeltaColumnAt | storage-engine/src/chunk/format.rs:124-156 | For every list of timestamps the column holds the first one and then the differences modulo 2^64, as little-endian words. |
| ChunkWriter.EncodeAll | storage-engine/src/chunk/writer.rs:180-214 | Pass one skips empty series, keeps key order, and tracks time range and point count exactly. |
| ChunkWriter.PlaceColumns | storage-engine/src/chunk/writer.rs:221-245 | The running offset is, for every series, the length of header, directory and all earlier columns. |
| ChunkWriter.SumDirSize | storage-engine/src/chunk/writer.rs:221-224 | The directory size is summed over the entries. |
| ChunkWriter.AssembleDirectory | storage-engine/src/chunk/writer.rs:268-272 | The entries are written one after the other, each with its offsets. |
| ChunkWriter.AssembleColumns | storage-engine/src/chunk/writer.rs:275-280 | The columns are written one after the other, each with its length. |
| ChunkWriter.AssembleBody | storage-engine/src/chunk/writer.rs:221-280 | Header, directory and columns make up the body, and each series is reported once. |
| ChunkWriter.WriteChunk | storage-engine/src/chunk/writer.rs:164-323 | An empty input is refused; otherwise the file is header, directory, columns, bloom footer and checksum, and each series is reported once. |
| ChunkRoundTrip.BodyLaidOut | storage-engine/src/chunk/writer.rs:247-284 | Each precomputed offset is the real position of its column, and each directory entry lies where the cursor finds it. |
| ChunkReader.FindSeries | storage-engine/src/chunk/reader.rs:244-266 | The directory loop with its cursor is the recursive first match, with every bounds error. |
| ChunkReader.ReadEntries | storage-engine/src/chunk/reader.rs:119-141 | The cursor loop over all entries is the recursive reader. |
| ChunkRoundTrip.ReadSeriesRoundTrip | storage-engine/src/chunk/reader.rs:74-105 | On a written file the read of a series succeeds and returns exactly its points in the range; a series not written is reported absent, and nothing in range is missed by the header test. What other files give is stated by the rows of ChunkIntegrity. |
| ChunkRoundTrip.ReadChunkRoundTrip | storage-engine/src/chunk/reader.rs:109-144 | On a written file the read of everything returns all points of all series in the order written. |
| ChunkRoundTrip.BloomNeverRejects | storage-engine/src/chunk/reader.rs:29-62 | The footer leads back to the bloom filter, and testing it never rejects a series of the file. |
| ChunkIntegrity.RefusedExact | storage-engine/src/chunk/reader.rs:147-180 | Of all byte strings, both reads succeed only on one that starts with the four magic bytes and ends with the checksum of everything before; another magic number and another checksum are the two errors they are refused with, each exactly then. |
| ChunkIntegrity.DamageRefused | storage-engine/src/chunk/reader.rs:147-166 | A written file damaged in front of its checksum is an error for both reads unless the checksum of the damaged part is the same. |
| ChunkIntegrity.PresentExact | storage-engine/src/chunk/reader.rs:85-92 | On a written file a series is reported present if and only if it is stored and the range meets that of all points of the file. |
| ChunkIntegrity.HeaderDescribes | storage-engine/src/chunk/format.rs:48-64 | The 48 header bytes of a written file, field by field: version, id, earliest and latest timestamp of all points, number of series and of points, start of the columns. |
| ChunkIntegrity.DirectoryDescribes | storage-engine/src/chunk/writer.rs:141-153 | Every series has a directory entry with its key, number of points, minimum and maximum, and offsets at which its two compressed columns follow each other. |
| ChunkIntegrity.ReportedSize | storage-engine/src/chunk/writer.rs:228-245 | The reported size of a series is the distance from its columns to those of the next. |
| ChunkIntegrity.SeriesIsStored | storage-engine/src/chunk/reader.rs:74-105 | Of any file: points returned for a series are exactly those in range of two equally long columns that a directory entry with the printed key leads to. |
| ChunkIntegrity.ChunkIsListed | storage-engine/src/chunk/reader.rs:109-144 | Of any file: reading everything returns the points of every directory entry the header counts, in order, each under a key that parses. |
| ChunkIntegrity.BloomIsRead | storage-engine/src/chunk/reader.rs:29-62 | Of any file: an answer of the bloom check is that of the filter, field by field, that the footer points to in front of the checksum. |
| ChunkIntegrity.BloomRefused | storage-engine/src/chunk/reader.rs:29-62 | A file too short for its footer, or whose footer points past its end, is an error and not an answer. |
| ChunkTables.ReadsTable | storage-engine/src/chunk/reader.rs:74-105 | Reading a series from the file of a memtable gives the memtable's points in the range, absent series included. |
| ChunkTables.ReadsWhole | storage-engine/src/chunk/reader.rs:109-144 | Reading the whole file of a memtable gives exactly its points, which is what a merge takes in. |
| ChunkTables.WriterReports | storage-engine/src/chunk/writer.rs:228-245 | The writer reports every series once, with its id and its own first and last timestamp, whatever the statistics are. |
| ChunkStats.WriterStatsTrue | storage-engine/src/chunk/writer.rs:180-214 | With minimum and maximum computed by the folds over the values, every report carries the statistics of its series of the table. |
| ChunkStats.RunDescribes | storage-engine/src/index/chunk_index.rs:33-85 | After every run of flushes and compaction cycles with such reports, every entry of the index describes the points of its chunk: ends and statistics. |
| ChunkStats.VisibleNeverPruned | storage-engine/src/index/chunk_index.rs:164-188 | After every such run, pruning keeps a chunk with every visible value that is in the range and satisfies the predicate. |
| Memtable.BinarySearch | storage-engine/src/memtable/mod.rs:28-55 | The search finds the timestamp or the place where it has to go. |
| Memtable.PlacedIsUpsert | storage-engine/src/memtable/mod.rs:28-55 | Overwriting or inserting at the searched place is the sorted upsert. |
| Memtable.Memtable.constructor | storage-engine/src/memtable/mod.rs:17-24 | A new memtable is empty with zero counters. |
| Memtable.Memtable.Insert | storage-engine/src/memtable/mod.rs:28-55 | One upsert; the point count and the byte count stay exact: 32 per point plus the key cost of each series. |
| Memtable.Memtable.ShouldFlush | storage-engine/src/memtable/mod.rs:58-60 | A flush is due if and only if 32 bytes for each stored point and the key cost of each stored series together reach the threshold. |
| Memtable.KeyCostExact | storage-engine/src/memtable/mod.rs:42-51 | A key costs the length of its printed form without separators, and eight bytes. |
| Memtable.Memtable.Drain | storage-engine/src/memtable/mod.rs:78-82 | The whole table is handed out and an empty one with zero counters is left. |
| Memtable.TableIsLastWriteWins | storage-engine/src/memtable/mod.rs:28-55 | After any inserts every series is non-empty and strictly sorted, and a slot holds exactly the value of the last point written to it. |
| Pruning.FoldBounds | storage-engine/src/types.rs:138-146 | The folds bound every number of a column and are values of it, with NaN and infinities. |
| Pruning.StatsNeverDropMatch | storage-engine/src/types.rs:173-188 | Statistics never rule out a column that holds a matching value. |
| Pruning.OneSidedStatsExact | storage-engine/src/types.rs:173-180 | For one-sided predicates they keep a column if and only if some value matches. |
| Pruning.BetweenStatsExact | storage-engine/src/types.rs:178-178 | For a closed interval they keep a column if and only if some value is not above its end and some value is not below its start. |
| Pruning.BetweenExact | storage-engine/src/types.rs:182-189 | A value satisfies a closed interval if and only if nothing is NaN and it satisfies neither one-sided predicate at the ends; on finite numbers the predicates are the comparisons of reals. |
| Pruning.OrderExact | storage-engine/src/types.rs:173-189 | The comparison is that of the extended real line, with NaN incomparable. |
| ChunkIndex.AddTags | storage-engine/src/index/chunk_index.rs:49-54 | The loop files a series under each of its tags. |
| ChunkIndex.ChunkIndex.constructor | storage-engine/src/index/chunk_index.rs:27-29 | A new index is empty. |
| ChunkIndex.ChunkIndex.Register | storage-engine/src/index/chunk_index.rs:33-68 | The new state of all five maps; tags are only indexed for a new series. |
| ChunkIndex.ChunkIndex.Deregister | storage-engine/src/index/chunk_index.rs:71-85 | The entry goes only if the chunk still owns it, the file only with its last series. |
| ChunkIndex.RegisterOk | storage-engine/src/index/chunk_index.rs:33-68 | Registering keeps the index exact: tags against registry, entries under their own series and start, files exactly those the statistics name. |
| ChunkIndex.DeregisterOk | storage-engine/src/index/chunk_index.rs:71-85 | Removing keeps it exact. |
| ChunkIndex.RunOk | storage-engine/src/index/chunk_index.rs:33-85 | So it is exact after every sequence of registrations and removals. |
| ChunkIndex.ChunkIndex.NarrowByTags | storage-engine/src/index/chunk_index.rs:127-137 | Intersecting with the set of each further filter leaves exactly the candidates that pass all of them, also when a set is missing or the candidates run out early. |
| ChunkIndex.ChunkIndex.ResolveSeries | storage-engine/src/index/chunk_index.rs:91-148 | Narrowing by the inverted index returns exactly the registered series with the metric and all filters, for any iteration order of the filters. |
| ChunkIndex.PruningNeverDropsMatch | storage-engine/src/index/chunk_index.rs:164-188 | No chunk that its entry describes and that has a point in range satisfying the predicate is pruned; ChunkStats.RunDescribes shows that entries describe their chunks. |
| ChunkIndex.PrunedExact | storage-engine/src/index/chunk_index.rs:164-188 | Pruning keeps an entry of the series if and only if it starts by the end of the range, ends at its start or later, and its statistics, if a predicate is given and there are any, can meet it. |
| IndexPersistence.RebuildTags | storage-engine/src/index/persistence.rs:106-117 | The nested loops rebuild the tag index of the registry. |
| IndexPersistence.TagsUnique | storage-engine/src/index/persistence.rs:106-117 | A registry has only one exact tag index. |
| IndexPersistence.SnapshotRoundTrip | storage-engine/src/index/persistence.rs:25-130 | Loading a snapshot, in whatever order its maps were listed, restores an equal index, the unsaved tag index included, and the watermarks. |
| IndexPersistence.LoadedExact | storage-engine/src/index/persistence.rs:80-87 | A snapshot is discarded if and only if its version is not 2; otherwise exactly its series, files and watermarks are taken. |
| Merging.MergePoint | storage-engine/src/compaction/mod.rs:115-127 | One point is overwritten or inserted in order. |
| Merging.MergePoints | storage-engine/src/compaction/mod.rs:113-128 | All points of one chunk are merged in file order. |
| Merging.MergeGroup | storage-engine/src/compaction/mod.rs:110-129 | Merging what was read gives the right-biased union of the group, in group order. |
| Merging.MergeExact | storage-engine/src/compaction/mod.rs:110-129 | A merge invents no value; it keeps all of them if and only if the chunks agree where they overlap. |
| Merging.RightBiasedExact | storage-engine/src/compaction/mod.rs:110-129 | The merged value of a slot is v if and only if some chunk of the group holds v there and no later one has the slot. |
| Merging.FirstFromGroup | storage-engine/src/compaction/mod.rs:110-129 | A merged series starts where one of the merged chunks starts it. |
| Compaction.RegisterSeries | storage-engine/src/compaction/mod.rs:132-139 | The loop registers every written series. |
| Compaction.RemoveListed | storage-engine/src/compaction/mod.rs:141-143 | The loop removes every listed entry. |
| Compaction.RegisterAllTimes | storage-engine/src/index/chunk_index.rs:57-63 | Registering a chunk replaces an entry exactly when one of its series starts there. |
| Compaction.DeregisterAllTimes | storage-engine/src/index/chunk_index.rs:71-85 | A list removes exactly the entries listed under the chunk that owns them. |
| ChunkStore.VisibleIsHeld | storage-engine/src/index/chunk_index.rs:164-188 | In a store where index and files agree, following the index finds exactly the values in live files. |
| ChunkStore.ChangeOk | storage-engine/src/compaction/mod.rs:130-145 | Writing and registering one chunk and removing others keeps index and files in agreement. |
| CompactionRuns.CompactGroup | storage-engine/src/compaction/mod.rs:110-156 | Read, merge, write, register, remove and delete, as one new index and directory. |
| CompactionRuns.MergeFits | storage-engine/src/compaction/mod.rs:130-139 | Every start of the merged chunk is the start of a group member, so registering it displaces nothing else. |
| CompactionRuns.MergeReplaces | storage-engine/src/compaction/mod.rs:130-145 | After registering the merge and removing the listed entries no chunk of the group is left in entries, statistics or files, and every other entry is unchanged. |
| CompactionRuns.PlanKept | storage-engine/src/compaction/mod.rs:84-104 | A removal list made when the cycle started is still exact after flushes and after merges of other groups. |
| CompactionRuns.InvStep | storage-engine/src/compaction/mod.rs:159-204 | Every flush, start of a cycle, merge and abandoned cycle keeps index and files in agreement and all pending lists exact. |
| CompactionGroups.GroupBySize | storage-engine/src/compaction/mod.rs:62-82 | The loop computes the greedy tiers that are long enough; in every group no file is more than the ratio times as large as the first. |
| CompactionGroups.TiersPartition | storage-engine/src/compaction/mod.rs:62-82 | Tiers put all files back together; in each, sizes are at most the ratio times the first size, and the first file of the next tier is larger than that. |
| CompactionGroups.GroupsOk | storage-engine/src/compaction/mod.rs:62-82 | Every group has the minimum number of files, all from the candidates, and no file is in two places. |
| CompactionGroups.LeftAlone | storage-engine/src/compaction/mod.rs:73-82 | A file is left alone only when its tier is too short. |
| CompactionGroups.CollectListed | storage-engine/src/compaction/mod.rs:89-102 | The list names exactly the entries the group's chunks own. |
| CompactionGroups.FindCandidates | storage-engine/src/compaction/mod.rs:52-107 | The groups with their lists are what a cycle may start from: live, pairwise disjoint, exact, each with the minimum number of chunks, its smallest file first and none more than the ratio times as large, by the sizes in the index. |
| CompactionGroups.CycleTotals | storage-engine/src/compaction/mod.rs:160-198 | The totals looked up in the index are the size and number of the distinct files of all groups. |
| CompactionGroups.GroupBytes | storage-engine/src/compaction/mod.rs:170-174 | The sizes looked up for one group are those of its files. |
| CompactionTheorems.FlushContent | storage-engine/src/server/mod.rs:663-679 | A flush with free starts adds exactly its points and hides none. |
| CompactionTheorems.MergeContent | storage-engine/src/compaction/mod.rs:110-156 | A merge brings in no value and loses no slot; where the group agrees it loses no value either. |
| CompactionTheorems.MergeLeavesExact | storage-engine/src/compaction/mod.rs:110-156 | After a merge a value is visible if and only if a chunk outside the group holds it or it is the slot's value in the last chunk of the group that has the slot. |
| CompactionTheorems.RunInv | storage-engine/src/compaction/mod.rs:159-204 | The store invariant holds after every run of flushes and compaction cycles from an empty store. |
| CompactionTheorems.CompactionConserves | storage-engine/src/compaction/mod.rs:110-204 | Over every such run the index leads to a value only if some flush wrote it to that slot, and to some value of every slot that was ever flushed. |
| CompactionTheorems.SoleValueVisible | storage-engine/src/compaction/mod.rs:110-204 | A slot only ever flushed with one value shows exactly that value. |
| CompactionTheorems.FlushKeepsEntriesExact | storage-engine/src/index/chunk_index.rs:60-63 | Registering a new chunk leaves every entry in place if and only if none of its series starts where an entry of that series does. |
| CompactionTheorems.SharedStartHides | storage-engine/src/index/chunk_index.rs:60-63 | A concrete flush with a taken start makes a stored point unreachable. |
| CompactionLimits.OlderValueWins | storage-engine/src/compaction/mod.rs:60-82 | A run of two flushes and one cycle whose group is the one chosen by file size: the value written last is visible before the merge, and after it only the older one is. |
| Query.ScanMemtable | storage-engine/src/memtable/mod.rs:85-137 | The hits of one shard are the points in range of exactly its selected series. |
| Query.ReadSeries | storage-engine/src/memtable/mod.rs:115-137 | Exactly the points of one series in the closed time range are streamed, with its id, their times and their values. |
| Query.ScanMemtables | storage-engine/src/server/mod.rs:347-364 | All shards are scanned, each once. |
| Query.ScanChunks | storage-engine/src/server/mod.rs:425-463 | The hits of one series are its points in range from exactly the surviving chunks, each chunk once. |
| Query.ScanStore | storage-engine/src/server/mod.rs:380-463 | Resolving, pruning and reading visits exactly the places the index leads to, each once. |
| Query.WantedLeads | storage-engine/src/index/chunk_index.rs:164-188 | Every chunk with a wanted point is reached by resolving and pruning. |
| Query.RunQuery | storage-engine/src/server/mod.rs:347-463 | Over a store at rest the hits are, one for one, the stored points whose metric and tags match and whose time is in the range: id, time and value of each, each stored point once, and nothing else. |
| Query.ReachableIsQueryable | storage-engine/src/server/mod.rs:347-463 | Every state reached by inserts, flushes with free starts and compaction cycles satisfies the condition under which a query is exact. |
| Routing.MaskExact | storage-engine/src/memtable/mod.rs:141-145 | Masking with n - 1 is the remainder by n for every id if and only if n is a power of two. |
| Routing.ShardIsRemainder | storage-engine/src/memtable/mod.rs:141-145 | Every point gets a shard below their number, and with a power of two of them the remainder of its series id. |
| Routing.PartitionPoint | storage-engine/src/server/mod.rs:244-244 | Bisection finds the end of the run of one shard. |
| Routing.GroupByShard | storage-engine/src/server/mod.rs:240-253 | One non-empty group per shard, shards strictly increasing and below their number; with a power of two of them every point is in the group of the remainder of its series id, and the groups hold the points of the request as often as it does. |
| Routing.PickedKeepsAll | storage-engine/src/server/mod.rs:228-253 | The sorted batch has every point as often as the request. |
| Routing.ConsistentBatch | storage-engine/src/server/mod.rs:228-233 | A batch without conflicting points has the same last-write-wins effect however its shards are sorted. |
| Routing.OrderDecides | storage-engine/src/server/mod.rs:233-233 | For a batch with a conflict, every valid sort has another valid sort that leaves a different value. |
| DiskLog.SyncRefines | storage-engine/src/wal/group_commit.rs:178-186 | A group commit that appends its frames to the open file is the protocol's sync step: same numbering, and the segment files read in order are the protocol's log, byte for byte. |
| DiskLog.FailRefines | storage-engine/src/wal/group_commit.rs:222-240 | A failed write that left nothing in the file is the protocol's failed sync, with its sequences used up. |
| DiskLog.RotateRefines | storage-engine/src/wal/writer.rs:119-132 | A rotation that opens its new file leaves the log as it is. |
| DiskLog.DrainRefines | storage-engine/src/server/mod.rs:702-714 | Deleting the files of drained segments is the protocol's deletion of exactly their sequences, within the bound it demands, and the rest of the log stays in order. |
| DiskLog.SegmentsApart | storage-engine/src/wal/group_commit.rs:154-156 | Sequences rise from segment to segment, so none is in two. |
| DiskRuns.RunRefines | storage-engine/src/server/mod.rs:647-714 | Every run of commits, failed commits, rotations, file deletions, chunk writes and other steps on files is a run of the protocol, and at its end the segment files are its logs in order and the chunk files its chunks. |
| EndToEnd.CrashLogReplays | storage-engine/src/wal/recovery.rs:42-109 | Recovery of a log directory whose open file was torn at any byte succeeds and returns the points of the protocol's log above the watermark, in order, then perhaps those of unsynced entries. |
| EndToEnd.RecoveredOk | storage-engine/src/server/mod.rs:101-115 | So the tables built from the directories have every slot the protocol replays, and each series in one of them only. |
| EndToEnd.ReadBackExact | storage-engine/src/chunk/reader.rs:74-105 | Reading a slot from the bytes of a chunk file returns a value if and only if the table it was written from holds it. |
| EndToEnd.RestartReads | storage-engine/src/server/mod.rs:87-115 | Loading the snapshot file gives back the copied index and watermarks, and the chunk files are those of its tables. |
| EndToEnd.AcknowledgedPointReadable | storage-engine/src/server/mod.rs:87-115 | The whole engine in bytes: after any run on files and a crash, a restart that loads the snapshot file, replays the segment files and registers the recovery chunks can read a slot of an acknowledged point from the chunk files through the index if and only if it is not held only by chunks whose entries the recovery chunks take. |
| EndToEnd.AcknowledgedPointSafe | storage-engine/src/server/mod.rs:87-115 | It can always be read when no replayed series starts where the snapshot has an entry of that series. |

## Left out

- The gRPC surface, channels, timers, back-pressure, metrics, configuration and process start; batches, message order and interleavings are arbitrary instead.
- File system calls: writes that succeed are durable and atomic, `rename` is durable, a directory listing is complete. The temporary snapshot file is written in one step, and overlapping snapshot workers share it.
- The internals of lz4, protobuf, bincode, CRC-32, bloom filters and xxh64; collisions of the series hash are excluded by the stated law, and the checksum is any function, so what it does not catch is a condition of the lemmas about partial frames.
- The clock behind chunk ids: a new chunk id is one not in use.
- 64-bit exhaustion of sequences, sizes and counters: they are unbounded. Column lengths, key lengths and offsets are bounded by the writer's u32 and u64 fields as a condition of the chunk theorems.
- Crashes during recovery, and the whole engine over more than one session: its crash theorems start from a fresh start. Of the log alone, `WalRestart` and `WalDirectory` say what a restart does and what a second crash leaves.
- Compaction in the crash model: old chunk files are deleted although a snapshot on disk may still name them, so compaction is proved on the live store only.
- Queries that overlap a flush or a compaction, which the code accepts as transient gaps.
- Value predicates in a query: the server passes none; pruning by predicate is proved of the index.
- Rounding of the size ratio: the quotient is a real number. The order of files of equal size and of map iteration is arbitrary.
- The version byte of a chunk file is written and never compared, although its documentation at storage-engine/src/chunk/format.rs:30 says that other versions abort reads; the model follows the code.
- The sign of a floating point zero, which no comparison sees.
- The `.wal` name filter and the parsing of segment numbers from file names; a directory is a map from numbers to segments.
- The wait of an append for all its shards: an append is one log entry per shard, and it is acknowledged after the insert of the last of them, which is the order of the steps and not a step of its own.
- Overflow checks of a debug build: delta arithmetic wraps around as in a release build.
- Log and chunk files that fail to be deleted: deletion of a listed file succeeds.
