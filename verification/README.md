# A verified model of LiteSDB

LiteSDB is an embedded time-series store. This project models its hardest parts in Dafny and
proves what they are for. Each module begins with a comment that says what it models.

**The shared write-ahead log.** Many databases, called members, interleave frames in one
segmented log. `SharedWals.SharedWal` is that log as a class: buffer, offsets, accounts, member
table, segments, tails and directory are its fields, and every method is a step under the one
lock. Ghost state keeps the accepted segments and the records each member was accepted to hold.
Frames, headers and records are modelled byte by byte, CRC-32 included. A write may fail at any
byte, a published file may be the old or the new one, and a crash keeps any byte prefix of the
last file that covers what was synced. One invariant (`LogState.OnDisk`, `LogState.InMemory`)
is kept by every method. The promise of the log, free of bytes and segments, is
`LogRuns.Logs`: records, durable prefixes, archive releases and durable frames. Every operation
is a step of it, leaves what it is for and touches nothing else (`LogOperations.Do`),
`LogDriver.Drive` runs any sequence of operations with crashes in between, and
`LogRuns.DurableForEver` says what survives. `LogNeeds` says by frames and files what reclaiming
must keep and where it may stop, `LogQuota` that no archive ever takes more than its quota, and
`LogScanFinds` what any directory at all must be like for recovery to accept it.

**Archive export.** `SharedMembers.SharedMember` is a member's handle with the index that it
keeps between exports. A cached index stays good through whatever the log does meanwhile, and
`LogReader` says exactly when an export is answered and with what. `LogDriver.FollowToEnd` shows
that the exports of any run are exactly the durable records above the release at which they began.
The bytes of cursors, archived records and chunks, with the digest that ties them together, are
`ArchiveFormat`; `ArchiveReading` reads and splits them, and `ExportFormat.ExportReads` shows that
whatever is exported is accepted when it is read again.

**The column codecs.** Second differences with zigzag, XOR of floats, the NVR run-length varint
stream, the fixed layout with its null bitmap, the selector between them and the timestamp
columns. Specifications are functions on sequences (`Nvr`, `Fixed`, `Diff2`, `Selector`,
`Timestamp`); the measuring, writing and parsing loops are methods and classes proved against
them (`NvrEncoding`, `NvrDecoding`, `FixedCoding`, `FixedDecoding`, `SelectorCoding`,
`TimestampCoding`). Readers accept exactly what writers produce.

**Queries.** The meaning of a catalog is one list of facts for every key (`Catalog.AllFacts`).
Batched reverse lookup (`Lookups`), range visits (`Ranges`), the incremental cursor
(`FactCursors.FactCursor`), one-pass sampling (`Sampling`) and streaming aggregation (`Buckets`,
`Aggregation`, `AggregateQuery`) are each proved against that list, in batches of keys in any
order (`Grouping`) and through schema versions, validity, retirement and heads (`Visibility`).
What an answer means is said in terms of facts, versions, retirements and arguments alone
(`Sampling.ShownMeans`, `AggregateMeanings.Describes`).

**Storage transformations.** Retention folds expired units into heads (`Retention`); compaction
rewrites the rows of a run of units, row by row through a section buffer, into one new unit that
is sorted into the catalog (`SectionBuffers`, `Compaction`, `Replacement`, `UnitCompaction`),
keeping the version and the type that every fact was written under (`CompactionSchemas`).
Retention changes nothing that a query at or above the new floor can see. Compaction keeps the
facts and the order of a table, and so what can be read, under an exact condition
(`CompactionOrder`).
The directory cache in front of the units is `DirectoryCaches.DirectoryCache`.

Integers are unbounded in the specifications; every 32-bit and 64-bit limit, checked addition
and checked conversion of the program is written out.

## Model

| member | source | states |
|---|---|---|
| `SharedWals.SharedWal.constructor` | core/src/shared_wal/store.rs:25-64 | a new log over an empty directory satisfies the invariant and waits to be opened |
| `SharedWals.SharedWal.Flush` | core/src/shared_wal/store.rs:196-227 | the buffer moves to the last file; a fault may leave any prefix of it there, poisons the log and loses no promise |
| `SharedWals.SharedWal.Sync` | core/src/shared_wal/store.rs:228-250 | everything accepted becomes durable, and the early return is taken only when the buffer is empty; a fault changes no promise |
| `SharedWals.SharedWal.CreateSegment` | core/src/shared_wal/store.rs:272-297 | the new segment file exists whole on success; a fault leaves no file or any prefix of its header, and recovery can start from either |
| `SharedWals.SharedWal.Roll` | core/src/shared_wal/store.rs:251-270 | the new segment begins after everything before it is durable; it fails only by a fault that one of its steps reports, or at the last segment number |
| `SharedWals.SharedWal.Push` | core/src/shared_wal/store.rs:143-194 | the accepted frame is appended to its member's records and moves no durable end |
| `SharedWals.SharedWal.MakeRoom` | core/src/shared_wal/store.rs:135-172 | rolls exactly when the frame crosses the segment size, then flushes exactly when it crosses the buffer size |
| `SharedWals.SharedWal.AppendLocked` | core/src/shared_wal/store.rs:77-195 | refused exactly when the acceptance condition fails, and then only reclaimable segments may be gone; poison comes from a fault or the last segment number; other members, all files, checkpoints and releases stay as they were |
| `SharedWals.SharedWal.AppendRaw` | core/src/shared_wal/store.rs:66-76 | an accepted record is the next record of its member; a refused one leaves all records as they were |
| `SharedWals.SharedWal.Preflight` | core/src/shared_wal/batch.rs:32-121 | passes exactly when the simulated batch fits every budget; a refusal changes nothing but reclaimable segments |
| `SharedWals.SharedWal.AppendBatchRaw` | core/src/shared_wal/batch.rs:12-31 | all or nothing: a batch that fits is appended whole, or the log is poisoned by a fault or by a counter outside `Representable`, with exactly some first part of the batch appended and every other member as before; one that does not fit changes nothing but reclaimable segments |
| `SharedWals.SharedWal.Gc` | core/src/shared_wal/gc.rs:10-52 | removes exactly the longest reclaimable prefix before the active segment; in terms of frames and files, what went held nothing needed, and the oldest segment left is the active one or holds a frame that some member, not retired, needs above its checkpoint or its release (`Pruned`); no record, durable end or frame above a release changes |
| `SharedWals.SharedWal.MemberSync` | core/src/shared_wal/member.rs:187-208 | everything the member was accepted to hold is durable, and the report is that number and the position of the last durable frame |
| `SharedWals.SharedWal.DurablePosition` | core/src/shared_wal/member.rs:247-273 | the report is exactly the last sealed or stable sequence number and the position of the last durable frame, although it is refreshed lazily; nothing from a poisoned log |
| `SharedWals.SharedWal.MaintenanceBlockers` | core/src/shared_wal/mod.rs:147-168 | distinct members, all of them such that they need a frame of the oldest segment above their checkpoint or release (`Blocks`), and all of these when the limit is not reached; refused exactly for a poisoned log or a limit above the number of databases |
| `SharedWals.SharedWal.Recover` | core/src/shared_wal/member.rs:44-160 | sealed records plus replayed ones are exactly what the member was accepted to hold; it fails only by a fault, for an unknown member, or between a publication and its checkpoint |
| `SharedWals.SharedWal.PublishManifest` | core/src/maintenance.rs:136-146 | the manifest holds everything accepted while the checkpoint in memory still lags; a fault leaves the old or the new manifest and poisons the log; no promise moves |
| `SharedWals.SharedWal.Checkpoint` | core/src/shared_wal/member.rs:212-221 | the checkpoint follows the manifest and reclaiming runs until no segment can go (`Tight`); records, files of all members and durable ends stay |
| `SharedWals.SharedWal.Seal` | core/src/maintenance.rs:97-157 | on success the whole tail is in the manifest, the checkpoint is there too, reclaiming has run and the count is the length of the tail; on failure the log is poisoned and no record is lost; nothing of another member changes |
| `SharedWals.SharedWal.Discard` | core/src/shared_wal/retire.rs:31-94 | the member is retired for good at its last record, no other is, every other member keeps its records and files, and reclaiming has run |
| `SharedWals.SharedWal.Register` | core/src/shared_wal/registry.rs:270-384 | a new or imported member starts with its sealed records, its checkpoint at their end and an empty tail; one that is there stays as it is; refused exactly for a retired identity or a full index budget; nothing of another member changes |
| `SharedWals.SharedWal.EnableArchive` | core/src/shared_wal/archive.rs:120-189 | a first protection begins right behind everything the member holds; another quota changes the quota alone, so release and ends stay where they are (`Requotas`); without a fault it is refused exactly for a quota outside 128 KiB to 8 GiB, an unknown member, a smaller quota than is pinned, a full index budget or a member at the last number; nothing of another member changes |
| `SharedWals.SharedWal.Release` | core/src/shared_wal/archive.rs:218-254 | the release moves to the boundary, the quota stays and reclaiming runs; it fails only by a fault; nothing of another member changes |
| `SharedWals.SharedWal.Crash` | core/src/shared_wal/store.rs:196-270 | any cut of the last file at or above its stable bytes, or the loss of a file whose creation is not stable, keeps the invariant; each member keeps a prefix with all its durable records; a settled log loses nothing |
| `SharedWals.SharedWal.Open` | core/src/shared_wal/recover.rs:24-273 | recovery keeps every record and durable end, accepts exactly the whole frames, fills the memory as a function of the directory, writes nothing when the last segment may be continued, and without a fault succeeds whenever there is room |
| `SharedWals.SharedWal.Restart` | core/src/shared_wal/recover.rs:24-273 | recovery is idempotent: after a successful recovery, a crash and another recovery give the identical log, and the second cannot fail while no checkpoint is the last 64-bit number |
| `SharedWals.ReclaimingBlocked` | core/src/shared_wal/gc.rs:13-26 | reclaiming stops only at the active segment or where some member needs a frame of the oldest one |
| `LogRuns.DurableForEver` | core/src/shared_wal/store.rs:77-270 | over any run, what was durable once is a durable prefix for ever after unless the member is retired, the member does not disappear, and no durable frame above its archive release has moved or gone |
| `LogRuns.CrashCuts` | core/src/shared_wal/recover.rs:52-236 | the crash of the files and segments is a crash of the promise: a prefix covering the durable one, all of it durable |
| `LogRuns.LogsSound` | core/src/shared_wal/mod.rs:45-104 | in every state the durable part of a member lies within its records and at or above its archive release |
| `LogCrash.CrashKeeps` | core/src/shared_wal/store.rs:196-270 | a crash at any byte keeps the invariant and, of every member, a prefix with all its durable records |
| `LogCrash.VanishKeeps` | core/src/shared_wal/store.rs:272-297 | losing the directory entry of a file being created keeps the invariant and every frame |
| `LogCrash.SurvivorContent` | core/src/shared_wal/recover.rs:98-140 | the surviving bytes of a cut segment are its whole frames and an unfinished rest |
| `LogScanExact.ScanExact` | core/src/shared_wal/recover.rs:52-236 | with room, the scan accepts exactly the whole frames with contiguous numbers and leaves exactly the expected members, charges, segments and boundary |
| `LogScanSound.ScanSound` | core/src/shared_wal/recover.rs:52-236 | whatever a scan of a log's files accepts, with or without room, is that log |
| `LogScanFinds.ScanFinds` | core/src/shared_wal/recover.rs:24-236 | on any directory, boundary records and registry at all: what the scan accepts are consecutive segments of whole, legal, consecutively numbered frames, torn only at the end or as a boundary record says; the frames of every member are a linked thread without a gap behind its files or its release and with none above its retirement; the answer is exactly what these segments show, within the budgets |
| `LogScanFinds.AdmitFinds` | core/src/shared_wal/recover.rs:145-170 | a frame that is admitted continues its member's thread, its authority and its archive |
| `LogScanFinds.ChangedFile` | core/src/shared_wal/recover.rs:316-345 | one changed byte in a file with a boundary record is noticed |
| `LogScanLaws.AdmitThread` | core/src/shared_wal/recover.rs:145-170 | the next frame of a carried thread is always admitted |
| `LogOpen.OpenKeeps` | core/src/shared_wal/recover.rs:240-273 | what recovery puts into memory satisfies the whole invariant |
| `LogOpen.BaseIs` | core/src/shared_wal/registry.rs:72-212 | loading charges what was registered and 488 for each member still protected |
| `LogStart.ScanOfClosed` | core/src/shared_wal/recover.rs:24-236 | the scan of a settled log answers everything it holds, or an error for want of room |
| `LogAgain.SettledUncut` | core/src/shared_wal/recover.rs:24-273 | a settled log loses nothing in any crash |
| `LogAgain.OpenedOnce` | core/src/shared_wal/recover.rs:240-273 | the memory of an opened log is a function of its directory |
| `LogAgain.OpenedOpenable` | core/src/shared_wal/recover.rs:205-243 | a log that was opened has room to be opened again |
| `LogAgain.PassMayStop` | core/src/shared_wal/gc.rs:27-42 | after a crash in the middle of a reclaiming pass, at any byte of the last file and with or without the boundaries of deleted files, the next scan accepts the log exactly when the oldest file left has a header or starts at the first LSN |
| `LogAgain.StrandedRefused` | core/src/shared_wal/recover.rs:76-95 | a log whose oldest file is an empty, fenced segment is refused unless its LSN is the first |
| `LogExamples.PassMayStrand` | core/src/shared_wal/gc.rs:27-42 | a log built by operations whose reclaiming pass, cut after its first deletion, is refused by the next recovery |
| `LogExamples.BatchMayFail` | core/src/shared_wal/batch.rs:32-121 | a log that satisfies the invariant, with an archive chain as only a stored file could begin it, a member and a legal record that pass the preflight and cannot be appended |
| `LogReplay.ReplayExact` | core/src/shared_wal/member.rs:110-158 | the backward walk never meets a missing frame, and the forward pass yields exactly the records above the floor, in order |
| `LogReplay.StableReads` | core/src/shared_wal/member.rs:286-315 | every stable frame is read back from its position |
| `LogReplay.ReadFrameIff` | core/src/shared_wal/member.rs:286-315 | a position is read as a frame exactly when the first file of its number holds that frame there, behind the header |
| `LogReplay.BackwardIff` | core/src/shared_wal/member.rs:110-142 | the walk back succeeds exactly on an unbroken chain of the member's frames down to the floor, each pointing to the one before |
| `LogReplay.ForwardIff` | core/src/shared_wal/member.rs:143-158 | the pass forward succeeds exactly when the frames are numbered without a break, and answers their records |
| `LogReopen.WalkBack` | core/src/shared_wal/member.rs:110-142 | the walk along predecessor pointers collects exactly the positions of the walk's specification |
| `LogReopen.ReadForward` | core/src/shared_wal/member.rs:143-158 | the pass over the collected positions delivers the records in order or fails where one does not continue |
| `LogReopen.ReplayFinds` | core/src/shared_wal/member.rs:110-158 | with a member's frames stable, the replay finds exactly its records above the checkpoint |
| `LogReclaim.ReclaimKeeps` | core/src/shared_wal/gc.rs:13-26 | deleting a reclaimable prefix keeps the invariant: no member loses a frame that a replay or an export needs |
| `LogReclaim.ReclaimStops` | core/src/shared_wal/gc.rs:13-26 | a pass stops at a segment with a header |
| `LogNeeds.ReclaimableIff` | core/src/shared_wal/mod.rs:96-104 | a segment may go exactly when no frame of it belongs to a member that is not retired and lies above its checkpoint or its archive release |
| `LogNeeds.SweptNeeds` | core/src/shared_wal/gc.rs:10-52 | what a pass removes held no needed frame, and where it stops there is one |
| `LogNeeds.BlockersAre` | core/src/shared_wal/mod.rs:147-168 | the reported members are those that need a frame of the oldest segment |
| `LogProgress.ReclaimGrows` | core/src/shared_wal/gc.rs:13-26 | reclaiming changes no record and no durable end and takes no frame above an archive release |
| `LogProgress.PushGrows` | core/src/shared_wal/store.rs:143-194 | accepting a frame appends one record and moves no durable end |
| `LogSeal.ReportExact` | core/src/shared_wal/member.rs:247-273 | the lazily refreshed position is exact |
| `LogSeal.PublishKeeps` | core/src/maintenance.rs:136-152 | the published manifest keeps the invariant while the checkpoint lags, so other members may act in between |
| `LogSeal.CheckpointKeeps` | core/src/shared_wal/member.rs:212-221 | the checkpoint may follow once everything accepted is in the manifest |
| `LogMembers.RetireKeeps` | core/src/shared_wal/retire.rs:60-94 | retiring a member keeps the invariant for all others |
| `LogMembers.RegisterKeeps` | core/src/shared_wal/registry.rs:305-360 | a new member keeps the invariant |
| `LogArchive.ProtectKeeps` | core/src/shared_wal/archive.rs:120-254 | a protection that covers what is durable keeps the invariant |
| `LogPush.PushKeeps` | core/src/shared_wal/store.rs:143-194 | an accepted frame keeps the invariant: links, accounts, summaries, archive ends and tails |
| `LogWrites.FlushKeeps` | core/src/shared_wal/store.rs:196-227 | flushing keeps the invariant |
| `LogLayout.ChargesAre` | core/src/shared_wal/recover.rs:72-74 | the index is charged 128 for each segment and 96 for each member that a segment names |
| `LogWrites.SyncKeeps` | core/src/shared_wal/store.rs:228-250 | syncing keeps the invariant |
| `LogRoll.RollKeeps` | core/src/shared_wal/store.rs:251-270 | rolling keeps the invariant |
| `LogBatch.MidwayAccepts` | core/src/shared_wal/batch.rs:32-121 | inside a batch that passed its preflight, a record is refused only for the archive offset |
| `LogBatch.MidwayStep` | core/src/shared_wal/batch.rs:85-121 | each append does exactly what the preflight simulated for it |
| `LogBatch.MidwayStops` | core/src/shared_wal/batch.rs:85-121 | an append that fails in the middle without a fault shows a counter running out |
| `Recovery.ScanLog` | core/src/shared_wal/recover.rs:52-236 | the scanning loops compute the scan function on every input |
| `Recovery.ScanFrames` | core/src/shared_wal/recover.rs:98-190 | the loop over one segment's frames computes its specification on every input |
| `Recovery.LoadRegistry` | core/src/shared_wal/registry.rs:72-212 | loads every registered member; fails exactly when their charges exceed the index budget |
| `Recovery.FinishMembers` | core/src/shared_wal/recover.rs:192-204 | finishes every member, or fails exactly when one lacks its archive anchor; each stands at its last frame or its checkpoint, whichever is later, and all of it is durable |
| `LogOperations.Do` | core/src/shared_wal/mod.rs:177-183 | any one operation takes place and leaves what it is for, or the log is poisoned, or there was a reason to refuse it; in any case it touches nothing but what it is about: other members, their files and checkpoints, and every release but the one released stay (`Framed`), quotas keep holding, only discarding a member retires it, and only a restart opens a poisoned log again |
| `LogOperations.OnlyReleaseMoves` | core/src/shared_wal/archive.rs:120-254 | only a release of a member's archive moves its release, and to the cursor given; only enabling it begins one |
| `LogOperations.OpenedReloaded` | core/src/shared_wal/registry.rs:72-212 | after a recovery the checkpoint of every member is that of its files |
| `LogQuota.PinnedIs` | core/src/shared_wal/archive.rs:75-84 | what memory counts against a quota is 8 KiB and, of every record above the release, its bytes and 80 more |
| `LogQuota.AppendQuota` | core/src/shared_wal/archive.rs:85-98 | an accepted record keeps every quota |
| `LogQuota.BatchQuota` | core/src/shared_wal/batch.rs:85-121 | a batch that passed its preflight keeps every quota, and so does any first part of it |
| `LogQuota.QuotasShrink` | core/src/shared_wal/archive.rs:75-84 | losing records to a crash, releasing more and allowing more keep every quota |
| `LogDriver.QuotasEver` | core/src/shared_wal/archive.rs:75-98 | over any run with crashes, no protected history takes more than its quota |
| `LogDriver.Drive` | core/src/shared_wal/store.rs:77-270 | any sequence of operations, crashes included, is a run in which each of them takes place, is refused or meets a poisoned log, and touches nothing else; whatever was durable at some moment survives to its end, member and all, unless that member was retired, and it is not if no later operation discards it; quotas that held at the beginning hold at every moment |
| `LogDriver.ExportNext` | core/src/shared_wal/archive_export.rs:209-276 | an export that can be answered adds exactly the chunk that begins where the reader stands; one that cannot adds none |
| `LogReader.DeliverableIs` | core/src/shared_wal/archive_export.rs:209-276 | in an open log an export is answered exactly from a durable record boundary at or above the release, for a budget in range that holds the next record |
| `LogReader.NothingDeliverable` | core/src/shared_wal/archive_export.rs:209-276 | without a current member or its archive there is nothing to export |
| `LogReader.DeliversIs` | core/src/shared_wal/archive_export.rs:209-276 | what is answered are the next durable records, as many as the budget holds up to some durable end beyond the start |
| `LogDriver.FirstBegins` | core/src/shared_wal/archive_export.rs:209-276 | the first chunk of a reader begins at the release of some moment of the run |
| `LogDriver.EachBudgeted` | core/src/shared_wal/archive_export.rs:209-276 | every chunk of a reader is the answer to one export and within the budget of that export |
| `LogDriver.CatchUp` | core/src/shared_wal/archive_export.rs:209-276 | from where a reader stands, its exports and those before are everything durable above where it began, or there is a reason why not |
| `LogDriver.Follow` | core/src/shared_wal/archive_export.rs:209-276 | whatever a run does in between, every export that can be answered adds one chunk, within its own budget, from where the reader stands, and no other operation adds one; the first begins at a release of that moment, and while the member is not retired the chunks are together one stretch of its durable records |
| `LogDriver.FollowToEnd` | core/src/shared_wal/archive_export.rs:209-276 | after any run that does not retire the member the reader catches up within its budget, and its chunks together are exactly the durable records above the release at which it began, none if there are none, unless the log is poisoned, the member has no archive, a release overtook the reader, or the record right after its last chunk is too long for the budget |
| `LogDriver.ExportAll` | core/src/shared_wal/archive_export.rs:209-276 | exports until nothing is left reach the durable end within the budget, unless a record is too long for it |
| `LogExport.IndexSurvives` | core/src/shared_wal/archive_export.rs:166-208 | a cached index outlives appends, rolls, syncs, seals, releases, reclaiming and crashes: its cursors stay on the chain and its positions readable |
| `LogExport.FrameReads` | core/src/shared_wal/archive_export.rs:132-150 | every durable frame is read where it lies and carries the accepted record |
| `LogExport.DurableWalk` | core/src/shared_wal/archive_export.rs:50-131 | the walk from the reported position down to a boundary finds every durable frame above it, newest first |
| `LogExport.CoversOnChain` | core/src/archive/types.rs:85-114 | along one chain cursors are ordered exactly as sequence numbers are |
| `ArchiveFormat.WalkIff` | core/src/archive/types.rs:120-152 | a run of archived records is accepted exactly when every record is legal, has the next number, and begins where the one before ended or opens the segment of its own number, in an epoch that never falls; the end stands at the last of them |
| `ArchiveFormat.WalkCovers` | core/src/archive/types.rs:85-114 | what lies behind a boundary covers it and is not covered by it |
| `ArchiveFormat.CursorApart` | core/src/archive/types.rs:50-65 | a cursor is determined by its bytes |
| `ArchiveFormat.RecordApart` | core/src/archive/format.rs:53-74 | no archived record begins another, so a stream is read in one way |
| `ArchiveFormat.TamperEvident` | core/src/archive/types.rs:140-150 | two runs of records of one length that end at the same cursor are the same, start and all, or show two inputs with one digest |
| `ArchiveFormat.SameEnds` | core/src/archive/types.rs:120-240 | intact chunks between the same two cursors are equal, or show two inputs with one digest |
| `ArchiveFormat.ToBytesApart` | core/src/archive/types.rs:199-206 | bytes are those of one chunk at most |
| `ArchiveReading.ReadCursor` | core/src/archive/types.rs:66-84 | accepts exactly the encodings of cursors with a segment and an offset behind its header |
| `ArchiveReading.ReadRecord` | core/src/archive/format.rs:53-63 | reads the one record that the bytes begin with, exactly when there is one of legal length |
| `ArchiveReading.FromBytes` | core/src/archive/types.rs:207-232 | accepts exactly the bytes, up to 4 MiB, of chunks whose records lead from their start to their end, as the chunk whose bytes they are |
| `ArchiveReading.SuffixAfter` | core/src/archive/types.rs:173-198 | splits a chunk at exactly its record boundaries, with nothing lost and the same end; every other cursor, and any chunk that is not intact, is refused |
| `ArchiveReading.SplitParts` | core/src/archive/types.rs:173-198 | a record boundary lies between the ends of its chunk, and what follows it is an intact chunk |
| `ArchiveReading.SuffixReads` | core/src/archive/types.rs:173-232 | what follows a boundary of acceptable bytes has acceptable bytes |
| `ExportFormat.StepProjects` | core/src/shared_wal/archive.rs:115-118 | one step of the full cursor is the step of number and offset that the log takes |
| `ExportFormat.PlacedBytes` | core/src/shared_wal/archive_export.rs:247-272 | the bytes of an exported chunk are as many as the export counted against its budget |
| `ExportFormat.ExportReads` | core/src/shared_wal/archive_export.rs:216-276 | whatever a healthy log exports within a budget is, stored behind any matching cursor, accepted again as the chunk of exactly these records, and as long as was counted |
| `LogExport.ExportsPartition` | core/src/shared_wal/archive_export.rs:209-276 | chained chunks concatenate to exactly the records between their ends |
| `SharedMembers.SharedMember.ExportDurable` | core/src/shared_wal/archive_export.rs:216-276 | the next records after a boundary, as many as the budget holds, up to the end of the index it continues; it fails exactly for a poisoned log, a cursor that is no durable record boundary, a budget out of range or a record longer than the budget |
| `SharedMembers.SharedMember.EnsureExportIndex` | core/src/shared_wal/archive_export.rs:166-208 | succeeds exactly at a durable record boundary and leaves the index standing there, continued, extended or rebuilt as its limit says |
| `SharedMembers.SharedMember.Build` | core/src/shared_wal/archive_export.rs:50-131 | the new index covers everything from the boundary to the durable end; the walk cannot fail |
| `SharedMembers.SharedMember.Peek` | core/src/shared_wal/archive_export.rs:132-150 | delivers the next record while any remains; its position is still good |
| `SharedMembers.SharedMember.Consume` | core/src/shared_wal/archive_export.rs:151-164 | moves to the next boundary; the final cursor cannot disagree with the durable chain |
| `SharedMembers.SharedMember.VerifyCursor` | core/src/shared_wal/archive_export.rs:209-215 | accepts exactly the durable record boundaries |
| `SharedMembers.SharedMember.ReleaseArchive` | core/src/shared_wal/archive.rs:218-254 | releases exactly durable record boundaries |
| `FrameFormat.FrameIff` | core/src/shared_wal/format.rs:101-161 | inspection accepts exactly the encodings of legal frames, and reads them back |
| `FrameFormat.HeaderIff` | core/src/shared_wal/format.rs:64-86 | a segment header is accepted exactly when it is the encoding for this owner and segment |
| `FrameFormat.RecordIff` | core/src/shared_wal/format.rs:136-161 | a record is accepted exactly when it is an encoding, with its sequence number |
| `Crc32.OneByteDetected` | core/src/shared_wal/format.rs:44-62 | contents that differ in one byte have different checksums |
| `Crc32.FoldSplit` | core/src/shared_wal/recover.rs:277-291 | hashing a file chunk by chunk gives the checksum of the whole |
| `Bitwise.XorBit` | core/src/codec/diff2.rs:255-285 | the exclusive or of two numbers, bit by bit |
| `FrameRun.CutRun` | core/src/shared_wal/recover.rs:98-140 | cutting a run of frames at any byte leaves whole frames and an unfinished rest |
| `FrameRun.ChangedFrame` | core/src/shared_wal/recover.rs:98-140 | a frame with any one byte behind its length changed is refused, and at the end of a file taken for an interrupted write |
| `Nvr.TokensExpand` | core/src/codec/nvr.rs:94-160 | a canonical token list is the merging of what it expands to |
| `Nvr.ExpandTokens` | core/src/codec/nvr.rs:94-160 | merging loses no symbol and yields canonical tokens |
| `Nvr.TokenPrefixFree` | core/src/codec/nvr.rs:308-336 | no token encoding is a prefix of another |
| `Nvr.UniqueParse` | core/src/codec/nvr_decode.rs:46-98 | a byte stream has at most one parse |
| `Nvr.EncodeInjective` | core/src/codec/nvr.rs:253-278 | different legal columns have different encodings |
| `NvrEncoding.TokenAtMostTenBytes` | core/src/codec/nvr.rs:288-307 | a token has one to ten bytes |
| `NvrEncoding.StreamFitsU32` | core/src/codec/nvr.rs:198-204 | every byte length fits the 32-bit field that stores it |
| `NvrEncoding.TokenLen` | core/src/codec/nvr.rs:288-307 | the counted length is the length written |
| `NvrEncoding.WriteToken` | core/src/codec/nvr.rs:308-336 | writes exactly the token's bytes at the offset and nothing else; fails exactly when they do not fit |
| `NvrEncoding.NvrState.Observe` | core/src/codec/nvr.rs:111-158 | completed tokens and the pending one are always those of the symbols seen |
| `NvrEncoding.NvrMeasurer.Finish` | core/src/codec/nvr.rs:188-197 | the measured plan is that of the symbols seen |
| `NvrEncoding.NvrEncoder.Finish` | core/src/codec/nvr.rs:229-243 | the bytes written are the encoding of the symbols seen |
| `NvrEncoding.Measure` | core/src/codec/nvr.rs:245-252 | the plan is exact on every legal column; all others are refused |
| `NvrEncoding.EncodeInto` | core/src/codec/nvr.rs:253-278 | writes the encoding exactly when plan and buffer are right |
| `NvrDecoding.ParseToken` | core/src/codec/nvr_decode.rs:99-165 | accepts exactly the shortest encoding of a token at the offset; no shift reaches 64 |
| `NvrDecoding.ParseContinuation` | core/src/codec/nvr_decode.rs:115-160 | accepts exactly the shortest continuation and rejects overlong and overflowing ones |
| `NvrDecoding.ScanTokens` | core/src/codec/nvr_decode.rs:46-98 | accepts exactly the canonical token streams within the row limit |
| `NvrDecoding.Decode` | core/src/codec/nvr_decode.rs:12-45 | accepts exactly the encodings of columns with the announced counts, and returns the column |
| `Diff2.ZigzagInverse` | core/src/codec/diff2.rs:226-249 | zigzag and unzigzag are inverse on the 64-bit range |
| `Diff2.StepInverse` | core/src/codec/diff2.rs:65-225 | one encoding step and one decoding step are inverse in every reachable memory |
| `Diff2.ColumnInverse` | core/src/codec/diff2.rs:65-225 | encoding and decoding of whole columns are inverse in both directions |
| `Diff2.DecodeNeverOverflows` | core/src/codec/diff2.rs:182-225 | no 128-bit intermediate of the decoder overflows |
| `Diff2.NullsTransparent` | core/src/codec/diff2.rs:65-128 | nulls do not move the predictor |
| `Diff2.Diff2Encoder.Observe` | core/src/codec/diff2.rs:65-128 | the object takes exactly the encoding step and gives up exactly when the second difference leaves the 64-bit range |
| `Diff2.Diff2Decoder.DecodeSymbol` | core/src/codec/diff2.rs:153-225 | the object takes exactly the decoding step |
| `Diff2.XorColumnInverse` | core/src/codec/diff2.rs:252-288 | the XOR predictor is inverse in both directions |
| `Diff2.XorEncoder.Observe` | core/src/codec/diff2.rs:257-267 | the object takes exactly the XOR step |
| `Diff2.XorDecoder.DecodeSymbol` | core/src/codec/diff2.rs:274-288 | the object undoes exactly the XOR step |
| `Fixed.BitmapInverse` | core/src/codec/fixed_decode.rs:90-141 | a bitmap with zero padding is the packing of exactly one flag list |
| `Fixed.EncodeLength` | core/src/codec/fixed.rs:224-249 | the layout has the announced length |
| `Fixed.WidthIsMinimal` | core/src/codec/fixed.rs:212-222 | the width of an unsigned column is one of 1, 2, 4 and 8, every value fits it, and for every smaller one some value does not |
| `Fixed.ShortestLayout` | core/src/codec/fixed.rs:224-249 | no layout of the column with another legal width is shorter |
| `Fixed.DecodeIff` | core/src/codec/fixed_decode.rs:12-89 | the reader specification accepts exactly the layouts: zero padding, right counts and the width of `Fixed.WidthIsMinimal` |
| `FixedCoding.FixedMeasurer.Observe` | core/src/codec/fixed.rs:102-123 | counters and maximum are those of the facts seen |
| `FixedCoding.Measure` | core/src/codec/fixed.rs:155-162 | the plan is exact on every legal column, its width of unsigned values is one of 1, 2, 4 and 8 that holds them all while no smaller one does; all other columns are refused |
| `FixedCoding.SetBitmapBit` | core/src/codec/fixed.rs:251-274 | sets exactly one flag of the bitmap |
| `FixedCoding.WriteValue` | core/src/codec/fixed.rs:275-314 | writes exactly the value's bytes at the offset |
| `FixedCoding.EncodeInto` | core/src/codec/fixed.rs:163-202 | writes the layout exactly when plan and buffer are right |
| `FixedDecoding.BitmapBit` | core/src/codec/fixed_decode.rs:123-141 | answers the packed flag at the index |
| `FixedDecoding.ValidateBitmap` | core/src/codec/fixed_decode.rs:90-122 | accepts exactly bitmaps of the right length, padding and population |
| `FixedDecoding.ReadValue` | core/src/codec/fixed_decode.rs:142-177 | reads one value exactly when it is there and legal |
| `FixedDecoding.DecodeBytes` | core/src/codec/fixed_decode.rs:12-89 | succeeds exactly on layouts and returns the one column laid out; the width byte of unsigned columns is the least legal width that holds every value |
| `Selector.StoredIsSmallest` | core/src/codec/selector.rs:161-199 | the stored form is the smaller candidate; ties stay fixed |
| `Selector.StoredRoundTrip` | core/src/codec/selector.rs:200-277 | the stored form of any legal column decodes to that column and to no other |
| `Selector.PredictorInverse` | core/src/codec/selector.rs:80-152 | for every type, the predictor chain is inverted by the reconstructor chain, both ways |
| `SelectorCoding.Predictor.Observe` | core/src/codec/selector.rs:89-117 | the object emits the next symbol of the column, or reports that there is none |
| `SelectorCoding.Reconstructor.DecodeSymbol` | core/src/codec/selector.rs:130-151 | the object answers the next fact of the column, or fails where there is none |
| `SelectorCoding.Select` | core/src/codec/selector.rs:161-199 | measures both candidates in one pass and chooses as specified; refuses exactly illegal columns |
| `SelectorCoding.Encode` | core/src/codec/selector.rs:200-214 | writes the stored form exactly when the selection and the buffer are right |
| `SelectorCoding.EncodeNvr` | core/src/codec/selector.rs:215-249 | writes the NVR form of a column that has one |
| `SelectorCoding.Decode` | core/src/codec/selector.rs:250-277 | accepts exactly stored columns with the announced tag and counts, and returns the column |
| `Timestamp.FixedIff` | core/src/codec/timestamp.rs:185-205 | the eight-byte layout is read back by exactly one column |
| `Timestamp.NvrReadsIff` | core/src/codec/timestamp.rs:206-220 | the NVR reader is the exact inverse of the NVR form |
| `Timestamp.LoadsCanonical` | core/src/codec/timestamp.rs:169-184 | loading accepts only canonical bytes |
| `Timestamp.StoredRoundTrip` | core/src/codec/timestamp.rs:72-219 | the stored form of any legal timestamp column loads as that column and as no other |
| `Timestamp.StoredIsSmallest` | core/src/codec/timestamp.rs:72-107 | the stored form is the smaller candidate; ties stay fixed |
| `TimestampCoding.ValidateSource` | core/src/codec/timestamp.rs:221-242 | accepts exactly one to 65,536 strictly increasing timestamps |
| `TimestampCoding.Select` | core/src/codec/timestamp.rs:72-107 | measures the competing candidate and chooses as specified; refuses exactly illegal columns |
| `TimestampCoding.Encode` | core/src/codec/timestamp.rs:108-126 | writes the stored form exactly when the plan and the buffer are right |
| `TimestampCoding.EncodeFixed` | core/src/codec/timestamp.rs:127-139 | writes the eight-byte layout |
| `TimestampCoding.EncodeNvr` | core/src/codec/timestamp.rs:140-168 | writes the NVR form of a column that has one |
| `TimestampCoding.DecodeFixed` | core/src/codec/timestamp.rs:185-205 | reads exactly eight bytes a row |
| `TimestampCoding.DecodeNvr` | core/src/codec/timestamp.rs:206-220 | reads a column, or shows that the bytes are the NVR form of none |
| `TimestampCoding.ValidateDecoded` | core/src/codec/timestamp.rs:244-255 | accepts exactly ordered timestamps with the announced ends |
| `TimestampCoding.Decode` | core/src/codec/timestamp.rs:169-184 | accepts exactly stored columns with the announced rows, order and ends |
| `Catalog.FactsAscend` | core/src/query/plan.rs:109-150 | on an ordered table all facts of a key ascend, from the oldest section to the tail |
| `Catalog.PredecessorIsLatest` | core/src/query/batch.rs:88-150 | the predecessor is the latest fact at or before the time, and there is none exactly when all are later |
| `Lookups.ValidateUnits` | core/src/query/plan.rs:72-90 | accepts exactly catalogs in routing order with distinct numbers |
| `Lookups.ValidateGroup` | core/src/query/batch.rs:200-212 | accepts exactly strictly increasing known keys of one table |
| `Lookups.Predecessors` | core/src/query/batch.rs:88-150 | every key gets its latest fact at or before the time, early exit included; it fails only where group or catalog are not in order |
| `Ranges.Plan` | core/src/query/plan.rs:33-70 | plans exactly the sections that the range meets, in order, and so everything that holds a fact of it; refused only for units out of order, a range that ends before it starts, or when those sections do not follow each other |
| `Ranges.VisitFacts` | core/src/query/batch.rs:152-198 | each key is visited with exactly its facts in the range, once each and in strictly increasing time |
| `FactCursors.Open` | core/src/query/cursor.rs:56-86 | what the cursor will deliver is exactly the facts of the key in the range; refused only for a bad key, range or catalog |
| `FactCursors.FactCursor.NextFact` | core/src/query/cursor.rs:88-206 | delivers exactly the first fact to come, or none when none is left; a failed cursor stays failed, and on a sane catalog it never fails |
| `Grouping.GroupKeys` | core/src/query/batch.rs:39-60 | one group for each table asked for, with its distinct keys in order and all their positions |
| `Grouping.Scatter` | core/src/query/batch.rs:62-79 | each value arrives at all its positions and nowhere else; it fails exactly for a missing value or a position behind the end |
| `Grouping.Collect` | core/src/query/batch.rs:81-86 | succeeds exactly when every position has an answer |
| `Visibility.InvisibleForEver` | core/src/query/primitives.rs:301-312 | a fact that cannot be seen at one time cannot be seen at any later one: validity and retirement only ever take facts away |
| `Visibility.SlotShows` | core/src/query/primitives.rs:260-299 | a slot holds the value, source time and visibility of a lookup at its time, and is carried exactly when the source is older |
| `Visibility.ResolveIff` | core/src/query/contract.rs:19-56 | with versions in rising order of effect, a field resolves to the type and validity of the last version in effect at the fact's time, exactly when there is one and it has the field |
| `Visibility.WithdrawnIff` | core/src/query/primitives.rs:301-312 | a fact is withdrawn exactly when it lies at or before some retirement of its series or field, and the time asked for behind every one of them |
| `Visibility.VisibleIff` | core/src/query/primitives.rs:301-312 | a fact is seen exactly while it is valid by the version in effect when it was written and not withdrawn |
| `Visibility.LookupIff` | core/src/query/primitives.rs:260-299 | a lookup answers a fact exactly when it is seen, and nothing exactly when it is not |
| `Sampling.ValuesAt` | core/src/query/primitives.rs:62-85 | position i answers key i with its latest fact or head (`Sampling.ShownMeans`), whatever the order or repetition of keys; it succeeds when all keys are known, their tables sane, the fields of the facts they show known and the answers fit 16 MiB |
| `Sampling.ShownMeans` | core/src/query/primitives.rs:62-85 | what a key shows at a time is its latest fact up to then, or the head when it has none, exactly while that fact is valid by the version in effect when it was written and not withdrawn; facts, versions and retirements are named, no function of the model |
| `Sampling.MeasureGrid` | core/src/query/primitives.rs:321-345 | counts exactly the grid points before the end |
| `Sampling.SampleGroup` | core/src/query/primitives.rs:160-210 | one pass over the facts fills, for every key of a table in order whose head lies before the start, exactly the slots that lookups at the grid points would; sane tables and known fields never fail |
| `Sampling.Sample` | core/src/query/primitives.rs:143-215 | slot x of position i is the lookup of key i at grid point x, for exactly the grid points before the end; refused only for its arguments, too many slots or too much memory for them, an unknown key, or a table or fact that a lookup would refuse |
| `Retention.ApplySection` | core/src/retention/fold.rs:103-129 | the head of every key becomes its last fact of the section; others stay; it fails only where a head is as new as a fact of the section |
| `Retention.FoldTable` | core/src/retention/fold.rs:36-74 | after all expired sections of a table the head of every key is its last expired fact; sections in order, of known versions and newer than the heads never fail |
| `Retention.Fold` | core/src/retention/fold.rs:22-101 | the new heads are, of every key, its last expired fact or older head, if it can be seen at the new floor; it succeeds only when no section is left behind, and fails only where folding cannot be done or for too many heads |
| `Retention.KeepableIff` | core/src/retention/fold.rs:131-150 | a head can be judged at the floor exactly when the version in effect at its time has its field with the type of its value |
| `Retention.FoldPreserves` | core/src/retention/fold.rs:22-101 | at and above the new floor, a lookup with the new heads and the remaining units is the lookup from before, and a table that could be read still can be |
| `Retention.Retain` | core/src/maintenance.rs:239-316 | drops exactly the first units that end before the cutoff; the new floor is at most the cutoff, no lookup at or above it changes, and every table that could be read still can be; it fails only where those units cannot be folded at the floor right above them |
| `SectionBuffers.SectionBuffer.CanAccept` | core/src/unit/compact.rs:69-111 | predicts exactly the rows, streams and facts that the row will make, and whether they fit |
| `SectionBuffers.CountRow` | core/src/unit/compact.rs:79-101 | what admission counts are the streams with a cell in the row, and those among them that are new |
| `SectionBuffers.SectionBuffer.Push` | core/src/unit/compact.rs:113-181 | every stream gains exactly its cell of the row under its type and the version of the buffer, and all counts stay exact; refused only for a row that is not newer or a stream of another type |
| `SectionBuffers.SectionBuffer.Finish` | core/src/unit/compact.rs:183-210 | the section holds exactly the buffered facts with their types, under the version of the buffer, is within the limits and has no empty column |
| `Compaction.AppendSection` | core/src/unit/compact.rs:291-329 | written and buffered rows and facts together are exactly those read, each under the version it was read in and with its type, whatever was flushed on the way; it fails only for two types in one version or a row without room |
| `Compaction.MergeTable` | core/src/unit/compact.rs:247-279 | the sections of a table are rewritten with the same facts of every key, the same rows, versions and types, in order and within the limits, and packed: no section could have taken the first row of the next one of its version; it fails only for sections out of order, of unknown versions or of two types in one, or a row without room |
| `Compaction.TagOrigin` | core/src/unit/compact.rs:141-181 | every fact of a section, with its version and type, comes from a column of that type in a section of that version |
| `CompactionSchemas.KnownKept` | core/src/unit/compact.rs:291-329 | rewritten sections are of known versions exactly when the old ones were |
| `CompactionSchemas.FitKept` | core/src/unit/compact.rs:291-329 | columns that had the type their version gives the field still have it after rewriting |
| `Totals.CountedAll` | core/src/unit/compact.rs:280-287 | the section counts reach the totals exactly when every section is of a known table |
| `Replacement.Merge` | core/src/unit/compact.rs:239-289 | succeeds only when no section is left behind and every version is known; then every table is rewritten and packed, and the sections are sorted by table and time; it fails only where a table cannot be merged |
| `Replacement.ChainIsRising` | core/src/query/plan.rs:109-131 | the sections of a table follow each other exactly when all their rows ascend |
| `Replacement.ReplacedKeepsFacts` | core/src/maintenance.rs:169-236 | one unit in place of several changes no fact of any key and keeps each table exactly as orderly |
| `UnitCompaction.InsertedSorted` | core/src/maintenance.rs:202-210 | the new catalog is the sorted list of the old units and the new one |
| `UnitCompaction.InsertedInPlace` | core/src/maintenance.rs:202-210 | the new unit takes the place of those it replaces exactly when the unit after them begins later |
| `UnitCompaction.SameBeginning` | core/src/unit/format.rs:382-394 | the new unit begins exactly where the first of its inputs did |
| `UnitCompaction.CompactedKeepsFacts` | core/src/maintenance.rs:169-236 | a compacted run whose successor begins later leaves the facts of every key and what queries can read of every table as they were; in any case versions stay known and columns keep fitting them |
| `UnitCompaction.CompactedSchema` | core/src/maintenance.rs:169-236 | compacting any run keeps the versions of every table known exactly when they were, and its columns fitting |
| `UnitCompaction.SelectRun` | core/src/maintenance.rs:326-343 | chooses the first run of two or more neighbours of a level, all of it, and none exactly when no two neighbours have the level |
| `UnitCompaction.SelectedIsUnique` | core/src/maintenance.rs:326-343 | there is only one such run |
| `UnitCompaction.Compact` | core/src/maintenance.rs:169-236 | the run becomes one exact, sorted and packed unit, and the schema of every table is kept; where its successor begins later, facts and readable tables stay; it fails only for an empty or unknown run or tables that cannot be merged |
| `CompactionOrder.BesideIs` | core/src/maintenance.rs:202-210 | counts exactly the units after a run that begin no later than it does |
| `CompactionOrder.OrderKept` | core/src/maintenance.rs:169-236 | a table in order stays so, with all its facts, exactly when the run or the units beside it hold none of it |
| `CompactionOrder.CompactedOrder` | core/src/maintenance.rs:169-236 | the same for any compaction of any run, in terms of the catalog before it; a table can be read after it exactly when it could be and is still in order |
| `CompactionExample.CompactionMayDisorder` | core/src/maintenance.rs:202-210 | a legal compaction of an ordered catalog, of the run that its level would choose, that leaves a table out of order |
| `Buckets.KeyIsTotalOrder` | core/src/agg/bucket.rs:197-204 | the integer key orders bit patterns as section 5.10 of IEEE 754-2019 does |
| `Buckets.ExtremaMean` | core/src/agg/bucket.rs:176-204 | the extrema bound every value of the bucket: by amount, and for floating-point numbers in their total order |
| `Buckets.Fp4Scale` | core/src/types/sq1.rs:14-37 | the amounts of Sq1 codes rise in three bands, by 1000 up to 50, by 2500 up to 78 and by 5000 up to 254, from 0 over 50000 and 120000 to 1000000 |
| `Buckets.SummaryIsUnique` | core/src/agg/bucket.rs:151-173 | counts, nulls, extrema and sum leave nothing of a bucket open |
| `Buckets.BucketBuilder.Observe` | core/src/agg/bucket.rs:107-149 | keeps all five summaries exact; fails exactly for another type or a full counter, as the sum cannot overflow first |
| `Buckets.BucketBuilder.Finish` | core/src/agg/bucket.rs:151-173 | the bucket summarizes exactly what was observed |
| `Aggregation.InOneWindow` | core/src/agg/fold.rs:142-177 | a time of the range lies in exactly one window |
| `Aggregation.Geometry` | core/src/agg/fold.rs:142-177 | answers the window of every time of the range and refuses every other; no conversion fails |
| `Aggregation.CountCovers` | core/src/agg/fold.rs:179-194 | the counted windows are exactly those that begin in the range, and every time of it lies in one |
| `Aggregation.AggregateState.Observe` | core/src/agg/fold.rs:110-133 | after any facts in order, the closed buckets and the open one are those of the windows so far; it fails exactly for a fact of another type, as a range of times is too short to exhaust a counter |
| `Aggregation.AggregateState.Buckets` | core/src/agg/fold.rs:135-140 | one bucket for each window that holds a fact, in order, exactly about it |
| `Aggregation.GroupedIsUnique` | core/src/agg/fold.rs:110-140 | there is only one list of buckets for given facts and windows |
| `Aggregation.SamplesAddUp` | core/src/agg/bucket.rs:107-112 | the buckets of a range together count every fact in it once |
| `AggregateQuery.AggregateGroup` | core/src/agg/fold.rs:61-91 | streaming the facts of a group ends, for every key, in the buckets of its facts in the range; sane tables with facts of the present type never fail |
| `AggregateQuery.Aggregate` | core/src/agg/fold.rs:30-94 | position i holds the buckets of key i: each begins on the grid of start and width, is partial exactly when it is cut by the end or the last row of the table lies before its end, and summarizes exactly the facts in it, and every fact of the range lies in one (`AggregateMeanings.Describes`); refused only for its arguments, too many buckets or too much memory for them, an unknown key, a table that is not sane or a fact of another type |
| `AggregateQuery.AggregatedDescribes` | core/src/agg/fold.rs:142-177 | the buckets of a key are described by its facts, the last row of its table and the arguments alone |
| `AggregateMeanings.GroupedDescribes` | core/src/agg/fold.rs:110-177 | buckets of the windows with a fact are on the grid, in order, partial as said, exact about their facts and leave no fact of the range out |
| `AggregateMeanings.CompleteStays` | core/src/agg/fold.rs:174-175 | a bucket that is not partial stays what it is when later rows arrive |
| `DirectoryCaches.KeptIsLongest` | core/src/unit/dircache.rs:83-89 | eviction keeps the longest recent part of the list that fits |
| `DirectoryCaches.DirectoryCache.NextTick` | core/src/unit/dircache.rs:143-150 | the tick is later than all others, also when the clock runs out; order and pages stay |
| `DirectoryCaches.DirectoryCache.CompactTicks` | core/src/unit/dircache.rs:152-167 | renumbering keeps the order of use and leaves the clock room |
| `DirectoryCaches.DirectoryCache.Get` | core/src/unit/dircache.rs:107-112 | answers the cached directory and makes it the most recently used one |
| `DirectoryCaches.DirectoryCache.TableSections` | core/src/unit/dircache.rs:114-123 | answers exactly the entries of the table, in order |
| `DirectoryCaches.DirectoryCache.EvictOldest` | core/src/unit/dircache.rs:125-141 | drops exactly the least recently used page; fails exactly when there is none |
| `DirectoryCaches.DirectoryCache.Insert` | core/src/unit/dircache.rs:64-105 | accepts, refuses or leaves out exactly as specified; the pages kept are the most recently used that leave room |
| `DirectoryCaches.DirectoryCache.UsedIs` | core/src/unit/dircache.rs:187-205 | what is used is what all cached entries take and 128 bytes a page |
| `DirectoryCaches.ValidateEntries` | core/src/unit/dircache.rs:170-185 | accepts exactly strictly ordered directories of legal size |

## Findings

Three promises of the design do not hold of the code. Each has a state that shows it and the
exact condition under which it does hold.

| promise | where it fails | exact condition |
|---|---|---|
| a reclaiming pass may stop anywhere (core/src/shared_wal/gc.rs:27-42) | cut between two deletions it can leave an empty, fenced segment in front, and the next recovery refuses the log (core/src/shared_wal/recover.rs:79-82): `LogExamples.PassMayStrand` | the oldest file left has a header or starts at the first LSN: `LogAgain.PassMayStop` |
| after a successful preflight no append of the batch fails except by a fault (core/src/shared_wal/batch.rs:21-29) | the preflight does not look at the archive offset or at the segment number: `LogExamples.BatchMayFail` shows a state that satisfies the invariant; an archive chain this far along could only come from a stored archive file | both counters have room for the batch: `LogBatch.Representable`, in `SharedWals.SharedWal.AppendBatchRaw` |
| compaction keeps every table in order and so readable (core/src/unit/compact.rs:239-289, core/src/maintenance.rs:202-210) | the new unit has the highest number, so units that begin together with the run are sorted before it; one that holds newer rows of the same table then comes first, and queries that meet both refuse them as corrupt: `CompactionExample.CompactionMayDisorder` | the run, or the units right after it that begin no later, hold no section of the table; then a table that could be read can still be read: `CompactionOrder.CompactedOrder` |

## Left out

- SharedWals.SharedWal.Gc: deleting a segment, its boundary and syncing the directories is one step that does not fail; what a pass cut between two deletions leaves behind is stated by `LogAgain.PassMayStop`.
- SharedWals.SharedWal.Recover: the budget of temporary replay files shared by all members is not modelled, so a replay refused for want of that budget is not among its failures.
- SharedMembers.SharedMember.ExportDurable: the same budget for export files is not modelled; the positions in them are a sequence in the index.
- SharedMembers.SharedMember.ReleaseArchive: persistent base pins, which forbid some releases, are not modelled.
- SharedWals.SharedWal.Discard: persistent base pins, database locks and path checks are not modelled.
- SharedWals.SharedWal.Register: the registration file, the binding file and the first manifest are one publication; the limit on the number of databases and the path table are not modelled.
- SharedWals.SharedWal.Open: only a directory that is as the log and the device left it is opened; what scanning accepts of any other is stated by `LogScanFinds.ScanFinds`. Listing the directory and parsing file names are not modelled.
- LogScanFinds.ScanFinds: boundary records are values; that their own bytes carry a checksum is not modelled. It says what is accepted, not which error a refused directory gives.
- LogExport.CoversOnChain: inside the log cursors carry their number and offset only, as the shared log never changes the other fields; full cursors are `ArchiveFormat.ArchiveCursor`.
- Crc32.OneByteDetected: nothing is claimed about changes of more than one byte. The digest of a cursor is any function to 32 bytes: SHA-256 is not part of this model, and a collision is shown, not excluded.
- ArchiveFormat.TamperEvident: the files of archive authorities, base files and restoring from them are not modelled.
- LogOperations.Operation: threads are interleaved at the granularity of whole operations, because each runs under one lock; sealing is three operations.
- SectionBuffers.SectionBuffer.Push: a buffer whose push failed is dropped by its caller, so nothing is promised of it.
- Replacement.Merge: the row totals of unit headers are not compared, only the section totals; the size limits of the unit file are not modelled.
- UnitCompaction.Compact: units carry no level, so the refusal of runs of mixed or last levels is not modelled, nor are publishing the unit and the manifest; `UnitCompaction.SelectRun` is given the levels.
- CompactionExample.CompactionMayDisorder: how its three units came about is not modelled.
- LogExamples.BatchMayFail: no operation of the model builds its archive chain, which stands at the largest offset.
- SharedWals.SharedWal.EnableArchive: the random branch of a new cursor is not modelled, nor a failure to read it.
- Retention.Retain: writing the head file and the manifest is not modelled; heads are a map instead of a sorted list.
- Retention.Fold: the row totals of unit headers are not compared, only the section totals.
- Sampling.Sample: the size of a slot in memory is a parameter. Nothing is claimed of the slots of a key whose table has sections out of order across units or whose head is later than the start; the callers' check of the retention floor excludes the latter.
- AggregateQuery.Aggregate: the size of a bucket in memory is a parameter, as the size of an answer is for `Sampling.ValuesAt`.
- DirectoryCaches.DirectoryCache.Insert: the size of an entry in memory is a parameter.
- Catalog.TailOf: the tail is a list of facts for each stream instead of rows with postings.
- The working memory of a section is a function that the limits are given, as section encoding is not part of this model.
- The last row of a table (`latest`), snapshots and their captured state.
- Per-member byte counts, write and sync counters, metrics and error texts.
- Unit files, manifests, retention heads and the presence bitmap as bytes.
- Directory handling, locks, options files, the command line and the window scheduler.
