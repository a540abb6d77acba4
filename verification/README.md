# Piramid: a verified model of its storage, recovery and search

Piramid is a vector database.  This project models its two hard parts in Dafny and proves what they promise.

**The durable collection.**  A public operation is a short program of single disk writes: log records, record
bytes, pointer index, vector index, checkpoint record, sequence number, log rotation.  `Recovery` describes these
programs and a machine that runs them and may crash between any two writes, also halfway through the bytes of a
record or while a reopened collection is still recovering.  `CrashSafety` and `CrashTheorem` prove that no crash,
however often, loses a logged operation; `Calls` says what each public call makes of the documents, finished or
interrupted by a crash; `VectorIds` follows the persisted vector index along the same runs.  `RecordStore` and `Log`
are the values the machine works on.  `RecordFile`, `WalFile` and `Collection` are the imperative code, proved to
perform exactly those programs: every method's contract gives the final state, the disk after each of its writes, and,
on a sound collection, the documents it leaves.  `Rejected` says what writes that are refused leave behind.

**Search and numbers.**  `Search` has the exact Flat index and the engine with overfetch and filters (`Filters`,
`Ranking`).  `KMeans` and `Ivf` model the inverted-file index, `LayerSearch` and `Hnsw` the graph index.  `Session`
puts the three indexes, the caches (`Cache`) and the stored documents together.  `Budget` is the eviction of
metadata caches under a byte budget.  `ScalarQuantization` and `ProductQuantization` are the int8 and PQ codecs,
`Dot` the dot-product kernels.  Scores and distances are arbitrary real functions except where a Euclidean one is
named; all arithmetic is exact.  `DurableExamples` and `SearchExamples` are concrete runs and inputs.

`dafny verify dfyconfig.toml` checks everything.

The document codec is a parameter.  A theorem about a run asks only that the codec is exact on the documents that this
run logs (`Recovery.Config.Fits`); no codec into bytes is exact on every document with real components.

## What the code does that its documentation does not say

Each point names the exact condition and a concrete input.

- `insert_batch` may checkpoint after the pointers and before the vector index has seen the batch.  If the process ends
  before the next checkpoint, the reopened vector index lacks the new ids, and nothing is left to replay
  (`VectorIds.BatchKeepsVectorIndexIff`, `DurableExamples.BatchLosesItsId`).  The documents themselves are safe.
- A record of 2^32 bytes or more gets a truncated pointer length and does not read back
  (`RecordStore.AppendReadsBack`, `DurableExamples.HugeRecordReadsEmpty`).
- A crash between the growth for a batch and its writes can leave a file larger than twice every cursor reached: it
  does if and only if the file had to grow and neither a cursor nor the reopened one reaches what the batch asked for
  (`RecordStore.CutShortKeepsIff`, and over whole runs `RecordStore.CapacityBoundIff`;
  `DurableExamples.CutBatchOvershoots`).
- A refused insert is already in the log, and one refused for its dimension is also in the pointer index
  (`Rejected.RefusedInsertIff`).  Without limits, one refused write in the unsaved log makes the next open fail
  (`Rejected.OneRefusalBlocksOpening`, `DurableExamples.WrongDimensionBlocksOpening`); with a vector limit, even
  accepted ones can (`Rejected.ReplaysIff` for any log, `Rejected.AcceptedReplayAgainIff`,
  `DurableExamples.FullCollectionBlocksOpening`).
- Both heaps of the HNSW layer search give up their closest element, although comments and names speak of the
  furthest.  So the beam keeps the first live ids it meets instead of the best, and returns everything it meets
  if and only if that fits into the beam (`LayerSearch.SearchLayer`, `LayerSearch.ComesBackIff`,
  `SearchExamples.CloserNeighbourIsLost`); a width of at least the number of live nodes always suffices.  The width-1
  descent through the upper layers never leaves the entry point (`Hnsw.HnswIndex.DescendToBottom`).
- With a positive k, an HNSW search from an existing entry point finds nothing if and only if that entry point's cached
  metadata fails the filter: it then hides the whole graph (`Hnsw.HnswIndex.Search`,
  `SearchExamples.FilteredEntryHidesAll`).
- IVF keeps an id in its old list when it is inserted again with another vector (`Ivf.IvfIndex.Insert`,
  `SearchExamples.ReinsertedIdStaysBehind`).
- An int8 encoding of a vector whose range is positive but below the epsilon does not survive a second encoding
  (`ScalarQuantization.ReencodeIff`, `SearchExamples.NarrowVectorReencodesDifferently`), and a PQ encoding fails to
  decode when rounding up leaves a requested block empty (`ProductQuantization.DecodesIff`,
  `SearchExamples.FiveInFourBlocks`).

## Model

| member | source | states |
|---|---|---|
| CrashTheorem.CrashAnywhereLosesNothing | src/collections/builder.rs:55-107 | In every run of calls, disk writes, crashes between or within any of them (recovery included) and reopenings, opening any disk that a crash of that moment can leave - its data file grown or not, with any bytes beyond the cursor - gives exactly the map that all logged operations produce in order; an idle collection holds that map too. |
| DurableExamples.CrashedInsertIsRecovered | src/collections/operations/write.rs:46-60 | The theorem at work: a codec exact on 256 documents, a run that opens, starts an insert and crashes while the record is being written, with whatever bytes in the data file, and an open that gives back the document. |
| CrashTheorem.EveryRunIsOk | src/collections/checkpoint.rs:94-116 | Every state of every run satisfies the disk and memory invariant: saved pointers read back, the log tail is a suffix of the history and replaying it over the saved pointers gives the current documents, live ranges are disjoint and below the cursor, and what is still to do keeps it so. |
| CrashTheorem.CrashKeeps | src/storage/record_store.rs:47-54 | A crash in the middle of growing or writing the data file keeps the disk invariant: no saved pointer reads a byte beyond the cursor. |
| CrashTheorem.StepKeeps | src/collections/checkpoint.rs:94-116 | Each single disk write or memory step of any operation keeps that invariant, whatever step of whatever program it is. |
| CrashTheorem.StepAdvances | src/collections/checkpoint.rs:94-116 | What an allowed step makes of the documents, the history, the numbers and the saved pointers: a checkpoint may save its number or empty the log only once the saved pointers hold everything logged. |
| CrashTheorem.RunKeeps | src/collections/checkpoint.rs:94-116 | Running a whole safe program from a good state ends in a good state. |
| CrashTheorem.ProgramIsSafe | src/collections/operations/write.rs:46-174 | The step sequence of every public operation may be started from every good idle state: at each point of it, a crash is survivable. |
| CrashTheorem.MetadataUpdateIsSafe | src/collections/operations/metadata.rs:11-36 | `update_metadata` logs, appends and repoints without touching the vector index, and is safe at every point. |
| CrashTheorem.LoadIsSafe | src/collections/builder.rs:29-79 | What `open` loads from any disk a crash can leave, with the replay and checkpoint still to do, is a good state: recovery may crash and be repeated. |
| CrashTheorem.ReopenHolds | src/collections/builder.rs:84-107 | Completed recovery leaves a good state whose documents are those of the whole history. |
| CrashTheorem.OpenLeavesNothingToReplay | src/collections/builder.rs:56-107 | After every completed open no log record lies above the saved sequence number and the next number is one more than it. |
| CrashTheorem.NoLoggedWriteIsSkipped | src/storage/wal/log.rs:87-103 | In every run, a logged operation gets a number above the saved one and above all earlier operation records, so replay sees it: numbers reused after recovery never hide a write. |
| CrashTheorem.CallMeaning | src/collections/operations/write.rs:46-174 | A completed call changes the documents by exactly the operations it logged, and logs nothing else. |
| CrashTheorem.DeleteBatchMeaning | src/collections/operations/write.rs:152-174 | `delete_batch` removes exactly the named ids, though with repeated ids it logs more deletes than it applies. |
| CrashTheorem.DeletesAgree | src/collections/operations/write.rs:152-174 | The logged deletes and the applied deletes have the same effect on the documents. |
| Calls.StoringCall | src/collections/operations/write.rs:46-137 | A finished insert or upsert leaves the documents with that one under its id, and no other change. |
| Calls.BatchCall | src/collections/operations/write.rs:62-110 | A finished `insert_batch` leaves the batch stored in its order. |
| Calls.DeleteCall | src/collections/operations/write.rs:139-150 | A finished delete leaves the documents without that id. |
| Calls.MetadataCall | src/collections/operations/metadata.rs:11-36 | A finished `update_metadata` changes the metadata of that document, if there is one, and nothing else. |
| Calls.VectorCall | src/collections/operations/metadata.rs:38-73 | A finished `update_vector` changes the vector of that document, if there is one, and nothing else. |
| Calls.UpkeepCall | src/collections/compact.rs:13-66 | Checkpoint, compaction and index rebuild leave the documents as they are. |
| Calls.IdleIsDurable | src/collections/builder.rs:55-107 | Whatever disk a crash of an idle collection leaves, reopening it gives back its documents. |
| Calls.OneWriteIsAtomic | src/collections/operations/write.rs:46-60 | A crash anywhere inside a call that writes one document leaves, after reopening, the documents before the call or those after it. |
| Calls.InterruptedBatch | src/collections/operations/write.rs:62-110 | A crash anywhere inside `insert_batch` leaves a front part of the batch stored, in order. |
| Calls.InterruptedDeletes | src/collections/operations/write.rs:152-174 | A crash anywhere inside `delete_batch` leaves the documents without a front part of the listed ids. |
| Types.StoredAt | src/collections/operations/write.rs:89-94 | After a batch exactly the old and the new ids are stored, and ids that the batch does not name keep their documents. |
| Types.LastStored | src/collections/operations/write.rs:89-94 | Of several documents of a batch with one id, the last is stored. |
| CrashTheorem.RunCheckpoint | src/collections/checkpoint.rs:94-116 | What the five writes of a checkpoint leave together: saved pointers and ids equal to memory's, an empty log, and a saved number one below the next. |
| Log.SuffixReplayIsIdempotent | src/collections/builder.rs:130-174 | Replaying any suffix of a log on a state that already holds the effects of the whole log changes nothing. |
| Log.ReplayAt | src/collections/builder.rs:130-174 | Replay fixes each id it names regardless of the starting state and leaves every other id alone. |
| Log.LiveIsSuffix | src/storage/wal/log.rs:71-84 | With increasing numbers, what `replay` returns above any sequence number is a suffix of the logged operations. |
| Log.NothingAbove | src/storage/wal/log.rs:71-84 | Replay returns nothing exactly when no record is above the given number. |
| CrashSafety.SavedSurvivesAnyNumber | src/collections/checkpoint.rs:94-116 | Freshly saved pointers stay right under replay from any saved sequence number: the order of the checkpoint's writes is safe. |
| CrashSafety.LogKeeps | src/storage/wal/log.rs:87-103 | Appending one record keeps log and pointers in agreement with the longer history. |
| CrashSafety.MarkKeeps | src/storage/wal/log.rs:105-110 | A checkpoint record, even one that reuses a number, changes nothing that replay sees. |
| CrashSafety.PutKeeps | src/collections/operations/write.rs:11-18 | Appending a document and repointing its id reads back that document, keeps every other live or saved record readable, and keeps live ranges disjoint and below the cursor. |
| CrashSafety.CompactKeeps | src/collections/compact.rs:13-66 | Compaction as one step preserves the documents, leaves the cursor at the sum of the live record lengths, lists exactly the live ids, and leaves pointers, empty log and history in agreement. |
| CrashSafety.CompactedReads | src/collections/compact.rs:31-41 | Every copied record reads back its document through the new pointers, also after the new file is reopened. |
| VectorIds.VectorIndexSurvivesCrashes | src/collections/checkpoint.rs:94-116 | With the persisted Flat list, in every run without a risky batch, reopening any disk that a crash of any moment can leave gives a vector index that lists exactly the stored ids. |
| VectorIds.BatchKeepsVectorIndexIff | src/collections/operations/write.rs:96-106 | After `insert_batch` and a reopen the documents are right in any case, and the vector index lists them all if and only if no checkpoint was due or every batch id was already indexed. |
| DurableExamples.BatchLosesItsId | src/collections/operations/write.rs:96-106 | One new document, a checkpoint due, and a restart: the document is stored, and the vector index does not list it. |
| VectorIds.RiskyBatchDisk | src/collections/operations/write.rs:96-106 | What a batch that checkpoints halfway leaves on disk: saved pointers that read back all documents, the batch included, an empty log, and the vector index as it was before the batch. |
| VectorIds.SavedIdsSurvive | src/index/flat/index.rs:29-35 | A complete saved id list stays complete under replay from any sequence number. |
| Collection.Collection.Open | src/collections/builder.rs:20-128 | Opening a disk performs exactly the modelled load, replay and recovery checkpoint, disk write by disk write; from any disk a crash can leave, the collection is then sound and holds all logged operations. |
| Collection.Collection.Kept | src/collections/operations/write.rs:46-174 | The object invariant: a fitting call on a sound collection leaves it sound and changes the documents by exactly what it logs; every public method ensures it. |
| Collection.Collection.ReplayEntries | src/collections/builder.rs:130-174 | The replay loop applies the entries' operations in order and skips checkpoint records. |
| Collection.Collection.SaveCheckpoint | src/collections/checkpoint.rs:94-116 | The checkpoint is the five writes in this order: pointers, vector index, checkpoint record, sequence number, rotation. |
| Collection.Collection.TrackOperation | src/collections/collection.rs:36-56 | Counts operations, checkpoints exactly when the frequency is reached or the interval is due, and then resets the counter. |
| Collection.Collection.LogOp | src/storage/wal/log.rs:87-103 | Logging is one record with the next number and changes neither store nor pointers. |
| Collection.Collection.InsertInternal | src/collections/operations/write.rs:11-33 | The method performs the modelled apply step: record, pointer, vector index. |
| Collection.Collection.DeleteInternal | src/collections/operations/write.rs:35-44 | Drops pointer and vector id, and writes nothing to the data file. |
| Collection.Collection.Get | src/collections/operations/read.rs:7-12 | None for an unknown id, the document the pointer reads back, or an error when it does not read back; on a sound collection, the stored document if there is one. |
| Collection.Collection.GetAll | src/collections/collection.rs:122-130 | All documents in index order, or an error exactly when some record cannot be read. |
| Collection.Collection.Insert | src/collections/operations/write.rs:46-60 | Log, apply, track: the final state and the disk after every single write are those of the modelled program; a checkpoint is due exactly when the counter reaches the frequency or the interval has passed.  A sound collection stays sound, and its documents are the old ones with the new one under its id. |
| Collection.Collection.Upsert | src/collections/operations/write.rs:112-137 | As insert for a new id; an update record, delete and insert for a known one.  Either way the documents are the old ones with the new one under its id. |
| Collection.Collection.Delete | src/collections/operations/write.rs:139-150 | Reports whether the id was known, and only then logs and applies; the documents are the old ones without the id. |
| Collection.Collection.InsertBatch | src/collections/operations/write.rs:62-110 | Logs every record, grows once, writes every document, checkpoints if the counter or the interval calls for it, and only then feeds the vector index; the batch is stored in order. |
| Collection.Collection.DeleteBatch | src/collections/operations/write.rs:152-174 | Logs all known ids first, then deletes, counting the deletions; tracks one operation if there was any; the documents are the old ones without the listed ids. |
| Collection.Collection.UpdateMetadata | src/collections/operations/metadata.rs:11-36 | False for an unknown id, an error that changes nothing when the record cannot be read; on a sound collection there is no error, and it logs, appends, repoints, tracks, and changes the metadata of that document only. |
| Collection.Collection.UpdateVector | src/collections/operations/metadata.rs:38-73 | The same for a vector, with the vector index updated too: only the vector of that document changes. |
| Collection.Collection.Compact | src/collections/compact.rs:13-66 | An error that changes nothing if and only if some record cannot be read; otherwise copies the live documents in some order, swaps the store in, saves and rotates, and returns both counts.  The documents of a sound collection stay as they are. |
| Collection.Collection.Checkpoint | src/collections/checkpoint.rs:94-116 | A requested checkpoint is the same five writes and leaves the documents as they are. |
| Collection.Collection.RebuildIndex | src/collections/collection.rs:142-163 | Relists the ids from the pointers and saves the list; the documents stay as they are. |
| Collection.EveryPointRecovers | src/collections/builder.rs:55-107 | A crash after any single write of a method's trace loses nothing: the trace the methods record is covered by the crash theorem. |
| Collection.WritesRun | src/collections/operations/write.rs:89-94 | The `append_batch` plus pointer loop leaves what one append and one pointer per document leave. |
| RecordStore.AppendReadsBack | src/storage/record_store.rs:47-54 | An appended record reads back exactly if and only if its length fits the 32-bit pointer length. |
| DurableExamples.HugeRecordReadsEmpty | src/storage/record_store.rs:47-54 | A record of 2^32 zero bytes reads back empty. |
| RecordStore.AppendKeeps | src/storage/record_store.rs:137-148 | Every record that ends at or below the cursor reads the same after an append, growth included. |
| RecordStore.ExtensionKeeps | src/storage/persistence/mmap.rs:8-15 | Growing the file changes no read. |
| RecordStore.BatchEqualsRepeated | src/storage/record_store.rs:60-73 | `append_batch` gives the pointers, the contents and the cursor of repeated `append`, whatever the two capacities. |
| RecordStore.ReserveSuffices | src/storage/record_store.rs:60-73 | After the one reservation a batch never grows the file again. |
| RecordStore.CapacityOverRuns | src/storage/persistence/mmap.rs:41-63 | Over any run of appends, batch appends and reopenings, the file never exceeds the larger of the initial size and twice the largest cursor reached. |
| RecordStore.CapacityIs | src/storage/persistence/mmap.rs:41-63 | After any run the file is of its initial size, or twice what the last growth had to make room for. |
| RecordStore.CapacityBoundIff | src/storage/persistence/mmap.rs:41-63 | After any run, batches cut short included, the bound by the cursors holds if and only if the cursors reached what the last growth was for. |
| RecordStore.CapacityWithinAsked | src/storage/record_store.rs:60-73 | With batches cut short by a crash between their growth and their writes, the bound is twice the largest size asked for. |
| RecordStore.CutShortKeepsIff | src/storage/record_store.rs:60-73 | From a run within the bound, a batch cut short by a crash stays within it if and only if the file did not have to grow or a cursor reached what the batch asked for; a file that grew is twice that. |
| DurableExamples.CutBatchOvershoots | src/storage/record_store.rs:60-73 | Three bytes asked for in a new file of two, and a crash before they are written: six bytes, and no cursor above zero. |
| RecordStore.Grow | src/storage/persistence/mmap.rs:41-63 | Growth keeps the contents and makes the file twice what is required; without need nothing changes. |
| RecordStore.MaxEnd | src/storage/record_store.rs:150-156 | The append offset is an upper bound of all pointer ends and is attained, or zero. |
| RecordFile.RecordFile.constructor | src/storage/record_store.rs:19-45 | Opening enlarges the file to its initial size and puts the cursor after the last pointer. |
| RecordFile.RecordFile.Append | src/storage/record_store.rs:47-54 | In place, the state and pointer are those of the specified append. |
| RecordFile.RecordFile.AppendBatch | src/storage/record_store.rs:60-73 | In place, the batch is a reservation followed by the specified appends, and the file after each record is the one the crash machine sees. |
| RecordFile.RecordFile.GrowIfNeeded | src/storage/persistence/mmap.rs:41-63 | In-place growth equals the specified growth. |
| RecordFile.RecordFile.NextAppendOffset | src/storage/record_store.rs:150-156 | The fold over the pointers computes the maximum end. |
| RecordFile.RecordFile.ReadBytes | src/storage/record_store.rs:121-135 | Reads the pointed-to range, or nothing when it lies outside the file. |
| WalFile.WalFile.LogOp | src/storage/wal/log.rs:87-103 | The record gets the next number, which then goes up by one. |
| WalFile.WalFile.LogMark | src/storage/wal/log.rs:105-110 | The checkpoint record takes a number too. |
| WalFile.WalFile.Replay | src/storage/wal/log.rs:46-84 | The loop returns exactly the records strictly above the given number, in file order. |
| WalFile.WalFile.Rotate | src/storage/wal/log.rs:112-128 | Rotation empties the file and keeps the next number. |
| Rejected.OpensIff | src/collections/builder.rs:130-174 | Without limits a log can be replayed if and only if all vectors it brings have the known dimension, or that of its first vector. |
| Rejected.ReplaysIff | src/collections/builder.rs:130-174 | With or without a vector limit, any log can be replayed if and only if all vectors it brings have the expected dimension and each insert, and each update after its removal, finds the collection below the limit at its turn. |
| Rejected.ReplayWal | src/collections/builder.rs:130-174 | The loop stops at the first refusal and otherwise returns the state after all entries. |
| Rejected.ReplayApplies | src/collections/builder.rs:130-174 | A replay that succeeds gives the documents of the operations and keeps vector ids equal to them, limits or not. |
| Rejected.RefusedInsertIff | src/collections/operations/write.rs:11-33 | After any insert, refused or not, vector index and documents agree if and only if the id was known, the collection full, no dimension set, or the dimension right. |
| Rejected.OneRefusalBlocksOpening | src/collections/operations/write.rs:46-60 | Without limits, one refused write anywhere in the unsaved log makes opening fail. |
| DurableExamples.WrongDimensionBlocksOpening | src/collections/operations/write.rs:46-60 | A vector of the wrong dimension is refused, is stored all the same without a vector id, and makes the replay of its record fail. |
| Rejected.AcceptedReplayAgainIff | src/collections/operations/limits.rs:4-13 | Inserts that were all accepted, replayed over pointers saved after them, are accepted again if and only if they left room for one more. |
| Rejected.RoomForKnown | src/collections/operations/limits.rs:4-13 | Inserts whose ids are all stored already find room if and only if the collection is below the limit, although they would not enlarge it. |
| DurableExamples.FullCollectionBlocksOpening | src/collections/operations/limits.rs:4-13 | With room for one vector, an accepted insert is refused when it is replayed over its own saved pointer. |
| Ranking.SortSorts | src/search/utils.rs:6-13 | Sorting orders by key and permutes. |
| Ranking.BestIsBest | src/search/utils.rs:6-13 | The kept prefix has min(k, n) elements in order, and nothing left out is better than anything kept. |
| Ranking.BestIsTop | src/index/flat/index.rs:37-60 | Sorting by the negated score and cutting gives min(k, n) elements by falling score, and nothing left out scores higher than anything kept. |
| Ranking.FilterSort | src/search/engine.rs:88-95 | Filtering and stable sorting commute. |
| Ranking.MoreIsNoWorse | src/index/ivf/index.rs:218-239 | With more candidates the i-th best is never worse. |
| Filters.MatchesConjunction | src/search/query/filter.rs:65-67 | A longer filter is the conjunction of its parts. |
| Filters.EqualityConditions | src/search/query/filter.rs:93-113 | `Eq` and `In` accept a field that is present and equal to the value or to one of the values; `Ne` accepts everything else, a missing field included. |
| Filters.OrderConditions | src/search/query/filter.rs:93-113 | `Gt`, `Gte`, `Lt` and `Lte` accept a present field exactly when it and the value are numbers, integer or float, that compare so. |
| Search.FlatIndex.Insert | src/index/flat/index.rs:29-35 | Adds the id once, at the end. |
| Search.FlatIndex.Remove | src/index/flat/index.rs:62-64 | Removes exactly that id and keeps the order. |
| Search.FlatIndex.Search | src/index/flat/index.rs:37-60 | The best k of all listed ids by falling score, none left out scoring higher, or an error naming an id without a vector, exactly when there is one. |
| Search.OverfetchExactIff | src/search/engine.rs:46-97 | Filtering the top n and keeping k gives the true top k of all matching ids if and only if the candidates hold k matching ids or all of them. |
| Search.FilteredSearchExactIff | src/search/engine.rs:75-97 | The same for the hits the engine returns, when index and query score agree. |
| Search.ExactIff | src/search/engine.rs:46-97 | With or without a filter, what the engine makes of the n best candidates is the best k of all matching documents if and only if the candidates hold k of them or all. |
| Search.AllAreEnough | src/search/engine.rs:46-64 | Asking for at least as many candidates as there are documents is always enough. |
| Search.CoveringOverfetchSuffices | src/search/engine.rs:46-64 | When k times the expansion covers the collection, the filtered result is exact. |
| Search.AskedIs | src/search/engine.rs:46-64 | With a filter the index is asked for k times the override, or else the overfetch factor, at least once and at most 2^64 - 1; without a filter for k. |
| Search.ExactIsTop | src/search/engine.rs:75-97 | The exact result holds at most k stored documents that pass, each once, by falling score; one that passes and is missing scores no higher than any of k hits. |
| Search.FilteredResult | src/search/engine.rs:88-95 | Filtering, sorting and cutting a candidate list keeps hits of candidates that pass, and a candidate that passes is a hit or is beaten by k hits. |
| Search.FlatIsExact | src/search/engine.rs:32-97 | Over Flat the engine is exact if it asks for as many candidates as there are documents or has no filter, and gives the exact list if and only if the candidates were enough. |
| Search.ScoreFilterTruncate | src/search/engine.rs:75-97 | Without a filter a hit for every candidate in order; with one the best k that pass, each with the score, text, vector and metadata of its document; an error exactly when a candidate has no document. |
| Search.SearchFlat | src/search/engine.rs:32-97 | The whole engine over Flat, with and without filter, and its success when every listed id has a vector and a document. |
| Search.SortAndTruncate | src/search/utils.rs:6-13 | In place: the best k by descending score. |
| KMeans.NearestIsBest | src/index/ivf/index.rs:118-132 | The chosen centroid scores highest, and among ties it is the last. |
| KMeans.MeanMinimizes | src/index/ivf/index.rs:134-154 | No centre has a smaller sum of squared distances to a group than its mean. |
| KMeans.MovingToMeansHelps | src/index/ivf/index.rs:78-99 | Moving centroids to the means of their members, empty clusters staying put, never raises the cost of the assignment. |
| KMeans.NearestIsCheapest | src/index/ivf/index.rs:69-76 | Under a score that falls with distance, assigning to the nearest centroid is the cheapest assignment of all. |
| KMeans.RoundNeverWorse | src/index/ivf/index.rs:69-99 | One assign-then-mean round does not raise the within-cluster sum of squared distances. |
| KMeans.IterateIsRounds | src/index/ivf/index.rs:68-104 | The loop with its convergence test is some number of rounds, at most the maximum. |
| KMeans.RoundIs | src/index/ivf/index.rs:68-104 | In one round the centroid of each cluster with members moves to where their sum of squared distances is least of all vectors, that of an empty cluster stays, and the convergence test says whether all with members settled. |
| KMeans.IterateIsRun | src/index/ivf/index.rs:68-104 | The loop is a chain of such rounds that stops at the first one in which every non-empty cluster settled, or after the maximum, and not before. |
| KMeans.ClosestIff | src/index/ivf/index.rs:118-132 | The chosen centroid is the one no other scores above and no later one equals. |
| KMeans.IterateNeverWorse | src/index/ivf/index.rs:40-116 | The whole clustering, final assignment included, costs no more than the initial one. |
| Ivf.IvfIndex.BuildClusters | src/index/ivf/index.rs:40-116 | Clusters all vectors of the reader: the centroids at the end of such a chain of rounds from the first vectors, every id filed once under its nearest one, pending empty, cost no higher than at the start. |
| Ivf.IvfIndex.LloydRound | src/index/ivf/index.rs:69-103 | After one pass the centroid of each cluster with members has the least sum of squared distances to them of all vectors, that of an empty cluster is unchanged, and the flag says whether all with members settled. |
| Ivf.IvfIndex.Insert | src/index/ivf/index.rs:158-182 | A known id changes nothing, and what it leaves is right for the new vector if and only if the id is pending or its recorded centroid is still the nearest; a new id is filed under its nearest centroid, waits, or triggers the clustering of everything the reader holds. |
| SearchExamples.ReinsertedIdStaysBehind | src/index/ivf/index.rs:158-161 | An id whose new vector lies at the other centroid stays in its old list. |
| Ivf.IvfIndex.Remove | src/index/ivf/index.rs:242-249 | Removes the id from pending, from its list and from the map, and nothing else. |
| Ivf.IvfIndex.Reinsert | src/collections/operations/metadata.rs:65-66 | Remove-then-insert keeps the partition for the new vector. |
| Ivf.SizesSum | src/index/ivf/index.rs:251-253 | The list sizes add up to the number of ids. |
| Ivf.IvfIndex.Search | src/index/ivf/index.rs:184-240 | Probes min(nprobe, n) distinct clusters, none of the others having a centroid that scores higher; returns the best k over exactly the ids filed there, an error naming a missing vector, or the error for an unclustered index. |
| Ivf.ProbedIsBest | src/index/ivf/index.rs:211-222 | The probed clusters are distinct, as many as asked for if there are so many, and no other centroid scores higher than theirs. |
| SearchExamples.ClustersMove | src/index/ivf/index.rs:40-116 | 0, 1 and 10 in two clusters: the centroids end at 0.5 and 10, and probing one list for 0.4 finds 0 and 1. |
| Ivf.FullProbeEqualsFlat | src/index/ivf/index.rs:184-240 | Probing at least as many lists as there are centroids gives, rank by rank, the scores of the exact index. |
| Ivf.MoreProbesNoWorse | src/index/ivf/index.rs:215-222 | Raising nprobe never lowers the i-th best score. |
| LayerSearch.SearchLayer | src/index/hnsw/index.rs:257-364 | Ends on every graph.  `found` is the order in which a best-first walk meets the live ids, all of them reachable; the result is the first of these, as many as the beam holds, sorted by distance; everything met comes back if and only if it fits; when it fits, the first hit has no closer live neighbour.  If fewer than the width were met, the last id of every path of admitted ids from an entry, tombstones included, is found when it is live and all before it are as close as the best hit. |
| LayerSearch.PathsAreMet | src/index/hnsw/index.rs:298-350 | When the search stops with room in the beam, no live id at the end of such a path is missing: tombstones are crossed. |
| SearchExamples.RemovedNodeIsCrossed | src/index/hnsw/index.rs:320-329 | The closest live node lies behind a removed one, and the search returns it first. |
| LayerSearch.ComesBackIff | src/index/hnsw/index.rs:320-346 | Keeping the first ids of the discovery order keeps all of them exactly when there are no more than the beam holds. |
| SearchExamples.CloserNeighbourIsLost | src/index/hnsw/index.rs:320-346 | Three nodes and width 2: the live neighbour of the entry point that is closer than both results is not returned, whatever order the queue takes. |
| LayerSearch.BeamFreezes | src/index/hnsw/index.rs:320-346 | Because the heap gives up its closest element, a full beam never changes again: a new id leaves the beam as it was. |
| LayerSearch.Expand | src/index/hnsw/index.rs:304-350 | Expanding a candidate in place is one step of the walk: every edge is looked at in order, tombstones and filtered ids included. |
| LayerSearch.StoppedAtOptimum | src/index/hnsw/index.rs:298-302 | When the search stops with a beam that lost nothing, the closest hit is a local optimum. |
| Hnsw.SelectedClosest | src/index/hnsw/index.rs:367-395 | A list that has to be cut keeps m live candidates with vectors, none farther than one left out. |
| Hnsw.SelectedUsable | src/index/hnsw/index.rs:367-395 | A cut list names only live ids with vectors; from live candidates with vectors the selection is empty only without candidates or for a limit of zero. |
| Hnsw.SelectNeighbors | src/index/hnsw/index.rs:367-395 | All candidates when they fit; otherwise the closest live ones with vectors, as many as the limit allows, and none left out is closer. |
| Hnsw.SelectedIsKept | src/index/hnsw/index.rs:367-395 | The same said of the specified selection: what is kept and what is left out, by distances alone. |
| Hnsw.LinkBackKeeps | src/index/hnsw/index.rs:162-190 | Linking one neighbour back leaves it exactly its old list and the new id when that fits m_max, or m above layer 0, and otherwise the closest usable ones of these; every other list, the other layers and the degree bounds stay. |
| Hnsw.HnswIndex.LinkLayer | src/index/hnsw/index.rs:131-192 | One layer of an insert: exactly the chosen neighbours get the new id, and lists that overflow are cut to the closest; the other layers stay. |
| Hnsw.HnswIndex.Insert | src/index/hnsw/index.rs:93-206 | Keeps degree bounds, edge targets, entry point and top level right; adds the id to the live ids; creates no self-edge on first insert.  Each list of the new node is all the hits of that layer if they fit, and otherwise the closest usable ones, searched in the graph as it was and entered at the hits of the layer above; it is empty only if the entry point has no vector or the limit is zero.  The list of every neighbour is its old one with the new id if that fits, and otherwise the closest usable of these, none left out being closer; every other list stays. |
| SearchExamples.NewNodeIsFound | src/index/hnsw/index.rs:93-206 | Three inserts, each linked both ways: a search at the third finds it. |
| LayerSearch.DiscoveredSame | src/index/hnsw/index.rs:131-192 | A search sees only the edges of its layer and the tombstones: half-linked other layers do not change what an insert discovers. |
| Hnsw.HnswIndex.Remove | src/index/hnsw/index.rs:420-441 | Tombstones exactly that id, keeps all edges, and moves the entry point to a live node if there is one. |
| Hnsw.HnswIndex.FindEntry | src/index/hnsw/index.rs:427-440 | The new entry point is live, exists whenever a live node does, and the top level bounds every live node. |
| Hnsw.HnswIndex.DescendToBottom | src/index/hnsw/index.rs:239-242 | The width-1 searches of the upper layers return the entry point itself, or nothing once it fails the filter. |
| Hnsw.HnswIndex.Search | src/index/hnsw/index.rs:211-254 | With k positive and an entry point that has a vector, the result is empty if and only if the entry point fails the filter; otherwise the hits are the k closest of the first ids met, as many as the beam holds (all met when the width covers the live nodes): distinct, live, passing, reachable, sorted, and then the first a local optimum.  With a width above the number of live nodes, a live node at the end of a path of passing ids, removed ones included, all as close as the best hit, is a hit or is beaten by k of them.  An error without the entry point's vector. |
| SearchExamples.FilteredEntryHidesAll | src/index/hnsw/index.rs:211-254 | A live, matching node is not found because the search enters at one that fails the filter. |
| VectorIndexes.InsertOne | src/index/traits.rs:47-54 | Inserting through any of the three kinds adds exactly the new id to the live ids, and revives at most its own tombstone. |
| VectorIndexes.RemoveVector | src/index/traits.rs:75-76 | Removing through any kind takes exactly that id off the live ids. |
| VectorIndexes.SearchIndex | src/index/traits.rs:65-73 | With a vector for every live id, hits are live ids, and the only error is an IVF index that was never clustered; otherwise what each kind promises of its search, for the k, effort, filter and metadata that were passed. |
| VectorIndexes.FillIndex | src/collections/collection.rs:151-157 | Filling an empty index while all vectors are readable ends with exactly their ids and no tombstone, also when IVF clusters on the first insert. |
| VectorIndexes.FillGrowing | src/collections/compact.rs:31-41 | The same when the reader grows with the copy. |
| Session.StoringKeeps | src/collections/operations/write.rs:11-33 | Storing a document, caching its vector and metadata and listing its id keeps live ids, cached vectors, cached metadata and documents in agreement, whether the id is new or not. |
| Session.DeletingKeeps | src/collections/operations/write.rs:35-44 | Dropping an id from index, caches and documents keeps the agreement, although HNSW leaves the vector cached. |
| Session.RefilledAgrees | src/collections/cache_maintenance.rs:7-17 | Refilling the caches from the documents in index order restores the agreement from nothing. |
| Session.Session.InsertInternal | src/collections/operations/write.rs:11-33 | Stores the document, caches its vector and, with caching on, its metadata, and keeps the agreement, for a known id too. |
| Session.Session.DeleteInternal | src/collections/operations/write.rs:35-44 | Removes the document and its cached metadata and keeps the agreement; its cached vector goes too, except with HNSW. |
| Session.Session.InsertBatch | src/collections/operations/write.rs:89-107 | The batch is stored in order, so the last document of a repeated id wins, and the agreement holds again at the end. |
| Session.Session.Upsert | src/collections/operations/write.rs:112-137 | Replaces or adds the document and keeps the agreement. |
| Session.Session.Delete | src/collections/operations/write.rs:139-150 | Removes at most that document, says whether it was there, keeps the agreement. |
| Session.Session.DeleteBatch | src/collections/operations/write.rs:152-174 | Removes exactly the named documents, counts them, keeps the agreement. |
| Session.LessRestIs | src/collections/operations/write.rs:163-168 | Removing the ids one by one is removing them as a set. |
| Session.Session.UpdateMetadata | src/collections/operations/metadata.rs:11-36 | Changes only the metadata of that document, cache included. |
| Session.Session.UpdateVector | src/collections/operations/metadata.rs:38-73 | Changes only the vector of that document; cache first, then index remove and insert, and all agree again. |
| Session.Session.RebuildIndex | src/collections/collection.rs:142-163 | The rebuilt index and caches agree with the unchanged documents, and an HNSW graph holds their ids and no tombstone. |
| Session.Session.RebuildForCompaction | src/collections/compact.rs:31-53 | So do those that compaction builds; an HNSW graph then has exactly the stored ids as nodes, and none is a tombstone. |
| Session.Session.ClearMetadataCache | src/collections/collection.rs:89-91 | Evicting cached metadata disturbs nothing. |
| Session.Session.Search | src/search/engine.rs:32-97 | In an agreeing session a search never meets a missing document or vector.  The index is asked for k times the expansion (k without a filter) and returns what its kind promises for that many; every hit is one of these, is the stored document with its score and passes the filter, and a candidate that passes is a hit or is beaten by k.  Over Flat with the same metric the hits are the exact best k when all documents were asked for or there is no filter, and the exact list if and only if the candidates were enough. |
| Cache.CacheManager.PutMetadata | src/cache/mod.rs:38-46 | With caching on, the queue after a put is the specified one; off, nothing changes.  Within a positive limit the value is cached and its id is the last to be evicted. |
| Cache.CacheManager.EnforceItemLimit | src/cache/mod.rs:101-116 | The loop trims from the front to the limit, or clears everything for limit zero. |
| Cache.CacheManager.Remove | src/cache/mod.rs:48-54 | Drops the id from map and queue, and its vector only when told to. |
| Cache.CacheManager.Rebuild | src/collections/cache_maintenance.rs:7-17 | Refills both caches from the documents in index order, unless a listed record cannot be read: then that id is reported and nothing changes.  The recency list is the last of the listed ids, as many as the limit allows. |
| Cache.CacheManager.EnsureConsistent | src/collections/cache_maintenance.rs:19-32 | Fails, naming an unreadable record and changing nothing, if and only if the vector keys are wrong and some record is unreadable; otherwise the vector keys are the stored ids; a cache that had them is left alone; coherence is kept. |
| Cache.CacheManager.IsComplete | src/collections/cache_maintenance.rs:19-32 | Comparing the counts and then looking up each stored id decides exactly whether the keys are the stored ids. |
| Cache.PutIs | src/cache/mod.rs:38-46 | A put keeps the queue a duplicate-free list of the map's keys within the limit, moves the id to the back, and keeps the last entries only. |
| Cache.TrimmedIs | src/cache/mod.rs:101-116 | Trimming leaves exactly the last maxSize entries and their values. |
| Cache.EvictsLeastRecent | src/cache/mod.rs:38-67 | After any run of puts, removals and clears the queue is a tail of the ids by last write: whatever was evicted is older than everything kept. |
| Cache.QueueIsMostRecent | src/cache/mod.rs:38-46 | After puts alone it is exactly the maxSize most recently written ids. |
| Cache.CachedIsLastWritten | src/cache/mod.rs:38-67 | Whatever is cached is the value written last. |
| Cache.RefilledIs | src/collections/cache_maintenance.rs:7-17 | A refill caches every listed vector, and only the documents' own values. |
| Cache.RefilledOrder | src/collections/cache_maintenance.rs:7-17 | After a refill the recency list is the end of the index order, up to the limit. |
| Budget.EnforceCacheBudget | src/runtime/state.rs:211-254 | Nothing happens when disabled, unlimited or within budget; otherwise only metadata caches are emptied, until the total fits or none holds anything, and no choice of fewer collections would meet the budget. |
| Budget.GreedyIsMinimal | src/runtime/state.rs:238-253 | Clearing from the front of a descending list clears no more than any choice that meets the budget. |
| Budget.FrontFreesMost | src/runtime/state.rs:238-253 | No choice of n collections frees more than the n biggest. |
| Budget.TotalCountsAll | src/runtime/state.rs:225-227 | The total is the sum over all collections of what their vectors and their metadata occupy. |
| Budget.FrontIsBiggest | src/runtime/state.rs:238-253 | No collection that is cleared holds less metadata than one that is spared. |
| Budget.SweepMeetsBudget | src/runtime/state.rs:240-253 | The sweep stops within the budget or with nothing left to free. |
| Budget.Sweep | src/runtime/state.rs:239-253 | The loop clears exactly the specified front, and only metadata. |
| ScalarQuantization.DecodeError | src/quantization/mod.rs:32-83 | Each decoded int8 component is within range/508 of the original, or within the epsilon for a near-constant vector. |
| ScalarQuantization.ReencodeIff | src/quantization/mod.rs:32-83 | Encode after decode gives the same encoding if and only if the vector is empty, constant, or its range reaches the epsilon. |
| SearchExamples.NarrowVectorReencodesDifferently | src/quantization/mod.rs:32-83 | Two components half an epsilon apart encode differently the second time. |
| ScalarQuantization.CodeOfValue | src/quantization/mod.rs:49-82 | A decoded code lies in range and encodes to itself. |
| ProductQuantization.FromF32 | src/quantization/mod.rs:101-150 | The block loop yields the specified encoding: as many blocks as cover the vector, each with its extremes and codes. |
| ProductQuantization.TryToF32 | src/quantization/mod.rs:152-202 | For any encoding whatever, which values decoding gives, or which error: no codes, short metadata, or the first missing code. |
| ProductQuantization.DecodesIff | src/quantization/mod.rs:101-202 | An encoding of a non-empty vector decodes if and only if (s - 1) * ceil(d / s) < d for the clamped s. |
| ProductQuantization.RoundTrip | src/quantization/mod.rs:101-202 | The round trip of any vector succeeds exactly then, with the original length and every component within max(spread of its block, epsilon)/510, and otherwise fails for short block metadata. |
| SearchExamples.FiveInFourBlocks | src/quantization/mod.rs:101-202 | Every vector of five components, asked for in four blocks, fails to decode. |
| ProductQuantization.PqError | src/quantization/mod.rs:101-202 | Each decoded component is within max(block range, epsilon)/510 of the original. |
| ProductQuantization.BlocksCover | src/quantization/mod.rs:112-124 | The number of non-empty blocks never exceeds the number asked for, and equals it exactly under that condition. |
| Dot.DotScalar | src/compute/dot/scalar.rs:3-12 | The loop computes the sum of products over the whole range. |
| Dot.DotSimd | src/compute/dot/simd.rs:6-47 | The 8-lane accumulator and the remainder loop compute the same sum for every length. |
| Dot.DotParallel | src/compute/dot/parallel.rs:6-21 | The chunked sums compute the same sum. |
| Dot.DotJit | src/compute/dot/jit.rs:3-41 | The unrolled 1536 loop and the generic loop compute the same sum. |
| Dot.DotSplit | src/compute/dot/parallel.rs:6-21 | A range sum splits at any point. |
| Dot.DotPicks | src/compute/dot/scalar.rs:3-12 | The product with a unit vector is that component. |
| Dot.DotLinear | src/compute/dot/scalar.rs:3-12 | The product is linear in its second argument. |

## Left out

- Collection.Collection.Compact: a crash inside compaction.  The code renames the data file before it saves the pointers, so the old pointers would read the new file; compaction is one step here.
- VectorIds.VectorIndexSurvivesCrashes: covers the Flat list only.  Replay runs with an empty vector cache, so the code establishes no such agreement for IVF and HNSW after recovery; theirs is proved within a session.
- CrashTheorem.CrashAnywhereLosesNothing: limits off and one fixed dimension, because a refused write breaks it; `Rejected` says when.  The log is enabled, the page cache survives (a process crash, no fsync), and writes other than those of the data file are atomic: a torn last log record would fail the open.
- Session.Session.Search: takes the effort of an IVF or HNSW search as one number, where the code reads it from one of two settings.
- Ivf.IvfIndex.BuildClusters: asks for at least one cluster and vectors of one dimension, as its callers do (`write.rs` refuses other dimensions); the code itself would index an empty list of clusters, or past the end of a shorter centroid.
- Ivf.IvfIndex.Insert: asks for the same.
- Budget.EnforceCacheBudget: the weights of cached vectors and metadata are parameters, and its sums do not saturate at 64 bits.
- RecordStore.AppendReadsBack: offsets are unbounded; 64-bit overflow of offsets and sequence numbers is not modelled.
- KMeans.IterateNeverWorse: exact reals; rounding can make a round worse.  The same holds for quantization and kernels, and NaN has no counterpart.
- Dot.DotParallel: the chunks are summed in order; rayon's scheduling is left out.
- Hnsw.HnswIndex.Insert: the level a new node draws is a parameter; equal distances leave a heap in any order.
- Metadata of the collection file (vector count, timestamps, dimension) is not saved in a checkpoint of the model; only `Rejected` follows the dimension.
- The data file and its memory map are one sequence of bytes; the files of pointers, vector ids and sequence number are their values, without a byte format.
- Rejected.ReplaysIff: the limit on the number of vectors only, not those on bytes.
- Locks and concurrency: operations run one after another.
- Hash-map iteration order: a parameter or an arbitrary choice wherever the code depends on it.
- Checkpoint interval: whether it is due is a parameter, since it reads the clock.
- Recall of HNSW, symmetric edges between its nodes, and edges that stay within a layer: the code does not establish them.
- Binary dot product, cosine and Euclidean kernels, int4 and half-precision storage, index selection, statistics.
- HTTP server, command line, embedding providers, configuration parsing.
