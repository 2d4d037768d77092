# openpuffer in Dafny

A Dafny 4.11 model of openpuffer, a search engine that keeps a write-ahead log and its indexes in an
object store, with proofs about the log, index and compaction protocol, the inverted indexes, the
vector index, group commit and export. `dafny verify dfyconfig.toml` checks the whole project.
Everything here is proved of the model; nothing was executed.

## How the files fit together

- `Order` — strings and scored ids in order, stable sorting, and the top k of a set.
- `Documents`, `Replay` — one log entry applied to a document map, and whole runs of entries. An entry
  does one of two things to an id: fix its document, or merge attributes into it. Replaying entries a
  second time is absorbed.
- `Meta`, `WalReads` — the sequence numbers in `meta.json`, and the loaders. A loader is given what its
  GETs returned; they may have happened at different moments.
- `IndexDelta` — from log entries to index deltas. An index segment, whatever its layout, is determined
  by which document each id is indexed as.
- `Protocol`, `ProtocolProofs`, `Recovery` — one process's appends, indexer passes and compactions as a
  state machine, one request to the store per action, stopping between any two. The commit lock
  serialises appends, index commits and compactions; an indexer's read phase and all readers are
  unlocked. The invariant holds at every state of every run.
- `Stamps`, `View` — the in-memory view: applying committed batches, catching up, loading, eventual
  reads, and whole histories of a view while the log grows. Documents and their stamps (the last batch
  that touched each) heal alike: a run of batches absorbs any part of itself that was done before.
- `Filter`, `FilterIndex`, `StrongFilter` — filters, the filter segment, and the strong filter query.
- `Fts`, `Bm25` — the full-text segment and the candidates of a BM25 query.
- `Centroids`, `Tiling`, `Renumbering`, `Reassignment`, `VectorIndexes` — the vector index and its
  incremental maintenance. What a coarse cell holds is a multiset of members; fine ids tile the cells,
  and one more slot behind them takes the documents that miss the cells.
- `Sizing`, `VectorBuild` — how many centroids a build makes, and the build.
- `VectorDelta` — the delta of an indexed range, as the vector index gets it.
- `Probe`, `QueryAnn`, `ProbedLoad`, `ProbeWidths` — which clusters a query probes, the ranking of their
  members, loading only what a query needs, and the cap on the work.
- `GroupCommit`, `CallFates`, `Pacing` — the write buffer as a state machine over writes, flushes and the
  clock, what becomes of one call in a run, and how far apart commits are.
- `Export` — paged export.

Parameters stand for what lies outside the model: the tokenizer and the rendering of values as text,
the natural logarithm (only its sign above 1), the vector score, k-means (only how many centroids it
returns, and nothing at all where maintenance is concerned), the extraction of vectors from documents,
the clock, and the order in which hash maps are iterated. Attribute numbers are real numbers plus the
negative zero of `f64`.

## Where the code does not do what one might expect

Each of these is a lemma with a concrete input or run, next to the exact condition under which the
expected property does hold.

- The filter index and the scan disagree on some comparisons: null and zero in an equality (`0` and
  `-0` have different index keys but compare equal), booleans against numbers in an ordering, and most
  comparisons of `id` or of a field that is not indexed. `FilterIndex.CmpAgreesExactly` says on exactly
  which documents, `StrongFilter.StrongCmpAtReachable` exactly when a strong query is answered right, and
  `FilterIndex.CmpExactness` and `StrongFilter.StrongCmpExactness` for which comparisons it always is.
- A strong query after a cold load that found a newer snapshot can miss a document updated in between
  (`StrongFilter.LateUpdateMissed`); `StrongFilter.StrongFilterAfterColdLoad` and
  `Bm25.StrongCandidatesAfterColdLoad` say exactly when it is right.
- Without any patch, a document upserted in one batch of an indexed range and deleted in the next stays in
  the vector index (`VectorDelta.DeadVectorStays`); `VectorDelta.DeadVectorsExactly` says exactly which do.
- Entries can become durable with no pause between them (`Pacing.UnpacedRun`): an append that commits and
  reports an error is not waited for. `Pacing.PacedExactly` says exactly when two commits are paced.
- A crash between the snapshot PUT and the `meta.json` update of a second compaction leaves a namespace
  that `load_docs_at_wal_commit` cannot load (`Recovery.CrashedCompactionBlocksLoad`); the batched cold
  load still can. `Recovery.LoadAtReachable` says exactly when the plain load works.
- An index delta collected over a range with patches can keep an id that is no longer live
  (`IndexDelta.DeadIdLingers`); `IndexDelta.CollectedDeltaKeys` says exactly which ids stay.
- `apply_committed` with a gap loses the skipped batch (`View.SkippedBatch`): no catch-up brings it back
  until the view's number falls back, by a late batch, an empty flush's number 0 or a reload.
  `View.GapFreeExactly` says which batches keep a view healable, and `View.CatchUpExactly` after which
  histories a completed catch-up is sure to be right.
- An eventual read can show content the index does not hold: through a view that is behind the cursor, or
  beyond it under metadata that says all is indexed (`View.WrongRead`). `View.EventualReadsExactly` says
  exactly for which views and metadata it is right.
- A fresh view that applies an older batch late, or a newer one early, can show content the index does
  not hold (`View.OutOfOrderApply`). `View.OwnOrNextExactly`: only its own batch and the next are safe.
- A document whose nearest coarse cell has no fine centroid is put into a later cell or, when no later
  cell has one either, at an id no cell owns and no query probes (`VectorIndexes.SpilledDocument`,
  `QueryAnn.SpillUnseen`). `VectorIndexes.LandsExactly` says exactly when.
- A vector build from rows that name an id twice holds it twice (`VectorBuild.BuiltTwice`);
  `VectorBuild.BuiltHolds` says exactly when each document is held once.
- For some caps from 2^33 + 4 on the probe clamp can return a coarse width of 0
  (`ProbeWidths.ClampVanishes`); `ProbeWidths.ClampProbeWidths` says exactly when.
- A schema patch that fails to merge drops the patches buffered before it, whose writers are still
  acknowledged (`CallFates.LostSchemaPatch`); `CallFates.SchemaAcked` says exactly whose, over the actions
  of the run.
- A call that failed can have its operations in the log: after a failed merge they stay in the buffer
  (`CallFates.FailedMergeCommitted`), and an append can report an error after its commit.
  `CallFates.FailedButLoggedExactly` says exactly when.

## Model

| member | source | states |
|---|---|---|
| Documents.MergeAttributes | src/wal.rs:106-110 | the loop overrides the old attributes by the patch's, key by key |
| Documents.ApplyEntryInPlace | src/wal.rs:333-346 | deletes, then upserts, then patches of existing documents |
| Documents.ApplyEntryKeyed | src/wal.rs:333-346 | every document stays stored under its own id |
| Documents.SnapshotRoundTrip | src/wal.rs:131-144 | the rows of a document map, in any order, rebuild the map |
| Replay.LookupApply | src/wal.rs:333-346 | what an entry does to one id is one effect: fix the document or merge attributes |
| Replay.LookupReplayed | src/wal.rs:333-346 | the same for a whole run, by composing effects |
| Replay.ReplayAbsorbs | src/wal.rs:333-346 | replaying any selection of a run's entries before the run itself changes nothing |
| Replay.ReplayIdempotent | src/wal.rs:333-346 | applying a run of entries twice equals applying it once |
| Replay.ReplayFromStaleCursor | src/view.rs:75-115 | replaying from a stale cursor onto a later state still reaches the target state |
| Replay.UntouchedSame | src/index/fts.rs:285-300 | an id no entry in a range names has the same document before and after it |
| Meta.WalSeqsToDelete | src/wal_compaction.rs:39-45 | the numbers 1 to cursor minus keep, in order, none otherwise |
| Meta.TailRangeCoversUnindexed | src/s3_batch.rs:371-387 | there is a tail exactly when the cursor lags; it covers all unindexed numbers and stays above the snapshot |
| Meta.ReplayRangeAvoidsDeletes | src/s3_batch.rs:349-357 | the cold-load range starts above every segment a recorded compaction may delete |
| WalReads.ReplayWalRange | src/namespace.rs:149-168 | the replay of a range, an error on a missing segment, nothing on an empty range |
| WalReads.DocsAtIndexCursor | src/namespace.rs:114-146 | snapshot if not newer than the cursor, else from the start, then replay |
| WalReads.DocsAtCursorCorrect | src/namespace.rs:114-146 | genuine reads give the documents at the cursor, or an error exactly when a needed segment is missing |
| WalReads.LoadDocsAtWalCommit | src/namespace.rs:73-111 | snapshot only if its number is the recorded one, then replay to the commit point |
| WalReads.LoadedAtCommitCorrect | src/namespace.rs:73-111 | genuine reads give the documents at the commit point exactly when every segment after the starting point was found |
| WalReads.ColdLoad | src/view.rs:139-193 | the whole batched cold load: the keys named by `meta.json` in one batch, then the replay onto the snapshot found |
| WalReads.ColdFetch | src/s3_batch.rs:1050-1096 | one missing key fails the batch; otherwise exactly the segments after the recorded snapshot |
| WalReads.ColdReplay | src/view.rs:164-193 | the fetched segments after the snapshot's own number are replayed in order |
| WalReads.ColdLoadedCorrect | src/view.rs:139-193 | genuine reads give the documents at the commit point read, or at a newer snapshot, exactly when the named keys exist |
| IndexDelta.StreamStep | src/indexer.rs:1082-1122 | without patches, an entry's delta does to the index what the entry does to documents |
| IndexDelta.CollectIndexDelta | src/wal.rs:310-328 | replays the entries and records each named id's document, and all deletes |
| IndexDelta.CollectedLive | src/wal.rs:310-328 | a recorded document is the live one; an id not recorded is untouched or no longer live |
| IndexDelta.CollectedDeltaLiveCorrect | src/indexer.rs:1124-1146 | applying the collected delta makes the index right for every live id, from any index right at the baseline |
| IndexDelta.CollectedDeltaKeys | src/indexer.rs:1124-1146 | exactly which ids are in the index afterwards |
| IndexDelta.DeadIdLingers | src/wal.rs:310-328 | a deleted id can stay indexed |
| IndexDelta.StreamIndexDelta | src/indexer.rs:1082-1122 | streaming, or resetting and recollecting at the first patch, ends right for every live id; without patches it ends exactly at the documents; hands on the range's upserts and deletes, concatenated or collected |
| IndexDelta.ConcatenatedLiveCorrect | src/indexer.rs:1096-1121 | all deletes of a range without patches and then all its upserts are right on every live id |
| IndexDelta.ConcatenatedDeadIds | src/indexer.rs:1096-1121 | exactly which ids they leave in an index |
| IndexDelta.Recollect | src/indexer.rs:1124-1146 | the recollecting path alone, from the snapshot and log reads |
| ProtocolProofs.NoAppendConflict | src/namespace.rs:227-237 | under the lock the compare-and-swap of an append never fails, so the deleting conflict path is not taken |
| ProtocolProofs.CommitAppendKeeps | src/namespace.rs:187-246 | committing an append keeps the invariant and logs the entry written |
| ProtocolProofs.CommitIndexKeeps | src/indexer.rs:235-272 | an index commit keeps the invariant, also for a pass overtaken by another |
| ProtocolProofs.CompactionReads | src/wal_compaction.rs:77-110 | a compaction can always read the documents it snapshots |
| ProtocolProofs.PutSnapshotKeeps | src/wal_compaction.rs:77-148 | the snapshot PUT keeps the invariant before `meta.json` knows of it |
| ProtocolProofs.CommitCompactKeeps | src/wal_compaction.rs:77-148 | recording the snapshot keeps it |
| ProtocolProofs.DeleteSegmentKeeps | src/wal_compaction.rs:39-45 | each single delete, done or failed, keeps it |
| ProtocolProofs.StepKeepsInv | src/namespace.rs:187-246 | every action keeps: snapshot, cursor and commit in order, segments above the snapshot present and genuine, snapshot object and index segments right at their numbers |
| ProtocolProofs.ReachableInv | src/wal_compaction.rs:61-162 | the same at every state of every run, with crashes anywhere |
| ProtocolProofs.RunAdvances | src/indexer.rs:778-810 | along a run the log, the three numbers and the snapshot only move forward |
| Recovery.LoadAtReachable | src/namespace.rs:73-111 | at every reachable store the load returns the documents at the commit point if the snapshot is the recorded one or nothing is deleted yet, and fails otherwise |
| Recovery.ColdLoadAtReachable | src/view.rs:139-193 | at every reachable store, also mid-compaction, the cold load names no deleted segment and returns the documents at the commit point |
| Recovery.InterleavedColdLoad | src/s3_batch.rs:1050-1096 | with its requests spread over a run it fails or returns the documents at the commit point it read or at a newer snapshot |
| Recovery.CrashedCompactionBlocksLoad | src/wal_compaction.rs:77-148 | a reachable idle store that the plain load cannot load and the cold load can |
| Stamps.UpdateDocWalSeqMap | src/view.rs:216-230 | stamps of one batch: deletes drop, upserts stamp, patches stamp tracked ids only |
| Stamps.StampedAt | src/view.rs:216-230 | which ids have a stamp after a batch, and which one |
| Stamps.RestampAbsorbs | src/view.rs:103-108 | replaying a run of batches onto stamps absorbs any part of the run that was done before |
| Stamps.RedoKeepsFresh | src/view.rs:64-72 | redoing batches up to where fresh stamps are leaves them fresh |
| Stamps.RunKeepsStampsHeal | src/view.rs:64-108 | stamps that heal go on healing whichever batches are applied, from a point said exactly |
| View.HealableIsCurrent | src/view.rs:75-115 | a healable view that has applied everything it saw is exactly the documents at its number |
| View.RunKeepsHealable | src/view.rs:64-108 | documents that heal go on healing whichever batches are applied, again, late or early, from a point said exactly |
| View.HealableExtends | src/view.rs:75-115 | healing survives new commits |
| View.GapFreeExactly | src/view.rs:64-72 | for every view number and batch: all views healable from that number are healable from the batch after applying it exactly if that leaves no gap |
| View.SkippedBatch | src/view.rs:64-72 | for every gap, a log on which no catch-up heals the view |
| View.EventualReadsExactly | src/view.rs:42-57 | for every view number and metadata: eventual reads of all fresh views there return each id's document at the index cursor exactly if the view is empty, at the cursor, or beyond it with a tail to leave out |
| View.WrongRead | src/storage.rs:307-314 | otherwise, a log and a fresh view that shows a document the index does not hold |
| View.OwnOrNextExactly | src/storage.rs:789-798 | for every view number and batch: taking the batch keeps the eventual reads of all fresh views right exactly if it is the view's own or the next, or the view is empty |
| View.OutOfOrderApply | src/storage.rs:789-798 | otherwise, a log and a fresh view that shows a document the index does not hold |
| View.HistorySound | src/view.rs:42-133 | after any history of commits, loads, batches in any order, number 0, and catch-ups and reloads that stop or complete, documents and stamps heal |
| View.CatchUpHeals | src/view.rs:75-115 | in any history, a completed catch-up to a point after all the view has seen leaves exactly the documents there with fresh stamps, if its number is not ahead of a gap |
| View.GapFreeHistoryHeals | src/view.rs:64-115 | after any history without gaps, with batches again or late and catch-ups that stopped, a completed catch-up leaves the view fresh |
| View.CatchUpExactly | src/view.rs:75-115 | for every history: a completed catch-up leaves the view fresh for all contents of the batches exactly if its number is not ahead of a gap |
| View.EventualReadsInHistory | src/view.rs:42-133 | in any history, while the view is at the highest batch it has seen, stamps cover exactly the documents and eventual reads return documents as of the index cursor |
| View.BuildDocLastWalSeq | src/view.rs:232-257 | the stamps rebuilt from the log after the snapshot, an error on a missing segment |
| View.BuiltDocLastFresh | src/view.rs:232-257 | rebuilt stamps cover exactly the live documents, and no document changed since its stamp |
| View.NamespaceView.ApplyCommitted | src/view.rs:64-72 | the new documents, stamps and numbers, also for number 0; any batch keeps the view healing, its own and the next keep it fresh |
| View.NamespaceView.CatchUp | src/view.rs:75-115 | the view goes on healing, success or not; success leaves it fresh at the commit point read, unless its number was ahead of a gap and no reload was needed |
| View.NamespaceView.Reload | src/view.rs:75-115 | the reloading branch ends at the commit point, fresh, or leaves the view healing |
| View.LoadView | src/view.rs:118-133 | a view exactly when both reading passes succeed, then at the commit point, healing and fresh |
| FilterIndex.FilterSegment.AddDocument | src/index/filter.rs:80-105 | the segment of the indexed documents plus this one |
| FilterIndex.FilterSegment.RemoveDocument | src/index/filter.rs:107-118 | the segment of the indexed documents without this one, with no empty lists left |
| FilterIndex.FilterSegment.ApplyDelta | src/index/filter.rs:64-78 | the segment of the documents after the delta |
| FilterIndex.RepresentationUnique | src/index/filter.rs:52-78 | however it came about, a segment equals the one built afresh from its documents |
| FilterIndex.FilterSegment.MatchCmpScan | src/index/filter.rs:138-171 | posting, complement, or the scan of the field's keys |
| FilterIndex.MatchingPointwise | src/index/filter.rs:121-136 | an id matches an And/Or/Cmp tree exactly when it is indexed and the tree holds of its keys |
| FilterIndex.CmpAgreesExactly | src/index/filter.rs:138-201 | index and scan agree on a document exactly if its value is none the index errs on: a missing one against null, the other zero, a boolean ordered against a number or the reverse, an unindexed or `id` value that matters |
| FilterIndex.AgreeingFilter | src/filter.rs:164-263 | if all comparisons of a tree agree on a document, so does the tree |
| FilterIndex.ExactExprAgrees | src/filter.rs:164-263 | for trees of exact comparisons, evaluation on keys equals `eval_filter` on the document |
| FilterIndex.CmpExactness | src/index/filter.rs:138-201 | index and scan agree on every document exactly for the comparisons listed as exact |
| FilterIndex.OrdinaryCmpIsExact | src/index/filter.rs:138-171 | indexed fields other than `id`, no null, no zero equality, orderings against strings or numbers beyond booleans: all exact |
| StrongFilter.WalTouchedDocIds | src/index/fts.rs:286-300 | exactly the ids some entry deletes, upserts or patches |
| StrongFilter.MatchingDocIdsForFilter | src/search.rs:259-299 | scan without an index; index answer in eventual mode; index corrected by the tail and live ids in strong mode |
| StrongFilter.StrongFilterExact | src/search.rs:259-299 | with an index right at the cursor and a tail of all ids touched since, the strong answer is the scan's exactly if both agree on the live documents outside the tail |
| StrongFilter.TailPresent | src/storage.rs:465-489 | at every reachable state all segments of the tail exist |
| StrongFilter.StrongFilterAtReachable | src/search.rs:259-299 | at every reachable state the strong answer is exactly the live ids whose document satisfies the filter, exactly if index and scan agree on the live documents outside the tail |
| StrongFilter.StrongCmpAtReachable | src/search.rs:259-299 | for one comparison: exactly if no live document outside the tail has a value the index errs on |
| StrongFilter.RangeFilterAtReachable | src/search.rs:259-299 | an ordering of an indexed field against a number is answered right wherever the field holds no boolean |
| StrongFilter.StrongTreeAtReachable | src/search.rs:259-299 | for a tree: if that holds of each of its comparisons |
| StrongFilter.ExactFilterAtReachable | src/search.rs:259-299 | for a tree of exact comparisons: whatever the documents are |
| StrongFilter.StrongFilterDuringRun | src/storage.rs:404-489 | the same with `meta.json`, segment and tail read at different moments of a run |
| StrongFilter.StrongFilterAfterColdLoad | src/storage.rs:404-489 | on the documents of an interleaved cold load: exactly if the index is right about every live id outside the tail, also those touched after the metadata was read |
| StrongFilter.LateUpdateMissed | src/s3_batch.rs:1050-1096 | a run in which such a query misses a document |
| StrongFilter.StrongCmpExactness | src/search.rs:259-299 | a comparison is answered right at every reachable state exactly when it is exact |
| Fts.CountTerms | src/index/fts.rs:88-91 | each token's number of occurrences |
| Fts.FtsSegment.AddDocument | src/index/fts.rs:77-102 | counts the document in; the segment of the indexed documents plus this one if it had no tokens of it; nothing for a document without tokens |
| Fts.FtsSegment.RemoveDocument | src/index/fts.rs:104-115 | the segment of the documents without this one |
| Fts.FtsSegment.ApplyDelta | src/index/fts.rs:63-75 | the segment of the documents after the delta |
| Fts.FtsSegment.Build | src/index/fts.rs:50-60 | the segment of the given documents exactly if no row with tokens is followed by another row for the same id |
| Fts.RemovalNeverSaturates | src/index/fts.rs:104-109 | the saturating subtractions never saturate |
| Fts.SegmentsMatch | src/index/fts.rs:50-115 | segments of the same documents agree on counters, lengths and terms, and their posting lists are permutations |
| Fts.FrequenciesAddUp | src/index/fts.rs:77-102 | the frequencies posted for a document add up to its length |
| Bm25.Bm25DocScore | src/index/fts.rs:258-283 | never negative, and positive exactly when document and query share a token |
| Bm25.CandidateDocIds | src/index/fts.rs:118-129 | exactly the ids posted under some query term |
| Bm25.PostedMeansShared | src/index/fts.rs:118-129 | those are the indexed documents sharing a token with the query |
| Bm25.QueryBm25 | src/index/fts.rs:132-167 | the top k of the posted ids by score and id, all scores positive |
| Bm25.CollectCandidates | src/search.rs:355-410 | postings outside the tail plus tail documents sharing a token, live ones in strong mode, with the full-scan fallback |
| Bm25.StrongCandidatesAtReachable | src/search.rs:355-410 | at every reachable state the strong candidates on the segment's field are exactly the live documents sharing a token |
| Bm25.StrongCandidatesDuringRun | src/storage.rs:404-489 | the same with `meta.json`, segment and tail read at different moments of a run |
| Bm25.StrongCandidatesAfterColdLoad | src/storage.rs:404-489 | on the documents of an interleaved cold load: right about an id exactly if it is dead, in the tail, not touched after the metadata was read, or its old text gives the same answer |
| Centroids.TopMPositions | src/index/vector.rs:1922-1943 | positions in range, no repeats, all of them when few enough |
| Centroids.TopMIsTop | src/index/vector.rs:1922-1943 | the best by score, ties by position |
| Centroids.NearestCentroidId | src/index/vector.rs:1907-1918 | the first centroid with the best score |
| Centroids.AssignToCentroids | src/index/vector.rs:1894-1905 | every id gets the nearest centroid of a vector it came with |
| Tiling.CoarseLocalFromGlobal | src/index/vector.rs:858-867 | the cell and local number of a global id, none exactly from the total on |
| Tiling.GlobalIdInjective | src/index/vector.rs:418-428 | cell and local number are determined by the global id |
| Tiling.CellsMovedUp | src/index/vector.rs:1228-1268 | growing a cell and moving later clusters up keeps every cell's members |
| Renumbering.ShiftUp | src/index/vector.rs:1239-1256 | clusters from the pivot on move up by one, none overwritten, the pivot free |
| VectorIndexes.VectorIndex.AppendFineCentroid | src/index/vector.rs:1228-1268 | counts, total, starts and cluster ids after the insertion; tiling and every cell's members kept |
| VectorIndexes.VectorIndex.PruneEmptyClusters | src/index/vector.rs:869-871 | exactly the empty clusters go |
| VectorIndexes.VectorIndex.TryBinarySplit | src/index/vector.rs:915-995 | tiling and cell members kept; progress exactly adds fine centroids, at most 256 in a cell; no progress means no change and a cluster that could not be split |
| VectorIndexes.VectorIndex.TryMultishard | src/index/vector.rs:998-1085 | tiling and cell members kept, other cells untouched; an oversized cluster is always spread |
| VectorIndexes.VectorIndex.LeastLoadedSibling | src/index/vector.rs:1108-1127 | the sibling with the fewest members, none exactly without siblings |
| VectorIndexes.VectorIndex.RelocateExcess | src/index/vector.rs:1088-1184 | tiling and cell members kept; an oversized cluster with a sibling ends at exactly 512 members |
| VectorIndexes.VectorIndex.SplitOversized | src/index/vector.rs:873-912 | tiling and cell members kept; nothing changes when no cluster is oversized |
| VectorIndexes.VectorIndex.MergeOne | src/index/vector.rs:1281-1340 | the whole cluster joins the one its first member is nearest to if there is room, else stays |
| VectorIndexes.VectorIndex.MergeTinyClusters | src/index/vector.rs:1270-1342 | tiling and cell members kept; no cluster is pushed over 512 |
| VectorIndexes.VectorIndex.ReassignDriftedMembers | src/index/vector.rs:1344-1396 | tiling and cell members kept; every member ends at the nearest fine centroid of its cell that had room at the start, else where it was |
| VectorIndexes.VectorIndex.RefreshFineCentroids | src/index/vector.rs:1398-1423 | each fine centroid becomes the mean of its members, or stays |
| VectorIndexes.VectorIndex.RunIncrementalMaintenance | src/index/vector.rs:834-848 | for any k-means, a pass keeps the tiling and every document exactly once in its coarse cell; cells only gain fine centroids |
| VectorIndexes.VectorIndex.AssignDocToNearest | src/index/vector.rs:803-831 | the document is added once: in its nearest cell if that has a fine centroid, else in the next that has one, else behind the cells |
| VectorIndexes.VectorIndex.ApplyDelta | src/index/vector.rs:774-801 | afterwards the index holds, each once, the old documents minus deletes, overridden by upserts with a right-sized vector; all in the cells if the last cell has a fine centroid |
| VectorIndexes.LandsExactly | src/index/vector.rs:814-819 | a document lands in its nearest cell exactly if that has a fine centroid, and behind the cells exactly if neither that nor any later one has |
| VectorIndexes.SpilledDocument | src/index/vector.rs:814-829 | with counts 1 and 0, a document of the second cell is at the total and in neither cell |
| Sizing.NumFine | src/index/vector.rs:1702-1757 | at most n, at least one if n is, at most 8 for v3 |
| Sizing.NumCoarseV3 | src/index/vector.rs:1731-1741 | the sizing loop computes 1 up to 32 documents, else n/500 between 8 and 55 |
| VectorBuild.CollectPairs | src/index/vector.rs:599-615 | the documents with a vector of the size of the first one |
| VectorBuild.Build | src/index/vector.rs:584-743 | tiled, each kept document there, in the cell of its nearest coarse and with its nearest fine centroid; v3 has no routing, no L2 and fewer than 500 objects for any distribution |
| VectorBuild.BuiltHolds | src/index/vector.rs:584-743 | the index holds each kept document once, as maintenance needs, exactly if no two kept rows name the same id |
| VectorBuild.BuiltTwice | src/indexer.rs:1096-1121 | two rows for one id, as two batches can give, are both built in |
| VectorDelta.LiveVectorsRight | src/indexer.rs:151-166 | after the delta of a range, with or without patches, every live document is in the vector index with its vector, or not if it has none |
| VectorDelta.DeadVectorsExactly | src/indexer.rs:1096-1121 | which dead documents stay after a range without patches, as an equivalence |
| VectorDelta.DeadVectorStays | src/indexer.rs:1096-1121 | a document upserted in one batch and deleted in the next stays |
| Probe.ProbeFineCentroids | src/index/vector.rs:1444-1508 | ascending, without repeats, exactly the ids of the probed cells, through L2 where loaded, else L1 |
| Probe.SmallIndexProbedWhole | src/index/vector.rs:435-455 | without routing, at most 32 fine centroids are all probed |
| Probe.ProbedInside | src/index/vector.rs:1444-1508 | no query probes an id from the total on |
| QueryAnn.TopScoredIsTop | src/index/vector.rs:533-568 | scoring a list gives its top k by score and id |
| QueryAnn.Query | src/index/vector.rs:1586-1624 | cutting clusters to 4k loses nothing: the exact top k of all members of the probed clusters |
| QueryAnn.SmallQueryIsBruteForce | src/index/vector.rs:2102-2119 | on small indexes without routing that is brute force over all documents |
| QueryAnn.HeldOnceIsUnique | src/index/vector.rs:834-848 | an index kept by maintenance has no id in two places, as the query needs |
| QueryAnn.SmallIndexExact | src/index/vector.rs:1586-1624 | end to end from the maintenance invariants: brute force over the documents in the cells |
| QueryAnn.SpillUnseen | src/index/vector.rs:1586-1624 | queries rank as if documents behind the cells were not there |
| ProbedLoad.PlanL2 | src/s3_batch.rs:518-536 | exactly the L2 parts of probed cells that have more than one |
| ProbedLoad.ProbeCellLocal | src/index/vector.rs:1458-1504 | a cell's probe depends only on its own L1 and L2 objects |
| ProbedLoad.LoadProbed | src/s3_batch.rs:731-832 | an error exactly when a needed L1 or L2 object is missing, else the same probed ids as the whole index with their clusters |
| ProbedLoad.SameRanking | src/s3_batch.rs:799-832 | any ranking of the loaded part that is exact equals any exact ranking of the whole index |
| ProbedLoad.QueryProbed | src/s3_batch.rs:731-832 | load and rank: the exact top k of the whole index's probed clusters, an error exactly when a needed object is missing |
| ProbeWidths.BoundFits | src/index/vector.rs:28-32 | the bound does not overflow 64 bits |
| ProbeWidths.ClampProbeWidths | src/index/vector.rs:40-73 | for caps from 6: within the cap; a proper clamp exactly when the coarse cap survives its conversion to 32 bits, and else a coarse width of 0; widest fine width that fits |
| ProbeWidths.ClampVanishes | src/index/vector.rs:48-49 | a cap and widths for which it does not survive |
| ProbeWidths.ClampPlan | src/index/vector.rs:394-416 | small indexes and plans within the cap unchanged, others brought within it |
| ProbeWidths.ProbesBounded | src/index/vector.rs:1455-1507 | a clamped descent without routing probes at most max(32, cap) clusters |
| GroupCommit.StepKeepsInv | src/buffer.rs:376-494 | every action keeps every call's operations in one place, batches equal to their calls, acknowledgements right and commits paced |
| GroupCommit.AckSafe | src/buffer.rs:409-476 | a call acknowledged with a number has all its operations in that entry; with 0 it had none |
| GroupCommit.OneEntryEach | src/buffer.rs:393-412 | entries are exactly their calls' operations in order; no call is in two |
| GroupCommit.CooldownOver | src/buffer.rs:85-94 | no remaining cooldown means the interval has passed |
| GroupCommit.CommitsPaced | src/buffer.rs:325-336 | a commit that waited its turn becomes durable at least the interval after every earlier commit that was reported to succeed |
| Pacing.PacedExactly | src/buffer.rs:446-476 | two commits of any run, the later of which waited its turn, are at least the interval apart whatever the times are exactly if an append was reported to succeed from the first on and before the second |
| Pacing.UnreportedUnpaced | src/buffer.rs:446-476 | otherwise the same actions can happen with no time between the two |
| Pacing.UnpacedRun | src/buffer.rs:446-476 | for every interval, a run with two entries durable at the same moment |
| CallFates.LoggedExactly | src/buffer.rs:376-494 | a call's operations are in the log exactly if the batch it was drained into was committed, over the actions of any run |
| CallFates.FailedButLoggedExactly | src/buffer.rs:141-151 | a call told of an error has them in the log exactly if it failed to merge and its batch was committed, or the append reported an error after the commit |
| CallFates.FailedMergeCommitted | src/buffer.rs:141-151 | a run in which a call whose patch fails to merge has its upsert committed |
| CallFates.SchemaAcked | src/buffer.rs:141-151 | an acknowledged call is told of no failure, and its schema patch is in its entry exactly if no merge failed between the call and the drain that took it |
| CallFates.LostSchemaPatch | src/buffer.rs:141-146 | a run in which a call with only a patch is acknowledged with 0 and its patch is nowhere |
| Export.ExportPage | src/export.rs:24-49 | the first documents after the cursor in id order, and a next cursor exactly when the page is full |
| Export.ExportAll | src/export.rs:24-49 | following the cursor ends and gives every document once in strictly ascending order, also when the count is a multiple of the limit |

## Left out

- HTTP, CLI, metrics, billing, health, warm prefetch, caches and limits validation: plumbing around the modelled logic.
- Several processes writing one namespace without the shared lock, namespace copy and delete: outside what the lock protects.
- Encodings (bincode, JSON, CRC32, base64, f16), key formatting, legacy keys and the corrupt-segment policy: objects are modelled decoded.
- 64-bit and 32-bit overflow of sequence numbers, counts and lengths: they are natural numbers, except in the probe clamp, where the widths matter.
- Floating point: scores are real numbers, so NaN, infinities and rounding are not modelled; square roots in sizing are exact.
- The schema is fixed along a run, so schema changes between index commits are not modelled.
- Persistence of vector objects across indexer passes: the vector proofs are about the in-memory index and one consistent set of objects.
- `doc_last_wal_seq` as `load_cold_batched` seeds it: the eventual-read results are for views from `load`, `catch_up` and `apply_committed`.
- Timers, task coalescing and cancellation in the write buffer: any flush may start whenever the flush lock is free, so only safety is proved.
- BM25 score values, min-max normalisation, rank fusion and `order_by`: only the sign of a score and the candidates are modelled.
- `needs_full_rebuild` and the scheduling of rebuilds and indexer ticks: they decide when, not what.
- VectorIndexes.VectorIndex.SplitOversized: does not state that clusters end at or below 512 members, because the rounds are bounded and identical vectors cannot be split.
- VectorBuild.Build: L2 segments appear as the set of their keys only, because no v3 build makes one.
- Bm25.StrongCandidatesAtReachable: for a segment with a named field, because joining all string attributes depends on the iteration order of a hash map.
- Bm25.StrongCandidatesDuringRun: for a segment with a named field, for the same reason.
- Bm25.StrongCandidatesAfterColdLoad: for a segment with a named field, for the same reason.
