/** Namespace metadata and the sequence-number arithmetic around it
    (`src/meta.rs`, `src/wal_compaction.rs`, the range functions of `src/s3_batch.rs` and
    `meta_after_index_commit` of `src/indexer.rs`).
 */
module Meta {
  import opened Documents

  /** The fields of `meta.json` that drive the log, index and compaction protocol. */
  datatype NamespaceMeta = NamespaceMeta(
    walCommitSeq: nat,
    indexCursor: nat,
    walSnapshotSeq: nat,
    ftsSegmentId: nat,
    filterSegmentId: nat)

  const EMPTY_META := NamespaceMeta(0, 0, 0, 0, 0)

  const WAL_COMPACTION_THRESHOLD: nat := 10
  const WAL_COMPACT_KEEP: nat := 3

  function NextWalSeq(meta: NamespaceMeta): nat {
    meta.walCommitSeq + 1
  }

  function MetaAfterWalCommit(meta: NamespaceMeta, seqNo: nat): Result<NamespaceMeta> {
    if seqNo != meta.walCommitSeq + 1 then Err else Ok(meta.(walCommitSeq := seqNo))
  }

  function MetaAfterIndexCommit(meta: NamespaceMeta, cursor: nat, fts: nat, filter: nat): Result<NamespaceMeta> {
    if cursor > meta.walCommitSeq || cursor <= meta.indexCursor then Err
    else Ok(meta.(indexCursor := cursor, ftsSegmentId := fts, filterSegmentId := filter))
  }

  predicate ShouldCompactWal(meta: NamespaceMeta) {
    && meta.indexCursor >= meta.walCommitSeq
    && meta.walCommitSeq > WAL_COMPACTION_THRESHOLD
    && meta.indexCursor > WAL_COMPACT_KEEP
  }

  predicate NeedsWalCompaction(meta: NamespaceMeta) {
    ShouldCompactWal(meta) && meta.walSnapshotSeq < meta.indexCursor
  }

  /** `wal_seqs_to_delete`: the numbers 1 to `cursor - keep`, in order. */
  function WalSeqsToDelete(cursor: nat, keep: nat): (seqs: seq<nat>)
    ensures |seqs| == if cursor <= keep then 0 else cursor - keep
    ensures forall i :: 0 <= i < |seqs| ==> seqs[i] == i + 1
  {
    if cursor <= keep then [] else seq(cursor - keep, i => i + 1)
  }

  function WalReplayFrom(snapshotSeq: nat, walCommitSeq: nat): Option<nat> {
    if walCommitSeq == 0 || snapshotSeq + 1 > walCommitSeq then None else Some(snapshotSeq + 1)
  }

  function WalCommitReplayFrom(meta: NamespaceMeta): Option<nat> {
    if meta.walSnapshotSeq > 0 then WalReplayFrom(meta.walSnapshotSeq, meta.walCommitSeq)
    else if meta.walCommitSeq > 0 then Some(1)
    else None
  }

  /** First and last log number of the tail a strong query scans. */
  function UnindexedWalTailRange(meta: NamespaceMeta): Option<(int, int)> {
    if meta.indexCursor >= meta.walCommitSeq then None
    else
      var to := meta.walCommitSeq;
      var from: int :=
        if meta.walSnapshotSeq > 0 then
          match WalReplayFrom(meta.walSnapshotSeq, to) {
            case Some(first) => first
            case None => meta.indexCursor + 1
          }
        else meta.indexCursor + 1;
      if from > to then None else Some((from, to))
  }

  /** With the cursors in order, the tail range covers every number after the index cursor and
      starts at or below it only when a snapshot lets it, so no deleted segment is asked for. */
  lemma TailRangeCoversUnindexed(meta: NamespaceMeta)
    requires meta.walSnapshotSeq <= meta.indexCursor <= meta.walCommitSeq
    ensures meta.indexCursor < meta.walCommitSeq <==> UnindexedWalTailRange(meta).Some?
    ensures UnindexedWalTailRange(meta).Some? ==>
      var (from, to) := UnindexedWalTailRange(meta).value;
      meta.walSnapshotSeq < from <= meta.indexCursor + 1 && to == meta.walCommitSeq
  {
  }

  /** Likewise for the cold-load range: it starts right after the snapshot, and the segments a
      compaction may delete all lie at or below the snapshot it has recorded. */
  lemma ReplayRangeAvoidsDeletes(meta: NamespaceMeta, deleted: nat)
    requires meta.walSnapshotSeq <= meta.walCommitSeq
    requires deleted in WalSeqsToDelete(meta.walSnapshotSeq, WAL_COMPACT_KEEP)
    ensures WalCommitReplayFrom(meta).Some? ==> deleted < WalCommitReplayFrom(meta).value
  {
  }
}
