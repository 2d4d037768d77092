/** Reading the log back from the object store (`src/namespace.rs`, the WAL half of
    `cold_load_meta_and_wal` in `src/s3_batch.rs`, and the replay half of `load_cold_batched` in
    `src/view.rs`).

    Every GET may happen at a different moment, so a reader is given what its GETs returned:
    the snapshot object it saw, if any, and the segments it found.  Such reads are genuine when
    each object found is one the store held at some moment; nothing is assumed about how the
    moments relate.
 */
module WalReads {
  import opened Documents
  import opened Replay
  import opened Meta

  datatype Snapshot = Snapshot(seqNo: nat, rows: seq<Document>)

  function IntoDocs(snap: Snapshot): DocMap {
    PutAll(map[], snap.rows)
  }

  type Segments = map<nat, Entry>

  /** Segments found are the logged ones. */
  ghost predicate GenuineSegments(wal: Segments, log: seq<Entry>) {
    forall n :: n in wal && 1 <= n <= |log| ==> wal[n] == log[n - 1]
  }

  /** A snapshot found holds the documents at its own sequence number. */
  ghost predicate GenuineSnapshot(snap: Option<Snapshot>, log: seq<Entry>) {
    snap.Some? ==> snap.value.seqNo <= |log| && IntoDocs(snap.value) == At(log, snap.value.seqNo)
  }

  predicate HasRange(wal: Segments, from: nat, last: int) {
    forall n: nat :: from <= n <= last ==> n in wal
  }

  function RangeEntries(wal: Segments, from: nat, last: int): seq<Entry>
    requires HasRange(wal, from, last)
    decreases last + 1 - from
  {
    if from > last then [] else RangeEntries(wal, from, last - 1) + [wal[last]]
  }

  /** `replay_wal_range`: an empty or zero range replays nothing, a missing segment is an error. */
  function RangeReplayed(wal: Segments, docs: DocMap, from: nat, last: nat): Result<DocMap> {
    if from == 0 || last == 0 || from > last then Ok(docs)
    else if HasRange(wal, from, last) then Ok(Replayed(RangeEntries(wal, from, last), docs))
    else Err
  }

  lemma {:induction false} RangeEntriesSplit(wal: Segments, from: nat, mid: int, last: int)
    requires from <= mid + 1 <= last + 1 && HasRange(wal, from, last)
    ensures RangeEntries(wal, from, last) == RangeEntries(wal, from, mid) + RangeEntries(wal, mid + 1, last)
    decreases last
  {
    if mid < last { RangeEntriesSplit(wal, from, mid, last - 1); }
  }

  lemma {:induction false} GenuineRange(wal: Segments, log: seq<Entry>, from: nat, last: int)
    requires GenuineSegments(wal, log) && 1 <= from && last <= |log| && from <= last + 1
    requires HasRange(wal, from, last)
    ensures RangeEntries(wal, from, last) == log[from - 1..last]
    decreases last
  {
    if from <= last {
      GenuineRange(wal, log, from, last - 1);
      assert log[from - 1..last] == log[from - 1..last - 1] + [log[last - 1]];
    }
  }

  lemma ReplayedNext(wal: Segments, docs: DocMap, from: nat, n: nat)
    requires from <= n && HasRange(wal, from, n - 1) && n in wal
    ensures HasRange(wal, from, n)
    ensures Replayed(RangeEntries(wal, from, n), docs) ==
      ApplyEntry(Replayed(RangeEntries(wal, from, n - 1), docs), wal[n])
  {
    var entries := RangeEntries(wal, from, n);
    assert entries[..|entries| - 1] == RangeEntries(wal, from, n - 1);
  }

  /** The replay loop of the source. */
  method ReplayWalRange(wal: Segments, docs: DocMap, from: nat, last: nat) returns (r: Result<DocMap>)
    ensures r == RangeReplayed(wal, docs, from, last)
  {
    if from == 0 || last == 0 || from > last { return Ok(docs); }
    var out := docs;
    var n := from;
    while n <= last
      invariant from <= n <= last + 1
      invariant HasRange(wal, from, n - 1)
      invariant out == Replayed(RangeEntries(wal, from, n - 1), docs)
    {
      if n !in wal { return Err; }
      ReplayedNext(wal, docs, from, n);
      out := ApplyEntryInPlace(out, wal[n]);
      n := n + 1;
    }
    return Ok(out);
  }

  // ----- docs_at_index_cursor -----

  function DocsAtCursor(snap: Option<Snapshot>, wal: Segments, cursor: nat): Result<DocMap> {
    if cursor == 0 then Ok(map[])
    else if snap.Some? && snap.value.seqNo <= cursor then
      RangeReplayed(wal, IntoDocs(snap.value), snap.value.seqNo + 1, cursor)
    else RangeReplayed(wal, map[], 1, cursor)
  }

  method DocsAtIndexCursor(snap: Option<Snapshot>, wal: Segments, cursor: nat) returns (r: Result<DocMap>)
    ensures r == DocsAtCursor(snap, wal, cursor)
  {
    if cursor == 0 { return Ok(map[]); }
    var docs: DocMap := map[];
    var replayFrom := 1;
    if snap.Some? && snap.value.seqNo <= cursor {
      replayFrom := snap.value.seqNo + 1;
      docs := IntoDocs(snap.value);
    }
    if replayFrom <= cursor {
      r := ReplayWalRange(wal, docs, replayFrom, cursor);
    } else {
      r := Ok(docs);
    }
  }

  /** Replaying genuine segments onto the state at `m`. */
  lemma GenuineReplay(wal: Segments, log: seq<Entry>, m: nat, n: nat)
    requires GenuineSegments(wal, log) && m <= n <= |log|
    ensures RangeReplayed(wal, At(log, m), m + 1, n) ==
      (if HasRange(wal, m + 1, n) then Ok(At(log, n)) else Err)
  {
    if m < n && HasRange(wal, m + 1, n) {
      GenuineRange(wal, log, m + 1, n);
      ReplayFrom(log, m, n);
    }
  }

  /** `docs_at_index_cursor` never returns a wrong map: with genuine reads, made at any moments,
      it answers exactly when the segments after its starting point were all found, and then with
      the documents at the cursor. */
  lemma DocsAtCursorCorrect(snap: Option<Snapshot>, wal: Segments, cursor: nat, log: seq<Entry>)
    requires GenuineSegments(wal, log) && GenuineSnapshot(snap, log) && cursor <= |log|
    ensures DocsAtCursor(snap, wal, cursor) ==
      (var start := if snap.Some? && snap.value.seqNo <= cursor then snap.value.seqNo else 0;
       if HasRange(wal, start + 1, cursor) then Ok(At(log, cursor)) else Err)
  {
    if cursor > 0 {
      var start := if snap.Some? && snap.value.seqNo <= cursor then snap.value.seqNo else 0;
      GenuineReplay(wal, log, start, cursor);
    }
  }

  // ----- load_docs_at_wal_commit -----

  /** The map and the last sequence number applied. */
  function LoadedAtCommit(meta: NamespaceMeta, snap: Option<Snapshot>, wal: Segments): Result<(DocMap, nat)> {
    var useSnap := meta.walSnapshotSeq > 0 && snap.Some? && snap.value.seqNo == meta.walSnapshotSeq;
    var docs := if useSnap then IntoDocs(snap.value) else map[];
    var applied := if useSnap then snap.value.seqNo else 0;
    match WalReplayFrom(applied, meta.walCommitSeq)
    case None => Ok((docs, applied))
    case Some(from) =>
      match RangeReplayed(wal, docs, from, meta.walCommitSeq)
      case Ok(out) => Ok((out, meta.walCommitSeq))
      case Err => Err
  }

  method LoadDocsAtWalCommit(meta: NamespaceMeta, snap: Option<Snapshot>, wal: Segments)
    returns (r: Result<(DocMap, nat)>)
    ensures r == LoadedAtCommit(meta, snap, wal)
  {
    var docs: DocMap := map[];
    var lastApplied := 0;
    if meta.walSnapshotSeq > 0 {
      if snap.Some? {
        if snap.value.seqNo == meta.walSnapshotSeq {
          lastApplied := snap.value.seqNo;
          docs := IntoDocs(snap.value);
        }
      }
    }
    var from := WalReplayFrom(lastApplied, meta.walCommitSeq);
    if from.Some? {
      var replayed := ReplayWalRange(wal, docs, from.value, meta.walCommitSeq);
      if replayed.Err? { return Err; }
      docs := replayed.value;
      lastApplied := meta.walCommitSeq;
    }
    return Ok((docs, lastApplied));
  }

  /** With genuine reads the load answers exactly when every segment after its starting point was
      found, and then with the documents at the commit point.  The starting point is the snapshot
      when its number is the one in `meta.json`, and the beginning of the log otherwise. */
  lemma LoadedAtCommitCorrect(meta: NamespaceMeta, snap: Option<Snapshot>, wal: Segments, log: seq<Entry>)
    requires GenuineSegments(wal, log) && GenuineSnapshot(snap, log)
    requires meta.walSnapshotSeq <= meta.walCommitSeq <= |log|
    ensures LoadedAtCommit(meta, snap, wal) ==
      (var start := if meta.walSnapshotSeq > 0 && snap.Some? && snap.value.seqNo == meta.walSnapshotSeq
                    then meta.walSnapshotSeq else 0;
       if HasRange(wal, start + 1, meta.walCommitSeq) then Ok((At(log, meta.walCommitSeq), meta.walCommitSeq)) else Err)
  {
    var start := if meta.walSnapshotSeq > 0 && snap.Some? && snap.value.seqNo == meta.walSnapshotSeq
                 then meta.walSnapshotSeq else 0;
    GenuineReplay(wal, log, start, meta.walCommitSeq);
  }

  // ----- cold_load_meta_and_wal + load_cold_batched -----

  /** Number of the snapshot the cold load starts from: 0 when `meta.json` names none. */
  function ColdStart(meta: NamespaceMeta, snap: Option<Snapshot>): nat {
    if meta.walSnapshotSeq > 0 && snap.Some? then snap.value.seqNo else 0
  }

  /** What the cold load asks the store for besides `meta.json`: the snapshot when there is one,
      and every segment after the recorded snapshot. */
  predicate ColdKeysPresent(meta: NamespaceMeta, snap: Option<Snapshot>, wal: Segments) {
    && (meta.walSnapshotSeq > 0 ==> snap.Some?)
    && (WalCommitReplayFrom(meta).Some? ==> HasRange(wal, WalCommitReplayFrom(meta).value, meta.walCommitSeq))
  }

  /** The segments of the batch: those after the recorded snapshot. */
  function ColdFetched(meta: NamespaceMeta, wal: Segments): Segments {
    var from := WalCommitReplayFrom(meta);
    if from.None? then map[] else map n | n in wal && from.value <= n <= meta.walCommitSeq :: wal[n]
  }

  /** Entries of a range, skipping numbers that are not there. */
  function PresentEntries(wal: Segments, from: nat, last: int): seq<Entry>
    decreases last + 1 - from
  {
    if from > last then []
    else PresentEntries(wal, from, last - 1) + (if last in wal then [wal[last]] else [])
  }

  /** The documents the cold load starts from. */
  function ColdBase(meta: NamespaceMeta, snap: Option<Snapshot>): DocMap {
    if meta.walSnapshotSeq > 0 && snap.Some? then IntoDocs(snap.value) else map[]
  }

  lemma ColdBaseRight(meta: NamespaceMeta, snap: Option<Snapshot>, log: seq<Entry>)
    requires GenuineSnapshot(snap, log)
    ensures ColdStart(meta, snap) <= |log| && ColdBase(meta, snap) == At(log, ColdStart(meta, snap))
  {
  }

  /** The batched cold load: one missing key fails the batch; otherwise the snapshot found is the
      base, whatever its number, and the fetched segments after it are replayed. */
  function ColdLoaded(meta: NamespaceMeta, snap: Option<Snapshot>, wal: Segments): Result<DocMap> {
    if !ColdKeysPresent(meta, snap, wal) then Err
    else Ok(Replayed(PresentEntries(ColdFetched(meta, wal), ColdStart(meta, snap) + 1, meta.walCommitSeq),
                     ColdBase(meta, snap)))
  }

  method ColdFetch(meta: NamespaceMeta, snap: Option<Snapshot>, wal: Segments) returns (r: Result<Segments>)
    ensures r == if ColdKeysPresent(meta, snap, wal) then Ok(ColdFetched(meta, wal)) else Err
  {
    var fetched: Segments := map[];
    if meta.walSnapshotSeq > 0 && snap.None? { return Err; }
    var from := WalCommitReplayFrom(meta);
    if from.Some? {
      var n := from.value;
      while n <= meta.walCommitSeq
        invariant from.value <= n <= meta.walCommitSeq + 1
        invariant HasRange(wal, from.value, n - 1)
        invariant fetched == map k | k in wal && from.value <= k < n :: wal[k]
      {
        if n !in wal { return Err; }
        fetched := fetched[n := wal[n]];
        n := n + 1;
      }
      assert HasRange(wal, from.value, meta.walCommitSeq);
      assert fetched == ColdFetched(meta, wal);
    }
    r := Ok(fetched);
  }

  lemma PresentNext(wal: Segments, base: DocMap, from: nat, n: nat)
    requires from <= n
    ensures var before := Replayed(PresentEntries(wal, from, n - 1), base);
      Replayed(PresentEntries(wal, from, n), base) == if n in wal then ApplyEntry(before, wal[n]) else before
  {
    var entries := PresentEntries(wal, from, n);
    if n in wal {
      assert entries[..|entries| - 1] == PresentEntries(wal, from, n - 1);
    } else {
      assert entries == PresentEntries(wal, from, n - 1);
    }
  }

  method ColdReplay(base: DocMap, fetched: Segments, lastApplied: nat, commit: nat) returns (docs: DocMap)
    ensures docs == Replayed(PresentEntries(fetched, lastApplied + 1, commit), base)
  {
    docs := base;
    var from := WalReplayFrom(lastApplied, commit);
    if from.Some? {
      var n := from.value;
      while n <= commit
        invariant from.value <= n <= commit + 1
        invariant docs == Replayed(PresentEntries(fetched, from.value, n - 1), base)
      {
        PresentNext(fetched, base, from.value, n);
        if n in fetched { docs := ApplyEntryInPlace(docs, fetched[n]); }
        n := n + 1;
      }
    }
  }

  method ColdLoad(meta: NamespaceMeta, snap: Option<Snapshot>, wal: Segments) returns (r: Result<DocMap>)
    ensures r == ColdLoaded(meta, snap, wal)
  {
    var fetched := ColdFetch(meta, snap, wal);
    if fetched.Err? { return Err; }
    var docs: DocMap := map[];
    var lastApplied := 0;
    if meta.walSnapshotSeq > 0 {
      lastApplied := snap.value.seqNo;
      docs := IntoDocs(snap.value);
    }
    docs := ColdReplay(docs, fetched.value, lastApplied, meta.walCommitSeq);
    r := Ok(docs);
  }

  lemma {:induction false} PresentIsRange(wal: Segments, fetched: Segments, from: nat, last: int)
    requires HasRange(wal, from, last)
    requires forall n: nat :: from <= n <= last ==> n in fetched && fetched[n] == wal[n]
    ensures PresentEntries(fetched, from, last) == RangeEntries(wal, from, last)
    decreases last + 1 - from
  {
    if from <= last { PresentIsRange(wal, fetched, from, last - 1); }
  }

  lemma ColdReplayCorrect(meta: NamespaceMeta, wal: Segments, log: seq<Entry>, start: nat)
    requires GenuineSegments(wal, log) && meta.walCommitSeq <= |log| && start <= |log|
    requires meta.walSnapshotSeq <= start
    requires WalCommitReplayFrom(meta).Some? ==> HasRange(wal, WalCommitReplayFrom(meta).value, meta.walCommitSeq)
    ensures Replayed(PresentEntries(ColdFetched(meta, wal), start + 1, meta.walCommitSeq), At(log, start))
         == At(log, if start > meta.walCommitSeq then start else meta.walCommitSeq)
  {
    if start < meta.walCommitSeq {
      assert HasRange(wal, start + 1, meta.walCommitSeq);
      PresentIsRange(wal, ColdFetched(meta, wal), start + 1, meta.walCommitSeq);
      GenuineRange(wal, log, start + 1, meta.walCommitSeq);
      ReplayFrom(log, start, meta.walCommitSeq);
    }
  }

  /** With genuine reads, made no earlier than the read of `meta.json`, a cold load answers exactly
      when the keys it names exist, and then with the documents at the commit point it read; if a
      newer snapshot has overtaken that commit point, with the documents at the snapshot. */
  lemma ColdLoadedCorrect(meta: NamespaceMeta, snap: Option<Snapshot>, wal: Segments, log: seq<Entry>)
    requires GenuineSegments(wal, log) && GenuineSnapshot(snap, log)
    requires meta.walCommitSeq <= |log|
    requires snap.Some? ==> meta.walSnapshotSeq <= snap.value.seqNo
    ensures ColdLoaded(meta, snap, wal) ==
      if ColdKeysPresent(meta, snap, wal)
      then Ok(At(log, if ColdStart(meta, snap) > meta.walCommitSeq then ColdStart(meta, snap) else meta.walCommitSeq))
      else Err
  {
    if ColdKeysPresent(meta, snap, wal) {
      var start := ColdStart(meta, snap);
      ColdBaseRight(meta, snap, log);
      ColdReplayCorrect(meta, wal, log, start);
      assert ColdLoaded(meta, snap, wal).value
          == Replayed(PresentEntries(ColdFetched(meta, wal), start + 1, meta.walCommitSeq), At(log, start));
    }
  }
}
