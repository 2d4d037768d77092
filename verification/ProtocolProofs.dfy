/** The invariant of the protocol, kept by every action of every run. */
module ProtocolProofs {
  import opened Documents
  import opened Replay
  import opened Meta
  import opened WalReads
  import opened IndexDelta
  import opened Protocol

  /** An index right at log number `n`. */
  ghost predicate RightAt(idx: Indexed, log: seq<Entry>, n: nat) {
    n <= |log| && LiveCorrect(idx, At(log, n))
  }

  ghost predicate BothRightAt(ix: Indices, log: seq<Entry>, n: nat) {
    RightAt(ix.filter, log, n) && RightAt(ix.fts, log, n)
  }

  /** The three cursors are in order, and the index segments named by `meta.json` exist. */
  ghost predicate MetaOk(st: Store, log: seq<Entry>) {
    var meta := CurrentMeta(st);
    && meta.walSnapshotSeq <= meta.indexCursor <= meta.walCommitSeq == |log|
    && meta.filterSegmentId == meta.ftsSegmentId == meta.indexCursor
    && (meta.indexCursor > 0 ==> meta.indexCursor in st.filterSegments && meta.indexCursor in st.ftsSegments)
  }

  /** Segments present are the logged ones, and none above the recorded snapshot is missing. */
  ghost predicate WalOk(st: Store, log: seq<Entry>) {
    var meta := CurrentMeta(st);
    && GenuineSegments(st.wal, log)
    && HasRange(st.wal, meta.walSnapshotSeq + 1, meta.walCommitSeq)
  }

  /** A snapshot object holds the documents at its own number, which lies between the recorded
      snapshot and the index cursor. */
  ghost predicate SnapshotOk(st: Store, log: seq<Entry>) {
    var meta := CurrentMeta(st);
    && GenuineSnapshot(st.snapshot, log)
    && (st.snapshot.None? ==> meta.walSnapshotSeq == 0)
    && (st.snapshot.Some? ==> meta.walSnapshotSeq <= st.snapshot.value.seqNo <= meta.indexCursor)
  }

  /** Every index segment ever written is right at the log number in its name. */
  ghost predicate SegmentsOk(st: Store, log: seq<Entry>) {
    && (forall n :: n in st.filterSegments ==> RightAt(st.filterSegments[n], log, n))
    && (forall n :: n in st.ftsSegments ==> RightAt(st.ftsSegments[n], log, n))
  }

  ghost predicate StoreOk(st: Store, log: seq<Entry>) {
    MetaOk(st, log) && WalOk(st, log) && SnapshotOk(st, log) && SegmentsOk(st, log)
  }

  /** The lock holder's view of `meta.json` is current. */
  ghost predicate HolderOk(h: Holder, st: Store, log: seq<Entry>) {
    match h
    case Free => true
    case Appending(entry, seen, version, written) =>
      && seen == CurrentMeta(st) && version == st.version
      && (written ==> |log| + 1 in st.wal && st.wal[|log| + 1] == entry)
    case Committing(_, last, seen, version) =>
      && seen == CurrentMeta(st) && version == st.version
      && seen.indexCursor < last <= |log|
      && last in st.filterSegments && last in st.ftsSegments
    case Compacting(seen, version, snapshotPut) =>
      && seen == CurrentMeta(st) && version == st.version && NeedsWalCompaction(seen)
      && (snapshotPut ==> st.snapshot.Some? && st.snapshot.value.seqNo == seen.indexCursor)
    case Deleting(cursor, next) => cursor == CurrentMeta(st).walSnapshotSeq && 1 <= next
  }

  ghost predicate SeenOk(seen: NamespaceMeta, last: nat, st: Store, log: seq<Entry>) {
    && seen.indexCursor < last <= |log|
    && seen.filterSegmentId == seen.ftsSegmentId == seen.indexCursor
    && (seen.indexCursor > 0 ==> seen.indexCursor in st.filterSegments && seen.indexCursor in st.ftsSegments)
  }

  ghost predicate IndexerOk(ix: Indexer, st: Store, log: seq<Entry>) {
    match ix
    case Opening(seen, last) => SeenOk(seen, last, st, log)
    case OpeningFilter(seen, last, fts) => SeenOk(seen, last, st, log) && RightAt(fts, log, seen.indexCursor)
    case Streaming(cursor, last, next, initial, current) =>
      && cursor < next <= last + 1 && last <= |log|
      && BothRightAt(initial, log, cursor) && BothRightAt(current, log, next - 1)
    case Rereading(cursor, last, initial, entries) =>
      && cursor + |entries| <= last <= |log|
      && BothRightAt(initial, log, cursor) && entries == log[cursor..cursor + |entries|]
    case Rebasing(cursor, last, initial, entries, docs, next) =>
      && cursor <= last <= |log| && 1 <= next <= cursor + 1
      && BothRightAt(initial, log, cursor) && entries == log[cursor..last]
      && docs == At(log, next - 1)
    case Built(last, result) => BothRightAt(result, log, last)
    case FilterPut(last, result) => BothRightAt(result, log, last) && last in st.filterSegments
    case Ready(last) => last <= |log| && last in st.filterSegments && last in st.ftsSegments
  }

  ghost predicate IndexersOk(indexers: map<nat, Indexer>, st: Store, log: seq<Entry>) {
    forall i :: i in indexers ==> IndexerOk(indexers[i], st, log)
  }

  ghost predicate Inv(s: State) {
    StoreOk(s.store, s.log) && HolderOk(s.holder, s.store, s.log) && IndexersOk(s.indexers, s.store, s.log)
  }

  // ----- What survives a longer log and more segments -----

  lemma RightAtExtends(idx: Indexed, log: seq<Entry>, more: seq<Entry>, n: nat)
    requires RightAt(idx, log, n)
    ensures RightAt(idx, log + more, n)
  {
    AtPrefix(log, more, n);
  }

  ghost predicate Grows(st: Store, st': Store) {
    st.filterSegments.Keys <= st'.filterSegments.Keys && st.ftsSegments.Keys <= st'.ftsSegments.Keys
  }

  lemma IndexerExtends(ix: Indexer, st: Store, st': Store, log: seq<Entry>, more: seq<Entry>)
    requires IndexerOk(ix, st, log) && Grows(st, st')
    ensures IndexerOk(ix, st', log + more)
  {
    match ix
    case Opening(_, _) =>
    case OpeningFilter(seen, _, fts) => RightAtExtends(fts, log, more, seen.indexCursor);
    case Streaming(cursor, _, next, initial, current) =>
      BothExtends(initial, log, more, cursor);
      BothExtends(current, log, more, next - 1);
    case Rereading(_, _, _, _) => RecollectingExtends(ix, st, st', log, more);
    case Rebasing(_, _, _, _, _, _) => RecollectingExtends(ix, st, st', log, more);
    case Built(last, result) => BothExtends(result, log, more, last);
    case FilterPut(last, result) => BothExtends(result, log, more, last);
    case Ready(_) =>
  }

  lemma RecollectingExtends(ix: Indexer, st: Store, st': Store, log: seq<Entry>, more: seq<Entry>)
    requires (ix.Rereading? || ix.Rebasing?) && IndexerOk(ix, st, log)
    ensures IndexerOk(ix, st', log + more)
  {
    BothExtends(ix.initial, log, more, ix.cursor);
    var end := ix.cursor + |ix.entries|;
    assert (log + more)[ix.cursor..end] == log[ix.cursor..end];
    if ix.Rebasing? { AtPrefix(log, more, ix.next - 1); }
  }

  lemma BothExtends(ix: Indices, log: seq<Entry>, more: seq<Entry>, n: nat)
    requires BothRightAt(ix, log, n)
    ensures BothRightAt(ix, log + more, n)
  {
    RightAtExtends(ix.filter, log, more, n);
    RightAtExtends(ix.fts, log, more, n);
  }

  lemma IndexersExtend(indexers: map<nat, Indexer>, st: Store, st': Store, log: seq<Entry>, more: seq<Entry>)
    requires IndexersOk(indexers, st, log) && Grows(st, st')
    ensures IndexersOk(indexers, st', log + more)
  {
    forall i | i in indexers ensures IndexerOk(indexers[i], st', log + more) {
      IndexerExtends(indexers[i], st, st', log, more);
    }
  }

  lemma IndexersStay(indexers: map<nat, Indexer>, st: Store, st': Store, log: seq<Entry>)
    requires IndexersOk(indexers, st, log) && Grows(st, st')
    ensures IndexersOk(indexers, st', log)
  {
    IndexersExtend(indexers, st, st', log, []);
    assert log + [] == log;
  }

  // ----- Appends -----

  lemma BeginAppendKeeps(s: State, s': State, entry: Entry)
    requires Inv(s) && BeginAppend(s, s', entry)
    ensures Inv(s')
  {
  }

  lemma PutSegmentKeeps(s: State, s': State)
    requires Inv(s) && PutSegment(s, s')
    ensures Inv(s')
  {
    IndexersStay(s.indexers, s.store, s'.store, s.log);
  }

  lemma CommittedWalOk(st: Store, st': Store, log: seq<Entry>, entry: Entry)
    requires MetaOk(st, log) && WalOk(st, log) && |log| + 1 in st.wal && st.wal[|log| + 1] == entry
    requires st'.wal == st.wal && CurrentMeta(st') == CurrentMeta(st).(walCommitSeq := |log| + 1)
    ensures WalOk(st', log + [entry])
  {
    var log' := log + [entry];
    forall n | n in st.wal && 1 <= n <= |log'| ensures st.wal[n] == log'[n - 1] {
    }
  }

  lemma CommitAppendKeeps(s: State, s': State)
    requires Inv(s) && CommitAppend(s, s')
    ensures Inv(s')
  {
    var more := [s.holder.entry];
    CommittedWalOk(s.store, s'.store, s.log, s.holder.entry);
    SegmentsExtend(s.store, s'.store, s.log, more);
    IndexersExtend(s.indexers, s.store, s'.store, s.log, more);
    assert SnapshotOk(s'.store, s'.log) by {
      if s.store.snapshot.Some? { AtPrefix(s.log, more, s.store.snapshot.value.seqNo); }
    }
  }

  lemma SegmentsExtend(st: Store, st': Store, log: seq<Entry>, more: seq<Entry>)
    requires SegmentsOk(st, log) && st'.filterSegments == st.filterSegments && st'.ftsSegments == st.ftsSegments
    ensures SegmentsOk(st', log + more)
  {
    forall n | n in st.filterSegments ensures RightAt(st.filterSegments[n], log + more, n) {
      RightAtExtends(st.filterSegments[n], log, more, n);
    }
    forall n | n in st.ftsSegments ensures RightAt(st.ftsSegments[n], log + more, n) {
      RightAtExtends(st.ftsSegments[n], log, more, n);
    }
  }

  /** Under the commit lock the conflict path, which deletes a segment, is never taken. */
  lemma NoAppendConflict(s: State, s': State)
    requires Inv(s)
    ensures !ConflictAppend(s, s')
  {
  }

  // ----- Indexer passes -----

  lemma BeginIndexKeeps(s: State, s': State, i: nat, maxSegments: Option<nat>)
    requires Inv(s) && BeginIndex(s, s', i, maxSegments)
    ensures Inv(s')
  {
  }

  lemma EmptyRightAtZero(log: seq<Entry>)
    ensures RightAt(map[], log, 0)
  {
  }

  lemma LoadKeeps(s: State, s': State, i: nat)
    requires Inv(s) && (LoadFts(s, s', i) || LoadFilter(s, s', i))
    ensures Inv(s')
  {
    EmptyRightAtZero(s.log);
    var ix := s.indexers[i];
    assert RightAt(Loaded(s.store.ftsSegments, ix.seen.ftsSegmentId), s.log, ix.seen.indexCursor);
    assert RightAt(Loaded(s.store.filterSegments, ix.seen.filterSegmentId), s.log, ix.seen.indexCursor);
    assert IndexerOk(s'.indexers[i], s'.store, s'.log);
  }

  lemma StreamedRight(idx: Indexed, log: seq<Entry>, n: nat)
    requires RightAt(idx, log, n) && n < |log| && log[n].patches == []
    ensures RightAt(DeltaApplied(idx, Rows(log[n].upserts), log[n].deletes), log, n + 1)
  {
    StreamStep(idx, log[n]);
    ApplyKeepsLiveCorrect(idx, At(log, n), log[n]);
    AtNext(log, n);
  }

  /** An action that only moves indexer pass `i` on keeps the invariant if the pass is still in order. */
  lemma IndexerMoves(s: State, s': State, i: nat, ix: Indexer)
    requires Inv(s) && s' == s.(indexers := s.indexers[i := ix]) && IndexerOk(ix, s.store, s.log)
    ensures Inv(s')
  {
  }

  lemma StreamedOk(ix: Indexer, st: Store, log: seq<Entry>)
    requires ix.Streaming? && IndexerOk(ix, st, log) && ix.next <= ix.last && log[ix.next - 1].patches == []
    ensures IndexerOk(Streaming(ix.cursor, ix.last, ix.next + 1, ix.initial,
                                BothApplied(ix.current, Rows(log[ix.next - 1].upserts), log[ix.next - 1].deletes)),
              st, log)
  {
    StreamedRight(ix.current.filter, log, ix.next - 1);
    StreamedRight(ix.current.fts, log, ix.next - 1);
  }

  lemma StreamSegmentKeeps(s: State, s': State, i: nat)
    requires Inv(s) && StreamSegment(s, s', i)
    ensures Inv(s')
  {
    var ix := s.indexers[i];
    assert IndexerOk(ix, s.store, s.log);
    assert s.store.wal[ix.next] == s.log[ix.next - 1];
    if s.log[ix.next - 1].patches == [] { StreamedOk(ix, s.store, s.log); }
    IndexerMoves(s, s', i, s'.indexers[i]);
  }

  lemma EndStreamKeeps(s: State, s': State, i: nat)
    requires Inv(s) && EndStream(s, s', i)
    ensures Inv(s')
  {
    var ix := s.indexers[i];
    assert IndexerOk(ix, s.store, s.log);
    IndexerMoves(s, s', i, Built(ix.last, ix.current));
  }

  lemma RereadOk(ix: Indexer, st: Store, log: seq<Entry>)
    requires ix.Rereading? && IndexerOk(ix, st, log) && ix.cursor + |ix.entries| < ix.last
    ensures IndexerOk(Rereading(ix.cursor, ix.last, ix.initial, ix.entries + [log[ix.cursor + |ix.entries|]]), st, log)
  {
    var n := ix.cursor + |ix.entries|;
    assert log[ix.cursor..n + 1] == log[ix.cursor..n] + [log[n]];
  }

  lemma RereadSegmentKeeps(s: State, s': State, i: nat)
    requires Inv(s) && RereadSegment(s, s', i)
    ensures Inv(s')
  {
    var ix := s.indexers[i];
    assert IndexerOk(ix, s.store, s.log);
    var n := ix.cursor + |ix.entries|;
    SegmentLogged(s, n);
    RereadOk(ix, s.store, s.log);
    IndexerMoves(s, s', i, Rereading(ix.cursor, ix.last, ix.initial, ix.entries + [s.log[n]]));
  }

  lemma SegmentLogged(s: State, n: nat)
    requires Inv(s) && n < |s.log| && n + 1 in s.store.wal
    ensures s.store.wal[n + 1] == s.log[n]
  {
  }

  lemma ReadBaselineKeeps(s: State, s': State, i: nat)
    requires Inv(s) && ReadBaseline(s, s', i)
    ensures Inv(s')
  {
    var ix := s.indexers[i];
    assert IndexerOk(ix, s.store, s.log);
    BaselineOk(ix, s.store, s.log);
    IndexerMoves(s, s', i, s'.indexers[i]);
  }

  lemma BaselineOk(ix: Indexer, st: Store, log: seq<Entry>)
    requires ix.Rereading? && IndexerOk(ix, st, log) && ix.cursor + |ix.entries| == ix.last
    requires GenuineSnapshot(st.snapshot, log)
    ensures IndexerOk(Rebasing(ix.cursor, ix.last, ix.initial, ix.entries, map[], 1), st, log)
    ensures st.snapshot.Some? && st.snapshot.value.seqNo <= ix.cursor ==>
      IndexerOk(Rebasing(ix.cursor, ix.last, ix.initial, ix.entries, IntoDocs(st.snapshot.value),
                         st.snapshot.value.seqNo + 1), st, log)
  {
  }

  lemma ReplayBaselineKeeps(s: State, s': State, i: nat)
    requires Inv(s) && ReplayBaseline(s, s', i)
    ensures Inv(s')
  {
    var ix := s.indexers[i];
    assert IndexerOk(ix, s.store, s.log);
    assert s.store.wal[ix.next] == s.log[ix.next - 1];
    AtNext(s.log, ix.next - 1);
    IndexerMoves(s, s', i, Rebasing(ix.cursor, ix.last, ix.initial, ix.entries, At(s.log, ix.next), ix.next + 1));
  }

  lemma CollectedRight(idx: Indexed, log: seq<Entry>, cursor: nat, last: nat, rows: seq<Row>)
    requires RightAt(idx, log, cursor) && cursor <= last <= |log|
    requires RowsOf(rows, Collected(At(log, cursor), log[cursor..last]))
    ensures RightAt(DeltaApplied(idx, rows, AllDeletes(log[cursor..last])), log, last)
  {
    CollectedDeltaLiveCorrect(idx, At(log, cursor), log[cursor..last], rows);
    ReplayFrom(log, cursor, last);
  }

  lemma CollectDeltaKeeps(s: State, s': State, i: nat, rows: seq<Row>)
    requires Inv(s) && CollectDelta(s, s', i, rows)
    ensures Inv(s')
  {
    var ix := s.indexers[i];
    CollectedOk(ix, s.store, s.log, rows);
    IndexerMoves(s, s', i, Built(ix.last, BothApplied(ix.initial, rows, AllDeletes(ix.entries))));
  }

  lemma CollectedOk(ix: Indexer, st: Store, log: seq<Entry>, rows: seq<Row>)
    requires ix.Rebasing? && IndexerOk(ix, st, log) && ix.next > ix.cursor
    requires RowsOf(rows, Collected(ix.docs, ix.entries))
    ensures IndexerOk(Built(ix.last, BothApplied(ix.initial, rows, AllDeletes(ix.entries))), st, log)
  {
    CollectedRight(ix.initial.filter, log, ix.cursor, ix.last, rows);
    CollectedRight(ix.initial.fts, log, ix.cursor, ix.last, rows);
  }

  /** A segment put at the number its index is right at leaves the store in order. */
  lemma SegmentPut(st: Store, st': Store, log: seq<Entry>, n: nat, idx: Indexed)
    requires StoreOk(st, log) && RightAt(idx, log, n)
    requires st' == st.(filterSegments := st.filterSegments[n := idx]) ||
      st' == st.(ftsSegments := st.ftsSegments[n := idx])
    ensures StoreOk(st', log) && Grows(st, st')
  {
  }

  lemma PutFilterSegmentKeeps(s: State, s': State, i: nat)
    requires Inv(s) && PutFilterSegment(s, s', i)
    ensures Inv(s')
  {
    var ix := s.indexers[i];
    assert IndexerOk(ix, s.store, s.log);
    SegmentPut(s.store, s'.store, s.log, ix.last, ix.result.filter);
    IndexersStay(s.indexers, s.store, s'.store, s.log);
    assert IndexerOk(s'.indexers[i], s'.store, s'.log);
  }

  lemma PutFtsSegmentKeeps(s: State, s': State, i: nat)
    requires Inv(s) && PutFtsSegment(s, s', i)
    ensures Inv(s')
  {
    var ix := s.indexers[i];
    assert IndexerOk(ix, s.store, s.log);
    SegmentPut(s.store, s'.store, s.log, ix.last, ix.result.fts);
    IndexersStay(s.indexers, s.store, s'.store, s.log);
    assert IndexerOk(s'.indexers[i], s'.store, s'.log);
  }

  lemma BeginIndexCommitKeeps(s: State, s': State, i: nat)
    requires Inv(s) && BeginIndexCommit(s, s', i)
    ensures Inv(s')
  {
    assert IndexerOk(s.indexers[i], s.store, s.log);
  }

  lemma CommitIndexKeeps(s: State, s': State)
    requires Inv(s) && CommitIndex(s, s')
    ensures Inv(s')
  {
    IndexersStay(s.indexers, s.store, s'.store, s.log);
  }

  // ----- Compaction -----

  /** A compaction can always rebuild the documents it snapshots. */
  lemma CompactionReads(s: State)
    requires Inv(s)
    ensures DocsAtCursor(s.store.snapshot, s.store.wal, CurrentMeta(s.store).indexCursor)
         == Ok(At(s.log, CurrentMeta(s.store).indexCursor))
  {
    DocsAtCursorCorrect(s.store.snapshot, s.store.wal, CurrentMeta(s.store).indexCursor, s.log);
  }

  lemma BeginCompactKeeps(s: State, s': State)
    requires Inv(s) && BeginCompact(s, s')
    ensures Inv(s')
  {
  }

  lemma PutSnapshotKeeps(s: State, s': State, rows: seq<Document>)
    requires Inv(s) && PutSnapshot(s, s', rows)
    ensures Inv(s')
  {
    CompactionReads(s);
    AtKeyed(s.log, s.holder.seen.indexCursor);
    SnapshotRoundTrip(At(s.log, s.holder.seen.indexCursor), rows);
    IndexersStay(s.indexers, s.store, s'.store, s.log);
  }

  lemma CommitCompactKeeps(s: State, s': State)
    requires Inv(s) && CommitCompact(s, s')
    ensures Inv(s')
  {
    IndexersStay(s.indexers, s.store, s'.store, s.log);
  }

  lemma DeleteSegmentKeeps(s: State, s': State, succeeds: bool)
    requires Inv(s) && DeleteSegment(s, s', succeeds)
    ensures Inv(s')
  {
    IndexersStay(s.indexers, s.store, s'.store, s.log);
  }

  // ----- Every run -----

  lemma InitInv(s: State)
    requires Init(s)
    ensures Inv(s)
  {
  }

  /** Stopping half-way keeps it: everything on the store is in order at every moment. */
  lemma FailureKeeps(s: State, s': State)
    requires Inv(s) && s'.store == s.store && s'.log == s.log
    requires s'.holder == s.holder || s'.holder.Free?
    requires forall i :: i in s'.indexers ==> i in s.indexers && s'.indexers[i] == s.indexers[i]
    ensures Inv(s')
  {
  }

  predicate IsIndexing(a: Action) {
    || a.ABeginIndex? || a.ALoadFts? || a.ALoadFilter? || a.AStreamSegment? || a.AEndStream? || a.ARereadSegment?
    || a.AReadBaseline? || a.AReplayBaseline? || a.ACollectDelta? || a.APutFilterSegment? || a.APutFtsSegment?
  }

  lemma IndexingKeepsInv(s: State, a: Action, s': State)
    requires Inv(s) && Step(s, a, s') && IsIndexing(a)
    ensures Inv(s')
  {
    match a
    case ABeginIndex(i, m) => BeginIndexKeeps(s, s', i, m);
    case ALoadFts(i) => LoadKeeps(s, s', i);
    case ALoadFilter(i) => LoadKeeps(s, s', i);
    case AStreamSegment(i) => StreamSegmentKeeps(s, s', i);
    case AEndStream(i) => EndStreamKeeps(s, s', i);
    case ARereadSegment(i) => RereadSegmentKeeps(s, s', i);
    case AReadBaseline(i) => ReadBaselineKeeps(s, s', i);
    case AReplayBaseline(i) => ReplayBaselineKeeps(s, s', i);
    case ACollectDelta(i, rows) => CollectDeltaKeeps(s, s', i, rows);
    case APutFilterSegment(i) => PutFilterSegmentKeeps(s, s', i);
    case APutFtsSegment(i) => PutFtsSegmentKeeps(s, s', i);
  }

  predicate IsFailure(a: Action) {
    a.AAbandon? || a.AAbandonIndexer? || a.ACrash?
  }

  lemma FailureKeepsInv(s: State, a: Action, s': State)
    requires Inv(s) && Step(s, a, s') && IsFailure(a)
    ensures Inv(s')
  {
    if a.AAbandon? {
      FailureKeeps(s, s');
    } else if a.AAbandonIndexer? {
      FailureKeeps(s, s');
    } else {
      FailureKeeps(s, s');
    }
  }

  lemma LockedKeepsInv(s: State, a: Action, s': State)
    requires Inv(s) && Step(s, a, s') && !IsIndexing(a) && !IsFailure(a)
    ensures Inv(s')
  {
    if a.ABeginAppend? {
      BeginAppendKeeps(s, s', a.entry);
    } else if a.APutSegment? {
      PutSegmentKeeps(s, s');
    } else if a.ACommitAppend? {
      CommitAppendKeeps(s, s');
    } else if a.AConflictAppend? {
      NoAppendConflict(s, s');
    } else if a.ABeginIndexCommit? {
      BeginIndexCommitKeeps(s, s', a.i);
    } else if a.ACommitIndex? {
      CommitIndexKeeps(s, s');
    } else if a.ABeginCompact? {
      BeginCompactKeeps(s, s');
    } else if a.APutSnapshot? {
      PutSnapshotKeeps(s, s', a.docs);
    } else if a.ACommitCompact? {
      CommitCompactKeeps(s, s');
    } else {
      DeleteSegmentKeeps(s, s', a.succeeds);
    }
  }

  /** Every action keeps the invariant. */
  lemma StepKeepsInv(s: State, a: Action, s': State)
    requires Inv(s) && Step(s, a, s')
    ensures Inv(s')
  {
    if IsIndexing(a) {
      IndexingKeepsInv(s, a, s');
    } else if IsFailure(a) {
      FailureKeepsInv(s, a, s');
    } else {
      LockedKeepsInv(s, a, s');
    }
  }

  /** The invariant holds at every state of every run. */
  lemma {:induction false} RunInv(states: seq<State>, actions: seq<Action>, k: nat)
    requires IsRun(states, actions) && k < |states|
    ensures Inv(states[k])
  {
    if k == 0 {
      InitInv(states[0]);
    } else {
      RunInv(states, actions, k - 1);
      StepKeepsInv(states[k - 1], actions[k - 1], states[k]);
    }
  }

  lemma ReachableInv(s: State)
    requires Reachable(s)
    ensures Inv(s)
  {
    var states, actions :| IsRun(states, actions) && states[|states| - 1] == s;
    RunInv(states, actions, |states| - 1);
  }

  // ----- Nothing moves backwards -----

  ghost predicate Advances(s: State, s': State) {
    var m, m' := CurrentMeta(s.store), CurrentMeta(s'.store);
    && s.log <= s'.log
    && m.walCommitSeq <= m'.walCommitSeq
    && m.indexCursor <= m'.indexCursor
    && m.walSnapshotSeq <= m'.walSnapshotSeq
    && (s.store.snapshot.Some? ==>
      s'.store.snapshot.Some? && s.store.snapshot.value.seqNo <= s'.store.snapshot.value.seqNo)
  }

  /** Actions that leave the log, `meta.json` and the snapshot object alone. */
  predicate Quiet(a: Action) {
    !(a.ACommitAppend? || a.AConflictAppend? || a.ACommitIndex? || a.APutSnapshot? || a.ACommitCompact?)
  }

  lemma QuietStep(s: State, a: Action, s': State)
    requires Step(s, a, s') && Quiet(a)
    ensures s'.log == s.log && s'.store.meta == s.store.meta && s'.store.snapshot == s.store.snapshot
  {
  }

  lemma StepAdvances(s: State, a: Action, s': State)
    requires Inv(s) && Step(s, a, s')
    ensures Advances(s, s')
  {
    if Quiet(a) {
      QuietStep(s, a, s');
    } else if a.AConflictAppend? {
      NoAppendConflict(s, s');
    }
  }

  lemma AdvancesTransitive(a: State, b: State, c: State)
    requires Advances(a, b) && Advances(b, c)
    ensures Advances(a, c)
  {
  }

  lemma RunStepAdvances(states: seq<State>, actions: seq<Action>, k: nat)
    requires IsRun(states, actions) && k < |actions|
    ensures Advances(states[k], states[k + 1])
  {
    RunInv(states, actions, k);
    StepAdvances(states[k], actions[k], states[k + 1]);
  }

  lemma {:induction false} ChainAdvances(states: seq<State>, i: nat, j: nat)
    requires i <= j < |states| && forall k :: 0 <= k < |states| - 1 ==> Advances(states[k], states[k + 1])
    ensures Advances(states[i], states[j])
  {
    if i < j {
      ChainAdvances(states, i, j - 1);
      assert Advances(states[j - 1], states[j - 1 + 1]);
      AdvancesTransitive(states[i], states[j - 1], states[j]);
    }
  }

  /** Along a run the log only grows and the commit point, the index cursor, the recorded snapshot
      and the snapshot object only move forward. */
  lemma RunAdvances(states: seq<State>, actions: seq<Action>, i: nat, j: nat)
    requires IsRun(states, actions) && i <= j < |states|
    ensures Advances(states[i], states[j])
  {
    forall k | 0 <= k < |states| - 1 ensures Advances(states[k], states[k + 1]) {
      RunStepAdvances(states, actions, k);
    }
    ChainAdvances(states, i, j);
  }
}
