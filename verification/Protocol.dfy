/** The log, index and compaction protocol of one namespace, as a state machine.

    The object store holds `meta.json` (replaced by compare-and-swap on its version), the log
    segments, the snapshot, and the filter and full-text segments.  One process runs appends, any
    number of indexer passes, and compactions.  Its commit lock (`src/commit_lock.rs`) serialises
    appends, index commits and compactions; the read phase of an indexer pass and all readers are
    unlocked.  Each action below is one request to the store, or the local work between two
    requests; an action may be the last thing its operation ever does (`Abandon`, `AbandonIndexer`,
    `Crash`), so operations stop between any two requests.

    `log` is the history of committed entries and belongs to the specification only.
 */
module Protocol {
  import opened Documents
  import opened Replay
  import opened Meta
  import opened WalReads
  import opened IndexDelta

  /** The contents of a filter segment and of a full-text segment. */
  datatype Indices = Indices(filter: Indexed, fts: Indexed)

  datatype Store = Store(
    meta: Option<NamespaceMeta>,
    version: nat,
    wal: Segments,
    snapshot: Option<Snapshot>,
    filterSegments: map<nat, Indexed>,
    ftsSegments: map<nat, Indexed>)

  /** Who holds the commit lock, and how far it has got. */
  datatype Holder =
    | Free
    | Appending(entry: Entry, seen: NamespaceMeta, version: nat, written: bool)
    | Committing(who: nat, last: nat, seen: NamespaceMeta, version: nat)
    | Compacting(seen: NamespaceMeta, version: nat, snapshotPut: bool)
    | Deleting(cursor: nat, next: nat)

  /** One indexer pass. */
  datatype Indexer =
    | Opening(seen: NamespaceMeta, last: nat)
    | OpeningFilter(seen: NamespaceMeta, last: nat, fts: Indexed)
    | Streaming(cursor: nat, last: nat, next: nat, initial: Indices, current: Indices)
    | Rereading(cursor: nat, last: nat, initial: Indices, entries: seq<Entry>)
    | Rebasing(cursor: nat, last: nat, initial: Indices, entries: seq<Entry>, docs: DocMap, next: nat)
    | Built(last: nat, result: Indices)
    | FilterPut(last: nat, result: Indices)
    | Ready(last: nat)

  datatype State = State(store: Store, holder: Holder, indexers: map<nat, Indexer>, log: seq<Entry>)

  function CurrentMeta(st: Store): NamespaceMeta {
    if st.meta.Some? then st.meta.value else EMPTY_META
  }

  predicate Init(s: State) {
    s == State(Store(None, 0, map[], None, map[], map[]), Free, map[], [])
  }

  function WithMeta(st: Store, meta: NamespaceMeta): Store {
    st.(meta := Some(meta), version := st.version + 1)
  }

  // ----- append_wal -----

  predicate BeginAppend(s: State, s': State, entry: Entry) {
    && s.holder.Free?
    && s' == s.(holder := Appending(entry, CurrentMeta(s.store), s.store.version, false))
  }

  predicate PutSegment(s: State, s': State) {
    && s.holder.Appending? && !s.holder.written
    && s' == s.(store := s.store.(wal := s.store.wal[NextWalSeq(s.holder.seen) := s.holder.entry]),
                holder := s.holder.(written := true))
  }

  predicate CommitAppend(s: State, s': State) {
    && s.holder.Appending? && s.holder.written && s.holder.version == s.store.version
    && var next := MetaAfterWalCommit(s.holder.seen, NextWalSeq(s.holder.seen));
    && next.Ok?
    && s' == s.(store := WithMeta(s.store, next.value), holder := Free, log := s.log + [s.holder.entry])
  }

  /** The conflict path: delete the segment just written, read `meta.json` again, retry. */
  predicate ConflictAppend(s: State, s': State) {
    && s.holder.Appending? && s.holder.written && s.holder.version != s.store.version
    && s' == s.(store := s.store.(wal := s.store.wal - {NextWalSeq(s.holder.seen)}),
                holder := Appending(s.holder.entry, CurrentMeta(s.store), s.store.version, false))
  }

  // ----- index_wal_range -----

  predicate BeginIndex(s: State, s': State, i: nat, maxSegments: Option<nat>) {
    var meta := CurrentMeta(s.store);
    && i !in s.indexers && meta.indexCursor < meta.walCommitSeq
    && var from := meta.indexCursor + 1;
    && var capped := if maxSegments.None? then meta.walCommitSeq
                     else from + (if maxSegments.value == 0 then 0 else maxSegments.value - 1);
    && var last := if capped < meta.walCommitSeq then capped else meta.walCommitSeq;
    && s' == s.(indexers := s.indexers[i := Opening(meta, last)])
  }

  function Loaded(segments: map<nat, Indexed>, id: nat): Indexed {
    if id != 0 && id in segments then segments[id] else map[]
  }

  predicate LoadFts(s: State, s': State, i: nat) {
    && i in s.indexers && s.indexers[i].Opening?
    && var ix := s.indexers[i];
    && s' == s.(indexers := s.indexers[i := OpeningFilter(ix.seen, ix.last,
                                                          Loaded(s.store.ftsSegments, ix.seen.ftsSegmentId))])
  }

  predicate LoadFilter(s: State, s': State, i: nat) {
    && i in s.indexers && s.indexers[i].OpeningFilter?
    && var ix := s.indexers[i];
    && var loaded := Indices(Loaded(s.store.filterSegments, ix.seen.filterSegmentId), ix.fts);
    && s' == s.(indexers := s.indexers[i := Streaming(ix.seen.indexCursor, ix.last, ix.seen.indexCursor + 1, loaded,
                                                      loaded)])
  }

  function BothApplied(ix: Indices, upserts: seq<Row>, deletes: seq<Id>): Indices {
    Indices(DeltaApplied(ix.filter, upserts, deletes), DeltaApplied(ix.fts, upserts, deletes))
  }

  /** Read one segment; a patch in it sends the pass back to recollect the whole range. */
  predicate StreamSegment(s: State, s': State, i: nat) {
    && i in s.indexers && s.indexers[i].Streaming?
    && var ix := s.indexers[i];
    && ix.next <= ix.last && ix.next in s.store.wal
    && var entry := s.store.wal[ix.next];
    && s' == s.(indexers := s.indexers[i :=
         if entry.patches != [] then Rereading(ix.cursor, ix.last, ix.initial, [])
         else ix.(current := BothApplied(ix.current, Rows(entry.upserts), entry.deletes), next := ix.next + 1)])
  }

  predicate EndStream(s: State, s': State, i: nat) {
    && i in s.indexers && s.indexers[i].Streaming? && s.indexers[i].next > s.indexers[i].last
    && s' == s.(indexers := s.indexers[i := Built(s.indexers[i].last, s.indexers[i].current)])
  }

  predicate RereadSegment(s: State, s': State, i: nat) {
    && i in s.indexers && s.indexers[i].Rereading?
    && var ix := s.indexers[i];
    && var n := ix.cursor + 1 + |ix.entries|;
    && n <= ix.last && n in s.store.wal
    && s' == s.(indexers := s.indexers[i := Rereading(ix.cursor, ix.last, ix.initial, ix.entries + [s.store.wal[n]])])
  }

  /** Read the snapshot, the first request of `docs_at_index_cursor`. */
  predicate ReadBaseline(s: State, s': State, i: nat) {
    && i in s.indexers && s.indexers[i].Rereading?
    && var ix := s.indexers[i];
    && ix.cursor + |ix.entries| == ix.last
    && var snap := s.store.snapshot;
    && var use := ix.cursor > 0 && snap.Some? && snap.value.seqNo <= ix.cursor;
    && s' == s.(indexers := s.indexers[i := Rebasing(ix.cursor, ix.last, ix.initial, ix.entries,
         if use then IntoDocs(snap.value) else map[], if use then snap.value.seqNo + 1 else 1)])
  }

  predicate ReplayBaseline(s: State, s': State, i: nat) {
    && i in s.indexers && s.indexers[i].Rebasing?
    && var ix := s.indexers[i];
    && ix.next <= ix.cursor && ix.next in s.store.wal
    && s' == s.(indexers := s.indexers[i := ix.(docs := ApplyEntry(ix.docs, s.store.wal[ix.next]),
                                                next := ix.next + 1)])
  }

  /** Collect the delta; the rows come in any order. */
  ghost predicate CollectDelta(s: State, s': State, i: nat, rows: seq<Row>) {
    && i in s.indexers && s.indexers[i].Rebasing?
    && var ix := s.indexers[i];
    && ix.next > ix.cursor && RowsOf(rows, Collected(ix.docs, ix.entries))
    && s' == s.(indexers := s.indexers[i := Built(ix.last, BothApplied(ix.initial, rows, AllDeletes(ix.entries)))])
  }

  predicate PutFilterSegment(s: State, s': State, i: nat) {
    && i in s.indexers && s.indexers[i].Built?
    && var ix := s.indexers[i];
    && s' == s.(store := s.store.(filterSegments := s.store.filterSegments[ix.last := ix.result.filter]),
                indexers := s.indexers[i := FilterPut(ix.last, ix.result)])
  }

  predicate PutFtsSegment(s: State, s': State, i: nat) {
    && i in s.indexers && s.indexers[i].FilterPut?
    && var ix := s.indexers[i];
    && s' == s.(store := s.store.(ftsSegments := s.store.ftsSegments[ix.last := ix.result.fts]),
                indexers := s.indexers[i := Ready(ix.last)])
  }

  /** Take the lock and re-read `meta.json`; a pass overtaken by another one stops here. */
  predicate BeginIndexCommit(s: State, s': State, i: nat) {
    && s.holder.Free? && i in s.indexers && s.indexers[i].Ready?
    && var last, meta := s.indexers[i].last, CurrentMeta(s.store);
    && s' == if meta.indexCursor < last <= meta.walCommitSeq
             then s.(holder := Committing(i, last, meta, s.store.version), indexers := s.indexers - {i})
             else s.(indexers := s.indexers - {i})
  }

  predicate CommitIndex(s: State, s': State) {
    && s.holder.Committing? && s.holder.version == s.store.version
    && var next := MetaAfterIndexCommit(s.holder.seen, s.holder.last, s.holder.last, s.holder.last);
    && next.Ok?
    && s' == s.(store := WithMeta(s.store, next.value), holder := Free)
  }

  // ----- maybe_compact_wal -----

  predicate BeginCompact(s: State, s': State) {
    && s.holder.Free? && s.store.meta.Some? && NeedsWalCompaction(CurrentMeta(s.store))
    && s' == s.(holder := Compacting(CurrentMeta(s.store), s.store.version, false))
  }

  ghost predicate PutSnapshot(s: State, s': State, rows: seq<Document>) {
    && s.holder.Compacting? && !s.holder.snapshotPut
    && var cursor := s.holder.seen.indexCursor;
    && var docs := DocsAtCursor(s.store.snapshot, s.store.wal, cursor);
    && docs.Ok? && Lists(rows, docs.value)
    && s' == s.(store := s.store.(snapshot := Some(Snapshot(cursor, rows))), holder := s.holder.(snapshotPut := true))
  }

  predicate CommitCompact(s: State, s': State) {
    && s.holder.Compacting? && s.holder.snapshotPut && s.holder.version == s.store.version
    && var cursor := s.holder.seen.indexCursor;
    && s' == s.(store := WithMeta(s.store, s.holder.seen.(walSnapshotSeq := cursor)), holder := Deleting(cursor, 1))
  }

  /** Delete the next segment; a failed delete is logged and skipped. */
  predicate DeleteSegment(s: State, s': State, succeeds: bool) {
    && s.holder.Deleting? && s.holder.next + WAL_COMPACT_KEEP <= s.holder.cursor
    && s' == s.(store := if succeeds then s.store.(wal := s.store.wal - {s.holder.next}) else s.store,
                holder := s.holder.(next := s.holder.next + 1))
  }

  // ----- Failures -----

  predicate Abandon(s: State, s': State) {
    s' == s.(holder := Free)
  }

  predicate AbandonIndexer(s: State, s': State, i: nat) {
    s' == s.(indexers := s.indexers - {i})
  }

  predicate Crash(s: State, s': State) {
    s' == s.(holder := Free, indexers := map[])
  }

  datatype Action =
    | ABeginAppend(entry: Entry) | APutSegment | ACommitAppend | AConflictAppend
    | ABeginIndex(i: nat, maxSegments: Option<nat>) | ALoadFts(i: nat) | ALoadFilter(i: nat)
    | AStreamSegment(i: nat) | AEndStream(i: nat)
    | ARereadSegment(i: nat) | AReadBaseline(i: nat) | AReplayBaseline(i: nat) | ACollectDelta(i: nat, rows: seq<Row>)
    | APutFilterSegment(i: nat) | APutFtsSegment(i: nat) | ABeginIndexCommit(i: nat) | ACommitIndex
    | ABeginCompact | APutSnapshot(docs: seq<Document>) | ACommitCompact | ADeleteSegment(succeeds: bool)
    | AAbandon | AAbandonIndexer(i: nat) | ACrash

  ghost predicate Step(s: State, a: Action, s': State) {
    match a
    case ABeginAppend(entry) => BeginAppend(s, s', entry)
    case APutSegment => PutSegment(s, s')
    case ACommitAppend => CommitAppend(s, s')
    case AConflictAppend => ConflictAppend(s, s')
    case ABeginIndex(i, m) => BeginIndex(s, s', i, m)
    case ALoadFts(i) => LoadFts(s, s', i)
    case ALoadFilter(i) => LoadFilter(s, s', i)
    case AStreamSegment(i) => StreamSegment(s, s', i)
    case AEndStream(i) => EndStream(s, s', i)
    case ARereadSegment(i) => RereadSegment(s, s', i)
    case AReadBaseline(i) => ReadBaseline(s, s', i)
    case AReplayBaseline(i) => ReplayBaseline(s, s', i)
    case ACollectDelta(i, rows) => CollectDelta(s, s', i, rows)
    case APutFilterSegment(i) => PutFilterSegment(s, s', i)
    case APutFtsSegment(i) => PutFtsSegment(s, s', i)
    case ABeginIndexCommit(i) => BeginIndexCommit(s, s', i)
    case ACommitIndex => CommitIndex(s, s')
    case ABeginCompact => BeginCompact(s, s')
    case APutSnapshot(rows) => PutSnapshot(s, s', rows)
    case ACommitCompact => CommitCompact(s, s')
    case ADeleteSegment(succeeds) => DeleteSegment(s, s', succeeds)
    case AAbandon => Abandon(s, s')
    case AAbandonIndexer(i) => AbandonIndexer(s, s', i)
    case ACrash => Crash(s, s')
  }

  /** A run: states joined by actions, from the empty namespace. */
  ghost predicate IsRun(states: seq<State>, actions: seq<Action>) {
    && |states| == |actions| + 1
    && Init(states[0])
    && forall k :: 0 <= k < |actions| ==> Step(states[k], actions[k], states[k + 1])
  }

  ghost predicate Reachable(s: State) {
    exists states, actions :: IsRun(states, actions) && states[|states| - 1] == s
  }
}
