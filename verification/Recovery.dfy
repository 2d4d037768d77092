/** What the loaders get back from any reachable store. */
module Recovery {
  import opened Documents
  import opened Replay
  import opened Meta
  import opened WalReads
  import opened IndexDelta
  import opened Protocol
  import opened ProtocolProofs

  /** At every reachable store, including in the middle of a compaction or after a crash in one,
      `load_docs_at_wal_commit` returns the documents at the commit point if the snapshot object is
      the one recorded in `meta.json` or no log segment has been deleted yet; in the remaining case
      it fails, and it never returns anything else. */
  lemma LoadAtReachable(s: State)
    requires Reachable(s)
    ensures var meta := CurrentMeta(s.store);
      LoadedAtCommit(meta, s.store.snapshot, s.store.wal) ==
      if (s.store.snapshot.Some? && s.store.snapshot.value.seqNo == meta.walSnapshotSeq) ||
        HasRange(s.store.wal, 1, |s.log|)
      then Ok((At(s.log, |s.log|), |s.log|))
      else Err
  {
    ReachableInv(s);
    LoadedAtCommitCorrect(CurrentMeta(s.store), s.store.snapshot, s.store.wal, s.log);
  }

  /** The batched cold load, from any single reachable store, names no deleted segment and returns
      the documents at the commit point. */
  lemma ColdLoadAtReachable(s: State)
    requires Reachable(s)
    ensures ColdKeysPresent(CurrentMeta(s.store), s.store.snapshot, s.store.wal)
    ensures ColdLoaded(CurrentMeta(s.store), s.store.snapshot, s.store.wal) == Ok(At(s.log, |s.log|))
  {
    ReachableInv(s);
    ColdLoadedCorrect(CurrentMeta(s.store), s.store.snapshot, s.store.wal, s.log);
  }

  /** Each segment was found in the store of some state of the run, no earlier than state `i`. */
  ghost predicate ReadDuring(wal: Segments, states: seq<State>, i: nat) {
    forall n :: n in wal ==>
      exists t :: i <= t < |states| && n in states[t].store.wal && states[t].store.wal[n] == wal[n]
  }

  lemma SegmentReadIsLogged(states: seq<State>, actions: seq<Action>, i: nat, t: nat, n: nat)
    requires IsRun(states, actions) && i <= t < |states| && n in states[t].store.wal && 1 <= n <= |states[i].log|
    ensures n <= |states[|states| - 1].log| && states[t].store.wal[n] == states[|states| - 1].log[n - 1]
  {
    RunInv(states, actions, t);
    RunAdvances(states, actions, i, t);
    RunAdvances(states, actions, t, |states| - 1);
  }

  /** Segments read during a run, up to the commit point it started from, are the logged ones. */
  lemma ReadDuringGenuine(wal: Segments, states: seq<State>, actions: seq<Action>, i: nat)
    requires IsRun(states, actions) && i < |states| && ReadDuring(wal, states, i)
    requires forall n :: n in wal ==> n <= |states[i].log|
    ensures GenuineSegments(wal, states[|states| - 1].log)
  {
    forall n | n in wal && 1 <= n <= |states[|states| - 1].log| ensures wal[n] == states[|states| - 1].log[n - 1] {
      var t :| i <= t < |states| && n in states[t].store.wal && states[t].store.wal[n] == wal[n];
      SegmentReadIsLogged(states, actions, i, t, n);
    }
  }

  /** A snapshot read during a run holds the documents at its number of the final log. */
  lemma SnapshotReadIsGenuine(states: seq<State>, actions: seq<Action>, i: nat, j: nat)
    requires IsRun(states, actions) && i <= j < |states|
    ensures GenuineSnapshot(states[j].store.snapshot, states[|states| - 1].log)
    ensures states[j].store.snapshot.None? ==> CurrentMeta(states[i].store).walSnapshotSeq == 0
    ensures states[j].store.snapshot.Some? ==>
      CurrentMeta(states[i].store).walSnapshotSeq <= states[j].store.snapshot.value.seqNo
  {
    var log, snap := states[|states| - 1].log, states[j].store.snapshot;
    RunInv(states, actions, j);
    RunAdvances(states, actions, i, j);
    RunAdvances(states, actions, j, |states| - 1);
    assert log == states[j].log + log[|states[j].log|..];
    if snap.Some? { AtPrefix(states[j].log, log[|states[j].log|..], snap.value.seqNo); }
  }

  /** A cold load whose requests are spread over a run: `meta.json` read at state `i`, the snapshot at
      a later state `j`, each segment at some state not before `i`.  It fails, or it returns the
      documents at the commit point it read, or at the number of the snapshot it found if that
      snapshot is newer. */
  lemma InterleavedColdLoad(states: seq<State>, actions: seq<Action>, i: nat, j: nat, wal: Segments)
    requires IsRun(states, actions) && i <= j < |states| && ReadDuring(wal, states, i)
    requires forall n :: n in wal ==> n <= |states[i].log|
    ensures var meta, snap := CurrentMeta(states[i].store), states[j].store.snapshot;
      var log := states[|states| - 1].log;
      var reached := if ColdStart(meta, snap) > meta.walCommitSeq then ColdStart(meta, snap) else meta.walCommitSeq;
      && meta.walCommitSeq <= reached <= |log|
      && (ColdLoaded(meta, snap, wal).Ok? ==> ColdLoaded(meta, snap, wal).value == At(log, reached))
  {
    RunInv(states, actions, i);
    RunAdvances(states, actions, i, |states| - 1);
    SnapshotReadIsGenuine(states, actions, i, j);
    ReadDuringGenuine(wal, states, actions, i);
    ColdLoadedCorrect(CurrentMeta(states[i].store), states[j].store.snapshot, wal, states[|states| - 1].log);
  }

  // ----- The failing case of load_docs_at_wal_commit is reachable -----

  /** A run ends in `s` and has been in `from`. */
  ghost predicate Passed(from: State, s: State) {
    exists states, actions, i :: RunThrough(states, actions, i, from, s)
  }

  ghost predicate RunThrough(states: seq<State>, actions: seq<Action>, i: int, from: State, s: State) {
    IsRun(states, actions) && 0 <= i < |states| && states[i] == from && states[|states| - 1] == s
  }

  lemma RunGrows(states: seq<State>, actions: seq<Action>, a: Action, s': State)
    requires IsRun(states, actions) && Step(states[|states| - 1], a, s')
    ensures IsRun(states + [s'], actions + [a])
  {
    var states', actions' := states + [s'], actions + [a];
    forall k | 0 <= k < |actions'| ensures Step(states'[k], actions'[k], states'[k + 1]) {
      if k < |actions| {
        assert Step(states[k], actions[k], states[k + 1]);
      }
    }
  }

  lemma ReachableStep(s: State, a: Action, s': State)
    requires Reachable(s) && Step(s, a, s')
    ensures Reachable(s')
    ensures forall from :: Passed(from, s) ==> Passed(from, s')
  {
    var states, actions :| IsRun(states, actions) && states[|states| - 1] == s;
    RunGrows(states, actions, a, s');
    assert IsRun(states + [s'], actions + [a]);
    forall from | Passed(from, s) ensures Passed(from, s') {
      var states1, actions1, i :| RunThrough(states1, actions1, i, from, s);
      RunGrows(states1, actions1, a, s');
      assert RunThrough(states1 + [s'], actions1 + [a], i, from, s');
    }
  }

  lemma PassedItself(s: State)
    requires Reachable(s)
    ensures Passed(s, s)
  {
    var states, actions :| IsRun(states, actions) && states[|states| - 1] == s;
    assert RunThrough(states, actions, |states| - 1, s, s);
  }

  predicate NoPatches(log: seq<Entry>) {
    forall n :: 0 <= n < |log| ==> log[n].patches == []
  }

  /** Nothing in flight and no patch logged. */
  ghost predicate Calm(s: State) {
    Reachable(s) && s.holder.Free? && s.indexers == map[] && s.store.meta.Some? && NoPatches(s.log)
  }

  lemma AppendOne(s: State, entry: Entry) returns (s': State)
    requires Reachable(s) && s.holder.Free? && s.indexers == map[]
    requires NoPatches(s.log) && entry.patches == []
    ensures Calm(s') && s'.log == s.log + [entry]
    ensures CurrentMeta(s'.store) == CurrentMeta(s.store).(walCommitSeq := |s.log| + 1)
    ensures s'.store.snapshot == s.store.snapshot
    ensures s'.store.wal.Keys == s.store.wal.Keys + {|s.log| + 1}
    ensures forall from :: Passed(from, s) ==> Passed(from, s')
  {
    ReachableInv(s);
    var meta := CurrentMeta(s.store);
    var a := s.(holder := Appending(entry, meta, s.store.version, false));
    ReachableStep(s, ABeginAppend(entry), a);
    var b := a.(store := a.store.(wal := a.store.wal[|s.log| + 1 := entry]),
                holder := Appending(entry, meta, s.store.version, true));
    ReachableStep(a, APutSegment, b);
    s' := b.(store := WithMeta(b.store, meta.(walCommitSeq := |s.log| + 1)), holder := Free, log := s.log + [entry]);
    ReachableStep(b, ACommitAppend, s');
  }

  lemma Start() returns (s: State)
    ensures Reachable(s) && Init(s)
  {
    s := State(Store(None, 0, map[], None, map[], map[]), Free, map[], []);
    assert IsRun([s], []);
  }

  lemma {:induction false} AppendUpTo(n: nat) returns (s: State)
    requires n >= 1
    ensures Calm(s) && CurrentMeta(s.store) == EMPTY_META.(walCommitSeq := n) && |s.log| == n
  {
    if n == 1 {
      var init := Start();
      s := AppendOne(init, NO_OPS);
    } else {
      var before := AppendUpTo(n - 1);
      s := AppendOne(before, NO_OPS);
    }
  }

  /** Stream the pass `ix` of indexer 0 to its end. */
  lemma {:induction false} StreamAll(s: State) returns (s': State)
    requires Reachable(s) && s.holder.Free? && s.indexers.Keys == {0} && s.indexers[0].Streaming?
    requires s.indexers[0].last == |s.log|
    requires NoPatches(s.log)
    requires HasRange(s.store.wal, s.indexers[0].next, |s.log|)
    ensures Reachable(s') && s'.indexers.Keys == {0} && s'.indexers[0].Built? && s'.indexers[0].last == |s.log|
    ensures s'.store == s.store && s'.holder == s.holder && s'.log == s.log
    ensures forall from :: Passed(from, s) ==> Passed(from, s')
    decreases |s.log| + 1 - s.indexers[0].next
  {
    ReachableInv(s);
    var ix := s.indexers[0];
    assert IndexerOk(ix, s.store, s.log);
    if ix.next > ix.last {
      s' := s.(indexers := s.indexers[0 := Built(ix.last, ix.current)]);
      ReachableStep(s, AEndStream(0), s');
    } else {
      var entry := s.log[ix.next - 1];
      assert s.store.wal[ix.next] == entry;
      var moved := BothApplied(ix.current, Rows(entry.upserts), entry.deletes);
      var t := s.(indexers := s.indexers[0 := Streaming(ix.cursor, ix.last, ix.next + 1, ix.initial, moved)]);
      ReachableStep(s, AStreamSegment(0), t);
      s' := StreamAll(t);
    }
  }

  lemma IndexAll(s: State) returns (s': State)
    requires Calm(s) && CurrentMeta(s.store).indexCursor < |s.log|
    ensures Calm(s') && s'.log == s.log
    ensures s'.store.wal == s.store.wal && s'.store.snapshot == s.store.snapshot
    ensures var n, m := |s.log|, CurrentMeta(s.store);
      CurrentMeta(s'.store) == NamespaceMeta(n, n, m.walSnapshotSeq, n, n)
    ensures forall from :: Passed(from, s) ==> Passed(from, s')
  {
    ReachableInv(s);
    var meta := CurrentMeta(s.store);
    var a := s.(indexers := map[0 := Opening(meta, |s.log|)]);
    ReachableStep(s, ABeginIndex(0, None), a);
    var fts := Loaded(s.store.ftsSegments, meta.ftsSegmentId);
    var b := a.(indexers := map[0 := OpeningFilter(meta, |s.log|, fts)]);
    ReachableStep(a, ALoadFts(0), b);
    var ix := Indices(Loaded(s.store.filterSegments, meta.filterSegmentId), fts);
    var c := b.(indexers := map[0 := Streaming(meta.indexCursor, |s.log|, meta.indexCursor + 1, ix, ix)]);
    ReachableStep(b, ALoadFilter(0), c);
    var d := StreamAll(c);
    s' := IndexBuilt(d);
  }

  lemma IndexBuilt(s: State) returns (s': State)
    requires Reachable(s) && s.holder.Free? && s.indexers.Keys == {0} && s.indexers[0].Built?
    requires s.indexers[0].last == |s.log| && CurrentMeta(s.store).indexCursor < |s.log|
    requires NoPatches(s.log)
    ensures Calm(s') && s'.log == s.log
    ensures s'.store.wal == s.store.wal && s'.store.snapshot == s.store.snapshot
    ensures var n, m := |s.log|, CurrentMeta(s.store);
      CurrentMeta(s'.store) == NamespaceMeta(n, n, m.walSnapshotSeq, n, n)
    ensures forall from :: Passed(from, s) ==> Passed(from, s')
  {
    ReachableInv(s);
    var n, result := |s.log|, s.indexers[0].result;
    var a := s.(store := s.store.(filterSegments := s.store.filterSegments[n := result.filter]),
                indexers := s.indexers[0 := FilterPut(n, result)]);
    ReachableStep(s, APutFilterSegment(0), a);
    var b := a.(store := a.store.(ftsSegments := a.store.ftsSegments[n := result.fts]),
                indexers := a.indexers[0 := Ready(n)]);
    ReachableStep(a, APutFtsSegment(0), b);
    var meta := CurrentMeta(b.store);
    var c := b.(holder := Committing(0, n, meta, b.store.version), indexers := b.indexers - {0});
    ReachableStep(b, ABeginIndexCommit(0), c);
    s' := c.(store := WithMeta(c.store, meta.(indexCursor := n, ftsSegmentId := n, filterSegmentId := n)),
             holder := Free);
    ReachableStep(c, ACommitIndex, s');
    assert s'.indexers == map[];
  }

  /** Run a compaction up to the snapshot PUT. */
  lemma SnapshotWritten(s: State) returns (s': State)
    requires Calm(s) && NeedsWalCompaction(CurrentMeta(s.store))
    ensures Reachable(s') && s'.log == s.log && s'.indexers == map[]
    ensures s'.holder == Compacting(CurrentMeta(s.store), s.store.version, true)
    ensures s'.store == s.store.(snapshot := s'.store.snapshot)
    ensures s'.store.snapshot.Some? && s'.store.snapshot.value.seqNo == CurrentMeta(s.store).indexCursor
    ensures forall from :: Passed(from, s) ==> Passed(from, s')
  {
    ReachableInv(s);
    CompactionReads(s);
    var meta := CurrentMeta(s.store);
    var a := s.(holder := Compacting(meta, s.store.version, false));
    ReachableStep(s, ABeginCompact, a);
    AtKeyed(s.log, meta.indexCursor);
    var rows := ListDocs(At(s.log, meta.indexCursor));
    s' := a.(store := a.store.(snapshot := Some(Snapshot(meta.indexCursor, rows))),
             holder := Compacting(meta, s.store.version, true));
    ReachableStep(a, APutSnapshot(rows), s');
  }

  lemma {:induction false} ListDocs(docs: DocMap) returns (rows: seq<Document>)
    requires Keyed(docs)
    ensures Lists(rows, docs)
    decreases |docs|
  {
    if docs == map[] {
      rows := [];
    } else {
      var id :| id in docs;
      var rest := docs - {id};
      assert docs.Keys == rest.Keys + {id};
      var more := ListDocs(rest);
      rows := [docs[id]] + more;
    }
  }

  /** A compaction that records its snapshot, deletes segment 1 and stops. */
  lemma CompactOnce(s: State) returns (s': State)
    requires Calm(s) && NeedsWalCompaction(CurrentMeta(s.store))
    ensures Calm(s') && s'.log == s.log && 1 !in s'.store.wal
    ensures CurrentMeta(s'.store) == CurrentMeta(s.store).(walSnapshotSeq := CurrentMeta(s.store).indexCursor)
  {
    var a := SnapshotWritten(s);
    var meta := CurrentMeta(s.store);
    var b := a.(store := WithMeta(a.store, meta.(walSnapshotSeq := meta.indexCursor)),
                holder := Deleting(meta.indexCursor, 1));
    ReachableStep(a, ACommitCompact, b);
    var c := b.(store := b.store.(wal := b.store.wal - {1}), holder := Deleting(meta.indexCursor, 2));
    ReachableStep(b, ADeleteSegment(true), c);
    s' := c.(holder := Free);
    ReachableStep(c, AAbandon, s');
  }

  /** A crash between the snapshot PUT and the `meta.json` update of a second compaction leaves a
      namespace that `load_docs_at_wal_commit` cannot load, with nothing in flight: the snapshot it
      finds is not the recorded one, and the segments it falls back to are gone.  The batched cold
      load still works there. */
  lemma CrashedCompactionBlocksLoad()
    ensures exists s: State ::
      && Reachable(s) && s.holder.Free? && s.indexers == map[]
      && LoadedAtCommit(CurrentMeta(s.store), s.store.snapshot, s.store.wal).Err?
      && ColdLoaded(CurrentMeta(s.store), s.store.snapshot, s.store.wal) == Ok(At(s.log, |s.log|))
  {
    var a := AppendUpTo(11);
    var b := IndexAll(a);
    var c := CompactOnce(b);
    var d := AppendOne(c, NO_OPS);
    var e := IndexAll(d);
    var f := SnapshotWritten(e);
    var s := f.(holder := Free, indexers := map[]);
    ReachableStep(f, ACrash, s);
    LoadAtReachable(s);
    ColdLoadAtReachable(s);
    assert 1 !in s.store.wal;
  }
}
