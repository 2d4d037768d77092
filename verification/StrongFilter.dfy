/** Filtering with the index and the log tail (`matching_doc_ids_for_filter` of `src/search.rs`,
    `wal_touched_doc_ids` of `src/index/fts.rs`, and the tail set-up of `src/storage.rs`).
 */
module StrongFilter {
  import opened Documents
  import opened Replay
  import opened Meta
  import opened WalReads
  import opened IndexDelta
  import opened Filter
  import opened FilterIndex
  import opened Protocol
  import opened ProtocolProofs
  import Recovery

  // ----- The log tail -----

  predicate TouchedBy(es: seq<Entry>, id: Id) {
    exists e :: e in es && Touches(e, id)
  }

  method AddIds(ids: set<Id>, rows: seq<Document>) returns (out: set<Id>)
    ensures forall id :: id in out <==> id in ids || exists u :: u in rows && u.id == id
  {
    out := ids;
    for i := 0 to |rows|
      invariant forall id :: id in out <==> id in ids || exists k :: 0 <= k < i && rows[k].id == id
    {
      out := out + {rows[i].id};
    }
  }

  /** The ids named by deletes, upserts and patches of the entries. */
  method WalTouchedDocIds(entries: seq<Entry>) returns (ids: set<Id>)
    ensures forall id :: id in ids <==> TouchedBy(entries, id)
  {
    ids := {};
    for i := 0 to |entries|
      invariant forall id :: id in ids <==> TouchedBy(entries[..i], id)
    {
      var before, e := ids, entries[i];
      ids := ids + set id | id in e.deletes;
      ids := AddIds(ids, e.upserts);
      ids := AddIds(ids, e.patches);
      assert forall id :: id in ids <==> id in before || Touches(e, id);
      assert entries[..i + 1] == entries[..i] + [e];
      TouchedMore(entries[..i], e);
    }
    assert entries[..|entries|] == entries;
  }

  lemma TouchedMore(es: seq<Entry>, e: Entry)
    ensures forall id :: TouchedBy(es + [e], id) <==> TouchedBy(es, id) || Touches(e, id)
  {
    forall id ensures TouchedBy(es + [e], id) <==> TouchedBy(es, id) || Touches(e, id) {
      if TouchedBy(es, id) {
        var x :| x in es && Touches(x, id);
        assert x in es + [e];
      }
      if Touches(e, id) {
        assert e in es + [e];
      }
    }
  }

  /** The tail ids of a strong query against a store: those touched in the unindexed range. */
  ghost predicate TailOf(tail: set<Id>, meta: NamespaceMeta, wal: Segments) {
    var range := UnindexedWalTailRange(meta);
    if range.None? then tail == {}
    else
      var (from, last) := range.value;
      && 0 <= from && HasRange(wal, from, last)
      && forall id :: id in tail <==> TouchedBy(RangeEntries(wal, from, last), id)
  }

  // ----- The filter -----

  /** Ids the scan finds: the reference answer. */
  function Scan(docs: DocMap, expr: FilterExpr): set<Id> {
    set id | id in docs && Eval(expr, docs[id])
  }

  /** What the index and the tail correction say of one id. */
  predicate StrongMatch(docs: DocMap, seg: Segment, tail: set<Id>, expr: FilterExpr, id: Id)
    requires Keyable(expr)
  {
    && id in docs
    && if id in tail then Eval(expr, docs[id]) else id in Matching(seg, expr)
  }

  /** `matching_doc_ids_for_filter`. */
  method MatchingDocIdsForFilter(docs: DocMap, index: Option<Segment>, tail: set<Id>, strong: bool, expr: FilterExpr)
    returns (ids: set<Id>)
    requires index.Some? ==> Keyable(expr)
    ensures index.None? ==> ids == Scan(docs, expr)
    ensures index.Some? && !strong ==> ids == Matching(index.value, expr)
    ensures index.Some? && strong ==> ids == set id | id in docs && StrongMatch(docs, index.value, tail, expr, id)
  {
    if index.None? {
      ids := {};
      var todo := docs.Keys;
      while todo != {}
        invariant todo <= docs.Keys
        invariant ids == set id | id in docs && id !in todo && Eval(expr, docs[id])
      {
        var id :| id in todo;
        if Eval(expr, docs[id]) { ids := ids + {id}; }
        todo := todo - {id};
      }
      return;
    }
    ids := Matching(index.value, expr);
    if !strong { return; }
    var todo := tail;
    while todo != {}
      invariant todo <= tail
      invariant forall id :: id in ids <==>
        if id in tail - todo then id in docs && Eval(expr, docs[id]) else id in Matching(index.value, expr)
    {
      var id :| id in todo;
      if id in docs && Eval(expr, docs[id]) { ids := ids + {id}; } else { ids := ids - {id}; }
      todo := todo - {id};
    }
    ids := set id | id in ids && id in docs;
  }

  // ----- Exactness -----

  /** What the index says of an id. */
  predicate IndexFinds(idx: Indexed, fields: seq<string>, expr: FilterExpr, id: Id)
    requires Keyable(expr)
  {
    id in idx && KeyEval(DocKeys(idx[id], fields), expr)
  }

  /** The strong answer is the scan's exactly if the index is right about every live id outside the tail. */
  lemma StrongAnswerExactly(docs: DocMap, idx: Indexed, seg: Segment, fields: seq<string>, tail: set<Id>,
                            expr: FilterExpr)
    requires Represents(seg, idx, fields) && Keyable(expr)
    ensures (set id | id in docs && StrongMatch(docs, seg, tail, expr, id)) == Scan(docs, expr) <==>
      forall id :: id in docs && id !in tail ==> (IndexFinds(idx, fields, expr, id) <==> Eval(expr, docs[id]))
  {
    forall id ensures id in Matching(seg, expr) <==> IndexFinds(idx, fields, expr, id) {
      MatchingPointwise(seg, idx, fields, expr, id);
    }
    var answer := set id | id in docs && StrongMatch(docs, seg, tail, expr, id);
    if answer == Scan(docs, expr) {
      forall id | id in docs && id !in tail ensures IndexFinds(idx, fields, expr, id) <==> Eval(expr, docs[id]) {
        assert id in answer <==> id in Scan(docs, expr);
      }
    }
  }

  /** Index and scan agree on every live document outside the tail. */
  ghost predicate AllAgree(docs: DocMap, tail: set<Id>, fields: seq<string>, expr: FilterExpr)
    requires Keyable(expr)
  {
    forall id :: id in docs && id !in tail ==> (KeyEval(DocKeys(docs[id], fields), expr) <==> Eval(expr, docs[id]))
  }

  /** For one comparison that is a condition on the documents' values. */
  lemma AllAgreeOnCmp(docs: DocMap, tail: set<Id>, fields: seq<string>, field: string, op: CmpOp, value: FilterValue)
    requires Keyable(Cmp(field, op, value))
    ensures AllAgree(docs, tail, fields, Cmp(field, op, value)) <==>
      forall id :: id in docs && id !in tail ==> CmpAgrees(docs[id], fields, field, op, value)
  {
    var expr := Cmp(field, op, value);
    forall id | id in docs
      ensures (KeyEval(DocKeys(docs[id], fields), expr) <==> Eval(expr, docs[id])) <==>
        CmpAgrees(docs[id], fields, field, op, value)
    {
      CmpAgreesExactly(docs[id], fields, field, op, value);
    }
  }

  /** And for a tree it is enough if all its comparisons agree. */
  lemma AllAgreeOnTree(docs: DocMap, tail: set<Id>, fields: seq<string>, expr: FilterExpr)
    requires Keyable(expr) && forall id :: id in docs && id !in tail ==> ExprAgrees(docs[id], fields, expr)
    ensures AllAgree(docs, tail, fields, expr)
  {
    forall id | id in docs && id !in tail
      ensures KeyEval(DocKeys(docs[id], fields), expr) <==> Eval(expr, docs[id])
    {
      AgreeingFilter(docs[id], fields, expr);
    }
  }

  /** An index right at the cursor has the documents of the ids not touched since. */
  lemma IndexedSince(idx: Indexed, fields: seq<string>, log: seq<Entry>, cursor: nat, commit: nat, expr: FilterExpr,
                     id: Id)
    requires cursor <= commit <= |log| && RightAt(idx, log, cursor) && Keyable(expr) && id in At(log, commit)
    requires forall e :: e in log[cursor..commit] ==> !Touches(e, id)
    ensures IndexFinds(idx, fields, expr, id) <==> KeyEval(DocKeys(At(log, commit)[id], fields), expr)
  {
    UntouchedSame(log, cursor, commit, id);
    assert id in At(log, cursor);
  }

  /** With an index right at the cursor and a tail holding every id touched since, the strong answer is the
      scan's exactly if index and scan agree on the live documents outside the tail.  The index, the log
      tail and the documents may have been read at different moments: only their log numbers matter. */
  lemma StrongFilterExact(idx: Indexed, seg: Segment, fields: seq<string>, log: seq<Entry>, cursor: nat, commit: nat,
                          tail: set<Id>, expr: FilterExpr)
    requires cursor <= commit <= |log| && RightAt(idx, log, cursor) && Represents(seg, idx, fields) && Keyable(expr)
    requires forall e, id :: e in log[cursor..commit] && Touches(e, id) ==> id in tail
    ensures var docs := At(log, commit);
      (set id | id in docs && StrongMatch(docs, seg, tail, expr, id)) == Scan(docs, expr) <==>
      AllAgree(docs, tail, fields, expr)
  {
    var docs := At(log, commit);
    StrongAnswerExactly(docs, idx, seg, fields, tail, expr);
    forall id | id in docs && id !in tail
      ensures IndexFinds(idx, fields, expr, id) <==> KeyEval(DocKeys(docs[id], fields), expr)
    {
      IndexedSince(idx, fields, log, cursor, commit, expr, id);
    }
  }

  lemma RangeCovers(wal: Segments, log: seq<Entry>, from: nat, cursor: nat, commit: nat, e: Entry, id: Id)
    requires GenuineSegments(wal, log) && 1 <= from <= cursor + 1 <= commit <= |log| && HasRange(wal, from, commit)
    requires e in log[cursor..commit] && Touches(e, id)
    ensures TouchedBy(RangeEntries(wal, from, commit), id)
  {
    GenuineRange(wal, log, from, commit);
    assert log[from - 1..commit] == log[from - 1..cursor] + log[cursor..commit];
  }

  /** The tail holds every id touched between the index cursor and the commit point read. */
  lemma TailCoversRange(meta: NamespaceMeta, wal: Segments, log: seq<Entry>, commit: nat, tail: set<Id>)
    requires GenuineSegments(wal, log) && TailOf(tail, meta, wal)
    requires meta.walSnapshotSeq <= meta.indexCursor <= meta.walCommitSeq == commit <= |log|
    ensures forall e, id :: e in log[meta.indexCursor..commit] && Touches(e, id) ==> id in tail
  {
    TailRangeCoversUnindexed(meta);
    forall e, id | e in log[meta.indexCursor..commit] && Touches(e, id) ensures id in tail {
      RangeCovers(wal, log, UnindexedWalTailRange(meta).value.0, meta.indexCursor, commit, e, id);
    }
  }

  lemma TailCovers(st: Store, log: seq<Entry>, tail: set<Id>)
    requires StoreOk(st, log) && TailOf(tail, CurrentMeta(st), st.wal)
    ensures forall e, id :: e in log[CurrentMeta(st).indexCursor..|log|] && Touches(e, id) ==> id in tail
  {
    TailCoversRange(CurrentMeta(st), st.wal, log, |log|, tail);
  }

  /** The strong query of a reachable store finds all the segments of its tail. */
  lemma TailPresent(s: State)
    requires Reachable(s) && UnindexedWalTailRange(CurrentMeta(s.store)).Some?
    ensures var (from, last) := UnindexedWalTailRange(CurrentMeta(s.store)).value;
      0 <= from && HasRange(s.store.wal, from, last)
  {
    ReachableInv(s);
    TailRangeCoversUnindexed(CurrentMeta(s.store));
  }

  /** The filter segment a query loads: the one `meta.json` names, or none before the first index commit. */
  ghost predicate SegmentOf(index: Option<Segment>, st: Store, fields: seq<string>) {
    var id := CurrentMeta(st).filterSegmentId;
    if id == 0 then index.None?
    else index.Some? && id in st.filterSegments && Represents(index.value, st.filterSegments[id], fields)
  }

  /** Exactly the answer of the method in strong mode. */
  function StrongAnswer(docs: DocMap, index: Option<Segment>, tail: set<Id>, expr: FilterExpr): set<Id>
    requires index.Some? ==> Keyable(expr)
  {
    if index.None? then Scan(docs, expr)
    else set id | id in docs && StrongMatch(docs, index.value, tail, expr, id)
  }

  /** At every reachable state the strong filter query answers with exactly the live documents that
      satisfy the filter, exactly if index and scan agree on the live documents outside the tail. */
  lemma StrongFilterAtReachable(s: State, index: Option<Segment>, tail: set<Id>, fields: seq<string>, expr: FilterExpr)
    requires Reachable(s) && SegmentOf(index, s.store, fields) && TailOf(tail, CurrentMeta(s.store), s.store.wal)
    requires Keyable(expr)
    ensures var docs := At(s.log, |s.log|);
      StrongAnswer(docs, index, tail, expr) == Scan(docs, expr) <==> index.None? || AllAgree(docs, tail, fields, expr)
  {
    ReachableInv(s);
    var meta := CurrentMeta(s.store);
    if index.Some? {
      TailCovers(s.store, s.log, tail);
      StrongFilterExact(s.store.filterSegments[meta.filterSegmentId], index.value, fields, s.log, meta.indexCursor,
                        |s.log|, tail, expr);
    }
  }

  /** For one comparison: exactly if the value of no live document outside the tail is one the index errs on. */
  lemma StrongCmpAtReachable(s: State, index: Option<Segment>, tail: set<Id>, fields: seq<string>, field: string,
                             op: CmpOp, value: FilterValue)
    requires Reachable(s) && SegmentOf(index, s.store, fields) && TailOf(tail, CurrentMeta(s.store), s.store.wal)
    requires Keyable(Cmp(field, op, value))
    ensures var docs := At(s.log, |s.log|);
      StrongAnswer(docs, index, tail, Cmp(field, op, value)) == Scan(docs, Cmp(field, op, value)) <==>
      index.None? || forall id :: id in docs && id !in tail ==> CmpAgrees(docs[id], fields, field, op, value)
  {
    StrongFilterAtReachable(s, index, tail, fields, Cmp(field, op, value));
    AllAgreeOnCmp(At(s.log, |s.log|), tail, fields, field, op, value);
  }

  /** So a range filter such as `price` below 5 is answered right wherever the field holds no boolean. */
  lemma RangeFilterAtReachable(s: State, index: Option<Segment>, tail: set<Id>, fields: seq<string>, field: string,
                               op: CmpOp, n: Number)
    requires Reachable(s) && SegmentOf(index, s.store, fields) && TailOf(tail, CurrentMeta(s.store), s.store.wal)
    requires field != "id" && IsIndexed(fields, field) && !op.Eq? && !op.Ne?
    requires forall id :: id in At(s.log, |s.log|) && id !in tail && field in At(s.log, |s.log|)[id].attributes ==>
      !At(s.log, |s.log|)[id].attributes[field].Bool?
    ensures var docs := At(s.log, |s.log|);
      StrongAnswer(docs, index, tail, Cmp(field, op, VNumber(n))) == Scan(docs, Cmp(field, op, VNumber(n)))
  {
    StrongCmpAtReachable(s, index, tail, fields, field, op, VNumber(n));
  }

  /** For a tree: if that holds of each of its comparisons. */
  lemma StrongTreeAtReachable(s: State, index: Option<Segment>, tail: set<Id>, fields: seq<string>, expr: FilterExpr)
    requires Reachable(s) && SegmentOf(index, s.store, fields) && TailOf(tail, CurrentMeta(s.store), s.store.wal)
    requires Keyable(expr)
    requires forall id :: id in At(s.log, |s.log|) && id !in tail ==>
      ExprAgrees(At(s.log, |s.log|)[id], fields, expr)
    ensures StrongAnswer(At(s.log, |s.log|), index, tail, expr) == Scan(At(s.log, |s.log|), expr)
  {
    AllAgreeOnTree(At(s.log, |s.log|), tail, fields, expr);
    StrongFilterAtReachable(s, index, tail, fields, expr);
  }

  /** For a filter all of whose comparisons are exact: whatever the documents are. */
  lemma ExactFilterAtReachable(s: State, index: Option<Segment>, tail: set<Id>, fields: seq<string>, expr: FilterExpr)
    requires Reachable(s) && SegmentOf(index, s.store, fields) && TailOf(tail, CurrentMeta(s.store), s.store.wal)
    requires Keyable(expr) && ExactExpr(expr, fields)
    ensures StrongAnswer(At(s.log, |s.log|), index, tail, expr) == Scan(At(s.log, |s.log|), expr)
  {
    forall id | id in At(s.log, |s.log|) ensures ExprAgrees(At(s.log, |s.log|)[id], fields, expr) {
      ExactExprAgrees(At(s.log, |s.log|)[id], fields, expr);
    }
    StrongTreeAtReachable(s, index, tail, fields, expr);
  }

  /** What was read of `meta.json` and the documents at state `i` still fits the log at the end of a run. */
  lemma ReadHolds(states: seq<State>, actions: seq<Action>, i: nat)
    requires IsRun(states, actions) && i < |states|
    ensures var meta, log, commit := CurrentMeta(states[i].store), states[|states| - 1].log, |states[i].log|;
      && meta.walSnapshotSeq <= meta.indexCursor <= meta.walCommitSeq == commit <= |log|
      && meta.filterSegmentId == meta.ftsSegmentId == meta.indexCursor
      && At(log, commit) == At(states[i].log, commit)
  {
    var log, commit := states[|states| - 1].log, |states[i].log|;
    RunInv(states, actions, i);
    RunAdvances(states, actions, i, |states| - 1);
    assert log == states[i].log + log[commit..];
    AtPrefix(states[i].log, log[commit..], commit);
  }

  /** A filter segment read at state `j` is right at its number for the log at the end of a run. */
  lemma SegmentHolds(states: seq<State>, actions: seq<Action>, j: nat, n: nat)
    requires IsRun(states, actions) && j < |states| && n in states[j].store.filterSegments
    ensures RightAt(states[j].store.filterSegments[n], states[|states| - 1].log, n)
  {
    var log := states[|states| - 1].log;
    RunInv(states, actions, j);
    RunAdvances(states, actions, j, |states| - 1);
    assert log == states[j].log + log[|states[j].log|..];
    RightAtExtends(states[j].store.filterSegments[n], states[j].log, log[|states[j].log|..], n);
  }

  /** A query whose requests are spread over a run: `meta.json` read at state `i`, the filter segment at a
      later state `j`, each tail segment at some state not before `i`. */
  ghost predicate QueryReads(states: seq<State>, i: nat, j: nat, wal: Segments, seg: Segment, tail: set<Id>,
                             fields: seq<string>)
    requires i <= j < |states|
  {
    var id := CurrentMeta(states[i].store).filterSegmentId;
    && Recovery.ReadDuring(wal, states, i) && (forall n :: n in wal ==> n <= |states[i].log|)
    && id != 0 && id in states[j].store.filterSegments && Represents(seg, states[j].store.filterSegments[id], fields)
    && TailOf(tail, CurrentMeta(states[i].store), wal)
  }

  /** The same with the requests spread over a run and the documents of state `i`. */
  lemma StrongFilterDuringRun(states: seq<State>, actions: seq<Action>, i: nat, j: nat, wal: Segments, seg: Segment,
                              tail: set<Id>, fields: seq<string>, expr: FilterExpr)
    requires IsRun(states, actions) && i <= j < |states| && QueryReads(states, i, j, wal, seg, tail, fields)
    requires Keyable(expr)
    ensures var docs := At(states[i].log, |states[i].log|);
      (set id | id in docs && StrongMatch(docs, seg, tail, expr, id)) == Scan(docs, expr) <==>
      AllAgree(docs, tail, fields, expr)
  {
    var log, meta, commit := states[|states| - 1].log, CurrentMeta(states[i].store), |states[i].log|;
    ReadHolds(states, actions, i);
    SegmentHolds(states, actions, j, meta.filterSegmentId);
    Recovery.ReadDuringGenuine(wal, states, actions, i);
    TailCoversRange(meta, wal, log, commit, tail);
    StrongFilterExact(states[j].store.filterSegments[meta.filterSegmentId], seg, fields, log, meta.indexCursor, commit,
                      tail, expr);
  }

  // ----- On documents newer than the metadata -----

  /** The index is right about a live document: it agrees on it, or, if the id was touched after the commit
      point of the metadata, what it holds for the id happens to give the same answer. */
  ghost predicate RightAbout(idx: Indexed, docs: DocMap, late: seq<Entry>, fields: seq<string>, expr: FilterExpr,
                             id: Id)
    requires Keyable(expr) && id in docs
  {
    if TouchedBy(late, id) then IndexFinds(idx, fields, expr, id) <==> Eval(expr, docs[id])
    else KeyEval(DocKeys(docs[id], fields), expr) <==> Eval(expr, docs[id])
  }

  lemma UntouchedThrough(log: seq<Entry>, cursor: nat, commit: nat, reached: nat, id: Id)
    requires cursor <= commit <= reached <= |log| && !TouchedBy(log[commit..reached], id)
    requires forall e :: e in log[cursor..commit] ==> !Touches(e, id)
    ensures forall e :: e in log[cursor..reached] ==> !Touches(e, id)
  {
    assert log[cursor..reached] == log[cursor..commit] + log[commit..reached];
  }

  lemma StrongFilterOnNewer(idx: Indexed, seg: Segment, fields: seq<string>, log: seq<Entry>, cursor: nat, commit: nat,
                            reached: nat, tail: set<Id>, expr: FilterExpr)
    requires cursor <= commit <= reached <= |log| && RightAt(idx, log, cursor) && Represents(seg, idx, fields)
    requires Keyable(expr) && forall e, id :: e in log[cursor..commit] && Touches(e, id) ==> id in tail
    ensures var docs := At(log, reached);
      (set id | id in docs && StrongMatch(docs, seg, tail, expr, id)) == Scan(docs, expr) <==>
      forall id :: id in docs && id !in tail ==> RightAbout(idx, docs, log[commit..reached], fields, expr, id)
  {
    var docs, late := At(log, reached), log[commit..reached];
    StrongAnswerExactly(docs, idx, seg, fields, tail, expr);
    forall id | id in docs && id !in tail
      ensures RightAbout(idx, docs, late, fields, expr, id) <==>
        (IndexFinds(idx, fields, expr, id) <==> Eval(expr, docs[id]))
    {
      if !TouchedBy(late, id) {
        UntouchedThrough(log, cursor, commit, reached, id);
        IndexedSince(idx, fields, log, cursor, reached, expr, id);
      }
    }
  }

  /** A strong query after a cold load that found a newer snapshot (at state `k`) has the documents of that
      snapshot with the metadata, index and tail of state `i`.  Its answer is the scan's exactly if, for every
      live id outside the tail, the index is right about it. */
  lemma StrongFilterAfterColdLoad(states: seq<State>, actions: seq<Action>, i: nat, j: nat, k: nat, wal: Segments,
                                  tailWal: Segments, seg: Segment, tail: set<Id>, fields: seq<string>, expr: FilterExpr)
    requires IsRun(states, actions) && i <= j < |states| && i <= k < |states|
    requires QueryReads(states, i, j, tailWal, seg, tail, fields) && Keyable(expr)
    requires Recovery.ReadDuring(wal, states, i) && forall n :: n in wal ==> n <= |states[i].log|
    requires ColdLoaded(CurrentMeta(states[i].store), states[k].store.snapshot, wal).Ok?
    ensures var meta, log := CurrentMeta(states[i].store), states[|states| - 1].log;
      var snap := states[k].store.snapshot;
      var start, docs := ColdStart(meta, snap), ColdLoaded(meta, snap, wal).value;
      var reached := if start > |states[i].log| then start else |states[i].log|;
      && reached <= |log|
      && ((set id | id in docs && StrongMatch(docs, seg, tail, expr, id)) == Scan(docs, expr) <==>
          forall id :: id in docs && id !in tail ==>
            RightAbout(states[j].store.filterSegments[meta.filterSegmentId], docs, log[|states[i].log|..reached],
                       fields, expr, id))
  {
    var log, meta, commit := states[|states| - 1].log, CurrentMeta(states[i].store), |states[i].log|;
    var start := ColdStart(meta, states[k].store.snapshot);
    var reached := if start > commit then start else commit;
    ReadHolds(states, actions, i);
    SegmentHolds(states, actions, j, meta.filterSegmentId);
    Recovery.ReadDuringGenuine(tailWal, states, actions, i);
    TailCoversRange(meta, tailWal, log, commit, tail);
    Recovery.InterleavedColdLoad(states, actions, i, k, wal);
    StrongFilterOnNewer(states[j].store.filterSegments[meta.filterSegmentId], seg, fields, log, meta.indexCursor,
                        commit, reached, tail, expr);
  }

  /** Ten empty batches, then one that puts the document, all indexed and compacted. */
  lemma ElevenCompacted(doc: Document) returns (s: State)
    ensures Recovery.Calm(s) && |s.log| == 11 && CurrentMeta(s.store) == NamespaceMeta(11, 11, 11, 11, 11)
    ensures Lookup(At(s.log, 11), doc.id) == Some(doc)
  {
    var a := Recovery.AppendUpTo(10);
    var b := Recovery.AppendOne(a, Entry([doc], [], []));
    var c := Recovery.IndexAll(b);
    s := Recovery.CompactOnce(c);
    PutLast(s.log, 10, doc);
  }

  lemma PutLast(log: seq<Entry>, n: nat, doc: Document)
    requires n < |log| && log[n] == Entry([doc], [], [])
    ensures Lookup(At(log, n + 1), doc.id) == Some(doc)
  {
    AtNext(log, n);
    PutAllLookup(At(log, n), [doc], doc.id);
    assert PutAll(At(log, n), [doc]) == At(log, n)[doc.id := doc];
  }

  /** The next batch replaces the document, is indexed, and a compaction writes its snapshot. */
  lemma ReplacedAndSnapshot(s: State, doc: Document) returns (s': State)
    requires Recovery.Calm(s) && |s.log| == 11 && CurrentMeta(s.store) == NamespaceMeta(11, 11, 11, 11, 11)
    ensures Recovery.Passed(s, s') && |s'.log| == 12 && Lookup(At(s'.log, 12), doc.id) == Some(doc)
    ensures s'.store.snapshot.Some? && s'.store.snapshot.value.seqNo == 12
  {
    Recovery.PassedItself(s);
    var a := Recovery.AppendOne(s, Entry([doc], [], []));
    var b := Recovery.IndexAll(a);
    s' := Recovery.SnapshotWritten(b);
    PutLast(s'.log, 11, doc);
  }

  function Sized(n: real): Document {
    Document("a", map["x" := Num(Finite(n))])
  }

  const X_IS_2 := Cmp("x", Eq, VNumber(Finite(2.0)))

  /** Such a query can miss a document: `x` becomes 2 after the metadata is read and before the snapshot. */
  lemma LateUpdateMissed()
    ensures exists states: seq<State>, actions, i: nat, k: nat, wal, seg ::
      && IsRun(states, actions) && i <= k < |states| && QueryReads(states, i, i, wal, seg, {}, [])
      && var loaded := ColdLoaded(CurrentMeta(states[i].store), states[k].store.snapshot, wal);
      && loaded.Ok? && "a" in Scan(loaded.value, X_IS_2) && !StrongMatch(loaded.value, seg, {}, X_IS_2, "a")
  {
    var s := ElevenCompacted(Sized(1.0));
    var s' := ReplacedAndSnapshot(s, Sized(2.0));
    var states, actions, i :| Recovery.RunThrough(states, actions, i, s, s');
    MissedIn(states, actions, i);
  }

  lemma MissedIn(states: seq<State>, actions: seq<Action>, i: nat)
    requires IsRun(states, actions) && i < |states|
    requires |states[i].log| == 11 && CurrentMeta(states[i].store) == NamespaceMeta(11, 11, 11, 11, 11)
    requires Lookup(At(states[i].log, 11), "a") == Some(Sized(1.0))
    requires var s' := states[|states| - 1];
      && |s'.log| == 12 && Lookup(At(s'.log, 12), "a") == Some(Sized(2.0))
      && s'.store.snapshot.Some? && s'.store.snapshot.value.seqNo == 12
    ensures var loaded := ColdLoaded(CurrentMeta(states[i].store), states[|states| - 1].store.snapshot, map[]);
      exists seg ::
      && QueryReads(states, i, i, map[], seg, {}, []) && loaded.Ok?
      && "a" in Scan(loaded.value, X_IS_2) && !StrongMatch(loaded.value, seg, {}, X_IS_2, "a")
  {
    SegmentThere(states, actions, i);
    var seg := Inverted(states[i].store.filterSegments[11], []);
    NothingToFetch(states, i, seg);
    NewerLoaded(states, actions, i);
    OldKeyMisses(states[i].store.filterSegments[11], At(states[|states| - 1].log, 12));
  }

  lemma OldKeyMisses(idx: Indexed, docs: DocMap)
    requires Lookup(idx, "a") == Some(Sized(1.0)) && Lookup(docs, "a") == Some(Sized(2.0))
    ensures "a" in Scan(docs, X_IS_2) && !StrongMatch(docs, Inverted(idx, []), {}, X_IS_2, "a")
  {
    InvertedRepresents(idx, []);
    MatchingPointwise(Inverted(idx, []), idx, [], X_IS_2, "a");
    SizedKeys();
  }

  lemma SizedKeys()
    ensures !KeyEval(DocKeys(Sized(1.0), []), X_IS_2) && Eval(X_IS_2, Sized(2.0))
  {
    CmpAgreesExactly(Sized(1.0), [], "x", Eq, VNumber(Finite(2.0)));
  }

  lemma NothingToFetch(states: seq<State>, i: nat, seg: Segment)
    requires i < |states| && CurrentMeta(states[i].store) == NamespaceMeta(11, 11, 11, 11, 11)
    requires 11 in states[i].store.filterSegments && seg == Inverted(states[i].store.filterSegments[11], [])
    ensures QueryReads(states, i, i, map[], seg, {}, [])
  {
    InvertedRepresents(states[i].store.filterSegments[11], []);
  }

  lemma NewerLoaded(states: seq<State>, actions: seq<Action>, i: nat)
    requires IsRun(states, actions) && i < |states|
    requires CurrentMeta(states[i].store) == NamespaceMeta(11, 11, 11, 11, 11)
    requires var s' := states[|states| - 1];
      |s'.log| == 12 && s'.store.snapshot.Some? && s'.store.snapshot.value.seqNo == 12
    ensures var s' := states[|states| - 1];
      ColdLoaded(CurrentMeta(states[i].store), s'.store.snapshot, map[]) == Ok(At(s'.log, 12))
  {
    Recovery.InterleavedColdLoad(states, actions, i, |states| - 1, map[]);
  }

  lemma SegmentThere(states: seq<State>, actions: seq<Action>, i: nat)
    requires IsRun(states, actions) && i < |states|
    requires |states[i].log| == 11 && CurrentMeta(states[i].store) == NamespaceMeta(11, 11, 11, 11, 11)
    ensures 11 in states[i].store.filterSegments && RightAt(states[i].store.filterSegments[11], states[i].log, 11)
  {
    RunInv(states, actions, i);
  }

  // ----- And only for those -----

  /** A reachable store in which one document is live and everything is indexed. */
  lemma OneIndexed(doc: Document) returns (s: State)
    ensures Reachable(s) && At(s.log, |s.log|) == map[doc.id := doc]
    ensures CurrentMeta(s.store) == NamespaceMeta(1, 1, 0, 1, 1) && |s.log| == 1
  {
    var init := Recovery.Start();
    var entry := Entry([doc], [], []);
    var a := Recovery.AppendOne(init, entry);
    s := Recovery.IndexAll(a);
    assert s.log == [entry];
    AtNext(s.log, 0);
    assert PutAll(map[], [doc]) == map[doc.id := doc];
  }

  lemma InexactStrongAnswer(fields: seq<string>, field: string, op: CmpOp, value: FilterValue)
    requires !value.RefNew? && !ExactCmp(fields, field, op, value)
    ensures exists s: State, index, tail ::
      && Reachable(s) && SegmentOf(index, s.store, fields) && TailOf(tail, CurrentMeta(s.store), s.store.wal)
      && StrongAnswer(At(s.log, |s.log|), index, tail, Cmp(field, op, value)) !=
        Scan(At(s.log, |s.log|), Cmp(field, op, value))
  {
    var doc := Witness(fields, field, op, value);
    InexactCmpDisagrees(fields, field, op, value);
    var s := OneIndexed(doc);
    ReachableInv(s);
    var idx := s.store.filterSegments[1];
    InvertedRepresents(idx, fields);
    var index := Some(Inverted(idx, fields));
    assert SegmentOf(index, s.store, fields) && TailOf({}, CurrentMeta(s.store), s.store.wal);
    var docs := At(s.log, 1);
    assert doc.id in docs && idx[doc.id] == doc;
    MatchingPointwise(index.value, idx, fields, Cmp(field, op, value), doc.id);
    assert doc.id in StrongAnswer(docs, index, {}, Cmp(field, op, value)) <==>
      doc.id !in Scan(docs, Cmp(field, op, value));
  }

  /** A comparison is answered right at every reachable state exactly when it is an exact one. */
  lemma StrongCmpExactness(fields: seq<string>, field: string, op: CmpOp, value: FilterValue)
    requires !value.RefNew?
    ensures ExactCmp(fields, field, op, value) <==>
      forall s: State, index, tail ::
        Reachable(s) && SegmentOf(index, s.store, fields) && TailOf(tail, CurrentMeta(s.store), s.store.wal) ==>
          StrongAnswer(At(s.log, |s.log|), index, tail, Cmp(field, op, value)) ==
            Scan(At(s.log, |s.log|), Cmp(field, op, value))
  {
    if ExactCmp(fields, field, op, value) {
      forall s: State, index, tail |
        Reachable(s) && SegmentOf(index, s.store, fields) && TailOf(tail, CurrentMeta(s.store), s.store.wal)
        ensures StrongAnswer(At(s.log, |s.log|), index, tail, Cmp(field, op, value)) ==
          Scan(At(s.log, |s.log|), Cmp(field, op, value))
      {
        ExactFilterAtReachable(s, index, tail, fields, Cmp(field, op, value));
      }
    } else {
      InexactStrongAnswer(fields, field, op, value);
    }
  }
}
