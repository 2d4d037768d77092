/** From log entries to index deltas (`collect_index_delta` of `src/wal.rs`,
    `stream_index_delta_from_wal` and `index_delta_from_wal_entries` of `src/indexer.rs`).

    An index segment, whatever its layout, is determined by which document each id is indexed as.
    That map is what the indexer maintains; the filter and full-text segments are concrete forms
    of it.
 */
module IndexDelta {
  import opened Documents
  import opened Replay
  import opened WalReads

  /** Which document each id is indexed as. */
  type Indexed = map<Id, Document>

  type Row = (Id, Document)

  function PutRows(idx: Indexed, rows: seq<Row>): Indexed
    decreases |rows|
  {
    if rows == [] then idx else PutRows(idx[rows[0].0 := rows[0].1], rows[1..])
  }

  /** `apply_delta` on the index map: deletes first, then each upsert replaces. */
  function DeltaApplied(idx: Indexed, upserts: seq<Row>, deletes: seq<Id>): Indexed {
    PutRows(RemoveAll(idx, deletes), upserts)
  }

  /** Every live document is indexed as what it is.  Ids that are not live may linger. */
  ghost predicate LiveCorrect(idx: Indexed, docs: DocMap) {
    forall id :: id in docs ==> id in idx && idx[id] == docs[id]
  }

  // ----- The streaming path: one segment at a time, no patches -----

  function Rows(upserts: seq<Document>): seq<Row> {
    if upserts == [] then [] else [(upserts[0].id, upserts[0])] + Rows(upserts[1..])
  }

  lemma {:induction false} PutRowsIsPutAll(idx: Indexed, upserts: seq<Document>)
    ensures PutRows(idx, Rows(upserts)) == PutAll(idx, upserts)
    decreases |upserts|
  {
    if upserts != [] { PutRowsIsPutAll(idx[upserts[0].id := upserts[0]], upserts[1..]); }
  }

  /** Without patches, the delta of an entry does to the index what the entry does to documents. */
  lemma StreamStep(idx: Indexed, e: Entry)
    requires e.patches == []
    ensures DeltaApplied(idx, Rows(e.upserts), e.deletes) == ApplyEntry(idx, e)
  {
    PutRowsIsPutAll(RemoveAll(idx, e.deletes), e.upserts);
  }

  /** Streaming one patch-free segment moves an index from log number `n - 1` to `n`. */
  lemma StreamNext(idx: Indexed, log: seq<Entry>, n: nat)
    requires 1 <= n <= |log| && log[n - 1].patches == []
    ensures var e := log[n - 1]; var next := DeltaApplied(idx, Rows(e.upserts), e.deletes);
      && (LiveCorrect(idx, At(log, n - 1)) ==> LiveCorrect(next, At(log, n)))
      && (idx == At(log, n - 1) ==> next == At(log, n))
  {
    var e := log[n - 1];
    StreamStep(idx, e);
    AtNext(log, n - 1);
    if LiveCorrect(idx, At(log, n - 1)) { ApplyKeepsLiveCorrect(idx, At(log, n - 1), e); }
  }

  lemma ApplyKeepsLiveCorrect(idx: Indexed, docs: DocMap, e: Entry)
    requires LiveCorrect(idx, docs)
    ensures LiveCorrect(ApplyEntry(idx, e), ApplyEntry(docs, e))
  {
    forall id | id in ApplyEntry(docs, e)
      ensures id in ApplyEntry(idx, e) && ApplyEntry(idx, e)[id] == ApplyEntry(docs, e)[id]
    {
      LookupApply(docs, e, id);
      LookupApply(idx, e, id);
      assert Lookup(ApplyEntry(docs, e), id).Some?;
      assert Lookup(ApplyEntry(idx, e), id) == Lookup(ApplyEntry(docs, e), id);
    }
  }

  // ----- The recollecting path: one delta for the whole range -----

  /** Ids an entry upserts or patches, in the order they are looked at. */
  function NamedIds(rows: seq<Document>): seq<Id> {
    if rows == [] then [] else [rows[0].id] + NamedIds(rows[1..])
  }

  function Named(e: Entry): seq<Id> {
    NamedIds(e.upserts) + NamedIds(e.patches)
  }

  lemma {:induction false} NamedIdsMember(rows: seq<Document>, id: Id)
    ensures id in NamedIds(rows) <==> exists r :: r in rows && r.id == id
  {
    if rows != [] {
      NamedIdsMember(rows[1..], id);
      assert rows == [rows[0]] + rows[1..];
    }
  }

  /** Record the present documents among `ids`. */
  function Recorded(acc: map<Id, Document>, docs: DocMap, ids: seq<Id>): map<Id, Document>
    decreases |ids|
  {
    if ids == [] then acc
    else Recorded(if ids[0] in docs then acc[ids[0] := docs[ids[0]]] else acc, docs, ids[1..])
  }

  /** The upsert half of `collect_index_delta`. */
  function Collected(baseline: DocMap, es: seq<Entry>): map<Id, Document> {
    if es == [] then map[]
    else Recorded(Collected(baseline, es[..|es| - 1]), Replayed(es, baseline), Named(es[|es| - 1]))
  }

  /** The delete half. */
  function AllDeletes(es: seq<Entry>): seq<Id> {
    if es == [] then [] else AllDeletes(es[..|es| - 1]) + es[|es| - 1].deletes
  }

  method CollectIndexDelta(baseline: DocMap, es: seq<Entry>)
    returns (docs: DocMap, upserts: map<Id, Document>, deletes: seq<Id>)
    ensures docs == Replayed(es, baseline)
    ensures upserts == Collected(baseline, es)
    ensures deletes == AllDeletes(es)
  {
    docs, upserts, deletes := baseline, map[], [];
    var i := 0;
    while i < |es|
      invariant 0 <= i <= |es|
      invariant docs == Replayed(es[..i], baseline)
      invariant upserts == Collected(baseline, es[..i])
      invariant deletes == AllDeletes(es[..i])
    {
      var e := es[i];
      assert es[..i + 1][..i] == es[..i];
      deletes := deletes + e.deletes;
      docs := ApplyEntryInPlace(docs, e);
      var ids := Named(e);
      var k := 0;
      ghost var before := upserts;
      while k < |ids|
        invariant 0 <= k <= |ids|
        invariant Recorded(upserts, docs, ids[k..]) == Recorded(before, docs, ids)
      {
        assert ids[k..][1..] == ids[k + 1..];
        if ids[k] in docs { upserts := upserts[ids[k] := docs[ids[k]]]; }
        k := k + 1;
      }
      i := i + 1;
    }
    assert es[..|es|] == es;
  }

  lemma {:induction false} RecordedLookup(acc: map<Id, Document>, docs: DocMap, ids: seq<Id>, id: Id)
    ensures Lookup(Recorded(acc, docs, ids), id) ==
      if id in ids && id in docs then Some(docs[id]) else Lookup(acc, id)
    decreases |ids|
  {
    if ids != [] {
      RecordedLookup(if ids[0] in docs then acc[ids[0] := docs[ids[0]]] else acc, docs, ids[1..], id);
      assert ids == [ids[0]] + ids[1..];
    }
  }

  lemma NamedTouches(e: Entry, id: Id)
    ensures Touches(e, id) <==> id in Named(e) || id in e.deletes
  {
    NamedIdsMember(e.upserts, id);
    NamedIdsMember(e.patches, id);
  }

  /** An id deleted and not named again by the same entry is not live after it. */
  lemma DeletedNotLive(docs: DocMap, e: Entry, id: Id)
    requires id in e.deletes && id !in Named(e)
    ensures id !in ApplyEntry(docs, e)
  {
    NamedIdsMember(e.upserts, id);
    NamedIdsMember(e.patches, id);
    UpsertEffectCases(e.upserts, id);
    PatchEffectCases(e.patches, id);
    LookupApply(docs, e, id);
  }

  /** What collection records about an id that is live at the end of the range. */
  lemma {:induction false} CollectedLive(baseline: DocMap, es: seq<Entry>, id: Id)
    requires id in Replayed(es, baseline)
    ensures id in Collected(baseline, es) ==> Collected(baseline, es)[id] == Replayed(es, baseline)[id]
    ensures id !in Collected(baseline, es) ==>
      id !in AllDeletes(es) && Lookup(baseline, id) == Some(Replayed(es, baseline)[id])
  {
    if es != [] {
      var front, last := es[..|es| - 1], es[|es| - 1];
      RecordedLookup(Collected(baseline, front), Replayed(es, baseline), Named(last), id);
      if id !in Named(last) {
        if id in last.deletes { DeletedNotLive(Replayed(front, baseline), last, id); }
        NamedTouches(last, id);
        UntouchedEntry(last, id);
        LookupApply(Replayed(front, baseline), last, id);
        UntouchedActs(Lookup(Replayed(front, baseline), id));
        CollectedLive(baseline, front, id);
      }
    }
  }

  /** `rows` is the collected map as a list, in some order. */
  ghost predicate RowsOf(rows: seq<Row>, m: map<Id, Document>) {
    && (forall i :: 0 <= i < |rows| ==> rows[i].0 in m && m[rows[i].0] == rows[i].1)
    && (forall id :: id in m ==> (id, m[id]) in rows)
  }

  lemma {:induction false} PutRowsLookup(idx: Indexed, rows: seq<Row>, m: map<Id, Document>, id: Id)
    requires forall i :: 0 <= i < |rows| ==> rows[i].0 in m && m[rows[i].0] == rows[i].1
    ensures Lookup(PutRows(idx, rows), id) ==
      if id in m && (id, m[id]) in rows then Some(m[id]) else Lookup(idx, id)
    decreases |rows|
  {
    if rows != [] {
      var head, rest := rows[0], rows[1..];
      PutRowsLookup(idx[head.0 := head.1], rest, m, id);
      assert rows == [head] + rest;
      assert head == (head.0, m[head.0]);
    }
  }

  lemma RowsOfLookup(idx: Indexed, rows: seq<Row>, m: map<Id, Document>, deletes: seq<Id>, id: Id)
    requires RowsOf(rows, m)
    ensures Lookup(DeltaApplied(idx, rows, deletes), id) ==
      if id in m then Some(m[id]) else if id in deletes then None else Lookup(idx, id)
  {
    PutRowsLookup(RemoveAll(idx, deletes), rows, m, id);
    LookupRemoveAll(idx, deletes, id);
    UntouchedActs(Lookup(idx, id));
  }

  /** One collected delta brings an index that is right at the cursor to one that is right at the
      end of the range, in whatever order the collected rows come. */
  lemma CollectedDeltaLiveCorrect(idx: Indexed, baseline: DocMap, es: seq<Entry>, rows: seq<Row>)
    requires LiveCorrect(idx, baseline) && RowsOf(rows, Collected(baseline, es))
    ensures LiveCorrect(DeltaApplied(idx, rows, AllDeletes(es)), Replayed(es, baseline))
  {
    var after := DeltaApplied(idx, rows, AllDeletes(es));
    forall id | id in Replayed(es, baseline)
      ensures id in after && after[id] == Replayed(es, baseline)[id]
    {
      CollectedLive(baseline, es, id);
      RowsOfLookup(idx, rows, Collected(baseline, es), AllDeletes(es), id);
      assert Lookup(after, id) == Some(Replayed(es, baseline)[id]);
    }
  }

  /** Exactly which ids the collected delta leaves in the index: those collected, plus those that
      were indexed before and that no entry of the range deletes. */
  lemma CollectedDeltaKeys(idx: Indexed, baseline: DocMap, es: seq<Entry>, rows: seq<Row>, id: Id)
    requires RowsOf(rows, Collected(baseline, es))
    ensures id in DeltaApplied(idx, rows, AllDeletes(es)) <==>
      id in Collected(baseline, es) || (id in idx && id !in AllDeletes(es))
  {
    RowsOfLookup(idx, rows, Collected(baseline, es), AllDeletes(es), id);
    assert Lookup(DeltaApplied(idx, rows, AllDeletes(es)), id).Some? <==> id in DeltaApplied(idx, rows, AllDeletes(es));
  }

  /** An id is collected exactly when some entry of the range upserts or patches it and leaves it
      live; a later delete does not take it out again. */
  lemma {:induction false} CollectedKeys(baseline: DocMap, es: seq<Entry>, id: Id)
    ensures id in Collected(baseline, es) <==>
      exists i :: 0 <= i < |es| && id in Named(es[i]) && id in Replayed(es[..i + 1], baseline)
  {
    if es != [] {
      var n := |es| - 1;
      var front, last := es[..n], es[n];
      RecordedLookup(Collected(baseline, front), Replayed(es, baseline), Named(last), id);
      CollectedKeys(baseline, front, id);
      assert es[..n + 1] == es;
      assert forall i :: 0 <= i < n ==> front[i] == es[i] && front[..i + 1] == es[..i + 1];
    }
  }

  /** A document upserted and deleted within one range that also holds a patch stays in the index
      although it is not live: the index is right on live ids only. */
  lemma DeadIdLingers()
    ensures exists es: seq<Entry>, rows: seq<Row>, id: Id ::
      && RowsOf(rows, Collected(map[], es))
      && id !in Replayed(es, map[])
      && id in DeltaApplied(map[], rows, AllDeletes(es))
  {
    var a := Document("a", map[]);
    var es := [Entry([a], [a], []), Entry([], [], ["a"])];
    assert es[..1] == [es[0]];
    assert es[0].patches == [a] && es[0].upserts == [a];
    var first := Replayed(es[..1], map[]);
    var none: DocMap := map[];
    AtNext(es, 0);
    assert At(es, 0) == none && first == ApplyEntry(none, es[0]);
    LookupApply(none, es[0], "a");
    UpsertEffectCases(es[0].upserts, "a");
    PatchEffectCases(es[0].patches, "a");
    assert a in es[0].upserts && a.id == "a";
    assert Lookup(first, "a").Some?;
    NamedIdsMember(es[0].upserts, "a");
    CollectedKeys(map[], es, "a");
    assert "a" in Collected(map[], es) by { assert "a" in Named(es[0]) && "a" in Replayed(es[..0 + 1], map[]); }
    DeletedNotLive(first, es[1], "a");
    assert Replayed(es, map[]) == ApplyEntry(first, es[1]);
    var rows := ListRows(Collected(map[], es));
    CollectedDeltaKeys(map[], map[], es, rows, "a");
  }

  /** Some listing of a map. */
  lemma {:induction false} ListRows(m: map<Id, Document>) returns (rows: seq<Row>)
    ensures RowsOf(rows, m)
    decreases |m|
  {
    if m == map[] {
      rows := [];
    } else {
      var id :| id in m;
      var rest := m - {id};
      assert m.Keys == rest.Keys + {id};
      var more := ListRows(rest);
      rows := [(id, m[id])] + more;
    }
  }

  // ----- The upserts and deletes of a range without patches -----

  predicate HasPatches(es: seq<Entry>) {
    exists e :: e in es && e.patches != []
  }

  /** All upserts of a range, one batch after the other. */
  function AllRows(es: seq<Entry>): seq<Row> {
    if es == [] then [] else AllRows(es[..|es| - 1]) + Rows(es[|es| - 1].upserts)
  }

  /** The document of the last upsert of an id. */
  function LastUpsert(es: seq<Entry>, id: Id): Option<Document> {
    if es == [] then None
    else
      var eff := UpsertEffect(es[|es| - 1].upserts, id);
      if eff.Fixed? then eff.doc else LastUpsert(es[..|es| - 1], id)
  }

  lemma {:induction false} PutRowsJoins(idx: Indexed, a: seq<Row>, b: seq<Row>)
    ensures PutRows(idx, a + b) == PutRows(PutRows(idx, a), b)
    decreases |a|
  {
    if a == [] {
      assert a + b == b;
    } else {
      assert (a + b)[1..] == a[1..] + b;
      PutRowsJoins(idx[a[0].0 := a[0].1], a[1..], b);
    }
  }

  lemma RowsLookup(idx: Indexed, upserts: seq<Document>, id: Id)
    ensures var eff := UpsertEffect(upserts, id);
      && (eff.Fixed? ==> eff.doc.Some?)
      && Lookup(PutRows(idx, Rows(upserts)), id) == if eff.Fixed? then eff.doc else Lookup(idx, id)
  {
    PutRowsIsPutAll(idx, upserts);
    LookupPutAll(idx, upserts, id);
    UpsertEffectCases(upserts, id);
    UntouchedActs(Lookup(idx, id));
  }

  lemma {:induction false} AllRowsLookup(idx: Indexed, es: seq<Entry>, id: Id)
    ensures Lookup(PutRows(idx, AllRows(es)), id) ==
      if LastUpsert(es, id).Some? then LastUpsert(es, id) else Lookup(idx, id)
  {
    if es != [] {
      var front, last := es[..|es| - 1], es[|es| - 1];
      AllRowsLookup(idx, front, id);
      PutRowsJoins(idx, AllRows(front), Rows(last.upserts));
      RowsLookup(PutRows(idx, AllRows(front)), last.upserts, id);
    }
  }

  /** Where an id ends up when all deletes of a range come first and then all its upserts: at its last
      upsert, else gone if deleted anywhere, else where it was. */
  lemma ConcatenatedLookup(idx: Indexed, es: seq<Entry>, id: Id)
    ensures Lookup(DeltaApplied(idx, AllRows(es), AllDeletes(es)), id) ==
      if LastUpsert(es, id).Some? then LastUpsert(es, id)
      else if id in AllDeletes(es) then None else Lookup(idx, id)
  {
    AllRowsLookup(RemoveAll(idx, AllDeletes(es)), es, id);
    LookupRemoveAll(idx, AllDeletes(es), id);
    UntouchedActs(Lookup(idx, id));
  }

  lemma EntryWithoutPatches(docs: DocMap, e: Entry, id: Id)
    requires e.patches == []
    ensures var eff := UpsertEffect(e.upserts, id);
      Lookup(ApplyEntry(docs, e), id) ==
      if eff.Fixed? then eff.doc else if id in e.deletes then None else Lookup(docs, id)
  {
    StreamStep(docs, e);
    RowsLookup(RemoveAll(docs, e.deletes), e.upserts, id);
    LookupRemoveAll(docs, e.deletes, id);
    UntouchedActs(Lookup(docs, id));
  }

  /** A live id is at its last upsert or, without one, was not deleted. */
  lemma {:induction false} LiveAtLastUpsert(baseline: DocMap, es: seq<Entry>, id: Id)
    requires !HasPatches(es) && id in Replayed(es, baseline)
    ensures Lookup(Replayed(es, baseline), id) ==
      if LastUpsert(es, id).Some? then LastUpsert(es, id) else Lookup(baseline, id)
    ensures LastUpsert(es, id).None? ==> id !in AllDeletes(es)
  {
    if es != [] {
      var front, last := es[..|es| - 1], es[|es| - 1];
      assert last in es && forall e :: e in front ==> e in es;
      EntryWithoutPatches(Replayed(front, baseline), last, id);
      RowsLookup(map[], last.upserts, id);
      if !UpsertEffect(last.upserts, id).Fixed? { LiveAtLastUpsert(baseline, front, id); }
    }
  }

  /** The concatenated delta of a range without patches is right on every live id. */
  lemma ConcatenatedLiveCorrect(idx: Indexed, baseline: DocMap, es: seq<Entry>)
    requires !HasPatches(es) && LiveCorrect(idx, baseline)
    ensures LiveCorrect(DeltaApplied(idx, AllRows(es), AllDeletes(es)), Replayed(es, baseline))
  {
    forall id | id in Replayed(es, baseline)
      ensures Lookup(DeltaApplied(idx, AllRows(es), AllDeletes(es)), id) == Some(Replayed(es, baseline)[id])
    {
      LiveAtLastUpsert(baseline, es, id);
      ConcatenatedLookup(idx, es, id);
    }
  }

  /** A dead id stays in the index exactly if the range upserts it, or it lingered before and the range does
      not delete it. */
  lemma ConcatenatedDeadIds(idx: Indexed, es: seq<Entry>, id: Id)
    ensures id in DeltaApplied(idx, AllRows(es), AllDeletes(es)) <==>
      LastUpsert(es, id).Some? || (id in idx && id !in AllDeletes(es))
  {
    ConcatenatedLookup(idx, es, id);
    assert Lookup(DeltaApplied(idx, AllRows(es), AllDeletes(es)), id).Some? <==>
      id in DeltaApplied(idx, AllRows(es), AllDeletes(es));
  }

  // ----- stream_index_delta_from_wal -----

  /** The segments' new contents, and the upserts and deletes handed on to the vector index. */
  datatype Streamed = Streamed(index: Indexed, upserts: seq<Row>, deletes: seq<Id>)

  /** The delta of a range: its upserts and deletes concatenated, or collected if it has patches. */
  ghost predicate DeltaOf(upserts: seq<Row>, deletes: seq<Id>, baseline: DocMap, es: seq<Entry>) {
    && deletes == AllDeletes(es)
    && if HasPatches(es) then RowsOf(upserts, Collected(baseline, es)) else upserts == AllRows(es)
  }

  /** Either way it is right on every live id. */
  lemma DeltaLiveCorrect(idx: Indexed, baseline: DocMap, es: seq<Entry>, upserts: seq<Row>, deletes: seq<Id>)
    requires DeltaOf(upserts, deletes, baseline, es) && LiveCorrect(idx, baseline)
    ensures LiveCorrect(DeltaApplied(idx, upserts, deletes), Replayed(es, baseline))
  {
    if HasPatches(es) {
      CollectedDeltaLiveCorrect(idx, baseline, es, upserts);
    } else {
      ConcatenatedLiveCorrect(idx, baseline, es);
    }
  }

  /** Turn a collected map into the list handed to `apply_delta`. */
  method RowList(m: map<Id, Document>) returns (rows: seq<Row>)
    ensures RowsOf(rows, m)
  {
    rows := [];
    var todo := m.Keys;
    while todo != {}
      invariant todo <= m.Keys
      invariant forall i :: 0 <= i < |rows| ==> rows[i].0 in m && m[rows[i].0] == rows[i].1
      invariant forall id :: id in m && id !in todo ==> (id, m[id]) in rows
    {
      var id :| id in todo;
      rows := rows + [(id, m[id])];
      todo := todo - {id};
    }
  }

  /** The upserts and deletes of batches `cursor + 1` to `n`, none of which patches anything. */
  ghost predicate StreamedTo(log: seq<Entry>, cursor: nat, n: nat, upserts: seq<Row>, deletes: seq<Id>)
    requires cursor <= n <= |log|
  {
    var es := log[cursor..n];
    !HasPatches(es) && upserts == AllRows(es) && deletes == AllDeletes(es)
  }

  lemma StreamedMore(log: seq<Entry>, cursor: nat, n: nat, upserts: seq<Row>, deletes: seq<Id>)
    requires cursor < n <= |log| && StreamedTo(log, cursor, n - 1, upserts, deletes) && log[n - 1].patches == []
    ensures StreamedTo(log, cursor, n, upserts + Rows(log[n - 1].upserts), deletes + log[n - 1].deletes)
  {
    var es := log[cursor..n];
    assert es[..|es| - 1] == log[cursor..n - 1] && es[|es| - 1] == log[n - 1];
    forall e | e in es ensures e.patches == [] { assert e in log[cursor..n - 1] || e == log[n - 1]; }
  }

  /** The indexer's read phase.  `first` holds the segments found while streaming; when a patch
      shows up the range is read again (`second`) and the documents at the cursor are rebuilt from
      the snapshot and segments found then (`snap`, `third`).  A segment not found is an error.

      With genuine reads made at any moments, a successful pass over an index that is right at the
      cursor yields one that is right at `last`; and if it was exact and no entry of the range
      patches anything, the result is exact too: no dead id remains. */
  method StreamIndexDelta(cursor: nat, last: nat, idx: Indexed,
                          first: Segments, second: Segments, snap: Option<Snapshot>, third: Segments,
                          ghost log: seq<Entry>)
    returns (r: Result<Streamed>)
    requires cursor <= last <= |log|
    requires GenuineSegments(first, log) && GenuineSegments(second, log) && GenuineSegments(third, log)
    requires GenuineSnapshot(snap, log)
    ensures r.Ok? && LiveCorrect(idx, At(log, cursor)) ==> LiveCorrect(r.value.index, At(log, last))
    ensures r.Ok? && idx == At(log, cursor) && !HasPatches(log[cursor..last]) ==> r.value.index == At(log, last)
    ensures r.Ok? ==> DeltaOf(r.value.upserts, r.value.deletes, At(log, cursor), log[cursor..last])
    ensures (HasRange(first, cursor + 1, last) && HasRange(second, cursor + 1, last) &&
      DocsAtCursor(snap, third, cursor).Ok?)
      ==> r.Ok?
  {
    var current, upserts, deletes := idx, [], [];
    var n := cursor + 1;
    while n <= last
      invariant cursor + 1 <= n <= last + 1
      invariant StreamedTo(log, cursor, n - 1, upserts, deletes)
      invariant LiveCorrect(idx, At(log, cursor)) ==> LiveCorrect(current, At(log, n - 1))
      invariant idx == At(log, cursor) ==> current == At(log, n - 1)
    {
      if n !in first { return Err; }
      var entry := first[n];
      assert entry == log[n - 1];
      if entry.patches != [] {
        assert log[n - 1] == log[cursor..last][n - 1 - cursor];
        assert HasPatches(log[cursor..last]);
        r := Recollect(cursor, last, idx, second, snap, third, log);
        return;
      }
      StreamNext(current, log, n);
      StreamedMore(log, cursor, n, upserts, deletes);
      current := DeltaApplied(current, Rows(entry.upserts), entry.deletes);
      deletes := deletes + entry.deletes;
      upserts := upserts + Rows(entry.upserts);
      n := n + 1;
    }
    r := Ok(Streamed(current, upserts, deletes));
  }

  method Recollect(cursor: nat, last: nat, idx: Indexed,
                   second: Segments, snap: Option<Snapshot>, third: Segments, ghost log: seq<Entry>)
    returns (r: Result<Streamed>)
    requires cursor <= last <= |log|
    requires GenuineSegments(second, log) && GenuineSegments(third, log) && GenuineSnapshot(snap, log)
    ensures r.Ok? && LiveCorrect(idx, At(log, cursor)) ==> LiveCorrect(r.value.index, At(log, last))
    ensures r.Ok? ==> RowsOf(r.value.upserts, Collected(At(log, cursor), log[cursor..last]))
    ensures r.Ok? ==> r.value.deletes == AllDeletes(log[cursor..last])
    ensures HasRange(second, cursor + 1, last) && DocsAtCursor(snap, third, cursor).Ok? ==> r.Ok?
  {
    if !HasRange(second, cursor + 1, last) { return Err; }
    var entries := RangeEntries(second, cursor + 1, last);
    GenuineRange(second, log, cursor + 1, last);
    var baseline := DocsAtIndexCursor(snap, third, cursor);
    if baseline.Err? { return Err; }
    DocsAtCursorCorrect(snap, third, cursor, log);
    var docs, upserts, deletes := CollectIndexDelta(baseline.value, entries);
    var rows := RowList(upserts);
    ReplayFrom(log, cursor, last);
    if LiveCorrect(idx, At(log, cursor)) { CollectedDeltaLiveCorrect(idx, At(log, cursor), entries, rows); }
    r := Ok(Streamed(DeltaApplied(idx, rows, deletes), rows, deletes));
  }
}
