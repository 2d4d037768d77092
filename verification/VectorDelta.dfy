/** The delta an indexer pass hands to the vector index (`src/indexer.rs`, `apply_delta` of
    `src/index/vector.rs`).

    Unlike the filter and full-text segments, the vector index does not take a range batch by batch: it
    gets all deletes of the range and then all upserts.
 */
module VectorDelta {
  import opened Documents
  import opened Replay
  import opened IndexDelta
  import opened Centroids
  import opened VectorIndexes

  /** The vector a document is indexed with. */
  function VectorOf(doc: Document, dim: nat, extract: Document -> Option<Vector>): Option<Vector> {
    var v := extract(doc);
    if v.Some? && |v.value| == dim then v else None
  }

  /** The vectors of the documents an index has. */
  function IndexedVectors(idx: Indexed, dim: nat, extract: Document -> Option<Vector>): map<Id, Vector> {
    map id | id in idx && VectorOf(idx[id], dim, extract).Some? :: VectorOf(idx[id], dim, extract).value
  }

  lemma PutVector(idx: Indexed, id: Id, doc: Document, dim: nat, extract: Document -> Option<Vector>)
    ensures var v, vectors := VectorOf(doc, dim, extract), IndexedVectors(idx, dim, extract);
      IndexedVectors(idx[id := doc], dim, extract) == if v.Some? then vectors[id := v.value] else vectors - {id}
  {
  }

  lemma {:induction false} PutVectors(idx: Indexed, rows: seq<Row>, dim: nat, extract: Document -> Option<Vector>)
    ensures VectorsPut(IndexedVectors(idx, dim, extract), rows, dim, extract) ==
      IndexedVectors(PutRows(idx, rows), dim, extract)
    decreases |rows|
  {
    if rows != [] {
      PutVector(idx, rows[0].0, rows[0].1, dim, extract);
      PutVectors(idx[rows[0].0 := rows[0].1], rows[1..], dim, extract);
    }
  }

  lemma DropVector(idx: Indexed, id: Id, dim: nat, extract: Document -> Option<Vector>)
    ensures IndexedVectors(idx - {id}, dim, extract) == IndexedVectors(idx, dim, extract) - {id}
  {
  }

  lemma {:induction false} DropVectors(idx: Indexed, ids: seq<Id>, dim: nat, extract: Document -> Option<Vector>)
    ensures VectorsRemoved(IndexedVectors(idx, dim, extract), ids) == IndexedVectors(RemoveAll(idx, ids), dim, extract)
    decreases |ids|
  {
    if ids != [] {
      DropVector(idx, ids[0], dim, extract);
      DropVectors(idx - {ids[0]}, ids[1..], dim, extract);
    }
  }

  /** What the vector index holds follows which documents are indexed. */
  lemma VectorsFollow(idx: Indexed, upserts: seq<Row>, deletes: seq<Id>, dim: nat, extract: Document -> Option<Vector>)
    ensures VectorsAfter(IndexedVectors(idx, dim, extract), upserts, deletes, dim, extract) ==
      IndexedVectors(DeltaApplied(idx, upserts, deletes), dim, extract)
  {
    DropVectors(idx, deletes, dim, extract);
    PutVectors(RemoveAll(idx, deletes), upserts, dim, extract);
  }

  /** After the delta of a range, with or without patches, every live document is in the vector index with its
      vector, and without one it is not there. */
  lemma LiveVectorsRight(idx: Indexed, baseline: DocMap, es: seq<Entry>, upserts: seq<Row>, deletes: seq<Id>, dim: nat,
                         extract: Document -> Option<Vector>, id: Id)
    requires DeltaOf(upserts, deletes, baseline, es) && LiveCorrect(idx, baseline) && id in Replayed(es, baseline)
    ensures var v := VectorOf(Replayed(es, baseline)[id], dim, extract);
      var vectors := VectorsAfter(IndexedVectors(idx, dim, extract), upserts, deletes, dim, extract);
      (id in vectors <==> v.Some?) && (id in vectors ==> vectors[id] == v.value)
  {
    DeltaLiveCorrect(idx, baseline, es, upserts, deletes);
    VectorsFollow(idx, upserts, deletes, dim, extract);
  }

  /** A dead document stays after a range without patches exactly if the range upserts it, last with a vector,
      or it was there before and the range neither upserts nor deletes it. */
  lemma DeadVectorsExactly(idx: Indexed, baseline: DocMap, es: seq<Entry>, dim: nat,
                           extract: Document -> Option<Vector>, id: Id)
    requires !HasPatches(es) && id !in Replayed(es, baseline)
    ensures var vectors := IndexedVectors(idx, dim, extract);
      id in VectorsAfter(vectors, AllRows(es), AllDeletes(es), dim, extract) <==>
      if LastUpsert(es, id).Some? then VectorOf(LastUpsert(es, id).value, dim, extract).Some?
      else id in vectors && id !in AllDeletes(es)
  {
    VectorsFollow(idx, AllRows(es), AllDeletes(es), dim, extract);
    ConcatenatedLookup(idx, es, id);
  }

  /** A document upserted in one batch and deleted in the next stays in the vector index. */
  lemma DeadVectorStays(doc: Document, vec: Vector)
    ensures var es := [Entry([doc], [], []), Entry([], [], [doc.id])];
      && !HasPatches(es) && doc.id !in Replayed(es, map[])
      && doc.id in VectorsAfter(map[], AllRows(es), AllDeletes(es), |vec|, (_: Document) => Some(vec))
  {
    var es := [Entry([doc], [], []), Entry([], [], [doc.id])];
    var extract := (_: Document) => Some(vec);
    assert es[..1] == [es[0]] && es[..1][..0] == [];
    EntryWithoutPatches(Replayed(es[..1], map[]), es[1], doc.id);
    assert UpsertEffect(es[1].upserts, doc.id) == UNTOUCHED;
    assert UpsertEffect([doc], doc.id) == Then(Fixed(Some(doc)), UpsertEffect([], doc.id));
    assert LastUpsert(es[..1], doc.id).Some?;
    assert IndexedVectors(map[], |vec|, extract) == map[];
    DeadVectorsExactly(map[], map[], es, |vec|, extract, doc.id);
  }
}
