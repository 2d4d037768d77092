/** Documents, write-ahead-log entries, and what one entry does to a document map
    (`src/models.rs`, `src/wal.rs`).

    Attribute values are JSON values.  A JSON number is a finite `f64`: a real number, or the
    negative zero that compares equal to zero but prints differently.  The JSON and bincode
    codecs are not part of the model: an upsert or patch row carries its decoded attributes.
 */
module Documents {

  datatype Option<+T> = None | Some(value: T)

  datatype Result<+T> = Ok(value: T) | Err

  type Id = string

  datatype Number = Finite(value: real) | NegativeZero {
    function AsReal(): real {
      if NegativeZero? then 0.0 else value
    }
  }

  datatype Value = Null | Bool(b: bool) | Num(n: Number) | Text(s: string) | Compound(json: string)

  type Attributes = map<string, Value>

  datatype Document = Document(id: Id, attributes: Attributes)

  type DocMap = map<Id, Document>

  /** One committed WAL batch. */
  datatype Entry = Entry(upserts: seq<Document>, patches: seq<Document>, deletes: seq<Id>)

  const NO_OPS := Entry([], [], [])

  function Lookup(docs: DocMap, id: Id): Option<Document> {
    if id in docs then Some(docs[id]) else None
  }

  /** Every document sits under its own id. */
  ghost predicate Keyed(docs: DocMap) {
    forall id :: id in docs ==> docs[id].id == id
  }

  /** `merge_document_attributes`: the patch's attributes win, the others stay. */
  function Merged(doc: Document, attrs: Attributes): Document {
    doc.(attributes := doc.attributes + attrs)
  }

  function RemoveAll(docs: DocMap, ids: seq<Id>): DocMap
    decreases |ids|
  {
    if ids == [] then docs else RemoveAll(docs - {ids[0]}, ids[1..])
  }

  function PutAll(docs: DocMap, upserts: seq<Document>): DocMap
    decreases |upserts|
  {
    if upserts == [] then docs else PutAll(docs[upserts[0].id := upserts[0]], upserts[1..])
  }

  function PatchOne(docs: DocMap, patch: Document): DocMap {
    if patch.id in docs then docs[patch.id := Merged(docs[patch.id], patch.attributes)] else docs
  }

  function PatchAll(docs: DocMap, patches: seq<Document>): DocMap
    decreases |patches|
  {
    if patches == [] then docs else PatchAll(PatchOne(docs, patches[0]), patches[1..])
  }

  /** `apply_entry` as a function: deletes, then upserts, then patches of present documents. */
  function ApplyEntry(docs: DocMap, e: Entry): DocMap {
    PatchAll(PutAll(RemoveAll(docs, e.deletes), e.upserts), e.patches)
  }

  /** `merge_document_attributes` as the loop over the patch's attributes, in any order. */
  method MergeAttributes(doc: Document, patch: Document) returns (out: Document)
    ensures out == Merged(doc, patch.attributes)
  {
    var attributes := doc.attributes;
    var todo := patch.attributes.Keys;
    while todo != {}
      invariant todo <= patch.attributes.Keys
      invariant attributes.Keys == doc.attributes.Keys + (patch.attributes.Keys - todo)
      invariant forall k :: k in attributes && k in patch.attributes && k !in todo ==>
        attributes[k] == patch.attributes[k]
      invariant forall k :: k in attributes && (k !in patch.attributes || k in todo) ==>
        attributes[k] == doc.attributes[k]
    {
      var k :| k in todo;
      attributes := attributes[k := patch.attributes[k]];
      todo := todo - {k};
    }
    out := Document(doc.id, attributes);
    assert out.attributes == doc.attributes + patch.attributes;
  }

  /** `apply_entry` as the three loops of the source. */
  method ApplyEntryInPlace(docs: DocMap, e: Entry) returns (out: DocMap)
    ensures out == ApplyEntry(docs, e)
  {
    out := docs;
    var i := 0;
    while i < |e.deletes|
      invariant 0 <= i <= |e.deletes|
      invariant RemoveAll(out, e.deletes[i..]) == RemoveAll(docs, e.deletes)
    {
      assert e.deletes[i..][1..] == e.deletes[i + 1..];
      out := out - {e.deletes[i]};
      i := i + 1;
    }
    i := 0;
    while i < |e.upserts|
      invariant 0 <= i <= |e.upserts|
      invariant PutAll(out, e.upserts[i..]) == PutAll(RemoveAll(docs, e.deletes), e.upserts)
    {
      assert e.upserts[i..][1..] == e.upserts[i + 1..];
      out := out[e.upserts[i].id := e.upserts[i]];
      i := i + 1;
    }
    i := 0;
    while i < |e.patches|
      invariant 0 <= i <= |e.patches|
      invariant PatchAll(out, e.patches[i..]) == ApplyEntry(docs, e)
    {
      assert e.patches[i..][1..] == e.patches[i + 1..];
      var patch := e.patches[i];
      if patch.id in out {
        var merged := MergeAttributes(out[patch.id], patch);
        out := out[patch.id := merged];
      }
      i := i + 1;
    }
  }

  lemma {:induction false} PutAllKeyed(docs: DocMap, upserts: seq<Document>)
    requires Keyed(docs)
    ensures Keyed(PutAll(docs, upserts))
    decreases |upserts|
  {
    if upserts != [] { PutAllKeyed(docs[upserts[0].id := upserts[0]], upserts[1..]); }
  }

  lemma {:induction false} PatchAllKeyed(docs: DocMap, patches: seq<Document>)
    requires Keyed(docs)
    ensures Keyed(PatchAll(docs, patches))
    decreases |patches|
  {
    if patches != [] { PatchAllKeyed(PatchOne(docs, patches[0]), patches[1..]); }
  }

  lemma {:induction false} RemoveAllKeyed(docs: DocMap, ids: seq<Id>)
    requires Keyed(docs)
    ensures Keyed(RemoveAll(docs, ids))
    decreases |ids|
  {
    if ids != [] { RemoveAllKeyed(docs - {ids[0]}, ids[1..]); }
  }

  /** Applying an entry keeps every document under its own id. */
  lemma ApplyEntryKeyed(docs: DocMap, e: Entry)
    requires Keyed(docs)
    ensures Keyed(ApplyEntry(docs, e))
  {
    RemoveAllKeyed(docs, e.deletes);
    PutAllKeyed(RemoveAll(docs, e.deletes), e.upserts);
    PatchAllKeyed(PutAll(RemoveAll(docs, e.deletes), e.upserts), e.patches);
  }

  // ----- WalSnapshot::from_docs / into_docs -----

  /** `rows` lists the documents of `docs`, each once, in some order (`docs.values()`). */
  ghost predicate Lists(rows: seq<Document>, docs: DocMap) {
    && (forall i :: 0 <= i < |rows| ==> rows[i].id in docs && docs[rows[i].id] == rows[i])
    && (forall id :: id in docs ==> docs[id] in rows)
  }

  lemma {:induction false} PutAllLookup(docs: DocMap, upserts: seq<Document>, id: Id)
    ensures (forall u :: u in upserts ==> u.id != id) ==> Lookup(PutAll(docs, upserts), id) == Lookup(docs, id)
    ensures (exists u :: u in upserts && u.id == id) ==>
      id in PutAll(docs, upserts) && PutAll(docs, upserts)[id] in upserts && PutAll(docs, upserts)[id].id == id
    decreases |upserts|
  {
    if upserts != [] {
      var head, rest := upserts[0], upserts[1..];
      PutAllLookup(docs[head.id := head], rest, id);
      assert upserts == [head] + rest;
    }
  }

  /** `into_docs(from_docs(docs))` gives the map back, whatever order the rows were written in. */
  lemma SnapshotRoundTrip(docs: DocMap, rows: seq<Document>)
    requires Keyed(docs) && Lists(rows, docs)
    ensures PutAll(map[], rows) == docs
  {
    var back := PutAll(map[], rows);
    forall id ensures Lookup(back, id) == Lookup(docs, id) {
      PutAllLookup(map[], rows, id);
      if id in docs {
        assert docs[id] in rows && docs[id].id == id;
      }
    }
    SameLookup(back, docs);
  }

  lemma SameLookup(a: DocMap, b: DocMap)
    requires forall id :: Lookup(a, id) == Lookup(b, id)
    ensures a == b
  {
    forall id ensures id in a <==> id in b { assert Lookup(a, id) == Lookup(b, id); }
    forall id | id in a ensures a[id] == b[id] { assert Lookup(a, id) == Lookup(b, id); }
  }
}
