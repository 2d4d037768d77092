/** The full-text segment (`src/index/fts.rs`).

    Tokenising and the rendering of values as text are parameters: a segment is described through
    `tokens`, the token list of a document's indexed text.
 */
module Fts {
  import opened Documents
  import opened Replay
  import opened IndexDelta
  import Order

  datatype Posting = Posting(docId: Id, termFreq: nat)

  type PostingLists = map<string, seq<Posting>>

  datatype Segment = Segment(numDocs: nat, totalDocLen: nat, docLengths: map<Id, nat>, postings: PostingLists)

  // ----- Sums over maps -----

  ghost function Total<K>(m: map<K, nat>): nat {
    if m == map[] then 0
    else
      var k :| k in m;
      m[k] + Total(m - {k})
  }

  lemma {:induction false} TotalWithout<K>(m: map<K, nat>, k: K)
    requires k in m
    ensures Total(m) == m[k] + Total(m - {k})
    decreases |m|
  {
    var c :| c in m && Total(m) == m[c] + Total(m - {c});
    if c != k {
      assert m.Keys == (m - {c}).Keys + {c};
      TotalWithout(m - {c}, k);
      assert m.Keys == (m - {k}).Keys + {k};
      TotalWithout(m - {k}, c);
      assert m - {c} - {k} == m - {k} - {c};
    }
  }

  lemma TotalWith<K>(m: map<K, nat>, k: K, v: nat)
    ensures Total(m[k := v]) == v + Total(m - {k})
  {
    TotalWithout(m[k := v], k);
    assert m[k := v] - {k} == m - {k};
  }

  lemma SizeWithout<K, V>(m: map<K, V>, k: K)
    requires k in m
    ensures |m| == |m - {k}| + 1
  {
    assert m.Keys == (m - {k}).Keys + {k};
  }

  // ----- What a segment holds -----

  predicate HasPosting(p: PostingLists, term: string, id: Id, tf: nat) {
    term in p && Posting(id, tf) in p[term]
  }

  predicate OnePerDoc(list: seq<Posting>) {
    forall i, j :: 0 <= i < j < |list| ==> list[i].docId != list[j].docId
  }

  predicate TidyLists(p: PostingLists) {
    forall term :: term in p ==> p[term] != [] && OnePerDoc(p[term])
  }

  /** The postings are exactly the term counts of the indexed documents, one posting per term and
      document, in lists that are never empty. */
  ghost predicate PostingsOf(p: PostingLists, idx: Indexed, tokens: Document -> seq<string>) {
    && TidyLists(p)
    && forall term, id, tf: nat :: HasPosting(p, term, id, tf) <==>
      id in idx && tf > 0 && tf == multiset(tokens(idx[id]))[term]
  }

  /** Lengths of the documents that have any token at all. */
  function Lengths(idx: Indexed, tokens: Document -> seq<string>): map<Id, nat> {
    map id | id in idx && tokens(idx[id]) != [] :: |tokens(idx[id])|
  }

  ghost predicate Represents(seg: Segment, idx: Indexed, tokens: Document -> seq<string>) {
    && seg.docLengths == Lengths(idx, tokens)
    && seg.numDocs == |seg.docLengths|
    && seg.totalDocLen == Total(seg.docLengths)
    && PostingsOf(seg.postings, idx, tokens)
  }

  // ----- Adding -----

  method CountTerms(tokens: seq<string>) returns (freq: map<string, nat>)
    ensures forall t :: t in freq <==> t in tokens
    ensures forall t :: t in freq ==> freq[t] == multiset(tokens)[t] > 0
  {
    freq := map[];
    for i := 0 to |tokens|
      invariant forall t :: t in freq <==> t in tokens[..i]
      invariant forall t :: t in freq ==> freq[t] == multiset(tokens[..i])[t] > 0
    {
      assert tokens[..i + 1] == tokens[..i] + [tokens[i]];
      var t := tokens[i];
      freq := freq[t := (if t in freq then freq[t] else 0) + 1];
    }
    assert tokens[..|tokens|] == tokens;
  }

  function Pushed(p: PostingLists, term: string, posting: Posting): PostingLists {
    p[term := (if term in p then p[term] else []) + [posting]]
  }

  lemma PushedPostings(p: PostingLists, term: string, id: Id, tf: nat)
    requires TidyLists(p) && forall n: nat :: !HasPosting(p, term, id, n)
    ensures TidyLists(Pushed(p, term, Posting(id, tf)))
    ensures forall t, i, n: nat :: HasPosting(Pushed(p, term, Posting(id, tf)), t, i, n) <==>
      HasPosting(p, t, i, n) || (t, i, n) == (term, id, tf)
  {
    var list := if term in p then p[term] else [];
    forall k | 0 <= k < |list| ensures list[k].docId != id {
      assert HasPosting(p, term, list[k].docId, list[k].termFreq);
    }
  }

  lemma AddedPostings(before: PostingLists, after: PostingLists, idx: Indexed, id: Id, doc: Document,
                      tokens: Document -> seq<string>)
    requires PostingsOf(before, idx, tokens) && id !in idx && TidyLists(after)
    requires forall t, i, n: nat :: HasPosting(after, t, i, n) <==>
      HasPosting(before, t, i, n) || (i == id && n > 0 && n == multiset(tokens(doc))[t])
    ensures PostingsOf(after, idx[id := doc], tokens)
  {
    var idx' := idx[id := doc];
    forall t, i, n: nat
      ensures HasPosting(after, t, i, n) <==> i in idx' && n > 0 && n == multiset(tokens(idx'[i]))[t]
    {
      assert HasPosting(before, t, i, n) <==> i in idx && n > 0 && n == multiset(tokens(idx[i]))[t];
    }
  }

  lemma LengthsWith(idx: Indexed, id: Id, doc: Document, tokens: Document -> seq<string>)
    requires id !in idx
    ensures Lengths(idx[id := doc], tokens) ==
      if tokens(doc) == [] then Lengths(idx, tokens) else Lengths(idx, tokens)[id := |tokens(doc)|]
  {
  }

  lemma GrownCounts(before: map<Id, nat>, id: Id, n: nat)
    requires id !in before
    ensures |before[id := n]| == |before| + 1 && Total(before[id := n]) == Total(before) + n
  {
    assert before - {id} == before && before[id := n] - {id} == before;
    TotalWith(before, id, n);
    SizeWithout(before[id := n], id);
  }

  // ----- Removing -----

  function WithoutDoc(list: seq<Posting>, id: Id): seq<Posting> {
    if list == [] then []
    else (if list[0].docId != id then [list[0]] else []) + WithoutDoc(list[1..], id)
  }

  lemma {:induction false} WithoutDocItems(list: seq<Posting>, id: Id)
    ensures forall p :: p in WithoutDoc(list, id) <==> p in list && p.docId != id
  {
    if list != [] {
      WithoutDocItems(list[1..], id);
      assert list == [list[0]] + list[1..];
    }
  }

  lemma {:induction false} WithoutDocOnePer(list: seq<Posting>, id: Id)
    requires OnePerDoc(list)
    ensures OnePerDoc(WithoutDoc(list, id))
  {
    if list != [] {
      WithoutDocOnePer(list[1..], id);
      WithoutDocItems(list[1..], id);
      var rest := WithoutDoc(list[1..], id);
      forall k | 0 <= k < |rest| ensures rest[k].docId != list[0].docId {
        assert rest[k] in rest;
        var m :| 0 <= m < |list[1..]| && list[1..][m] == rest[k];
        assert list[m + 1] == rest[k];
      }
    }
  }

  function WithoutId(p: PostingLists, id: Id): PostingLists {
    map term | term in p && WithoutDoc(p[term], id) != [] :: WithoutDoc(p[term], id)
  }

  lemma RemovedPostings(before: PostingLists, idx: Indexed, id: Id, tokens: Document -> seq<string>)
    requires PostingsOf(before, idx, tokens)
    ensures PostingsOf(WithoutId(before, id), idx - {id}, tokens)
  {
    var after, idx' := WithoutId(before, id), idx - {id};
    forall term | term in after ensures after[term] != [] && OnePerDoc(after[term]) {
      WithoutDocOnePer(before[term], id);
    }
    forall t, i, n: nat
      ensures HasPosting(after, t, i, n) <==> i in idx' && n > 0 && n == multiset(tokens(idx'[i]))[t]
    {
      if t in before { WithoutDocItems(before[t], id); }
      assert HasPosting(before, t, i, n) <==> i in idx && n > 0 && n == multiset(tokens(idx[i]))[t];
    }
  }

  lemma RemovedCounts(idx: Indexed, id: Id, tokens: Document -> seq<string>)
    requires id in Lengths(idx, tokens)
    ensures var before, after := Lengths(idx, tokens), Lengths(idx - {id}, tokens);
      && after == before - {id}
      && |before| == |after| + 1
      && Total(before) == Total(after) + before[id]
  {
    var before, after := Lengths(idx, tokens), Lengths(idx - {id}, tokens);
    assert after == before - {id};
    SizeWithout(before, id);
    TotalWithout(before, id);
  }

  /** Removing an id that has no tokens changes nothing that the segment holds. */
  lemma RemovedAbsent(seg: Segment, idx: Indexed, id: Id, tokens: Document -> seq<string>)
    requires Represents(seg, idx, tokens) && id !in seg.docLengths
    ensures Represents(seg, idx - {id}, tokens)
  {
    var idx' := idx - {id};
    assert Lengths(idx', tokens) == Lengths(idx, tokens);
    forall t, i, n: nat
      ensures HasPosting(seg.postings, t, i, n) <==> i in idx' && n > 0 && n == multiset(tokens(idx'[i]))[t]
    {
      assert HasPosting(seg.postings, t, i, n) <==> i in idx && n > 0 && n == multiset(tokens(idx[i]))[t];
      if i == id && i in idx { assert tokens(idx[i]) == []; }
    }
  }

  /** The saturating subtractions of a removal never saturate. */
  lemma RemovalNeverSaturates(seg: Segment, idx: Indexed, id: Id, tokens: Document -> seq<string>)
    requires Represents(seg, idx, tokens) && id in seg.docLengths
    ensures seg.totalDocLen >= seg.docLengths[id] && seg.numDocs >= 1
  {
    RemovedCounts(idx, id, tokens);
  }

  // ----- The segment object -----

  class FtsSegment {
    var numDocs: nat
    var totalDocLen: nat
    var docLengths: map<Id, nat>
    var postings: PostingLists

    constructor ()
      ensures Value() == Segment(0, 0, map[], map[])
    {
      numDocs, totalDocLen, docLengths, postings := 0, 0, map[], map[];
    }

    function Value(): Segment
      reads this
    {
      Segment(numDocs, totalDocLen, docLengths, postings)
    }

    /** `add_document`, which counts the document in whether or not the segment has it. */
    method AddDocument(id: Id, doc: Document, tokens: Document -> seq<string>, ghost idx: Indexed)
      modifies this
      ensures numDocs == old(numDocs) + if tokens(doc) == [] then 0 else 1
      ensures docLengths == if tokens(doc) == [] then old(docLengths) else old(docLengths)[id := |tokens(doc)|]
      ensures old(Represents(Value(), idx, tokens)) && id !in old(docLengths) ==>
        Represents(Value(), idx[id := doc], tokens)
    {
      var toks := tokens(doc);
      ghost var before := Value();
      if toks != [] {
        docLengths := docLengths[id := |toks|];
        totalDocLen := totalDocLen + |toks|;
        numDocs := numDocs + 1;
        var freq := CountTerms(toks);
        PushAll(id, freq);
        CountedPostings(before.postings, postings, id, toks, freq);
      }
      if Represents(before, idx, tokens) && id !in before.docLengths {
        AddedRepresents(before, Value(), idx, id, doc, tokens);
      }
    }

    method PushAll(id: Id, freq: map<string, nat>)
      modifies this`postings
      ensures NewTo(old(postings), id) ==> PushedFor(old(postings), postings, id, freq, {})
    {
      var todo := freq.Keys;
      while todo != {}
        invariant todo <= freq.Keys
        invariant NewTo(old(postings), id) ==> PushedFor(old(postings), postings, id, freq, todo)
      {
        var term :| term in todo;
        if NewTo(old(postings), id) { PushedPostings(postings, term, id, freq[term]); }
        postings := Pushed(postings, term, Posting(id, freq[term]));
        todo := todo - {term};
      }
    }

    method RemoveDocument(id: Id, ghost idx: Indexed, ghost tokens: Document -> seq<string>)
      requires Represents(Value(), idx, tokens)
      modifies this
      ensures Represents(Value(), idx - {id}, tokens) && id !in docLengths
    {
      if id !in docLengths {
        RemovedAbsent(Value(), idx, id, tokens);
        return;
      }
      RemovedCounts(idx, id, tokens);
      RemovedPostings(postings, idx, id, tokens);
      totalDocLen := Order.SaturatingSub(totalDocLen, docLengths[id]);
      docLengths := docLengths - {id};
      numDocs := Order.SaturatingSub(numDocs, 1);
      postings := WithoutId(postings, id);
    }

    method RemoveDocuments(ids: seq<Id>, ghost idx: Indexed, ghost tokens: Document -> seq<string>)
      requires Represents(Value(), idx, tokens)
      modifies this
      ensures Represents(Value(), RemoveAll(idx, ids), tokens)
    {
      ghost var now := idx;
      for i := 0 to |ids|
        invariant Represents(Value(), now, tokens)
        invariant RemoveAll(now, ids[i..]) == RemoveAll(idx, ids)
      {
        assert ids[i..][1..] == ids[i + 1..];
        RemoveDocument(ids[i], now, tokens);
        now := now - {ids[i]};
      }
    }

    method ReplaceDocument(id: Id, doc: Document, tokens: Document -> seq<string>, ghost idx: Indexed)
      requires Represents(Value(), idx, tokens)
      modifies this
      ensures Represents(Value(), idx[id := doc], tokens)
    {
      PutAgain(idx, id, doc);
      RemoveDocument(id, idx, tokens);
      AddDocument(id, doc, tokens, idx - {id});
    }

    /** `apply_delta`: deletes, then each upsert replaces. */
    method ApplyDelta(upserts: seq<Row>, deletes: seq<Id>, tokens: Document -> seq<string>, ghost idx: Indexed)
      requires Represents(Value(), idx, tokens)
      modifies this
      ensures Represents(Value(), DeltaApplied(idx, upserts, deletes), tokens)
    {
      RemoveDocuments(deletes, idx, tokens);
      ghost var now := RemoveAll(idx, deletes);
      for i := 0 to |upserts|
        invariant Represents(Value(), now, tokens)
        invariant PutRows(now, upserts[i..]) == DeltaApplied(idx, upserts, deletes)
      {
        assert upserts[i..][1..] == upserts[i + 1..];
        ReplaceDocument(upserts[i].0, upserts[i].1, tokens, now);
        now := now[upserts[i].0 := upserts[i].1];
      }
    }

    /** `build`: the segment of the given documents exactly if no row with tokens is followed by another
        for the same id. */
    constructor Build(rows: seq<Row>, tokens: Document -> seq<string>)
      ensures Represents(Value(), PutRows(map[], rows), tokens) <==> NoLiveRepeat(rows, tokens)
    {
      numDocs, totalDocLen, docLengths, postings := 0, 0, map[], map[];
      new;
      ghost var now: Indexed := map[];
      BuildingStart(rows, tokens);
      for i := 0 to |rows|
        invariant Building(Value(), rows, tokens, i, now)
      {
        ghost var before := Value();
        AddDocument(rows[i].0, rows[i].1, tokens, now);
        BuildingNext(before, Value(), rows, tokens, i, now);
        now := now[rows[i].0 := rows[i].1];
      }
      BuildingDone(Value(), rows, tokens, now);
    }
  }

  /** The lists are tidy and have nothing of this document. */
  ghost predicate NewTo(p: PostingLists, id: Id) {
    TidyLists(p) && forall t, n: nat :: !HasPosting(p, t, id, n)
  }

  ghost predicate PushedFor(before: PostingLists, after: PostingLists, id: Id, freq: map<string, nat>,
                            todo: set<string>)
  {
    && TidyLists(after)
    && forall t, i, n: nat :: HasPosting(after, t, i, n) <==>
         HasPosting(before, t, i, n) || (i == id && t in freq && t !in todo && n == freq[t])
  }

  /** The postings of one more document. */
  ghost predicate PostingsGrown(before: PostingLists, after: PostingLists, id: Id, toks: seq<string>) {
    && TidyLists(after)
    && forall t, i, n: nat :: HasPosting(after, t, i, n) <==>
         HasPosting(before, t, i, n) || (i == id && n > 0 && n == multiset(toks)[t])
  }

  lemma CountedPostings(before: PostingLists, after: PostingLists, id: Id, toks: seq<string>, freq: map<string, nat>)
    requires NewTo(before, id) ==> PushedFor(before, after, id, freq, {})
    requires forall t :: t in freq <==> t in toks
    requires forall t :: t in freq ==> freq[t] == multiset(toks)[t] > 0
    ensures NewTo(before, id) ==> PostingsGrown(before, after, id, toks)
  {
  }

  /** What `add_document` does to a segment that does not have the document. */
  ghost predicate AddedTo(seg: Segment, seg': Segment, id: Id, toks: seq<string>) {
    if toks == [] then seg' == seg
    else
      && seg'.docLengths == seg.docLengths[id := |toks|] && seg'.numDocs == seg.numDocs + 1
      && seg'.totalDocLen == seg.totalDocLen + |toks|
      && (NewTo(seg.postings, id) ==> PostingsGrown(seg.postings, seg'.postings, id, toks))
  }

  lemma AddedNew(seg: Segment, seg': Segment, idx: Indexed, id: Id, doc: Document, tokens: Document -> seq<string>)
    requires Represents(seg, idx, tokens) && id !in idx && AddedTo(seg, seg', id, tokens(doc))
    ensures Represents(seg', idx[id := doc], tokens)
  {
    LengthsWith(idx, id, doc, tokens);
    if tokens(doc) != [] {
      GrownCounts(seg.docLengths, id, |tokens(doc)|);
      assert NewTo(seg.postings, id);
    }
    AddedPostings(seg.postings, seg'.postings, idx, id, doc, tokens);
  }

  lemma AddedRepresents(seg: Segment, seg': Segment, idx: Indexed, id: Id, doc: Document,
                        tokens: Document -> seq<string>)
    requires Represents(seg, idx, tokens) && id !in seg.docLengths && AddedTo(seg, seg', id, tokens(doc))
    ensures Represents(seg', idx[id := doc], tokens)
  {
    PutAgain(idx, id, doc);
    RemovedAbsent(seg, idx, id, tokens);
    AddedNew(seg, seg', idx - {id}, id, doc, tokens);
  }

  lemma PutAgain(idx: Indexed, id: Id, doc: Document)
    ensures (idx - {id})[id := doc] == idx[id := doc]
  {
  }

  // ----- Rows that name a document twice -----

  predicate NoLiveRepeat(rows: seq<Row>, tokens: Document -> seq<string>) {
    forall i, j :: 0 <= i < j < |rows| && rows[i].0 == rows[j].0 ==> tokens(rows[i].1) == []
  }

  predicate LiveBefore(rows: seq<Row>, tokens: Document -> seq<string>, n: nat, id: Id)
    requires n <= |rows|
  {
    exists i :: 0 <= i < n && rows[i].0 == id && tokens(rows[i].1) != []
  }

  function LiveCount(rows: seq<Row>, tokens: Document -> seq<string>): nat {
    if rows == [] then 0 else (if tokens(rows[0].1) == [] then 0 else 1) + LiveCount(rows[1..], tokens)
  }

  function LiveIds(rows: seq<Row>, tokens: Document -> seq<string>): set<Id> {
    if rows == [] then {} else (if tokens(rows[0].1) == [] then {} else {rows[0].0}) + LiveIds(rows[1..], tokens)
  }

  lemma {:induction false} LiveAtMost(rows: seq<Row>, tokens: Document -> seq<string>)
    ensures |LiveIds(rows, tokens)| <= LiveCount(rows, tokens)
    ensures forall i :: 0 <= i < |rows| && tokens(rows[i].1) != [] ==> rows[i].0 in LiveIds(rows, tokens)
  {
    if rows != [] { LiveAtMost(rows[1..], tokens); }
  }

  lemma {:induction false} LiveTwice(rows: seq<Row>, tokens: Document -> seq<string>, i: nat, j: nat)
    requires i < j < |rows| && rows[i].0 == rows[j].0 && tokens(rows[i].1) != [] && tokens(rows[j].1) != []
    ensures |LiveIds(rows, tokens)| < LiveCount(rows, tokens)
  {
    if i > 0 {
      LiveTwice(rows[1..], tokens, i - 1, j - 1);
    } else {
      LiveAtMost(rows[1..], tokens);
      assert rows[1..][j - 1] == rows[j];
      assert LiveIds(rows, tokens) == LiveIds(rows[1..], tokens);
    }
  }

  /** Half-way through a build, with the documents of the first `i` rows. */
  ghost predicate Building(seg: Segment, rows: seq<Row>, tokens: Document -> seq<string>, i: nat, now: Indexed) {
    && i <= |rows| && PutRows(now, rows[i..]) == PutRows(map[], rows)
    && (NoLiveRepeat(rows, tokens) ==> Represents(seg, now, tokens))
    && (forall id :: id in seg.docLengths ==> LiveBefore(rows, tokens, i, id))
    && seg.numDocs + LiveCount(rows[i..], tokens) == LiveCount(rows, tokens)
    && seg.docLengths.Keys + LiveIds(rows[i..], tokens) == LiveIds(rows, tokens)
  }

  lemma BuildingNext(seg: Segment, seg': Segment, rows: seq<Row>, tokens: Document -> seq<string>, i: nat, now: Indexed)
    requires i < |rows| && Building(seg, rows, tokens, i, now)
    requires seg'.numDocs == seg.numDocs + if tokens(rows[i].1) == [] then 0 else 1
    requires seg'.docLengths ==
      if tokens(rows[i].1) == [] then seg.docLengths else seg.docLengths[rows[i].0 := |tokens(rows[i].1)|]
    requires Represents(seg, now, tokens) && rows[i].0 !in seg.docLengths ==>
      Represents(seg', now[rows[i].0 := rows[i].1], tokens)
    ensures Building(seg', rows, tokens, i + 1, now[rows[i].0 := rows[i].1])
  {
    assert rows[i..][1..] == rows[i + 1..];
    assert NoLiveRepeat(rows, tokens) ==> rows[i].0 !in seg.docLengths;
    forall id | id in seg'.docLengths ensures LiveBefore(rows, tokens, i + 1, id) {
      if id in seg.docLengths { assert LiveBefore(rows, tokens, i, id); }
    }
    var ids := LiveIds(rows[i + 1..], tokens);
    assert seg'.docLengths.Keys == seg.docLengths.Keys + if tokens(rows[i].1) == [] then {} else {rows[i].0};
    assert seg'.docLengths.Keys + ids == seg.docLengths.Keys + LiveIds(rows[i..], tokens);
  }

  /** The last row that names an id decides. */
  lemma {:induction false} LastRow(idx: Indexed, rows: seq<Row>, id: Id, j: nat) returns (l: nat)
    requires j < |rows| && rows[j].0 == id
    ensures j <= l < |rows| && rows[l].0 == id && Lookup(PutRows(idx, rows), id) == Some(rows[l].1)
    decreases |rows|
  {
    var idx' := idx[rows[0].0 := rows[0].1];
    if k :| j <= k < |rows| && rows[k].0 == id && k > 0 {
      var l' := LastRow(idx', rows[1..], id, k - 1);
      l := l' + 1;
    } else {
      l := 0;
      NoRow(idx', rows[1..], id);
    }
  }

  lemma {:induction false} NoRow(idx: Indexed, rows: seq<Row>, id: Id)
    requires forall i :: 0 <= i < |rows| ==> rows[i].0 != id
    ensures Lookup(PutRows(idx, rows), id) == Lookup(idx, id)
    decreases |rows|
  {
    if rows != [] { NoRow(idx[rows[0].0 := rows[0].1], rows[1..], id); }
  }

  lemma BuildingStart(rows: seq<Row>, tokens: Document -> seq<string>)
    ensures Building(Segment(0, 0, map[], map[]), rows, tokens, 0, map[])
  {
    assert rows[0..] == rows;
    assert Represents(Segment(0, 0, map[], map[]), map[], tokens);
  }

  lemma BuildingDone(seg: Segment, rows: seq<Row>, tokens: Document -> seq<string>, now: Indexed)
    requires Building(seg, rows, tokens, |rows|, now)
    ensures Represents(seg, PutRows(map[], rows), tokens) <==> NoLiveRepeat(rows, tokens)
  {
    assert rows[|rows|..] == [];
    if Represents(seg, PutRows(map[], rows), tokens) { OnlyWithoutRepeat(seg, rows, tokens); }
  }

  lemma OnlyWithoutRepeat(seg: Segment, rows: seq<Row>, tokens: Document -> seq<string>)
    requires Represents(seg, PutRows(map[], rows), tokens)
    requires seg.numDocs == LiveCount(rows, tokens) && seg.docLengths.Keys == LiveIds(rows, tokens)
    ensures NoLiveRepeat(rows, tokens)
  {
    assert |seg.docLengths| == |seg.docLengths.Keys|;
    forall i, j | 0 <= i < j < |rows| && rows[i].0 == rows[j].0 ensures tokens(rows[i].1) == [] {
      if tokens(rows[i].1) != [] {
        LiveAtMost(rows, tokens);
        var l := LastRow(map[], rows, rows[i].0, j);
        assert rows[i].0 in seg.docLengths;
        LiveTwice(rows, tokens, i, l);
      }
    }
  }

  // ----- Incremental maintenance equals a rebuild -----

  lemma SameList(a: seq<Posting>, b: seq<Posting>)
    requires OnePerDoc(a) && OnePerDoc(b) && forall p :: p in a <==> p in b
    ensures multiset(a) == multiset(b)
  {
    forall p ensures multiset(a)[p] == multiset(b)[p] {
      AtMostOnce(a, p);
      AtMostOnce(b, p);
      assert p in a <==> p in multiset(a);
      assert p in b <==> p in multiset(b);
    }
  }

  lemma {:induction false} AtMostOnce(list: seq<Posting>, p: Posting)
    requires OnePerDoc(list)
    ensures multiset(list)[p] <= 1
  {
    if list != [] {
      AtMostOnce(list[1..], p);
      assert list == [list[0]] + list[1..];
      if p == list[0] {
        assert p !in list[1..];
        assert p !in multiset(list[1..]);
      }
    }
  }

  lemma SameTerms(p: PostingLists, q: PostingLists, idx: Indexed, tokens: Document -> seq<string>)
    requires PostingsOf(p, idx, tokens) && PostingsOf(q, idx, tokens)
    ensures p.Keys <= q.Keys
  {
    forall term | term in p ensures term in q {
      var first := p[term][0];
      assert HasPosting(p, term, first.docId, first.termFreq);
      assert HasPosting(q, term, first.docId, first.termFreq);
    }
  }

  /** Two segments of the same documents agree on every counter, length and term, and their posting
      lists are permutations of each other: after any deltas, a segment matches one built from the
      resulting documents. */
  lemma SegmentsMatch(a: Segment, b: Segment, idx: Indexed, tokens: Document -> seq<string>)
    requires Represents(a, idx, tokens) && Represents(b, idx, tokens)
    ensures a.numDocs == b.numDocs && a.totalDocLen == b.totalDocLen && a.docLengths == b.docLengths
    ensures a.postings.Keys == b.postings.Keys
    ensures forall term :: term in a.postings ==> multiset(a.postings[term]) == multiset(b.postings[term])
  {
    SameTerms(a.postings, b.postings, idx, tokens);
    SameTerms(b.postings, a.postings, idx, tokens);
    forall term | term in a.postings ensures multiset(a.postings[term]) == multiset(b.postings[term]) {
      forall p: Posting ensures p in a.postings[term] <==> p in b.postings[term] {
        assert HasPosting(a.postings, term, p.docId, p.termFreq) <==> HasPosting(b.postings, term, p.docId, p.termFreq);
      }
      SameList(a.postings[term], b.postings[term]);
    }
  }

  // ----- Frequencies add up to the length -----

  function Counts(tokens: seq<string>): map<string, nat> {
    map t | t in tokens :: multiset(tokens)[t]
  }

  lemma {:induction false} CountsTotal(tokens: seq<string>)
    ensures Total(Counts(tokens)) == |tokens|
  {
    if tokens != [] {
      var n := |tokens| - 1;
      var init, t := tokens[..n], tokens[n];
      CountsTotal(init);
      assert tokens == init + [t];
      CountsNext(init, t);
      OneMore(Counts(init), t);
    }
  }

  function Bumped(m: map<string, nat>, t: string): map<string, nat> {
    m[t := (if t in m then m[t] else 0) + 1]
  }

  lemma CountsNext(tokens: seq<string>, t: string)
    ensures Counts(tokens + [t]) == Bumped(Counts(tokens), t)
  {
  }

  lemma OneMore(m: map<string, nat>, t: string)
    ensures Total(Bumped(m, t)) == Total(m) + 1
  {
    TotalWith(m, t, (if t in m then m[t] else 0) + 1);
    if t in m {
      TotalWithout(m, t);
    } else {
      assert m - {t} == m;
    }
  }

  /** Each term's frequency in one document, as the postings record it. */
  ghost function Frequencies(p: PostingLists, id: Id): map<string, nat> {
    map term | term in p && exists tf: nat :: HasPosting(p, term, id, tf) :: FrequencyOf(p, term, id)
  }

  ghost function FrequencyOf(p: PostingLists, term: string, id: Id): nat
    requires exists tf: nat :: HasPosting(p, term, id, tf)
  {
    var tf: nat :| HasPosting(p, term, id, tf);
    tf
  }

  /** The frequencies posted for a document add up to its length. */
  lemma FrequenciesAddUp(seg: Segment, idx: Indexed, id: Id, tokens: Document -> seq<string>)
    requires Represents(seg, idx, tokens) && id in seg.docLengths
    ensures Total(Frequencies(seg.postings, id)) == seg.docLengths[id]
  {
    var toks := tokens(idx[id]);
    forall term ensures term in Frequencies(seg.postings, id) <==> term in toks {
      if term in toks {
        assert HasPosting(seg.postings, term, id, multiset(toks)[term]);
      }
    }
    assert Frequencies(seg.postings, id) == Counts(toks);
    CountsTotal(toks);
  }
}
