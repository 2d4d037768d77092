/** Full-text candidates of a query (`collect_bm25_candidates` and `filter_existing_docs` of
    `src/search.rs`, `candidate_doc_ids`, `query_bm25` and `bm25_doc_score` of `src/index/fts.rs`).

    Scores are real numbers.  The natural logarithm is a parameter of which only its sign above 1
    matters.
 */
module Bm25 {
  import opened Documents
  import opened Replay
  import opened Meta
  import opened WalReads
  import opened IndexDelta
  import opened Protocol
  import opened ProtocolProofs
  import opened Fts
  import Order
  import Recovery
  import StrongFilter

  /** How values become text and text becomes tokens. */
  datatype TextRules = TextRules(render: Value -> string, joinStrings: Document -> string,
                                 tokenize: string -> seq<string>)

  function ValueToText(rules: TextRules, v: Value): string {
    if v.Text? then v.s else rules.render(v)
  }

  /** The text of one field, or all string attributes joined when no field is named. */
  function ExtractIndexText(rules: TextRules, doc: Document, field: string): string {
    if field == "" then rules.joinStrings(doc)
    else if field in doc.attributes then ValueToText(rules, doc.attributes[field])
    else ""
  }

  function TokensOf(rules: TextRules, field: string): Document -> seq<string> {
    doc => rules.tokenize(ExtractIndexText(rules, doc, field))
  }

  predicate Shared(terms: seq<string>, tokens: seq<string>) {
    exists t :: t in terms && t in tokens
  }

  lemma SharedMore(terms: seq<string>, term: string, tokens: seq<string>)
    ensures Shared(terms + [term], tokens) <==> Shared(terms, tokens) || multiset(tokens)[term] > 0
  {
    assert term in tokens <==> term in multiset(tokens);
    if Shared(terms, tokens) {
      var t :| t in terms && t in tokens;
      assert t in terms + [term];
    }
    if term in tokens {
      assert term in terms + [term];
    }
  }

  // ----- The sign of a BM25 score -----

  const K1: real := 1.2
  const B: real := 0.75

  ghost predicate PositiveAboveOne(ln: real -> real) {
    forall x: real :: x > 1.0 ==> ln(x) > 0.0
  }

  lemma ProductPositive(a: real, b: real)
    requires a > 0.0 && b > 0.0
    ensures a * b > 0.0
  {
  }

  lemma QuotientPositive(a: real, b: real)
    requires a > 0.0 && b > 0.0
    ensures a / b > 0.0
  {
  }

  function IdfArgument(n: real, df: real): real
    requires df > 0.0
  {
    (n - df + 0.5) / (df + 0.5) + 1.0
  }

  lemma IdfArgumentAboveOne(n: real, df: real)
    requires 0.0 < df <= n
    ensures IdfArgument(n, df) > 1.0
  {
    QuotientPositive(n - df + 0.5, df + 0.5);
  }

  function Denominator(tf: real, dl: real, avgdl: real): real
    requires avgdl > 0.0
  {
    tf + K1 * (1.0 - B + B * dl / avgdl)
  }

  lemma DenominatorPositive(tf: real, dl: real, avgdl: real)
    requires tf > 0.0 && dl > 0.0 && avgdl > 0.0
    ensures Denominator(tf, dl, avgdl) > 0.0
  {
    QuotientPositive(B * dl, avgdl);
  }

  /** One term's share of a score. */
  function TermScore(idf: real, tf: real, dl: real, avgdl: real): (score: real)
    requires idf > 0.0 && tf > 0.0 && dl > 0.0 && avgdl > 0.0
    ensures score > 0.0
  {
    DenominatorPositive(tf, dl, avgdl);
    ProductPositive(idf, tf * (K1 + 1.0));
    QuotientPositive(idf * (tf * (K1 + 1.0)), Denominator(tf, dl, avgdl));
    idf * (tf * (K1 + 1.0)) / Denominator(tf, dl, avgdl)
  }

  /** `bm25_doc_score`: positive exactly when the document and the query share a token. */
  method Bm25DocScore(tokens: seq<string>, terms: seq<string>, avgDocLen: real, numDocs: nat, ln: real -> real)
    returns (score: real)
    requires PositiveAboveOne(ln)
    ensures score >= 0.0
    ensures score > 0.0 <==> Shared(terms, tokens)
  {
    if terms == [] || tokens == [] { return 0.0; }
    var dl := |tokens| as real;
    var avgdl := if avgDocLen > 1.0 then avgDocLen else 1.0;
    var n := (if numDocs > 1 then numDocs else 1) as real;
    IdfArgumentAboveOne(n, 1.0);
    var idf := ln(IdfArgument(n, 1.0));
    score := 0.0;
    for i := 0 to |terms|
      invariant score >= 0.0
      invariant score > 0.0 <==> Shared(terms[..i], tokens)
    {
      assert terms[..i + 1] == terms[..i] + [terms[i]];
      SharedMore(terms[..i], terms[i], tokens);
      var tf := multiset(tokens)[terms[i]];
      if tf > 0 {
        score := score + TermScore(idf, tf as real, dl, avgdl);
      }
    }
    assert terms[..|terms|] == terms;
  }

  // ----- Candidates of a segment -----

  ghost predicate PostedFor(seg: Segment, terms: seq<string>, id: Id) {
    exists term, tf: nat :: term in terms && HasPosting(seg.postings, term, id, tf)
  }

  /** The ids posted under a query term are the indexed documents that share a token with it. */
  lemma PostedMeansShared(seg: Segment, idx: Indexed, tokens: Document -> seq<string>, terms: seq<string>, id: Id)
    requires Represents(seg, idx, tokens)
    ensures PostedFor(seg, terms, id) <==> id in idx && Shared(terms, tokens(idx[id]))
  {
    if PostedFor(seg, terms, id) {
      var term, tf: nat :| term in terms && HasPosting(seg.postings, term, id, tf);
      assert term in multiset(tokens(idx[id]));
    }
    if id in idx && Shared(terms, tokens(idx[id])) {
      var t :| t in terms && t in tokens(idx[id]);
      assert t in multiset(tokens(idx[id]));
      assert HasPosting(seg.postings, t, id, multiset(tokens(idx[id]))[t]);
    }
  }

  function IdsOf(list: seq<Posting>): set<Id> {
    set p | p in list :: p.docId
  }

  function PostedIds(p: PostingLists, term: string): set<Id> {
    if term in p then IdsOf(p[term]) else {}
  }

  lemma PostedIdsMeaning(p: PostingLists, term: string, id: Id)
    ensures id in PostedIds(p, term) <==> exists tf: nat :: HasPosting(p, term, id, tf)
  {
    if id in PostedIds(p, term) {
      var posting :| posting in p[term] && posting.docId == id;
      assert HasPosting(p, term, id, posting.termFreq);
    }
  }

  method CandidateDocIds(seg: Segment, terms: seq<string>) returns (ids: set<Id>)
    ensures forall id :: id in ids <==> PostedFor(seg, terms, id)
  {
    ids := {};
    for i := 0 to |terms|
      invariant forall id :: id in ids <==> PostedFor(seg, terms[..i], id)
    {
      assert terms[..i + 1] == terms[..i] + [terms[i]];
      PostedForMore(seg, terms[..i], terms[i]);
      ids := ids + PostedIds(seg.postings, terms[i]);
    }
    assert terms[..|terms|] == terms;
  }

  lemma PostedForMore(seg: Segment, terms: seq<string>, term: string)
    ensures forall id :: PostedFor(seg, terms + [term], id) <==>
      PostedFor(seg, terms, id) || id in PostedIds(seg.postings, term)
  {
    forall id
      ensures PostedFor(seg, terms + [term], id) <==> PostedFor(seg, terms, id) || id in PostedIds(seg.postings, term)
    {
      PostedIdsMeaning(seg.postings, term, id);
      if PostedFor(seg, terms, id) {
        var t, tf: nat :| t in terms && HasPosting(seg.postings, t, id, tf);
        assert t in terms + [term];
      }
      if id in PostedIds(seg.postings, term) {
        assert term in terms + [term];
      }
    }
  }

  // ----- query_bm25 -----

  lemma LengthsSummed(m: map<Id, nat>)
    requires forall id :: id in m ==> m[id] > 0
    ensures Total(m) >= |m|
    decreases |m|
  {
    if m != map[] {
      var id :| id in m;
      TotalWithout(m, id);
      SizeWithout(m, id);
      LengthsSummed(m - {id});
    }
  }

  /** A segment with documents has a positive average length. */
  lemma AveragePositive(seg: Segment, idx: Indexed, tokens: Document -> seq<string>)
    requires Represents(seg, idx, tokens) && seg.numDocs > 0
    ensures seg.totalDocLen as real / seg.numDocs as real > 0.0
  {
    LengthsSummed(seg.docLengths);
    QuotientPositive(seg.totalDocLen as real, seg.numDocs as real);
  }

  /** No list is longer than the segment has documents. */
  lemma ListFits(seg: Segment, idx: Indexed, tokens: Document -> seq<string>, term: string)
    requires Represents(seg, idx, tokens) && term in seg.postings
    ensures 0 < |seg.postings[term]| <= seg.numDocs
  {
    var list := seg.postings[term];
    var ids := seq(|list|, i requires 0 <= i < |list| => list[i].docId);
    assert Order.Distinct(ids);
    Order.DistinctCount(ids);
    forall id | id in Order.Items(ids) ensures id in seg.docLengths.Keys {
      var i :| 0 <= i < |ids| && ids[i] == id;
      assert HasPosting(seg.postings, term, id, list[i].termFreq);
      assert term in multiset(tokens(idx[id]));
    }
    Order.SubsetSize(Order.Items(ids), seg.docLengths.Keys);
  }

  lemma PostingFacts(seg: Segment, idx: Indexed, tokens: Document -> seq<string>, term: string, k: nat)
    requires Represents(seg, idx, tokens) && term in seg.postings && k < |seg.postings[term]|
    ensures seg.postings[term][k].termFreq > 0
    ensures seg.postings[term][k].docId in seg.docLengths && seg.docLengths[seg.postings[term][k].docId] > 0
  {
    var p := seg.postings[term][k];
    assert HasPosting(seg.postings, term, p.docId, p.termFreq);
    assert term in multiset(tokens(idx[p.docId]));
  }

  function Plus(scores: map<Id, real>, id: Id, score: real): map<Id, real> {
    scores[id := (if id in scores then scores[id] else 0.0) + score]
  }

  ghost predicate AllPositive(scores: map<Id, real>) {
    forall id :: id in scores ==> scores[id] > 0.0
  }

  /** Add one term's scores. */
  method ScoreTerm(seg: Segment, term: string, scores: map<Id, real>, ln: real -> real,
                   ghost idx: Indexed, ghost tokens: Document -> seq<string>)
    returns (out: map<Id, real>)
    requires Represents(seg, idx, tokens) && PositiveAboveOne(ln) && AllPositive(scores) && seg.numDocs > 0
    ensures AllPositive(out) && out.Keys == scores.Keys + PostedIds(seg.postings, term)
  {
    out := scores;
    if term !in seg.postings { return; }
    var list := seg.postings[term];
    ListFits(seg, idx, tokens, term);
    AveragePositive(seg, idx, tokens);
    var n, avgdl := seg.numDocs as real, seg.totalDocLen as real / seg.numDocs as real;
    IdfArgumentAboveOne(n, |list| as real);
    var idf := ln(IdfArgument(n, |list| as real));
    for i := 0 to |list|
      invariant AllPositive(out) && out.Keys == scores.Keys + IdsOf(list[..i])
    {
      assert list[..i + 1] == list[..i] + [list[i]];
      PostingFacts(seg, idx, tokens, term, i);
      var score := TermScore(idf, list[i].termFreq as real, seg.docLengths[list[i].docId] as real, avgdl);
      out := Plus(out, list[i].docId, score);
    }
    assert list[..|list|] == list;
  }

  /** `query_bm25`: the best `topK` of the ids posted under a query term, each with a positive score. */
  method QueryBm25(seg: Segment, terms: seq<string>, topK: nat, ln: real -> real,
                   ghost idx: Indexed, ghost tokens: Document -> seq<string>)
    returns (hits: seq<Order.Scored>, ghost scores: map<Id, real>)
    requires Represents(seg, idx, tokens) && PositiveAboveOne(ln)
    ensures seg.numDocs == 0 || terms == [] ==> hits == []
    ensures AllPositive(scores) && forall id :: id in scores <==> PostedFor(seg, terms, id)
    ensures Order.IsTop(hits, Order.Entries(scores), topK, Order.Better)
  {
    var found: map<Id, real> := map[];
    if terms == [] || seg.numDocs == 0 {
      NothingPosted(seg, idx, tokens, terms);
      return [], map[];
    }
    for i := 0 to |terms|
      invariant AllPositive(found)
      invariant forall id :: id in found.Keys <==> PostedFor(seg, terms[..i], id)
    {
      assert terms[..i + 1] == terms[..i] + [terms[i]];
      PostedForMore(seg, terms[..i], terms[i]);
      found := ScoreTerm(seg, terms[i], found, ln, idx, tokens);
    }
    assert terms[..|terms|] == terms;
    var list := Order.ListEntries(found);
    Order.BetterIsStrictTotal();
    Order.SortTakeIsTop(list, topK, Order.Better);
    return Order.Take(Order.Sort(list, Order.Better), topK), found;
  }

  lemma NothingPosted(seg: Segment, idx: Indexed, tokens: Document -> seq<string>, terms: seq<string>)
    requires Represents(seg, idx, tokens) && (terms == [] || seg.numDocs == 0)
    ensures forall id :: !PostedFor(seg, terms, id)
  {
    forall id ensures !PostedFor(seg, terms, id) {
      PostedMeansShared(seg, idx, tokens, terms, id);
      assert seg.numDocs == 0 ==> id !in seg.docLengths;
    }
  }

  // ----- collect_bm25_candidates, then filter_existing_docs -----

  predicate LiveShared(docs: DocMap, terms: seq<string>, tokens: Document -> seq<string>, id: Id) {
    id in docs && Shared(terms, tokens(docs[id]))
  }

  /** From the postings, unless a strong query will look at the document itself. */
  ghost predicate FromIndex(fts: Option<Segment>, tail: set<Id>, strong: bool, terms: seq<string>, id: Id) {
    fts.Some? && PostedFor(fts.value, terms, id) && !(strong && id in tail)
  }

  predicate FromTail(docs: DocMap, tail: set<Id>, strong: bool, terms: seq<string>, tokens: Document -> seq<string>,
                     id: Id)
  {
    strong && id in tail && LiveShared(docs, terms, tokens, id)
  }

  method TailHits(docs: DocMap, tail: set<Id>, terms: seq<string>, tokens: Document -> seq<string>,
                  avgdl: real, numDocs: nat, ln: real -> real)
    returns (ids: set<Id>)
    requires PositiveAboveOne(ln)
    ensures forall id :: id in ids <==> FromTail(docs, tail, true, terms, tokens, id)
  {
    ids := {};
    var todo := tail;
    while todo != {}
      invariant todo <= tail
      invariant forall id :: id in ids <==> id !in todo && FromTail(docs, tail, true, terms, tokens, id)
    {
      var id :| id in todo;
      if id in docs {
        var score := Bm25DocScore(tokens(docs[id]), terms, avgdl, numDocs, ln);
        if score > 0.0 { ids := ids + {id}; }
      }
      todo := todo - {id};
    }
  }

  method IndexHits(seg: Segment, tail: set<Id>, strong: bool, terms: seq<string>, pool: nat, ln: real -> real,
                   ghost idx: Indexed, ghost tokens: Document -> seq<string>)
    returns (ids: set<Id>)
    requires PositiveAboveOne(ln) && Represents(seg, idx, tokens)
    ensures forall id :: id in ids <==> FromIndex(Some(seg), tail, strong, terms, id)
  {
    var posted := CandidateDocIds(seg, terms);
    ids := set id | id in posted && !(strong && id in tail);
    var hits, scores := QueryBm25(seg, terms, pool, ln, idx, tokens);
    for i := 0 to |hits|
      invariant forall id :: id in ids <==> FromIndex(Some(seg), tail, strong, terms, id)
    {
      assert hits[i] in Order.Entries(scores);
      if !(strong && hits[i].0 in tail) { ids := ids + {hits[i].0}; }
    }
  }

  /** The candidates for a ranking by BM25.  The segment may index another field than the query's:
      its own documents and tokens are `idx` and `indexedTokens`. */
  method CollectCandidates(docs: DocMap, fts: Option<Segment>, tail: set<Id>, strong: bool,
                           terms: seq<string>, tokens: Document -> seq<string>, pool: nat, ln: real -> real,
                           ghost idx: Indexed, ghost indexedTokens: Document -> seq<string>)
    returns (ids: set<Id>)
    requires PositiveAboveOne(ln) && (fts.Some? ==> Represents(fts.value, idx, indexedTokens))
    ensures fts.Some? || (exists id :: FromTail(docs, tail, strong, terms, tokens, id)) ==>
      forall id :: id in ids <==>
        (FromIndex(fts, tail, strong, terms, id) || FromTail(docs, tail, strong, terms, tokens, id)) &&
          (strong ==> id in docs)
    ensures !(fts.Some? || exists id :: FromTail(docs, tail, strong, terms, tokens, id)) ==>
      forall id :: id in ids <==> LiveShared(docs, terms, tokens, id)
  {
    var fromIndex, avgdl, numDocs := {}, 1.0, 1;
    if fts.Some? {
      fromIndex := IndexHits(fts.value, tail, strong, terms, pool, ln, idx, indexedTokens);
      avgdl := if fts.value.numDocs == 0 then 1.0 else fts.value.totalDocLen as real / fts.value.numDocs as real;
      numDocs := if fts.value.numDocs > 1 then fts.value.numDocs else 1;
    }
    var fromTail := {};
    if strong { fromTail := TailHits(docs, tail, terms, tokens, avgdl, numDocs, ln); }
    ids := fromIndex + fromTail;
    if fts.None? && ids == {} {
      ids := TailHits(docs, docs.Keys, terms, tokens, 1.0, 1, ln);
    }
    if strong { ids := set id | id in ids && id in docs; }
  }

  // ----- Complete and fresh -----

  /** One id of a strong query whose field is the segment's: it is a candidate exactly when its live
      document shares a token with the query. */
  lemma StrongCandidateExact(idx: Indexed, seg: Segment, tokens: Document -> seq<string>, log: seq<Entry>, cursor: nat,
                             commit: nat, tail: set<Id>, terms: seq<string>, id: Id)
    requires cursor <= commit <= |log| && RightAt(idx, log, cursor) && Represents(seg, idx, tokens)
    requires id in tail || forall e :: e in log[cursor..commit] ==> !Touches(e, id)
    ensures var docs := At(log, commit);
      (FromIndex(Some(seg), tail, true, terms, id) || FromTail(docs, tail, true, terms, tokens, id)) && id in docs
      <==> LiveShared(docs, terms, tokens, id)
  {
    var docs := At(log, commit);
    if id in docs && id !in tail {
      UntouchedSame(log, cursor, commit, id);
      assert id in At(log, cursor) && idx[id] == docs[id];
      PostedMeansShared(seg, idx, tokens, terms, id);
    }
  }

  lemma NeverWritten(log: seq<Entry>, commit: nat, id: Id)
    requires commit <= |log| && forall e :: e in log[0..commit] ==> !Touches(e, id)
    ensures id !in At(log, commit)
  {
    assert At(log, 0) == map[];
    UntouchedSame(log, 0, commit, id);
  }

  /** The full-text segment a query loads. */
  ghost predicate SegmentOf(fts: Option<Segment>, st: Store, tokens: Document -> seq<string>) {
    var id := CurrentMeta(st).ftsSegmentId;
    if id == 0 then fts.None?
    else fts.Some? && id in st.ftsSegments && Represents(fts.value, st.ftsSegments[id], tokens)
  }

  /** The set `CollectCandidates` returns in strong mode. */
  ghost predicate StrongCandidate(docs: DocMap, fts: Option<Segment>, tail: set<Id>, terms: seq<string>,
                                  tokens: Document -> seq<string>, id: Id)
  {
    if fts.Some? || exists i :: FromTail(docs, tail, true, terms, tokens, i)
    then (FromIndex(fts, tail, true, terms, id) || FromTail(docs, tail, true, terms, tokens, id)) && id in docs
    else LiveShared(docs, terms, tokens, id)
  }

  /** At every reachable state, the candidates of a strong query on the segment's field are exactly
      the live documents that share a token with it. */
  lemma StrongCandidatesAtReachable(s: State, fts: Option<Segment>, tail: set<Id>, rules: TextRules, field: string,
                                    query: string, id: Id)
    requires Reachable(s) && field != ""
    requires SegmentOf(fts, s.store, TokensOf(rules, field))
    requires StrongFilter.TailOf(tail, CurrentMeta(s.store), s.store.wal)
    ensures var docs, terms := At(s.log, |s.log|), rules.tokenize(query);
      StrongCandidate(docs, fts, tail, terms, TokensOf(rules, field), id) <==>
      id in docs && Shared(terms, rules.tokenize(ExtractIndexText(rules, docs[id], field)))
  {
    ReachableInv(s);
    StrongFilter.TailCovers(s.store, s.log, tail);
    var meta, terms, tokens := CurrentMeta(s.store), rules.tokenize(query), TokensOf(rules, field);
    var docs := At(s.log, |s.log|);
    if fts.Some? {
      StrongCandidateExact(s.store.ftsSegments[meta.ftsSegmentId], fts.value, tokens, s.log, meta.indexCursor, |s.log|,
                           tail, terms, id);
    } else if id !in tail {
      NeverWritten(s.log, |s.log|, id);
    }
  }

  /** A full-text segment read at state `j` is right at its number for the log at the end of a run. */
  lemma SegmentHolds(states: seq<State>, actions: seq<Action>, j: nat, n: nat)
    requires IsRun(states, actions) && j < |states| && n in states[j].store.ftsSegments
    ensures RightAt(states[j].store.ftsSegments[n], states[|states| - 1].log, n)
  {
    var log := states[|states| - 1].log;
    RunInv(states, actions, j);
    RunAdvances(states, actions, j, |states| - 1);
    assert log == states[j].log + log[|states[j].log|..];
    RightAtExtends(states[j].store.ftsSegments[n], states[j].log, log[|states[j].log|..], n);
  }

  /** The full-text segment named by the metadata of state `i`, read at state `j`. */
  ghost predicate SegmentRead(fts: Option<Segment>, states: seq<State>, i: nat, j: nat, tokens: Document -> seq<string>)
    requires i <= j < |states|
  {
    var id := CurrentMeta(states[i].store).ftsSegmentId;
    if id == 0 then fts.None?
    else
      && fts.Some? && id in states[j].store.ftsSegments
      && Represents(fts.value, states[j].store.ftsSegments[id], tokens)
  }

  /** The same with the requests spread over a run: `meta.json` and the documents at state `i`, the
      full-text segment at a later state `j`, each tail segment at some state not before `i`. */
  lemma StrongCandidatesDuringRun(states: seq<State>, actions: seq<Action>, i: nat, j: nat, wal: Segments,
                                  fts: Option<Segment>, tail: set<Id>, rules: TextRules, field: string, query: string,
                                  id: Id)
    requires IsRun(states, actions) && i <= j < |states| && field != ""
    requires Recovery.ReadDuring(wal, states, i) && forall n :: n in wal ==> n <= |states[i].log|
    requires SegmentRead(fts, states, i, j, TokensOf(rules, field))
    requires StrongFilter.TailOf(tail, CurrentMeta(states[i].store), wal)
    ensures var docs, terms := At(states[i].log, |states[i].log|), rules.tokenize(query);
      StrongCandidate(docs, fts, tail, terms, TokensOf(rules, field), id) <==>
      id in docs && Shared(terms, rules.tokenize(ExtractIndexText(rules, docs[id], field)))
  {
    var log, meta, commit := states[|states| - 1].log, CurrentMeta(states[i].store), |states[i].log|;
    var terms, tokens := rules.tokenize(query), TokensOf(rules, field);
    StrongFilter.ReadHolds(states, actions, i);
    Recovery.ReadDuringGenuine(wal, states, actions, i);
    StrongFilter.TailCoversRange(meta, wal, log, commit, tail);
    if fts.Some? {
      SegmentHolds(states, actions, j, meta.ftsSegmentId);
      StrongCandidateExact(states[j].store.ftsSegments[meta.ftsSegmentId], fts.value, tokens, log, meta.indexCursor,
                           commit, tail, terms, id);
    } else if id !in tail {
      NeverWritten(log, commit, id);
    }
  }

  // ----- On documents newer than the metadata -----

  /** What the index says of an id touched after the commit point of the metadata is what its document says;
      without an index, such a document is found only if no document of the tail is. */
  ghost predicate LuckyLate(docs: DocMap, fts: Option<Segment>, idx: Indexed, tail: set<Id>, terms: seq<string>,
                            tokens: Document -> seq<string>, id: Id)
    requires id in docs
  {
    if fts.Some? then
      Shared(terms, tokens(docs[id])) <==> id in idx && Shared(terms, tokens(idx[id]))
    else
      Shared(terms, tokens(docs[id])) ==> !exists i :: FromTail(docs, tail, true, terms, tokens, i)
  }

  /** One id of a strong query on documents at `reached`, with an index at `cursor` and a tail up to `commit`:
      it is right about the id exactly if the id is dead, in the tail, not touched after `commit`, or lucky. */
  lemma StrongCandidateOnNewer(idx: Indexed, fts: Option<Segment>, tokens: Document -> seq<string>, log: seq<Entry>,
                               cursor: nat, commit: nat, reached: nat, tail: set<Id>, terms: seq<string>, id: Id)
    requires cursor <= commit <= reached <= |log| && (fts.None? ==> cursor == 0)
    requires fts.Some? ==> RightAt(idx, log, cursor) && Represents(fts.value, idx, tokens)
    requires forall e :: e in log[cursor..commit] && Touches(e, id) ==> id in tail
    ensures var docs := At(log, reached);
      (StrongCandidate(docs, fts, tail, terms, tokens, id) <==> LiveShared(docs, terms, tokens, id)) <==>
      id !in docs || id in tail || !StrongFilter.TouchedBy(log[commit..reached], id)
      || LuckyLate(docs, fts, idx, tail, terms, tokens, id)
  {
    var docs, late := At(log, reached), log[commit..reached];
    assert log[cursor..reached] == log[cursor..commit] + late;
    if fts.Some? { PostedMeansShared(fts.value, idx, tokens, terms, id); }
    if id in docs && id !in tail && !StrongFilter.TouchedBy(late, id) {
      if fts.Some? {
        StrongCandidateExact(idx, fts.value, tokens, log, cursor, reached, tail, terms, id);
      } else {
        NeverWritten(log, reached, id);
      }
    }
  }

  /** A strong query after a cold load that found a newer snapshot, at state `k`. */
  lemma StrongCandidatesAfterColdLoad(states: seq<State>, actions: seq<Action>, i: nat, j: nat, k: nat, wal: Segments,
                                      tailWal: Segments, fts: Option<Segment>, tail: set<Id>, rules: TextRules,
                                      field: string, query: string, id: Id)
    requires IsRun(states, actions) && i <= j < |states| && i <= k < |states| && field != ""
    requires Recovery.ReadDuring(wal, states, i) && forall n :: n in wal ==> n <= |states[i].log|
    requires Recovery.ReadDuring(tailWal, states, i) && forall n :: n in tailWal ==> n <= |states[i].log|
    requires SegmentRead(fts, states, i, j, TokensOf(rules, field))
    requires StrongFilter.TailOf(tail, CurrentMeta(states[i].store), tailWal)
    requires ColdLoaded(CurrentMeta(states[i].store), states[k].store.snapshot, wal).Ok?
    ensures var meta, log := CurrentMeta(states[i].store), states[|states| - 1].log;
      var snap := states[k].store.snapshot;
      var start, docs := ColdStart(meta, snap), ColdLoaded(meta, snap, wal).value;
      var reached := if start > |states[i].log| then start else |states[i].log|;
      var terms, tokens := rules.tokenize(query), TokensOf(rules, field);
      var idx := if fts.Some? then states[j].store.ftsSegments[meta.ftsSegmentId] else map[];
      && reached <= |log|
      && ((StrongCandidate(docs, fts, tail, terms, tokens, id) <==> LiveShared(docs, terms, tokens, id)) <==>
          id !in docs || id in tail || !StrongFilter.TouchedBy(log[|states[i].log|..reached], id)
          || LuckyLate(docs, fts, idx, tail, terms, tokens, id))
  {
    var log, meta, commit := states[|states| - 1].log, CurrentMeta(states[i].store), |states[i].log|;
    var start := ColdStart(meta, states[k].store.snapshot);
    var reached := if start > commit then start else commit;
    var idx := if fts.Some? then states[j].store.ftsSegments[meta.ftsSegmentId] else map[];
    StrongFilter.ReadHolds(states, actions, i);
    Recovery.ReadDuringGenuine(tailWal, states, actions, i);
    StrongFilter.TailCoversRange(meta, tailWal, log, commit, tail);
    Recovery.InterleavedColdLoad(states, actions, i, k, wal);
    if fts.Some? { SegmentHolds(states, actions, j, meta.ftsSegmentId); }
    StrongCandidateOnNewer(idx, fts, TokensOf(rules, field), log, meta.indexCursor, commit, reached, tail,
                           rules.tokenize(query), id);
  }
}
