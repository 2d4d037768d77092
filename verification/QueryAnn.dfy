/** Ranking the members of the probed clusters (`query_ann`, `score_members` and
    `brute_force_top_k` of `src/index/vector.rs`).
 */
module QueryAnn {
  import opened Documents
  import opened Centroids
  import opened Tiling
  import opened Probe
  import Order

  type Scored = Order.Scored

  function ScoredMember(m: Member, query: Vector, score: (Vector, Vector) -> real): Scored {
    (m.docId, score(query, m.vec))
  }

  function ScoredList(ms: seq<Member>, query: Vector, score: (Vector, Vector) -> real): seq<Scored> {
    seq(|ms|, i requires 0 <= i < |ms| => ScoredMember(ms[i], query, score))
  }

  /** `score_members` of one cluster; on a list of all documents, `brute_force_top_k` with the scores. */
  function TopScored(ms: seq<Member>, query: Vector, score: (Vector, Vector) -> real, k: nat): seq<Scored> {
    Order.Take(Order.Sort(ScoredList(ms, query, score), Order.Better), k)
  }

  /** No document is in two places. */
  ghost predicate UniqueIds(cl: Clusters) {
    forall f, i, g, j ::
      f in cl && g in cl && 0 <= i < |cl[f].members| && 0 <= j < |cl[g].members| &&
        cl[f].members[i].docId == cl[g].members[j].docId
      ==> f == g && i == j
  }

  ghost predicate DistinctIds(ms: seq<Member>) {
    forall i, j :: 0 <= i < j < |ms| ==> ms[i].docId != ms[j].docId
  }

  lemma ScoredListDistinct(ms: seq<Member>, query: Vector, score: (Vector, Vector) -> real)
    requires DistinctIds(ms)
    ensures Order.Distinct(ScoredList(ms, query, score))
  {
  }

  lemma TopScoredIsTop(ms: seq<Member>, query: Vector, score: (Vector, Vector) -> real, k: nat)
    requires DistinctIds(ms)
    ensures Order.IsTop(TopScored(ms, query, score, k), Order.Items(ScoredList(ms, query, score)), k, Order.Better)
    ensures |TopScored(ms, query, score, k)| == Order.Min(k, |ms|)
  {
    Order.BetterIsStrictTotal();
    ScoredListDistinct(ms, query, score);
    Order.SortTakeIsTop(ScoredList(ms, query, score), k, Order.Better);
    Order.SortSameItems(ScoredList(ms, query, score), Order.Better);
  }

  // ----- The pool of a query -----

  /** The scored members of one cluster, none if it is missing. */
  ghost function ClusterPool(cl: Clusters, f: nat, query: Vector, score: (Vector, Vector) -> real): set<Scored> {
    if f in cl then Order.Items(ScoredList(cl[f].members, query, score)) else {}
  }

  /** The scored members of the listed clusters. */
  ghost function Pool(cl: Clusters, ids: seq<nat>, query: Vector, score: (Vector, Vector) -> real): set<Scored> {
    if ids == [] then {}
    else Pool(cl, ids[..|ids| - 1], query, score) + ClusterPool(cl, ids[|ids| - 1], query, score)
  }

  lemma {:induction false} PoolMember(cl: Clusters, ids: seq<nat>, query: Vector, score: (Vector, Vector) -> real,
                                      x: Scored)
    ensures x in Pool(cl, ids, query, score) <==> exists f :: f in ids && x in ClusterPool(cl, f, query, score)
  {
    if ids != [] {
      var n := |ids| - 1;
      PoolMember(cl, ids[..n], query, score, x);
      assert ids == ids[..n] + [ids[n]];
    }
  }

  /** One id, one entry, wherever it is found. */
  lemma ClusterPoolsAgree(cl: Clusters, f: nat, g: nat, query: Vector, score: (Vector, Vector) -> real, x: Scored,
                          y: Scored)
    requires UniqueIds(cl) && x in ClusterPool(cl, f, query, score) && y in ClusterPool(cl, g, query, score)
    requires x.0 == y.0
    ensures f == g && x == y
  {
    var xs, ys := ScoredList(cl[f].members, query, score), ScoredList(cl[g].members, query, score);
    var i :| 0 <= i < |xs| && xs[i] == x;
    var j :| 0 <= j < |ys| && ys[j] == y;
    assert cl[f].members[i].docId == cl[g].members[j].docId;
  }

  // ----- The loop of query_ann -----

  /** Keep the better of two scores of an id. */
  function Noted(scores: map<Id, real>, x: Scored): map<Id, real> {
    if x.0 in scores && !(x.1 > scores[x.0]) then scores else scores[x.0 := x.1]
  }

  lemma EntriesMember(scores: map<Id, real>, x: Scored)
    ensures x in Order.Entries(scores) <==> x.0 in scores && scores[x.0] == x.1
  {
  }

  /** An id not seen before adds its own entry. */
  lemma NotedEntries(scores: map<Id, real>, x: Scored)
    requires x.0 in scores ==> scores[x.0] == x.1
    ensures Order.Entries(Noted(scores, x)) == Order.Entries(scores) + {x}
  {
    forall y ensures y in Order.Entries(Noted(scores, x)) <==> y in Order.Entries(scores) + {x} {
      EntriesMember(Noted(scores, x), y);
      EntriesMember(scores, y);
    }
  }

  method NoteAll(scores: map<Id, real>, xs: seq<Scored>) returns (out: map<Id, real>)
    requires forall x, y :: x in xs && y in Order.Entries(scores) + Order.Items(xs) && x.0 == y.0 ==> x == y
    ensures Order.Entries(out) == Order.Entries(scores) + Order.Items(xs)
  {
    out := scores;
    for i := 0 to |xs|
      invariant Order.Entries(out) == Order.Entries(scores) + Order.Items(xs[..i])
    {
      assert xs[..i + 1] == xs[..i] + [xs[i]];
      var x := xs[i];
      if x.0 in out {
        EntriesMember(out, (x.0, out[x.0]));
        assert (x.0, out[x.0]) in Order.Entries(scores) + Order.Items(xs);
      }
      NotedEntries(out, x);
      out := Noted(out, x);
      assert Order.Items(xs[..i + 1]) == Order.Items(xs[..i]) + {x};
    }
    assert xs[..|xs|] == xs;
  }

  /** The collected entries: part of the pool, and what is left out of it is outranked. */
  ghost predicate Collected(some: set<Scored>, cl: Clusters, ids: seq<nat>, query: Vector,
                            score: (Vector, Vector) -> real, k: nat)
  {
    && some <= Pool(cl, ids, query, score)
    && forall x :: x in Pool(cl, ids, query, score) && x !in some ==> Order.Outranked(x, some, k, Order.Better)
  }

  lemma OutrankedMore(x: Scored, some: set<Scored>, more: set<Scored>, k: nat)
    requires Order.Outranked(x, some, k, Order.Better) && some <= more
    ensures Order.Outranked(x, more, k, Order.Better)
  {
    var w :| w <= some && |w| >= k && Order.AllBefore(w, x, Order.Better);
    assert w <= more;
  }

  /** What a cluster's cut leaves out is outranked by all that it keeps. */
  lemma CutOutranks(ms: seq<Member>, query: Vector, score: (Vector, Vector) -> real, k: nat, x: Scored)
    requires DistinctIds(ms) && x in ScoredList(ms, query, score) && x !in TopScored(ms, query, score, 4 * k)
    ensures Order.Outranked(x, Order.Items(TopScored(ms, query, score, 4 * k)), k, Order.Better)
  {
    var top := TopScored(ms, query, score, 4 * k);
    TopScoredIsTop(ms, query, score, 4 * k);
    Order.BetterIsStrictTotal();
    Order.AscendingIsDistinct(top, Order.Better);
    CutIsFull(ms, query, score, 4 * k, x);
    var w := Order.Items(top);
    assert Order.AllBefore(w, x, Order.Better);
    assert w <= Order.Items(top) && |w| >= k;
  }

  lemma CutIsFull(ms: seq<Member>, query: Vector, score: (Vector, Vector) -> real, n: nat, x: Scored)
    requires DistinctIds(ms) && x in ScoredList(ms, query, score) && x !in TopScored(ms, query, score, n)
    ensures |TopScored(ms, query, score, n)| == n
  {
    var list := ScoredList(ms, query, score);
    Order.SortSameItems(list, Order.Better);
    var sorted := Order.Sort(list, Order.Better);
    assert x in sorted;
    assert n >= |sorted| ==> TopScored(ms, query, score, n) == sorted;
  }

  lemma CollectedMore(some: set<Scored>, cl: Clusters, ids: seq<nat>, f: nat, query: Vector,
                      score: (Vector, Vector) -> real, k: nat)
    requires Collected(some, cl, ids, query, score, k) && UniqueIds(cl)
    ensures var kept := if f in cl then Order.Items(TopScored(cl[f].members, query, score, 4 * k)) else {};
      Collected(some + kept, cl, ids + [f], query, score, k)
  {
    assert (ids + [f])[..|ids|] == ids;
    var kept := if f in cl then Order.Items(TopScored(cl[f].members, query, score, 4 * k)) else {};
    var all, pool := some + kept, ClusterPool(cl, f, query, score);
    if f in cl {
      MembersDistinct(cl, f);
      TopScoredIsTop(cl[f].members, query, score, 4 * k);
    }
    forall x | x in Pool(cl, ids + [f], query, score) && x !in all ensures Order.Outranked(x, all, k, Order.Better) {
      if x in Pool(cl, ids, query, score) {
        OutrankedMore(x, some, all, k);
      } else {
        CutOutranks(cl[f].members, query, score, k, x);
        OutrankedMore(x, kept, all, k);
      }
    }
  }

  lemma MembersDistinct(cl: Clusters, f: nat)
    requires UniqueIds(cl) && f in cl
    ensures DistinctIds(cl[f].members)
  {
  }

  /** The new entries clash with nothing collected so far. */
  lemma NoClash(some: set<Scored>, cl: Clusters, ids: seq<nat>, f: nat, query: Vector, score: (Vector, Vector) -> real,
                k: nat)
    requires UniqueIds(cl) && f in cl && some <= Pool(cl, ids, query, score)
    ensures var kept := TopScored(cl[f].members, query, score, 4 * k);
      forall x, y :: x in kept && y in some + Order.Items(kept) && x.0 == y.0 ==> x == y
  {
    var kept := TopScored(cl[f].members, query, score, 4 * k);
    MembersDistinct(cl, f);
    TopScoredIsTop(cl[f].members, query, score, 4 * k);
    forall x, y | x in kept && y in some + Order.Items(kept) && x.0 == y.0 ensures x == y {
      if y in some {
        PoolMember(cl, ids, query, score, y);
        var g :| g in ids && y in ClusterPool(cl, g, query, score);
        ClusterPoolsAgree(cl, f, g, query, score, x, y);
      } else {
        ClusterPoolsAgree(cl, f, f, query, score, x, y);
      }
    }
  }

  method CollectScores(cl: Clusters, ids: seq<nat>, query: Vector, k: nat, score: (Vector, Vector) -> real)
    returns (scores: map<Id, real>)
    requires UniqueIds(cl)
    ensures Collected(Order.Entries(scores), cl, ids, query, score, k)
  {
    scores := map[];
    for i := 0 to |ids|
      invariant Collected(Order.Entries(scores), cl, ids[..i], query, score, k)
    {
      assert ids[..i + 1] == ids[..i] + [ids[i]];
      CollectedMore(Order.Entries(scores), cl, ids[..i], ids[i], query, score, k);
      if ids[i] in cl {
        NoClash(Order.Entries(scores), cl, ids[..i], ids[i], query, score, k);
        scores := NoteAll(scores, TopScored(cl[ids[i]].members, query, score, 4 * k));
      } else {
        assert Order.Entries(scores) + {} == Order.Entries(scores);
      }
    }
    assert ids[..|ids|] == ids;
  }

  /** All members of the probed clusters, scored. */
  ghost function ProbedPool(ix: Parts, cl: Clusters, query: Vector, score: (Vector, Vector) -> real): set<Scored> {
    set f, m | f in cl && m in cl[f].members && Probed(ix, query, score, f) :: ScoredMember(m, query, score)
  }

  lemma PoolIsProbed(ix: Parts, cl: Clusters, ids: seq<nat>, query: Vector, score: (Vector, Vector) -> real)
    requires forall f :: f in ids <==> Probed(ix, query, score, f)
    ensures Pool(cl, ids, query, score) == ProbedPool(ix, cl, query, score)
  {
    forall x ensures x in Pool(cl, ids, query, score) <==> x in ProbedPool(ix, cl, query, score) {
      PoolMember(cl, ids, query, score, x);
      forall f | f in cl
        ensures x in ClusterPool(cl, f, query, score) <==>
          exists m :: m in cl[f].members && x == ScoredMember(m, query, score)
      {
        ScoredItems(cl[f].members, query, score, x);
      }
    }
  }

  /** `query_ann`: cutting each cluster to `4 * k` loses nothing.  The result is the exact top k, by
      score and then id, of all members of the probed clusters. */
  method Query(ix: Parts, cl: Clusters, query: Vector, k: nat, score: (Vector, Vector) -> real)
    returns (ranked: seq<Scored>)
    requires |ix.l0.centroids| == ix.l0.NumCoarse() && UniqueIds(cl)
    ensures Order.IsTop(ranked, ProbedPool(ix, cl, query, score), k, Order.Better)
  {
    if |query| != ix.l0.dimensions {
      assert ProbedPool(ix, cl, query, score) == {};
      return [];
    }
    var probed := ProbeFineCentroids(ix, query, score);
    PoolIsProbed(ix, cl, probed, query, score);
    var scores := CollectScores(cl, probed, query, k, score);
    var list := Order.ListEntries(scores);
    Order.BetterIsStrictTotal();
    Order.SortTakeIsTop(list, k, Order.Better);
    ranked := Order.Take(Order.Sort(list, Order.Better), k);
    Order.TopOfPart(ranked, Order.Entries(scores), Pool(cl, probed, query, score), k, Order.Better);
  }

  // ----- Small indexes: brute force -----

  /** The scored entries of a list of documents are the pool of the clusters that hold them. */
  ghost predicate ListsAll(docs: seq<Member>, cl: Clusters) {
    forall m :: m in docs <==> exists f :: f in cl && m in cl[f].members
  }

  lemma ScoredItems(ms: seq<Member>, query: Vector, score: (Vector, Vector) -> real, x: Scored)
    ensures x in Order.Items(ScoredList(ms, query, score)) <==>
      exists m :: m in ms && x == ScoredMember(m, query, score)
  {
    var list := ScoredList(ms, query, score);
    if m :| m in ms && x == ScoredMember(m, query, score) {
      var i :| 0 <= i < |ms| && ms[i] == m;
      assert list[i] == x;
    }
    if x in list {
      var i :| 0 <= i < |list| && list[i] == x;
      assert ms[i] in ms && x == ScoredMember(ms[i], query, score);
    }
  }

  lemma WholePool(docs: seq<Member>, ix: Parts, cl: Clusters, query: Vector, score: (Vector, Vector) -> real)
    requires ListsAll(docs, cl) && forall f :: f in cl ==> Probed(ix, query, score, f)
    ensures ProbedPool(ix, cl, query, score) == Order.Items(ScoredList(docs, query, score))
  {
    forall x ensures x in ProbedPool(ix, cl, query, score) <==> x in Order.Items(ScoredList(docs, query, score)) {
      ScoredItems(docs, query, score, x);
      if x in ProbedPool(ix, cl, query, score) {
        var f, m :| f in cl && m in cl[f].members && x == ScoredMember(m, query, score);
        assert m in docs;
      }
      if m :| m in docs && x == ScoredMember(m, query, score) {
        var f :| f in cl && m in cl[f].members;
        assert Probed(ix, query, score, f);
      }
    }
  }

  /** On an index of at most 32 fine centroids without routing, the exact top k of the probed clusters
      is what brute force over all documents finds. */
  lemma SmallQueryIsBruteForce(ix: Parts, cl: Clusters, docs: seq<Member>, query: Vector, k: nat,
                               score: (Vector, Vector) -> real, ranked: seq<Scored>)
    requires TiledParts(ix) && ClustersTiled(ix.l0.numFineTotal, cl) && ix.l0.numFineTotal <= SMALL_INDEX
    requires ix.routing.None? && |query| == ix.l0.dimensions
    requires DistinctIds(docs) && ListsAll(docs, cl)
    requires Order.IsTop(ranked, ProbedPool(ix, cl, query, score), k, Order.Better)
    ensures ranked == TopScored(docs, query, score, k)
  {
    forall f | f in cl ensures Probed(ix, query, score, f) { SmallIndexProbedWhole(ix, query, score, f); }
    WholePool(docs, ix, cl, query, score);
    TopScoredIsTop(docs, query, score, k);
    Order.BetterIsStrictTotal();
    Order.TopUnique(ranked, TopScored(docs, query, score, k), ProbedPool(ix, cl, query, score), k, Order.Better);
  }

  /** A document at the total, where documents of an empty last cell end up, is never found: queries
      rank as if it were not there. */
  lemma SpillUnseen(ix: Parts, cl: Clusters, query: Vector, score: (Vector, Vector) -> real)
    requires TiledParts(ix) && (ix.routing.None? || L2Within(ix))
    ensures ProbedPool(ix, cl, query, score) == ProbedPool(ix, cl - {ix.l0.numFineTotal}, query, score)
  {
    if Probed(ix, query, score, ix.l0.numFineTotal) { ProbedInside(ix, query, score, ix.l0.numFineTotal); }
    var inner := cl - {ix.l0.numFineTotal};
    forall f, m | f in cl && m in cl[f].members && Probed(ix, query, score, f)
      ensures ScoredMember(m, query, score) in ProbedPool(ix, inner, query, score)
    {
      assert f in inner && m in inner[f].members;
    }
    forall f, m | f in inner && m in inner[f].members && Probed(ix, query, score, f)
      ensures ScoredMember(m, query, score) in ProbedPool(ix, cl, query, score)
    {
      assert f in cl && m in cl[f].members;
    }
  }

  // ----- From the index invariants -----

  lemma {:induction false} SumFrom(cells: seq<multiset<Member>>, m: Member) returns (c: nat)
    requires m in Sum(cells)
    ensures c < |cells| && m in cells[c]
  {
    var n := |cells| - 1;
    if m in cells[n] { c := n; } else { c := SumFrom(cells[..n], m); }
  }

  lemma BagFrom(cl: Clusters, lo: nat, hi: nat, m: Member) returns (f: nat)
    requires m in Bag(cl, lo, hi)
    ensures lo <= f < hi && m in MembersAt(cl, f)
  {
    var i := SumFrom(Slots(cl, lo, hi), m);
    f := lo + i;
  }

  lemma InSum(counts: seq<nat>, cl: Clusters, f: nat, m: Member)
    requires ClustersTiled(Total(counts), cl) && f in cl && m in cl[f].members
    ensures m in Sum(Cells(counts, cl))
  {
    var c := Located(counts, f, |counts|);
    assert m in MembersAt(cl, f);
    BagHas(cl, Start(counts, c), Start(counts, c + 1), f, m);
    SumAtLeast(Cells(counts, cl), c, m);
  }

  /** A list of the index's contents lists the members of its clusters. */
  lemma ContentsListed(counts: seq<nat>, cl: Clusters, docs: seq<Member>)
    requires ClustersTiled(Total(counts), cl) && multiset(docs) == Sum(Cells(counts, cl))
    ensures ListsAll(docs, cl)
  {
    forall m ensures m in docs <==> exists f :: f in cl && m in cl[f].members {
      assert m in docs <==> m in multiset(docs);
      if m in docs {
        var c := SumFrom(Cells(counts, cl), m);
        var f := BagFrom(cl, Start(counts, c), Start(counts, c + 1), m);
        assert f in cl && m in cl[f].members;
      }
      if f :| f in cl && m in cl[f].members { InSum(counts, cl, f, m); }
    }
  }

  lemma BagAtLeast(cl: Clusters, lo: nat, hi: nat, f: nat, m: Member)
    requires lo <= f < hi
    ensures Bag(cl, lo, hi)[m] >= MembersAt(cl, f)[m]
  {
    SumAtLeast(Slots(cl, lo, hi), f - lo, m);
  }

  lemma TwicePresent(ms: seq<Member>, i: nat, j: nat)
    requires i < j < |ms| && ms[i] == ms[j]
    ensures multiset(ms)[ms[i]] >= 2
  {
    assert ms == ms[..j] + [ms[j]] + ms[j + 1..];
    assert ms[i] in ms[..j];
    assert ms[i] in multiset(ms[..j]);
  }

  /** An index that holds each document once has no id in two places. */
  lemma HeldOnceIsUnique(counts: seq<nat>, cl: Clusters, docs: map<Id, Vector>)
    requires ClustersTiled(Total(counts), cl) && Holds(Sum(Cells(counts, cl)), docs)
    ensures UniqueIds(cl)
  {
    forall f, i, g, j | f in cl && g in cl && 0 <= i < |cl[f].members| && 0 <= j < |cl[g].members|
                        && cl[f].members[i].docId == cl[g].members[j].docId
      ensures f == g && i == j
    {
      SamePlace(counts, cl, docs, f, i, g, j);
    }
  }

  lemma SamePlace(counts: seq<nat>, cl: Clusters, docs: map<Id, Vector>, f: nat, i: nat, g: nat, j: nat)
    requires ClustersTiled(Total(counts), cl) && Holds(Sum(Cells(counts, cl)), docs)
    requires f in cl && g in cl && i < |cl[f].members| && j < |cl[g].members|
    requires cl[f].members[i].docId == cl[g].members[j].docId
    ensures f == g && i == j
  {
    var m, m' := cl[f].members[i], cl[g].members[j];
    assert m in MembersAt(cl, f) && m' in MembersAt(cl, g);
    OneSlot(counts, cl, docs, f, m, g, m');
    var c := Located(counts, f, |counts|);
    SumAtLeast(Cells(counts, cl), c, m);
    BagAtLeast(cl, Start(counts, c), Start(counts, c + 1), f, m);
    if f == g && i < j { TwicePresent(cl[f].members, i, j); }
    if f == g && j < i { TwicePresent(cl[f].members, j, i); }
  }

  lemma HeldListDistinct(docs: seq<Member>, all: multiset<Member>, vectors: map<Id, Vector>)
    requires Holds(all, vectors) && multiset(docs) <= all
    ensures DistinctIds(docs)
  {
    forall i, j | 0 <= i < j < |docs| ensures docs[i].docId != docs[j].docId {
      assert docs[i] in multiset(docs) && docs[j] in multiset(docs);
      if docs[i] == docs[j] { TwicePresent(docs, i, j); }
    }
  }

  lemma HeldDistinct(counts: seq<nat>, cl: Clusters, docs: seq<Member>, vectors: map<Id, Vector>)
    requires Holds(Sum(Cells(Spaces(counts), cl)), vectors) && multiset(docs) == Sum(Cells(counts, cl))
    ensures DistinctIds(docs)
  {
    SpacesHold(counts, cl);
    HeldListDistinct(docs, Sum(Cells(Spaces(counts), cl)), vectors);
  }

  /** The clusters of the cells, without what is behind them. */
  lemma CellsListed(counts: seq<nat>, cl: Clusters, docs: seq<Member>)
    requires ClustersTiled(Total(counts) + 1, cl) && multiset(docs) == Sum(Cells(counts, cl))
    ensures ClustersTiled(Total(counts), cl - {Total(counts)}) && ListsAll(docs, cl - {Total(counts)})
  {
    var total := Total(counts);
    var inner := cl - {total};
    OtherMembers(cl, inner, total);
    CellsBelow(counts, cl, inner);
    ContentsListed(counts, inner, docs);
  }

  lemma OtherMembers(cl: Clusters, inner: Clusters, total: nat)
    requires inner == cl - {total}
    ensures forall f: nat :: f < total ==> MembersAt(inner, f) == MembersAt(cl, f)
  {
  }

  /** End to end: on a small index kept by the maintenance invariants, `query_ann` ranks exactly as brute
      force does over the documents in the cells of the index. */
  lemma SmallIndexExact(ix: Parts, cl: Clusters, vectors: map<Id, Vector>, docs: seq<Member>, query: Vector, k: nat,
                        score: (Vector, Vector) -> real, ranked: seq<Scored>)
    requires TiledParts(ix) && ClustersTiled(ix.l0.numFineTotal + 1, cl) && ix.l0.numFineTotal <= SMALL_INDEX
    requires ix.routing.None? && |query| == ix.l0.dimensions
    requires Holds(Sum(Cells(Spaces(ix.l0.fineCounts), cl)), vectors)
    requires multiset(docs) == Sum(Cells(ix.l0.fineCounts, cl))
    requires Order.IsTop(ranked, ProbedPool(ix, cl, query, score), k, Order.Better)
    ensures UniqueIds(cl) && ranked == TopScored(docs, query, score, k)
  {
    SpacesTotal(ix.l0.fineCounts);
    HeldOnceIsUnique(Spaces(ix.l0.fineCounts), cl, vectors);
    HeldDistinct(ix.l0.fineCounts, cl, docs, vectors);
    CellsListed(ix.l0.fineCounts, cl, docs);
    SpillUnseen(ix, cl, query, score);
    SmallQueryIsBruteForce(ix, cl - {ix.l0.numFineTotal}, docs, query, k, score, ranked);
  }
}
