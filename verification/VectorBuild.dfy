/** Building the vector index (`VectorIndex::build` of `src/index/vector.rs`). */
module VectorBuild {
  import opened Documents
  import opened IndexDelta
  import opened Centroids
  import opened Tiling
  import opened Renumbering
  import opened VectorIndexes
  import opened QueryAnn
  import Sizing
  import Order

  const L2_SPLIT_FINE_THRESHOLD: nat := 32

  // ----- Which documents are indexed -----

  /** The documents with a non-empty vector of the size of the first one (`dim`, once known). */
  function Kept(rows: seq<Row>, extract: Document -> Option<Vector>, dim: nat): seq<Member> {
    if rows == [] then []
    else
      var v := extract(rows[0].1);
      if v.None? || v.value == [] || (dim != 0 && |v.value| != dim) then Kept(rows[1..], extract, dim)
      else [Member(rows[0].0, v.value)] + Kept(rows[1..], extract, |v.value|)
  }

  lemma KeptNext(rows: seq<Row>, extract: Document -> Option<Vector>, dim: nat, i: nat)
    requires i < |rows|
    ensures var v := extract(rows[i].1);
      Kept(rows[i..], extract, dim) ==
      if v.Some? && v.value != [] && (dim == 0 || |v.value| == dim)
      then [Member(rows[i].0, v.value)] + Kept(rows[i + 1..], extract, |v.value|)
      else Kept(rows[i + 1..], extract, dim)
  {
    assert rows[i..][1..] == rows[i + 1..];
  }

  method CollectPairs(rows: seq<Row>, extract: Document -> Option<Vector>) returns (pairs: seq<Member>, dim: nat)
    ensures pairs == Kept(rows, extract, 0)
    ensures forall m :: m in pairs ==> |m.vec| == dim
    ensures pairs == [] <==> dim == 0
  {
    pairs, dim := [], 0;
    for i := 0 to |rows|
      invariant pairs + Kept(rows[i..], extract, dim) == Kept(rows, extract, 0)
      invariant forall m :: m in pairs ==> |m.vec| == dim
      invariant pairs == [] <==> dim == 0
    {
      var v := extract(rows[i].1);
      KeptNext(rows, extract, dim, i);
      if v.Some? && v.value != [] && (dim == 0 || |v.value| == dim) {
        dim := |v.value|;
        pairs := pairs + [Member(rows[i].0, v.value)];
      }
    }
  }

  // ----- One coarse cell -----

  lemma {:induction false} SumOfEmpty(cells: seq<multiset<Member>>)
    requires forall i :: 0 <= i < |cells| ==> cells[i] == multiset{}
    ensures Sum(cells) == multiset{}
  {
    if cells != [] { SumOfEmpty(cells[..|cells| - 1]); }
  }

  lemma BagEmptyAbove(cl: Clusters, total: nat, lo: nat, hi: nat)
    requires ClustersTiled(total, cl) && total <= lo
    ensures Bag(cl, lo, hi) == multiset{}
  {
    var slots := Slots(cl, lo, hi);
    forall i | 0 <= i < |slots| ensures slots[i] == multiset{} {
      assert slots[i] == MembersAt(cl, lo + i) && lo + i !in cl;
    }
    SumOfEmpty(slots);
  }

  lemma CellsGrown(counts: seq<nat>, cl: Clusters, n: nat)
    requires ClustersTiled(Total(counts), cl)
    ensures Cells(counts + [n], cl) == Cells(counts, cl) + [multiset{}]
  {
    var grown := counts + [n];
    forall d | 0 <= d < |counts| ensures Cells(grown, cl)[d] == Cells(counts, cl)[d] {
      StartPrefix(counts, n, d);
      StartPrefix(counts, n, d + 1);
    }
    StartPrefix(counts, n, |counts|);
    BagEmptyAbove(cl, Total(counts), Start(grown, |counts|), Start(grown, |grown|));
  }

  lemma NothingBehind(counts: seq<nat>, cl: Clusters)
    requires ClustersTiled(Total(counts), cl)
    ensures Sum(Cells(Spaces(counts), cl)) == Sum(Cells(counts, cl))
  {
    SpacesHold(counts, cl);
  }

  /** Every member of cell `c` sits with its nearest fine centroid. */
  ghost predicate Routed(counts: seq<nat>, l1: map<nat, L1>, cl: Clusters, c: nat, score: (Vector, Vector) -> real) {
    && c < |counts| && c in l1
    && forall f, m :: f in cl && InCell(counts, f, c) && m in cl[f].members ==>
      IsNearest(m.vec, l1[c].centroids, score, f - Start(counts, c))
  }

  ghost predicate Assigns(assign: map<Id, nat>, ms: seq<Member>, k: nat) {
    forall m :: m in ms ==> m.docId in assign && assign[m.docId] < k
  }

  /** Put the members of the last cell into its clusters. */
  method FillCell(counts: seq<nat>, cl: Clusters, ms: seq<Member>, assign: map<Id, nat>) returns (out: Clusters)
    requires counts != [] && ClustersTiled(Total(counts[..|counts| - 1]), cl)
    requires Assigns(assign, ms, counts[|counts| - 1])
    ensures ClustersTiled(Total(counts), out)
    ensures Cells(counts, out) == With(Cells(counts, cl), |counts| - 1, multiset(ms))
    ensures forall f :: 0 <= f < Start(counts, |counts| - 1) ==> ClusterAt(out, f) == ClusterAt(cl, f)
    ensures forall f, m :: f in out && f >= Start(counts, |counts| - 1) && m in out[f].members ==>
      m in ms && f == Start(counts, |counts| - 1) + assign[m.docId]
  {
    var c := |counts| - 1;
    var start := Start(counts, c);
    out := cl;
    FirstTotal(counts);
    WithNothing(Cells(counts, cl), c);
    assert ms[..0] == [];
    for i := 0 to |ms|
      invariant ClustersTiled(Total(counts), out)
      invariant Cells(counts, out) == With(Cells(counts, cl), c, multiset(ms[..i]))
      invariant forall f :: 0 <= f < start ==> ClusterAt(out, f) == ClusterAt(cl, f)
      invariant forall f, m :: f in out && f >= start && m in out[f].members ==> m in ms && f == start + assign[m.docId]
    {
      assert ms[i] in ms;
      var f := start + assign[ms[i].docId];
      FilledOne(counts, Cells(counts, cl), out, c, f, ms, i);
      out := Extend(out, f, [ms[i]]);
    }
    assert ms[..|ms|] == ms;
  }

  lemma FilledOne(counts: seq<nat>, cells: seq<multiset<Member>>, cl: Clusters, c: nat, f: nat, ms: seq<Member>, i: nat)
    requires InCell(counts, f, c) && i < |ms| && |cells| == |counts|
    requires Cells(counts, cl) == With(cells, c, multiset(ms[..i]))
    ensures Cells(counts, Extend(cl, f, [ms[i]])) == With(cells, c, multiset(ms[..i + 1]))
  {
    CellsExtend(counts, cl, f, [ms[i]], c);
    WithTwice(cells, c, multiset(ms[..i]), multiset([ms[i]]));
    assert ms[..i + 1] == ms[..i] + [ms[i]];
  }

  lemma FirstTotal(counts: seq<nat>)
    requires counts != []
    ensures Total(counts[..|counts| - 1]) == Start(counts, |counts| - 1)
  {
    var first := counts[..|counts| - 1];
    assert counts == first + [counts[|counts| - 1]];
    StartPrefix(first, counts[|counts| - 1], |first|);
  }

  /** The index so far: the first cells hold the first buckets. */
  datatype Partial = Partial(counts: seq<nat>, l1: map<nat, L1>, clusters: Clusters)

  ghost predicate Filled(p: Partial, buckets: seq<seq<Member>>, v3: bool) {
    && |p.counts| <= |buckets|
    && L1Tiled(p.counts, p.l1) && ClustersTiled(Total(p.counts), p.clusters)
    && (forall d :: 0 <= d < |p.counts| ==> Cells(p.counts, p.clusters)[d] == multiset(buckets[d]))
    && (forall d :: 0 <= d < |p.counts| ==> p.counts[d] == Sizing.NumFine(|buckets[d]|, v3))
  }

  ghost predicate AllRouted(p: Partial, score: (Vector, Vector) -> real) {
    forall d :: 0 <= d < |p.counts| ==> Routed(p.counts, p.l1, p.clusters, d, score)
  }

  lemma GrownL1(counts: seq<nat>, l1: map<nat, L1>, centroids: seq<Vector>)
    requires L1Tiled(counts, l1)
    ensures L1Tiled(counts + [|centroids|], l1[|counts| := L1(|counts|, Total(counts), |centroids|, centroids)])
  {
    var grown := counts + [|centroids|];
    var l1' := l1[|counts| := L1(|counts|, Total(counts), |centroids|, centroids)];
    forall c | 0 <= c < |grown| ensures SegmentIs(l1'[c], c, Start(grown, c), grown[c]) {
      StartPrefix(counts, |centroids|, c);
      if c < |counts| { assert SegmentIs(l1[c], c, Start(counts, c), counts[c]); }
    }
  }

  lemma OlderRouted(p: Partial, p': Partial, d: nat, score: (Vector, Vector) -> real)
    requires Routed(p.counts, p.l1, p.clusters, d, score)
    requires |p'.counts| == |p.counts| + 1 && p'.counts[..|p.counts|] == p.counts
    requires d in p'.l1 && p'.l1[d] == p.l1[d]
    requires forall f :: 0 <= f < Total(p.counts) ==> ClusterAt(p'.clusters, f) == ClusterAt(p.clusters, f)
    ensures Routed(p'.counts, p'.l1, p'.clusters, d, score)
  {
    var n := p'.counts[|p.counts|];
    assert p'.counts == p.counts + [n];
    StartPrefix(p.counts, n, d);
    StartPrefix(p.counts, n, d + 1);
    StartMonotone(p.counts, d + 1, |p.counts|);
    forall f, m | f in p'.clusters && InCell(p'.counts, f, d) && m in p'.clusters[f].members
      ensures IsNearest(m.vec, p'.l1[d].centroids, score, f - Start(p'.counts, d))
    {
      assert ClusterAt(p'.clusters, f) == ClusterAt(p.clusters, f);
      assert InCell(p.counts, f, d);
    }
  }

  ghost predicate AllAssigned(cell: seq<Member>, fineVecs: seq<Vector>, assign: map<Id, nat>,
                              score: (Vector, Vector) -> real)
  {
    && (forall m :: m in cell ==> m.docId in assign)
    && (forall id :: id in assign ==> AssignedNearest(cell, fineVecs, score, assign, id))
    && (cell != [] ==> fineVecs != [])
  }

  /** A partial index with one more cell. */
  ghost predicate Appended(p: Partial, p': Partial, cell: seq<Member>, fineVecs: seq<Vector>, assign: map<Id, nat>) {
    && p'.counts == p.counts + [|fineVecs|]
    && p'.l1 == p.l1[|p.counts| := L1(|p.counts|, Total(p.counts), |fineVecs|, fineVecs)]
    && L1Tiled(p'.counts, p'.l1) && ClustersTiled(Total(p'.counts), p'.clusters)
    && Cells(p'.counts, p'.clusters) == With(Cells(p.counts, p.clusters) + [multiset{}], |p.counts|, multiset(cell))
    && (forall f :: 0 <= f < Start(p'.counts, |p.counts|) ==> ClusterAt(p'.clusters, f) == ClusterAt(p.clusters, f))
    && (forall m :: m in cell ==> m.docId in assign)
    && (forall f, m :: f in p'.clusters && f >= Start(p'.counts, |p.counts|) && m in p'.clusters[f].members ==>
      m in cell && f == Start(p'.counts, |p.counts|) + assign[m.docId])
  }

  /** The fine centroids of one coarse cell, and which of them each document goes to. */
  method ClusterCell(cell: seq<Member>, v3: bool, geo: Geometry) returns (fineVecs: seq<Vector>, assign: map<Id, nat>)
    requires RightCount(geo)
    ensures |fineVecs| == Sizing.NumFine(|cell|, v3) && AllAssigned(cell, fineVecs, assign, geo.score)
  {
    fineVecs := if cell == [] then [] else geo.kmeans(cell, Sizing.NumFine(|cell|, v3));
    assign := AssignToCentroids(cell, fineVecs, geo.score);
  }

  /** Append a cell: its L1 segment and its clusters. */
  method AppendCell(p: Partial, cell: seq<Member>, fineVecs: seq<Vector>, assign: map<Id, nat>) returns (p': Partial)
    requires L1Tiled(p.counts, p.l1) && ClustersTiled(Total(p.counts), p.clusters) && Assigns(assign, cell, |fineVecs|)
    ensures Appended(p, p', cell, fineVecs, assign)
  {
    var c := |p.counts|;
    var grown := p.counts + [|fineVecs|];
    assert grown[..c] == p.counts;
    CellsGrown(p.counts, p.clusters, |fineVecs|);
    GrownL1(p.counts, p.l1, fineVecs);
    var filled := FillCell(grown, p.clusters, cell, assign);
    p' := Partial(grown, p.l1[c := L1(c, Total(p.counts), |fineVecs|, fineVecs)], filled);
  }

  method AddCell(p: Partial, cell: seq<Member>, v3: bool, geo: Geometry, ghost buckets: seq<seq<Member>>)
    returns (p': Partial)
    requires RightCount(geo) && Filled(p, buckets, v3) && |p.counts| < |buckets| && cell == buckets[|p.counts|]
    ensures Filled(p', buckets, v3) && |p'.counts| == |p.counts| + 1
    ensures OneVectorPerId(cell) && AllRouted(p, geo.score) ==> AllRouted(p', geo.score)
  {
    var fineVecs, assign := ClusterCell(cell, v3, geo);
    AssignInRange(cell, fineVecs, geo.score, assign);
    p' := AppendCell(p, cell, fineVecs, assign);
    FilledMore(p, p', cell, fineVecs, assign, buckets, v3);
    if OneVectorPerId(cell) && AllRouted(p, geo.score) {
      RoutedMore(p, p', cell, fineVecs, assign, geo.score);
    }
  }

  lemma RoutedMore(p: Partial, p': Partial, cell: seq<Member>, fineVecs: seq<Vector>, assign: map<Id, nat>,
                   score: (Vector, Vector) -> real)
    requires OneVectorPerId(cell) && AllRouted(p, score) && L1Ok(p.counts, p.l1)
    requires Appended(p, p', cell, fineVecs, assign) && AllAssigned(cell, fineVecs, assign, score)
    ensures AllRouted(p', score)
  {
    assert p'.counts[..|p.counts|] == p.counts;
    FirstTotal(p'.counts);
    forall d | 0 <= d < |p.counts|
      ensures Routed(p'.counts, p'.l1, p'.clusters, d, score)
    {
      OlderRouted(p, p', d, score);
    }
    NewRouted(p', cell, assign, score);
  }

  lemma AssignInRange(cell: seq<Member>, fineVecs: seq<Vector>, score: (Vector, Vector) -> real, assign: map<Id, nat>)
    requires AllAssigned(cell, fineVecs, assign, score)
    ensures Assigns(assign, cell, |fineVecs|)
  {
    forall m | m in cell ensures assign[m.docId] < |fineVecs| {
      assert AssignedNearest(cell, fineVecs, score, assign, m.docId);
    }
  }

  lemma FilledMore(p: Partial, p': Partial, cell: seq<Member>, fineVecs: seq<Vector>, assign: map<Id, nat>,
                   buckets: seq<seq<Member>>, v3: bool)
    requires Filled(p, buckets, v3) && |p.counts| < |buckets| && cell == buckets[|p.counts|]
    requires |fineVecs| == Sizing.NumFine(|cell|, v3) && Appended(p, p', cell, fineVecs, assign)
    ensures Filled(p', buckets, v3)
  {
    assert multiset{} + multiset(cell) == multiset(cell);
  }

  lemma NewRouted(p: Partial, cell: seq<Member>, assign: map<Id, nat>, score: (Vector, Vector) -> real)
    requires p.counts != [] && |p.counts| - 1 in p.l1 && OneVectorPerId(cell)
    requires var cs := p.l1[|p.counts| - 1].centroids;
      (forall m :: m in cell ==> m.docId in assign) &&
        (forall id :: id in assign ==> AssignedNearest(cell, cs, score, assign, id))
      && (cell != [] ==> cs != [])
    requires forall f, m :: f in p.clusters && f >= Start(p.counts, |p.counts| - 1) && m in p.clusters[f].members ==>
      m in cell && f == Start(p.counts, |p.counts| - 1) + assign[m.docId]
    ensures Routed(p.counts, p.l1, p.clusters, |p.counts| - 1, score)
  {
    var c := |p.counts| - 1;
    forall f, m | f in p.clusters && InCell(p.counts, f, c) && m in p.clusters[f].members
      ensures IsNearest(m.vec, p.l1[c].centroids, score, f - Start(p.counts, c))
    {
      OwnNearest(cell, p.l1[c].centroids, score, assign, m);
    }
  }

  // ----- The whole build -----

  lemma {:induction false} PooledLast(buckets: seq<seq<Member>>, last: seq<Member>)
    ensures Pooled(buckets + [last]) == Pooled(buckets) + multiset(last)
  {
    if buckets == [] {
      assert ([last])[1..] == [];
      assert [] + [last] == [last];
    } else {
      PooledLast(buckets[1..], last);
      assert (buckets + [last])[1..] == buckets[1..] + [last];
    }
  }

  lemma {:induction false} SumIsPooled(cells: seq<multiset<Member>>, buckets: seq<seq<Member>>)
    requires |cells| == |buckets| && forall d :: 0 <= d < |cells| ==> cells[d] == multiset(buckets[d])
    ensures Sum(cells) == Pooled(buckets)
  {
    if cells != [] {
      var n := |cells| - 1;
      SumIsPooled(cells[..n], buckets[..n]);
      PooledLast(buckets[..n], buckets[n]);
      assert buckets == buckets[..n] + [buckets[n]];
    }
  }

  lemma {:induction false} FineTotal(counts: seq<nat>, n: nat)
    requires n <= |counts| && forall d :: 0 <= d < |counts| ==> counts[d] <= Sizing.MAX_FINE_PER_COARSE_V3
    ensures Start(counts, n) <= 8 * n
  {
    if n > 0 { FineTotal(counts, n - 1); }
  }

  /** Keys of the L2 segments a cell of `kFine` fine centroids is split into, at most. */
  function L2Keys(c: nat, kFine: nat, v3: bool): set<(nat, nat)> {
    if v3 && kFine > L2_SPLIT_FINE_THRESHOLD then
      set i: nat | 0 <= i < Sizing.CeilDiv(kFine, L2_SPLIT_FINE_THRESHOLD) :: (c, i)
    else {}
  }

  function L2Count(kFine: nat, v3: bool): nat {
    if v3 && kFine > L2_SPLIT_FINE_THRESHOLD then Sizing.CeilDiv(kFine, L2_SPLIT_FINE_THRESHOLD) else 0
  }

  /** The objects of an index: one per coarse cell, one per fine centroid, the routing table if there
      is one, and the L2 segments. */
  function ObjectCount(counts: seq<nat>, hasRouting: bool, l2: set<(nat, nat)>): nat {
    |counts| + Total(counts) + (if hasRouting then 1 else 0) + |l2|
  }

  /** `build`: nothing to index, or an index that tiles and holds each kept document once per
      occurrence, in the cell of its nearest coarse centroid and with its nearest fine one.  A v3 build
      has no L2 segments, no routing, and fewer than 500 objects, however the documents fall. */
  method Build(rows: seq<Row>, extract: Document -> Option<Vector>, v3: bool, geo: Geometry)
    returns (index: VectorIndex?, hasRouting: bool, l2: set<(nat, nat)>)
    requires RightCount(geo)
    ensures index == null <==> Kept(rows, extract, 0) == []
    ensures index != null ==> fresh(index) && index.Tiled() && index.NoSpill() && index.geo == geo
    ensures index != null ==> Sum(index.Content()) == multiset(Kept(rows, extract, 0))
    ensures index != null && OneVectorPerId(Kept(rows, extract, 0)) ==> (
      var p := Partial(index.counts, index.l1, index.clusters);
      CoarseRouted(p, index.coarse, geo.score) && AllRouted(p, geo.score))
    ensures index != null && v3 ==>
      !hasRouting && l2 == {} && ObjectCount(index.counts, hasRouting, l2) < Sizing.V3_INDEX_OBJECT_CAP
  {
    var pairs, dim := CollectPairs(rows, extract);
    if pairs == [] { return null, false, {}; }
    var coarse, p;
    coarse, p, hasRouting, l2 := BuildParts(pairs, v3, geo);
    index := new VectorIndex(dim, coarse, v3, geo, p.counts, Total(p.counts), p.l1, p.clusters);
  }

  method BuildParts(pairs: seq<Member>, v3: bool, geo: Geometry)
    returns (coarse: seq<Vector>, p: Partial, hasRouting: bool, l2: set<(nat, nat)>)
    requires RightCount(geo) && pairs != []
    ensures |p.counts| == |coarse| && L1Tiled(p.counts, p.l1) && ClustersTiled(Total(p.counts), p.clusters)
    ensures Sum(Cells(Spaces(p.counts), p.clusters)) == multiset(pairs)
    ensures OneVectorPerId(pairs) ==> CoarseRouted(p, coarse, geo.score) && AllRouted(p, geo.score)
    ensures v3 ==> !hasRouting && l2 == {} && ObjectCount(p.counts, hasRouting, l2) < Sizing.V3_INDEX_OBJECT_CAP
  {
    var k := Sizing.NumCoarse(|pairs|, v3);
    coarse := geo.kmeans(pairs, k);
    var assign := AssignToCentroids(pairs, coarse, geo.score);
    var buckets := Bucketed(pairs, assign, k);
    p := BuildCells(buckets, v3, geo, pairs);
    hasRouting, l2 := Routing(p.counts, v3);
    SumIsPooled(Cells(p.counts, p.clusters), buckets);
    NothingBehind(p.counts, p.clusters);
    if OneVectorPerId(pairs) { NearestCoarse(pairs, coarse, geo.score, assign, buckets, k); }
    FewObjects(p, buckets, v3, l2);
  }

  /** Every member is in the cell of its nearest coarse centroid. */
  ghost predicate CoarseRouted(p: Partial, coarse: seq<Vector>, score: (Vector, Vector) -> real) {
    forall c, m :: 0 <= c < |p.counts| && m in Cells(p.counts, p.clusters)[c] ==> IsNearest(m.vec, coarse, score, c)
  }

  method BuildCells(buckets: seq<seq<Member>>, v3: bool, geo: Geometry, ghost pairs: seq<Member>) returns (p: Partial)
    requires RightCount(geo) && forall b, m :: 0 <= b < |buckets| && m in buckets[b] ==> m in pairs
    ensures Filled(p, buckets, v3) && |p.counts| == |buckets|
    ensures OneVectorPerId(pairs) ==> AllRouted(p, geo.score)
  {
    p := Partial([], map[], map[]);
    for c := 0 to |buckets|
      invariant Filled(p, buckets, v3) && |p.counts| == c
      invariant OneVectorPerId(pairs) ==> AllRouted(p, geo.score)
    {
      p := AddCell(p, buckets[c], v3, geo, buckets);
    }
  }

  method Routing(counts: seq<nat>, v3: bool) returns (hasRouting: bool, l2: set<(nat, nat)>)
    ensures hasRouting <==> exists c :: 0 <= c < |counts| && L2Count(counts[c], v3) > 1
    ensures forall key :: key in l2 <==> exists c :: 0 <= c < |counts| && key in L2Keys(c, counts[c], v3)
  {
    hasRouting, l2 := false, {};
    for c := 0 to |counts|
      invariant hasRouting <==> exists d :: 0 <= d < c && L2Count(counts[d], v3) > 1
      invariant forall key :: key in l2 <==> exists d :: 0 <= d < c && key in L2Keys(d, counts[d], v3)
    {
      hasRouting := hasRouting || L2Count(counts[c], v3) > 1;
      l2 := l2 + L2Keys(c, counts[c], v3);
    }
  }

  lemma NearestCoarse(pairs: seq<Member>, coarse: seq<Vector>, score: (Vector, Vector) -> real, assign: map<Id, nat>,
                      buckets: seq<seq<Member>>, k: nat)
    requires OneVectorPerId(pairs) && 1 <= k == |coarse| == |buckets|
    requires forall m :: m in pairs ==> m.docId in assign
    requires forall id :: id in assign ==> AssignedNearest(pairs, coarse, score, assign, id)
    requires forall b, m :: 0 <= b < k && m in buckets[b] ==> m in pairs && b == BucketOf(assign, m.docId, k)
    ensures forall b, m :: 0 <= b < k && m in multiset(buckets[b]) ==> IsNearest(m.vec, coarse, score, b)
  {
    forall b, m | 0 <= b < k && m in multiset(buckets[b]) ensures IsNearest(m.vec, coarse, score, b) {
      assert m in buckets[b];
      OwnNearest(pairs, coarse, score, assign, m);
    }
  }

  lemma FewObjects(p: Partial, buckets: seq<seq<Member>>, v3: bool, l2: set<(nat, nat)>)
    requires Filled(p, buckets, v3) && (v3 ==> |p.counts| <= 55)
    requires forall key :: key in l2 ==> exists c :: 0 <= c < |p.counts| && key in L2Keys(c, p.counts[c], v3)
    ensures v3 ==> l2 == {} && ObjectCount(p.counts, false, l2) < Sizing.V3_INDEX_OBJECT_CAP
    ensures v3 ==> forall c :: 0 <= c < |p.counts| ==> L2Count(p.counts[c], v3) <= 1
  {
    if v3 {
      FineTotal(p.counts, |p.counts|);
      forall c | 0 <= c < |p.counts| ensures p.counts[c] <= 8 {}
    }
  }

  // ----- From a build to the maintenance invariants -----

  ghost predicate DistinctRows(rows: seq<Row>) {
    forall i, j :: 0 <= i < j < |rows| ==> rows[i].0 != rows[j].0
  }

  function VectorsOf(ms: seq<Member>): map<Id, Vector> {
    if ms == [] then map[] else VectorsOf(ms[..|ms| - 1])[ms[|ms| - 1].docId := ms[|ms| - 1].vec]
  }

  lemma {:induction false} VectorsOfKeys(ms: seq<Member>, id: Id)
    ensures id in VectorsOf(ms) <==> exists m :: m in ms && m.docId == id
  {
    if ms != [] {
      var n := |ms| - 1;
      VectorsOfKeys(ms[..n], id);
      assert ms == ms[..n] + [ms[n]];
    }
  }

  lemma {:induction false} DistinctHolds(ms: seq<Member>)
    requires DistinctIds(ms)
    ensures Holds(multiset(ms), VectorsOf(ms))
  {
    if ms != [] {
      var n := |ms| - 1;
      DistinctHolds(ms[..n]);
      VectorsOfKeys(ms[..n], ms[n].docId);
      HoldsMore(multiset(ms[..n]), VectorsOf(ms[..n]), ms[n]);
      assert ms == ms[..n] + [ms[n]];
    }
  }

  lemma {:induction false} KeptFrom(rows: seq<Row>, extract: Document -> Option<Vector>, dim: nat, m: Member)
    returns (i: nat)
    requires m in Kept(rows, extract, dim)
    ensures i < |rows| && rows[i].0 == m.docId && extract(rows[i].1) == Some(m.vec)
  {
    var v := extract(rows[0].1);
    var skip := v.None? || v.value == [] || (dim != 0 && |v.value| != dim);
    if !skip && m == Member(rows[0].0, v.value) {
      i := 0;
    } else {
      var j := KeptFrom(rows[1..], extract, if skip then dim else |v.value|, m);
      i := j + 1;
    }
  }

  lemma {:induction false} KeptDistinct(rows: seq<Row>, extract: Document -> Option<Vector>, dim: nat)
    requires DistinctRows(rows)
    ensures DistinctIds(Kept(rows, extract, dim))
  {
    if rows != [] {
      var v := extract(rows[0].1);
      if v.None? || v.value == [] || (dim != 0 && |v.value| != dim) {
        KeptDistinct(rows[1..], extract, dim);
      } else {
        KeptDistinct(rows[1..], extract, |v.value|);
        var rest := Kept(rows[1..], extract, |v.value|);
        forall k | 0 <= k < |rest| ensures rest[k].docId != rows[0].0 {
          var i := KeptFrom(rows[1..], extract, |v.value|, rest[k]);
        }
      }
    }
  }

  /** A built index holds each kept document once, as maintenance asks, exactly if no two rows that keep a
      vector name the same id. */
  lemma BuiltHolds(rows: seq<Row>, extract: Document -> Option<Vector>)
    ensures var kept := Kept(rows, extract, 0);
      && (DistinctIds(kept) <==> exists docs: map<Id, Vector> :: Holds(multiset(kept), docs))
      && (DistinctIds(kept) ==> Holds(multiset(kept), VectorsOf(kept)))
      && (DistinctRows(rows) ==> DistinctIds(kept))
  {
    var kept := Kept(rows, extract, 0);
    if DistinctIds(kept) { DistinctHolds(kept); }
    if docs: map<Id, Vector> :| Holds(multiset(kept), docs) { HeldListDistinct(kept, multiset(kept), docs); }
    if DistinctRows(rows) { KeptDistinct(rows, extract, 0); }
  }

  /** The upserts of two batches, listed one after the other, can name an id twice: both are built in. */
  lemma BuiltTwice(doc: Document, vec: Vector)
    requires vec != []
    ensures var kept := Kept([(doc.id, doc), (doc.id, doc)], (_: Document) => Some(vec), 0);
      multiset(kept)[Member(doc.id, vec)] == 2 && forall docs: map<Id, Vector> :: !Holds(multiset(kept), docs)
  {
    var rows, extract := [(doc.id, doc), (doc.id, doc)], (_: Document) => Some(vec);
    var m := Member(doc.id, vec);
    assert rows[1..][1..] == [];
    assert Kept(rows[1..], extract, |vec|) == [m] + Kept([], extract, |vec|);
    assert Kept(rows, extract, 0) == [m, m];
    forall docs: map<Id, Vector> ensures !Holds(multiset([m, m]), docs) { assert multiset([m, m])[m] == 2; }
  }
}
