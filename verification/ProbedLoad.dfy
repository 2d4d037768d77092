/** Loading only the objects one query needs (`fetch_cold_vector_probed`,
    `assemble_vector_index_probed`, the key planning and the decoders of `src/s3_batch.rs`).

    The store holds decoded objects by number; the formatting of keys and the encoding of objects
    are not part of this model.
 */
module ProbedLoad {
  import opened Documents
  import opened Centroids
  import opened Tiling
  import opened Probe
  import opened QueryAnn
  import Order

  /** The objects of one vector field. */
  datatype Objects = Objects(l1: map<nat, L1>, routing: Option<seq<nat>>, l2: map<(nat, nat), L2>, clusters: Clusters)

  /** Each L2 object carries the numbers of its own key. */
  ghost predicate L2KeysMatch(objects: Objects) {
    forall key :: key in objects.l2 ==> (objects.l2[key].coarseId, objects.l2[key].l2Id) == key
  }

  function RoutingFor(l0: L0, objects: Objects): Option<seq<nat>> {
    if l0.hasRouting then objects.routing else None
  }

  /** The whole index. */
  function Full(l0: L0, objects: Objects): Parts {
    Parts(l0, objects.l1, RoutingFor(l0, objects), objects.l2)
  }

  /** The L2 objects of one coarse cell are asked for when it has more than one part. */
  predicate NeedsL2(routing: Option<seq<nat>>, coarse: seq<nat>, key: (nat, nat)) {
    key.0 in coarse && L2CountForCoarse(routing, key.0) > 1 && key.1 < L2CountForCoarse(routing, key.0)
  }

  // ----- Fetching -----

  /** The L1 objects of the probed coarse cells; a missing one is an error. */
  method FetchL1(objects: Objects, coarse: seq<nat>) returns (r: Result<map<nat, L1>>)
    ensures r.Ok? <==> forall c :: c in coarse ==> c in objects.l1
    ensures r.Ok? ==> r.value == map c | c in objects.l1 && c in coarse :: objects.l1[c]
  {
    var l1: map<nat, L1> := map[];
    for i := 0 to |coarse|
      invariant forall c :: c in coarse[..i] ==> c in objects.l1
      invariant l1 == map c | c in objects.l1 && c in coarse[..i] :: objects.l1[c]
    {
      assert coarse[i] in coarse;
      if coarse[i] !in objects.l1 { return Err; }
      assert coarse[..i + 1] == coarse[..i] + [coarse[i]];
      l1 := l1[coarse[i] := objects.l1[coarse[i]]];
    }
    assert coarse[..|coarse|] == coarse;
    return Ok(l1);
  }

  /** The L2 keys to ask for, in order. */
  method PlanL2(routing: Option<seq<nat>>, coarse: seq<nat>) returns (keys: seq<(nat, nat)>)
    ensures forall key :: key in keys <==> NeedsL2(routing, coarse, key)
  {
    keys := [];
    for i := 0 to |coarse|
      invariant forall key :: key in keys <==> NeedsL2(routing, coarse[..i], key)
    {
      assert coarse[..i + 1] == coarse[..i] + [coarse[i]];
      var c, n := coarse[i], L2CountForCoarse(routing, coarse[i]);
      if n > 1 {
        var more := seq(n, j requires 0 <= j < n => (c, j));
        assert forall key: (nat, nat) :: key in more <==> key.0 == c && key.1 < n by {
          forall key: (nat, nat) | key.0 == c && key.1 < n ensures key in more { assert more[key.1] == key; }
        }
        keys := keys + more;
      }
    }
    assert coarse[..|coarse|] == coarse;
  }

  method FetchL2(objects: Objects, keys: seq<(nat, nat)>) returns (r: Result<map<(nat, nat), L2>>)
    requires L2KeysMatch(objects)
    ensures r.Ok? <==> forall key :: key in keys ==> key in objects.l2
    ensures r.Ok? ==> r.value == map key | key in objects.l2 && key in keys :: objects.l2[key]
  {
    var l2: map<(nat, nat), L2> := map[];
    for i := 0 to |keys|
      invariant forall key :: key in keys[..i] ==> key in objects.l2
      invariant l2 == map key | key in objects.l2 && key in keys[..i] :: objects.l2[key]
    {
      assert keys[i] in keys;
      if keys[i] !in objects.l2 { return Err; }
      assert keys[..i + 1] == keys[..i] + [keys[i]];
      var seg := objects.l2[keys[i]];
      l2 := l2[(seg.coarseId, seg.l2Id) := seg];
    }
    assert keys[..|keys|] == keys;
    return Ok(l2);
  }

  /** The clusters of the probed fine ids; a fine centroid without members has no object. */
  method FetchClusters(objects: Objects, ids: seq<nat>) returns (clusters: Clusters)
    ensures clusters == map f | f in objects.clusters && f in ids :: objects.clusters[f]
  {
    clusters := map[];
    for i := 0 to |ids|
      invariant clusters == map f | f in objects.clusters && f in ids[..i] :: objects.clusters[f]
    {
      assert ids[..i + 1] == ids[..i] + [ids[i]];
      if ids[i] in objects.clusters { clusters := clusters[ids[i] := objects.clusters[ids[i]]]; }
    }
    assert ids[..|ids|] == ids;
  }

  // ----- One cell reads only its own objects -----

  ghost predicate AgreeAt(a: Parts, b: Parts, c: nat) {
    && a.l0 == b.l0 && a.routing == b.routing
    && (c in a.l1 <==> c in b.l1) && (c in a.l1 ==> a.l1[c] == b.l1[c])
    && (L2CountForCoarse(a.routing, c) > 1 ==> L2Agree(a.l2, b.l2, c, L2CountForCoarse(a.routing, c)))
  }

  ghost predicate L2Agree(a: map<(nat, nat), L2>, b: map<(nat, nat), L2>, c: nat, n: nat) {
    forall i: nat :: i < n ==> ((c, i) in a <==> (c, i) in b) && ((c, i) in a ==> a[(c, i)] == b[(c, i)])
  }

  lemma {:induction false} L2ScoredLocal(a: map<(nat, nat), L2>, b: map<(nat, nat), L2>, c: nat, n: nat, query: Vector,
                                         score: (Vector, Vector) -> real)
    requires L2Agree(a, b, c, n)
    ensures L2Scored(a, c, n, query, score) == L2Scored(b, c, n, query, score)
  {
    if n > 0 {
      L2ScoredLocal(a, b, c, n - 1, query, score);
      assert (c, n - 1) in a <==> (c, n - 1) in b;
    }
  }

  lemma {:induction false} L2ScoredNone(c: nat, n: nat, query: Vector, score: (Vector, Vector) -> real)
    ensures L2Scored(map[], c, n, query, score) == []
  {
    if n > 0 { L2ScoredNone(c, n - 1, query, score); }
  }

  lemma {:induction false} L2ScoredRange(l2: map<(nat, nat), L2>, c: nat, n: nat, query: Vector,
                                         score: (Vector, Vector) -> real)
    ensures forall r :: r in L2Scored(l2, c, n, query, score) ==> r.0 < n
  {
    if n > 0 { L2ScoredRange(l2, c, n - 1, query, score); }
  }

  lemma {:induction false} FromL2Local(a: Parts, b: Parts, c: nat, n: nat, ranked: seq<Ranked>, query: Vector,
                                       score: (Vector, Vector) -> real)
    requires a.l0 == b.l0 && L2Agree(a.l2, b.l2, c, n) && forall r :: r in ranked ==> r.0 < n
    ensures FromL2(a, c, ranked, query, score) == FromL2(b, c, ranked, query, score)
  {
    if ranked != [] {
      assert ranked[0] in ranked;
      assert (c, ranked[0].0) in a.l2 <==> (c, ranked[0].0) in b.l2;
      FromL2Local(a, b, c, n, ranked[1..], query, score);
    }
  }

  /** Indexes that agree on a cell's own objects probe the same fine ids in it. */
  lemma ProbeCellLocal(a: Parts, b: Parts, c: nat, query: Vector, score: (Vector, Vector) -> real)
    requires AgreeAt(a, b, c) && c < a.l0.NumCoarse()
    ensures ProbeCell(a, c, query, score) == ProbeCell(b, c, query, score)
  {
    var n := L2CountForCoarse(a.routing, c);
    if n > 1 {
      L2ScoredLocal(a.l2, b.l2, c, n, query, score);
      L2ScoredNone(c, n, query, score);
      var scored := L2Scored(a.l2, c, n, query, score);
      var ranked := Order.Take(Order.Sort(scored, Nearer), ProbeL2Count(a.l0, n));
      Order.SortSameItems(scored, Nearer);
      L2ScoredRange(a.l2, c, n, query, score);
      assert forall r :: r in ranked ==> r in Order.Sort(scored, Nearer);
      FromL2Local(a, b, c, n, ranked, query, score);
    }
  }

  lemma ProbedLocal(a: Parts, b: Parts, query: Vector, score: (Vector, Vector) -> real, f: nat)
    requires a.l0 == b.l0 && forall c :: c in NearestCoarse(a.l0, query, score) ==> AgreeAt(a, b, c)
    ensures Probed(a, query, score, f) <==> Probed(b, query, score, f)
  {
    forall c: nat | c < a.l0.NumCoarse() && c in NearestCoarse(a.l0, query, score)
      ensures ProbeCell(a, c, query, score) == ProbeCell(b, c, query, score)
    {
      ProbeCellLocal(a, b, c, query, score);
    }
  }

  // ----- The probed load -----

  /** The objects a probed load cannot do without. */
  ghost predicate NeededPresent(l0: L0, objects: Objects, query: Vector, score: (Vector, Vector) -> real) {
    var coarse := NearestCoarse(l0, query, score);
    && (forall c :: c in coarse ==> c in objects.l1)
    && (forall key :: NeedsL2(RoutingFor(l0, objects), coarse, key) ==> key in objects.l2)
  }

  /** Load the objects chosen for a query: an error exactly when an L1 or L2 object it asks for is
      missing; otherwise an index that probes the same fine ids as the whole one, with their clusters. */
  method LoadProbed(l0: L0, objects: Objects, query: Vector, score: (Vector, Vector) -> real)
    returns (r: Result<(Parts, Clusters)>)
    requires |l0.centroids| == l0.NumCoarse() && L2KeysMatch(objects)
    ensures r.Ok? <==> NeededPresent(l0, objects, query, score)
    ensures r.Ok? ==> r.value.0.l0 == l0
    ensures r.Ok? ==> forall f :: Probed(r.value.0, query, score, f) <==> Probed(Full(l0, objects), query, score, f)
    ensures r.Ok? ==> forall f :: f in r.value.1 <==>
      f in objects.clusters && Probed(Full(l0, objects), query, score, f)
    ensures r.Ok? ==> forall f :: f in r.value.1 ==> r.value.1[f] == objects.clusters[f]
  {
    var coarse := NearestCoarse(l0, query, score);
    var l1 := FetchL1(objects, coarse);
    if l1.Err? { return Err; }
    var routing := RoutingFor(l0, objects);
    var keys := PlanL2(routing, coarse);
    var l2 := FetchL2(objects, keys);
    if l2.Err? { return Err; }
    var ix := Parts(l0, l1.value, routing, l2.value);
    forall f ensures Probed(ix, query, score, f) <==> Probed(Full(l0, objects), query, score, f) {
      LoadedAgrees(ix, l0, objects, query, score);
      ProbedLocal(ix, Full(l0, objects), query, score, f);
    }
    var ids := ProbeFineCentroids(ix, query, score);
    var clusters := FetchClusters(objects, ids);
    return Ok((ix, clusters));
  }

  lemma LoadedAgrees(ix: Parts, l0: L0, objects: Objects, query: Vector, score: (Vector, Vector) -> real)
    requires ix.l0 == l0 && ix.routing == RoutingFor(l0, objects)
    requires ix.l1 == map c | c in objects.l1 && c in NearestCoarse(l0, query, score) :: objects.l1[c]
    requires forall key :: key in ix.l2 <==>
      key in objects.l2 && NeedsL2(ix.routing, NearestCoarse(l0, query, score), key)
    requires forall key :: key in ix.l2 ==> ix.l2[key] == objects.l2[key]
    ensures forall c :: c in NearestCoarse(l0, query, score) ==> AgreeAt(ix, Full(l0, objects), c)
  {
    forall c | c in NearestCoarse(l0, query, score) ensures AgreeAt(ix, Full(l0, objects), c) {
      var n := L2CountForCoarse(ix.routing, c);
      if n > 1 {
        forall i: nat | i < n
          ensures ((c, i) in ix.l2 <==> (c, i) in objects.l2)
          ensures ((c, i) in ix.l2 ==> ix.l2[(c, i)] == objects.l2[(c, i)])
        {
          assert NeedsL2(ix.routing, NearestCoarse(l0, query, score), (c, i));
        }
      }
    }
  }

  // ----- The same ranking -----

  /** The loaded part and the whole index have the same members to rank, so whatever their top k are,
      they are the same. */
  lemma SameRanking(ix: Parts, cl: Clusters, l0: L0, objects: Objects, query: Vector, k: nat,
                    score: (Vector, Vector) -> real, ranked: seq<Scored>, allRanked: seq<Scored>)
    requires forall f :: Probed(ix, query, score, f) <==> Probed(Full(l0, objects), query, score, f)
    requires forall f :: f in cl <==> f in objects.clusters && Probed(Full(l0, objects), query, score, f)
    requires forall f :: f in cl ==> cl[f] == objects.clusters[f]
    requires Order.IsTop(ranked, ProbedPool(ix, cl, query, score), k, Order.Better)
    requires Order.IsTop(allRanked, ProbedPool(Full(l0, objects), objects.clusters, query, score), k, Order.Better)
    ensures ranked == allRanked
  {
    assert ProbedPool(ix, cl, query, score) == ProbedPool(Full(l0, objects), objects.clusters, query, score);
    Order.BetterIsStrictTotal();
    Order.TopUnique(ranked, allRanked, ProbedPool(ix, cl, query, score), k, Order.Better);
  }

  lemma PartUnique(cl: Clusters, all: Clusters)
    requires UniqueIds(all) && forall f :: f in cl ==> f in all && cl[f] == all[f]
    ensures UniqueIds(cl)
  {
  }

  /** Load for a query and rank: the exact top k of the whole index's probed clusters, which is the
      ranking `query_ann` gives on the whole index. */
  method QueryProbed(l0: L0, objects: Objects, query: Vector, k: nat, score: (Vector, Vector) -> real)
    returns (r: Result<seq<Scored>>)
    requires |l0.centroids| == l0.NumCoarse() && L2KeysMatch(objects) && UniqueIds(objects.clusters)
    ensures r.Ok? <==> NeededPresent(l0, objects, query, score)
    ensures r.Ok? ==> Order.IsTop(r.value, ProbedPool(Full(l0, objects), objects.clusters, query, score), k,
                                  Order.Better)
  {
    var loaded := LoadProbed(l0, objects, query, score);
    if loaded.Err? { return Err; }
    var (ix, clusters) := loaded.value;
    PartUnique(clusters, objects.clusters);
    var ranked := Query(ix, clusters, query, k, score);
    assert ProbedPool(ix, clusters, query, score) == ProbedPool(Full(l0, objects), objects.clusters, query, score);
    return Ok(ranked);
  }
}
