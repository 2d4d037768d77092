/** Which clusters a query looks at (`probe_fine_centroids_parts` and the probe widths of
    `src/index/vector.rs`).
 */
module Probe {
  import opened Documents
  import opened Centroids
  import opened Tiling
  import Order

  datatype L0 = L0(
    dimensions: nat,
    numFineTotal: nat,
    probeCoarse: nat,
    probeFine: nat,
    hasRouting: bool,
    fineCounts: seq<nat>,
    centroids: seq<Vector>)
  {
    function NumCoarse(): nat {
      |fineCounts|
    }
  }

  /** A part of a large cell's fine centroids. */
  datatype L2 = L2(coarseId: nat, l2Id: nat, globalFineStart: nat, numFine: nat, centroids: seq<Vector>)

  /** All that the descent reads: routing gives the number of L2 parts of each coarse cell. */
  datatype Parts = Parts(l0: L0, l1: map<nat, L1>, routing: Option<seq<nat>>, l2: map<(nat, nat), L2>)

  const SMALL_INDEX: nat := 32

  function AtLeastOne(n: nat): nat {
    if n == 0 then 1 else n
  }

  function ProbeCoarseCount(l0: L0): nat {
    if l0.numFineTotal <= SMALL_INDEX then l0.NumCoarse() else AtLeastOne(Order.Min(l0.probeCoarse, l0.NumCoarse()))
  }

  function ProbeFineCount(l0: L0, numFine: nat): nat {
    if l0.numFineTotal <= SMALL_INDEX then numFine else AtLeastOne(Order.Min(l0.probeFine, numFine))
  }

  function ProbeL2Count(l0: L0, parts: nat): nat {
    if parts <= 1 then 0
    else if l0.numFineTotal <= SMALL_INDEX then parts
    else AtLeastOne(Order.Min(l0.probeFine, parts))
  }

  function L2CountForCoarse(routing: Option<seq<nat>>, c: nat): nat {
    if routing.Some? && c < |routing.value| then routing.value[c] else 0
  }

  function NearestCoarse(l0: L0, query: Vector, score: (Vector, Vector) -> real): seq<nat> {
    TopM(l0.centroids, query, score, ProbeCoarseCount(l0))
  }

  // ----- One coarse cell -----

  function BestScore(cs: seq<Vector>, query: Vector, score: (Vector, Vector) -> real): real
    requires cs != []
  {
    if |cs| == 1 then score(query, cs[0])
    else
      var rest, last := BestScore(cs[..|cs| - 1], query, score), score(query, cs[|cs| - 1]);
      if last > rest then last else rest
  }

  /** The first `parts` L2 parts of a cell that are loaded and not empty, with their best scores. */
  function L2Scored(l2: map<(nat, nat), L2>, c: nat, parts: nat, query: Vector,
                    score: (Vector, Vector) -> real): seq<Ranked>
  {
    if parts == 0 then []
    else
      var i := parts - 1;
      L2Scored(l2, c, i, query, score) +
        if (c, i) in l2 && l2[(c, i)].centroids != [] then [(i, BestScore(l2[(c, i)].centroids, query, score))] else []
  }

  function Offset(ids: seq<nat>, start: nat): seq<nat> {
    seq(|ids|, i requires 0 <= i < |ids| => start + ids[i])
  }

  function FromL2(ix: Parts, c: nat, ranked: seq<Ranked>, query: Vector, score: (Vector, Vector) -> real): seq<nat> {
    if ranked == [] then []
    else
      var key := (c, ranked[0].0);
      (if key in ix.l2 then
         var seg := ix.l2[key];
         Offset(TopM(seg.centroids, query, score, ProbeFineCount(ix.l0, seg.numFine)), seg.globalFineStart)
       else []) + FromL2(ix, c, ranked[1..], query, score)
  }

  function FromL1(ix: Parts, c: nat, query: Vector, score: (Vector, Vector) -> real): seq<nat>
    requires c < ix.l0.NumCoarse()
  {
    if c in ix.l1 then
      Offset(TopM(ix.l1[c].centroids, query, score, ProbeFineCount(ix.l0, ix.l1[c].numFine)),
             Start(ix.l0.fineCounts, c))
    else []
  }

  /** The fine ids probed in one coarse cell: through its L2 parts if it has any loaded, else through L1. */
  function ProbeCell(ix: Parts, c: nat, query: Vector, score: (Vector, Vector) -> real): seq<nat>
    requires c < ix.l0.NumCoarse()
  {
    var parts := L2CountForCoarse(ix.routing, c);
    var ranked := if parts > 1 && ix.l2 != map[] then L2Scored(ix.l2, c, parts, query, score) else [];
    if ranked != [] then FromL2(ix, c, Order.Take(Order.Sort(ranked, Nearer), ProbeL2Count(ix.l0, parts)), query, score)
    else FromL1(ix, c, query, score)
  }

  // ----- The descent -----

  predicate InRange(l0: L0, ids: seq<nat>) {
    forall c :: c in ids ==> c < l0.NumCoarse()
  }

  lemma NearestCoarseInRange(l0: L0, query: Vector, score: (Vector, Vector) -> real)
    requires |l0.centroids| == l0.NumCoarse()
    ensures InRange(l0, NearestCoarse(l0, query, score))
  {
    TopMPositions(l0.centroids, query, score, ProbeCoarseCount(l0));
  }

  /** The fine ids a query probes. */
  ghost predicate Probed(ix: Parts, query: Vector, score: (Vector, Vector) -> real, f: nat) {
    && |query| == ix.l0.dimensions
    && exists c: nat ::
         c < ix.l0.NumCoarse() && c in NearestCoarse(ix.l0, query, score) && f in ProbeCell(ix, c, query, score)
  }

  /** Strictly ascending, so without repetition. */
  ghost predicate Increasing(ids: seq<nat>) {
    forall i, j :: 0 <= i < j < |ids| ==> ids[i] < ids[j]
  }

  /** Insert into an increasing list, unless it is there: sort and dedup, one id at a time. */
  function InsertId(ids: seq<nat>, f: nat): (out: seq<nat>)
    requires Increasing(ids)
    ensures Increasing(out) && forall g :: g in out <==> g in ids || g == f
  {
    if ids == [] || f < ids[0] then [f] + ids
    else if f == ids[0] then ids
    else
      assert ids == [ids[0]] + ids[1..];
      var rest := InsertId(ids[1..], f);
      assert forall k :: 0 <= k < |rest| ==> rest[k] in rest;
      [ids[0]] + rest
  }

  method ProbeFineCentroids(ix: Parts, query: Vector, score: (Vector, Vector) -> real) returns (ids: seq<nat>)
    requires |ix.l0.centroids| == ix.l0.NumCoarse()
    ensures Increasing(ids)
    ensures forall f :: f in ids <==> Probed(ix, query, score, f)
  {
    ids := [];
    if |query| != ix.l0.dimensions { return; }
    var coarse := NearestCoarse(ix.l0, query, score);
    NearestCoarseInRange(ix.l0, query, score);
    forall k | 0 <= k < |coarse| ensures coarse[k] < ix.l0.NumCoarse() { assert coarse[k] in coarse; }
    for i := 0 to |coarse|
      invariant Increasing(ids)
      invariant forall f :: f in ids <==> exists k :: 0 <= k < i && f in ProbeCell(ix, coarse[k], query, score)
    {
      var found := ProbeCell(ix, coarse[i], query, score);
      ids := InsertAll(ids, found);
    }
  }

  method InsertAll(ids: seq<nat>, more: seq<nat>) returns (out: seq<nat>)
    requires Increasing(ids)
    ensures Increasing(out) && forall g :: g in out <==> g in ids || g in more
  {
    out := ids;
    for i := 0 to |more|
      invariant Increasing(out) && forall g :: g in out <==> g in ids || g in more[..i]
    {
      assert more[..i + 1] == more[..i] + [more[i]];
      out := InsertId(out, more[i]);
    }
    assert more[..|more|] == more;
  }

  // ----- A small index is probed whole -----

  ghost predicate TiledParts(ix: Parts) {
    && |ix.l0.centroids| == ix.l0.NumCoarse()
    && ix.l0.numFineTotal == Total(ix.l0.fineCounts)
    && L1Tiled(ix.l0.fineCounts, ix.l1)
  }

  lemma FromL1Whole(ix: Parts, c: nat, query: Vector, score: (Vector, Vector) -> real, f: nat)
    requires TiledParts(ix) && ix.l0.numFineTotal <= SMALL_INDEX && InCell(ix.l0.fineCounts, f, c)
    ensures f in FromL1(ix, c, query, score)
  {
    var cs, local := ix.l1[c].centroids, f - Start(ix.l0.fineCounts, c);
    TopMPositions(cs, query, score, |cs|);
    var ids := TopM(cs, query, score, |cs|);
    assert local in ids;
    var k :| 0 <= k < |ids| && ids[k] == local;
    assert FromL1(ix, c, query, score)[k] == f;
  }

  lemma FromL1InCell(ix: Parts, c: nat, query: Vector, score: (Vector, Vector) -> real, f: nat)
    requires TiledParts(ix) && c < ix.l0.NumCoarse() && f in FromL1(ix, c, query, score)
    ensures InCell(ix.l0.fineCounts, f, c)
  {
    var cs := ix.l1[c].centroids;
    var ids := TopM(cs, query, score, ProbeFineCount(ix.l0, ix.l1[c].numFine));
    TopMPositions(cs, query, score, ProbeFineCount(ix.l0, ix.l1[c].numFine));
    var k :| 0 <= k < |ids| && f == Start(ix.l0.fineCounts, c) + ids[k];
    assert ids[k] in ids;
  }

  /** Without routing, an index of at most 32 fine centroids is probed whole. */
  lemma SmallIndexProbedWhole(ix: Parts, query: Vector, score: (Vector, Vector) -> real, f: nat)
    requires TiledParts(ix) && ix.l0.numFineTotal <= SMALL_INDEX && ix.routing.None? && |query| == ix.l0.dimensions
    ensures Probed(ix, query, score, f) <==> f < ix.l0.numFineTotal
  {
    if Probed(ix, query, score, f) { UnroutedInside(ix, query, score, f); }
    if f < ix.l0.numFineTotal {
      var c := Located(ix.l0.fineCounts, f, |ix.l0.fineCounts|);
      AllCoarseProbed(ix.l0, query, score, c);
      FromL1Whole(ix, c, query, score, f);
      assert f in ProbeCell(ix, c, query, score);
    }
  }

  lemma UnroutedInside(ix: Parts, query: Vector, score: (Vector, Vector) -> real, f: nat)
    requires TiledParts(ix) && ix.routing.None? && Probed(ix, query, score, f)
    ensures f < ix.l0.numFineTotal
  {
    var c: nat :| c < ix.l0.NumCoarse() && c in NearestCoarse(ix.l0, query, score) &&
      f in ProbeCell(ix, c, query, score);
    FromL1InCell(ix, c, query, score, f);
    StartMonotone(ix.l0.fineCounts, c + 1, |ix.l0.fineCounts|);
  }

  lemma AllCoarseProbed(l0: L0, query: Vector, score: (Vector, Vector) -> real, c: nat)
    requires |l0.centroids| == l0.NumCoarse() && l0.numFineTotal <= SMALL_INDEX && c < l0.NumCoarse()
    ensures c in NearestCoarse(l0, query, score)
  {
    TopMPositions(l0.centroids, query, score, l0.NumCoarse());
  }

  ghost predicate L2Within(ix: Parts) {
    forall key :: key in ix.l2 ==> ix.l2[key].globalFineStart + |ix.l2[key].centroids| <= ix.l0.numFineTotal
  }

  lemma {:induction false} FromL2Inside(ix: Parts, c: nat, ranked: seq<Ranked>, query: Vector,
                                        score: (Vector, Vector) -> real, f: nat)
    requires L2Within(ix) && f in FromL2(ix, c, ranked, query, score)
    ensures f < ix.l0.numFineTotal
  {
    var rest := FromL2(ix, c, ranked[1..], query, score);
    if f in rest {
      FromL2Inside(ix, c, ranked[1..], query, score, f);
    } else {
      var seg := ix.l2[(c, ranked[0].0)];
      var width := ProbeFineCount(ix.l0, seg.numFine);
      TopMPositions(seg.centroids, query, score, width);
      var ids := TopM(seg.centroids, query, score, width);
      assert f in Offset(ids, seg.globalFineStart);
      var k :| 0 <= k < |ids| && f == seg.globalFineStart + ids[k];
      assert ids[k] in ids;
    }
  }

  /** No query probes an id from the total on, whatever is stored there. */
  lemma ProbedInside(ix: Parts, query: Vector, score: (Vector, Vector) -> real, f: nat)
    requires TiledParts(ix) && (ix.routing.None? || L2Within(ix)) && Probed(ix, query, score, f)
    ensures f < ix.l0.numFineTotal
  {
    var c: nat :| c < ix.l0.NumCoarse() && c in NearestCoarse(ix.l0, query, score) &&
      f in ProbeCell(ix, c, query, score);
    if f in FromL1(ix, c, query, score) {
      FromL1InCell(ix, c, query, score, f);
      StartMonotone(ix.l0.fineCounts, c + 1, |ix.l0.fineCounts|);
    } else {
      var parts := L2CountForCoarse(ix.routing, c);
      var ranked := L2Scored(ix.l2, c, parts, query, score);
      FromL2Inside(ix, c, Order.Take(Order.Sort(ranked, Nearer), ProbeL2Count(ix.l0, parts)), query, score, f);
    }
  }
}
