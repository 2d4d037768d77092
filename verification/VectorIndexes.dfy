/** Incremental maintenance of the vector index (`src/index/vector.rs`). */
module VectorIndexes {
  import opened Documents
  import opened IndexDelta
  import opened Centroids
  import opened Tiling
  import opened Renumbering
  import opened Reassignment
  import Order
  import Sizing

  const MERGE_CLUSTER_MAX_MEMBERS: nat := 2
  const MAX_ROUNDS: nat := 128
  const MAX_SPLITS_PER_CLUSTER: nat := 64
  const U32_MAX: nat := 0xFFFF_FFFF

  // ----- Helpers on values -----

  lemma WithNothing(cells: seq<multiset<Member>>, c: nat)
    requires c < |cells|
    ensures With(cells, c, multiset{}) == cells
  {
    assert cells[c] + multiset{} == cells[c];
  }

  /** Members by their score against a centroid, best first. */
  function ByScore(ms: seq<Member>, centroid: Vector, score: (Vector, Vector) -> real): seq<Member> {
    Order.Sort(ms, (a: Member, b: Member) => score(a.vec, centroid) > score(b.vec, centroid))
  }

  lemma ByScoreParts(ms: seq<Member>, centroid: Vector, score: (Vector, Vector) -> real, k: nat)
    requires k <= |ms|
    ensures |ByScore(ms, centroid, score)| == |ms|
    ensures multiset(ms) == multiset(ByScore(ms, centroid, score)[k..]) + multiset(ByScore(ms, centroid, score)[..k])
  {
    var sorted := ByScore(ms, centroid, score);
    Order.SortPermutes(ms, (a: Member, b: Member) => score(a.vec, centroid) > score(b.vec, centroid));
    Order.SortSameItems(ms, (a: Member, b: Member) => score(a.vec, centroid) > score(b.vec, centroid));
    assert sorted == sorted[..k] + sorted[k..];
  }

  method Position(ms: seq<Member>, id: Id) returns (i: nat)
    requires HasDoc(ms, id)
    ensures i < |ms| && ms[i].docId == id
    ensures forall j :: 0 <= j < i ==> ms[j].docId != id
  {
    i := 0;
    while ms[i].docId != id
      invariant i < |ms| && forall j :: 0 <= j < i ==> ms[j].docId != id
      decreases |ms| - i
    {
      i := i + 1;
    }
  }

  /** The vectors after a delta: deletes first, then each upsert replaces or, without a vector of the
      right size, removes. */
  function VectorsPut(docs: map<Id, Vector>, rows: seq<Row>, dim: nat,
                      extract: Document -> Option<Vector>): map<Id, Vector>
    decreases |rows|
  {
    if rows == [] then docs
    else
      var (id, doc) := rows[0];
      var v := extract(doc);
      VectorsPut(if v.Some? && |v.value| == dim then docs[id := v.value] else docs - {id}, rows[1..], dim, extract)
  }

  function VectorsRemoved(docs: map<Id, Vector>, ids: seq<Id>): map<Id, Vector>
    decreases |ids|
  {
    if ids == [] then docs else VectorsRemoved(docs - {ids[0]}, ids[1..])
  }

  function VectorsAfter(docs: map<Id, Vector>, upserts: seq<Row>, deletes: seq<Id>, dim: nat,
                        extract: Document -> Option<Vector>): map<Id, Vector>
  {
    VectorsPut(VectorsRemoved(docs, deletes), upserts, dim, extract)
  }

  // ----- The index -----

  class VectorIndex {
    const dim: nat
    const coarse: seq<Vector>
    const v3: bool
    const geo: Geometry
    var counts: seq<nat>
    var total: nat
    var l1: map<nat, L1>
    var clusters: Clusters
    var passes: nat

    constructor (dim: nat, coarse: seq<Vector>, v3: bool, geo: Geometry, counts: seq<nat>, total: nat, l1: map<nat, L1>,
                 clusters: Clusters)
      ensures this.dim == dim && this.coarse == coarse && this.v3 == v3 && this.geo == geo
      ensures this.counts == counts && this.total == total && this.l1 == l1 && this.clusters == clusters && passes == 0
    {
      this.dim, this.coarse, this.v3, this.geo := dim, coarse, v3, geo;
      this.counts, this.total, this.l1, this.clusters, passes := counts, total, l1, clusters, 0;
    }

    /** Fine ids tile: the L1 entries carry the counts and the prefix sums, the total is their sum,
        and every cluster sits at its own id, below the total or at it. */
    ghost predicate Tiled()
      reads this
    {
      && |counts| == |coarse| && total == Total(counts)
      && L1Tiled(counts, l1) && ClustersTiled(total + 1, clusters)
    }

    /** The members of each coarse cell, and last those at the total, which is in no cell. */
    function Content(): seq<multiset<Member>>
      reads this
    {
      Cells(Spaces(counts), clusters)
    }

    /** Nothing is outside the coarse cells. */
    ghost predicate NoSpill()
      reads this
    {
      LoadAt(clusters, total) == 0
    }

    method PruneEmptyClusters()
      requires Tiled()
      modifies this`clusters
      ensures Tiled() && Content() == old(Content())
      ensures clusters == map f | f in old(clusters) && old(clusters)[f].members != [] :: old(clusters)[f]
    {
      ghost var before := clusters;
      clusters := map f | f in clusters && clusters[f].members != [] :: clusters[f];
      CellsSame(Spaces(counts), before, clusters);
    }

    /** Add members to a slot, which may be new. */
    method ExtendAt(f: nat, ms: seq<Member>, ghost c: nat)
      requires Tiled() && InCell(Spaces(counts), f, c)
      modifies this`clusters
      ensures Tiled() && Content() == With(old(Content()), c, multiset(ms))
      ensures clusters == Extend(old(clusters), f, ms)
    {
      CellsExtend(Spaces(counts), clusters, f, ms, c);
      StartMonotone(Spaces(counts), c + 1, |counts| + 1);
      SpacesTotal(counts);
      clusters := Extend(clusters, f, ms);
    }

    /** Remove a cluster and return its members. */
    method TakeOut(f: nat, ghost c: nat) returns (members: seq<Member>)
      requires Tiled() && InCell(Spaces(counts), f, c)
      modifies this`clusters
      ensures Tiled() && With(Content(), c, multiset(members)) == old(Content())
      ensures clusters == old(clusters) - {f} && members == if f in old(clusters) then old(clusters)[f].members else []
    {
      members := if f in clusters then clusters[f].members else [];
      CellsRemove(Spaces(counts), clusters, f, c);
      clusters := clusters - {f};
    }

    /** Take members out of one slot and add them to another of the same cell. */
    method MoveBetween(f: nat, keep: seq<Member>, g: nat, moved: seq<Member>, ghost c: nat)
      requires Tiled() && InCell(Spaces(counts), f, c) && InCell(Spaces(counts), g, c)
      requires MembersAt(clusters, f) == multiset(keep) + multiset(moved)
      modifies this`clusters
      ensures Tiled() && Content() == old(Content())
      ensures clusters == Extend(old(clusters)[f := Cluster(f, keep)], g, moved)
    {
      CellsMove(Spaces(counts), clusters, f, keep, g, moved, c);
      StartMonotone(Spaces(counts), c + 1, |counts| + 1);
      SpacesTotal(counts);
      clusters := Extend(clusters[f := Cluster(f, keep)], g, moved);
    }

    // ----- Splitting -----

    predicate Crowded(c: nat)
      requires c < |counts|
      reads this
    {
      exists f :: f in clusters && Start(counts, c) <= f < Start(counts, c) + counts[c] &&
        |clusters[f].members| > MAX_CLUSTER_MEMBERS
    }

    predicate CanAddFineCentroidForSplit(c: nat)
      requires c < |counts|
      reads this
    {
      counts[c] < if !Crowded(c) && v3 then Sizing.MAX_FINE_PER_COARSE_V3 else Sizing.MAX_FINE_PER_COARSE
    }

    method AppendFineCentroid(c: nat, centroid: Vector) returns (newLocal: nat)
      requires Tiled() && c < |counts|
      modifies this`counts, this`total, this`l1, this`clusters
      ensures Tiled() && Content() == old(Content())
      ensures newLocal == old(counts)[c] && counts == old(counts)[c := newLocal + 1]
      ensures Start(counts, c) == old(Start(counts, c)) && total == old(total) + 1
      ensures IsShift(old(clusters), clusters, GlobalFineId(counts, c, newLocal))
    {
      newLocal := l1[c].numFine;
      var cs := l1[c].centroids + [centroid];
      var l1' := l1[c := L1(l1[c].coarseId, l1[c].globalStart, |cs|, cs)];
      var shifted := ShiftUp(clusters, GlobalFineId(counts, c, newLocal));
      var l1'' := BumpLaterStarts(l1', c, |counts|);
      CentroidAppended(counts, l1, l1', l1'', clusters, shifted, c, cs);
      l1, clusters := l1'', shifted;
      counts := counts[c := counts[c] + 1];
      total := total + 1;
    }

    /** Replace one cluster by two halves: the second goes to a new fine centroid of the same cell. */
    method SplitInTwo(c: nat, local: nat, f: nat, first: seq<Member>, second: seq<Member>, centroid0: Vector,
                      centroid1: Vector)
      returns (newLocal: nat)
      requires Tiled() && c < |counts| && local < counts[c] && f == GlobalFineId(counts, c, local)
      requires MembersAt(clusters, f) == multiset(first) + multiset(second)
      modifies this`counts, this`total, this`l1, this`clusters
      ensures Tiled() && Content() == old(Content())
      ensures total == old(total) + 1 && counts == old(counts)[c := old(counts)[c] + 1]
      ensures local < newLocal < counts[c] && f == GlobalFineId(counts, c, local)
      ensures ClusterAt(clusters, f) == Some(Cluster(f, first))
      ensures ClusterAt(clusters, GlobalFineId(counts, c, newLocal)) ==
        Some(Cluster(GlobalFineId(counts, c, newLocal), second))
    {
      ghost var before := clusters;
      newLocal := AppendFineCentroid(c, centroid1);
      var g := GlobalFineId(counts, c, newLocal);
      ShiftMembersAt(before, clusters, g, f);
      assert ClusterAt(clusters, g) == None;
      l1 := l1[c := L1(l1[c].coarseId, l1[c].globalStart, l1[c].numFine, l1[c].centroids[local := centroid0])];
      HalvesPlaced(counts, clusters, f, first, g, second, c);
      clusters := clusters[f := Cluster(f, first)];
      clusters := clusters[g := Cluster(g, second)];
    }

    /** An oversized cluster of a cell with room for a fine centroid, whose k-means tells members apart. */
    ghost predicate Splittable(f: nat)
      reads this
    {
      && f in clusters && Load(f) > MAX_CLUSTER_MEMBERS && Separable(clusters[f].members, geo)
      && exists c: nat :: InCell(counts, f, c) && CanAddFineCentroidForSplit(c)
    }

    /** Split a cluster in two as often as needed and allowed, at least once if it is splittable.  No cell
        grows past the limit. */
    method TryBinarySplit(start: nat) returns (progress: bool)
      requires Tiled()
      modifies this`counts, this`total, this`l1, this`clusters
      ensures Tiled() && Content() == old(Content())
      ensures progress ==> total > old(total) && old(Load(start)) > MAX_CLUSTER_MEMBERS
      ensures !progress ==> unchanged(this) && !Splittable(start)
      ensures Grown(old(counts), counts) && NonePastLimit(old(counts), counts)
    {
      progress := false;
      var at := CoarseLocalFromGlobal(counts, start);
      if at.None? {
        Outside(counts, start);
        return;
      }
      var f, c, local := start, at.value.0, at.value.1;
      forall d: nat | InCell(counts, start, d) ensures d == c { InCellUnique(counts, start, c, d); }
      for i := 0 to MAX_SPLITS_PER_CLUSTER
        invariant Tiled() && Content() == old(Content())
        invariant c < |counts| && local < counts[c] && f == GlobalFineId(counts, c, local)
        invariant progress <==> i > 0
        invariant progress ==> total > old(total) && old(Load(start)) > MAX_CLUSTER_MEMBERS
        invariant !progress ==>
          f == start && counts == old(counts) && total == old(total) && l1 == old(l1) && clusters == old(clusters)
        invariant CellGrown(old(counts), counts, c)
      {
        if !CanAddFineCentroidForSplit(c) { break; }
        var done, larger := SplitOnce(c, local, f);
        if !done { break; }
        progress := true;
        f, local := GlobalFineId(counts, c, larger), larger;
      }
      OthersSame(old(counts), counts, c);
    }

    /** One round: split the cluster if it is oversized and its members can be told apart, and go on with the
        larger half. */
    method SplitOnce(c: nat, local: nat, f: nat) returns (done: bool, larger: nat)
      requires Tiled() && c < |counts| && local < counts[c] && f == GlobalFineId(counts, c, local)
      modifies this`counts, this`total, this`l1, this`clusters
      ensures Tiled() && Content() == old(Content())
      ensures !done ==> unchanged(this) && !(f in clusters && Load(f) > MAX_CLUSTER_MEMBERS
                                            && Separable(clusters[f].members, geo))
      ensures done ==> old(Load(f)) > MAX_CLUSTER_MEMBERS && larger < counts[c]
      ensures done ==> total == old(total) + 1 && counts == old(counts)[c := old(counts)[c] + 1]
    {
      var members := if f in clusters then clusters[f].members else [];
      if |members| <= MAX_CLUSTER_MEMBERS { return false, local; }
      var subs := geo.kmeans(members, 2);
      if |subs| < 2 { return false, local; }
      var assign := AssignToCentroids(members, subs, geo.score);
      var buckets := Bucketed(members, assign, 2);
      TwoBuckets(buckets);
      SeparatedBuckets(members, subs, geo.score, assign, buckets);
      if buckets[0] == [] || buckets[1] == [] { return false, local; }
      var newLocal := SplitInTwo(c, local, f, buckets[0], buckets[1], subs[0], subs[1]);
      return true, if |buckets[0]| < |buckets[1]| then newLocal else local;
    }

    /** Spread one cluster over the fine centroids its cell already has; other cells are left alone. */
    method TryMultishard(f: nat) returns (placed: bool)
      requires Tiled()
      modifies this`clusters
      ensures Tiled() && Content() == old(Content())
      ensures placed ==> old(Load(f)) > MAX_CLUSTER_MEMBERS
      ensures RightCount(geo) && f < total && old(Load(f)) > MAX_CLUSTER_MEMBERS ==> placed
      ensures !placed ==> forall g: nat :: MembersAt(clusters, g) == old(MembersAt(clusters, g))
      ensures forall g: nat :: !Siblings(counts, f, g) ==> ClusterAt(clusters, g) == old(ClusterAt(clusters, g))
    {
      placed := false;
      var at := CoarseLocalFromGlobal(counts, f);
      if at.None? { return; }
      var c := at.value.0;
      InSpaces(counts, f, c);
      PutBack(clusters, f);
      var members := TakeOut(f, c);
      if |members| <= MAX_CLUSTER_MEMBERS {
        if members != [] { ExtendAt(f, members, c); } else { WithNothing(Content(), c); }
        return;
      }
      placed := Spread(f, c, members);
    }

    /** Put the members of an oversized cluster back, spread over the cell if k-means gives centroids. */
    method Spread(f: nat, c: nat, members: seq<Member>) returns (placed: bool)
      requires Tiled() && InCell(counts, f, c) && members != []
      modifies this`clusters
      ensures Tiled() && Content() == With(old(Content()), c, multiset(members))
      ensures RightCount(geo) ==> placed
      ensures !placed ==> clusters == Extend(old(clusters), f, members)
      ensures SameOutside(counts, c, old(clusters), clusters)
    {
      var numFine := if l1[c].numFine > 1 then l1[c].numFine else 1;
      var k := ShardCount(numFine, |members|);
      var subs := geo.kmeans(members, k);
      if subs == [] {
        InSpaces(counts, f, c);
        ExtendOutside(counts, c, clusters, clusters, f, members);
        ExtendAt(f, members, c);
        return false;
      }
      var assign := AssignToCentroids(members, subs, geo.score);
      var buckets := Bucketed(members, assign, k);
      SomeBucket(buckets, members);
      placed := PlaceBuckets(c, numFine, buckets, With(Content(), c, multiset(members)));
    }

    method PlaceBucket(target: nat, bucket: seq<Member>, ghost c: nat, ghost before: Clusters)
      requires Tiled() && InCell(counts, target, c) && SameOutside(counts, c, before, clusters)
      modifies this`clusters
      ensures Tiled() && Content() == With(old(Content()), c, multiset(bucket))
      ensures SameOutside(counts, c, before, clusters)
    {
      InSpaces(counts, target, c);
      ExtendOutside(counts, c, before, clusters, target, bucket);
      ExtendAt(target, bucket, c);
    }

    method PlaceBuckets(c: nat, numFine: nat, buckets: seq<seq<Member>>, ghost goal: seq<multiset<Member>>)
      returns (placed: bool)
      requires Tiled() && c < |counts| && 1 <= numFine == counts[c]
      requires With(Content(), c, Pooled(buckets)) == goal
      modifies this`clusters
      ensures Tiled() && Content() == goal
      ensures placed <==> SomeFull(buckets, |buckets|)
      ensures !placed ==> clusters == old(clusters)
      ensures SameOutside(counts, c, old(clusters), clusters)
    {
      placed := false;
      assert buckets[0..] == buckets;
      for i := 0 to |buckets|
        invariant Tiled() && Placing(Content(), c, buckets, i, goal)
        invariant placed <==> SomeFull(buckets, i)
        invariant !placed ==> clusters == old(clusters)
        invariant SameOutside(counts, c, old(clusters), clusters)
      {
        ghost var before := Content();
        if buckets[i] != [] {
          ShardInCell(counts, c, i);
          PlaceBucket(GlobalFineId(counts, c, i % numFine), buckets[i], c, old(clusters));
          placed := true;
        }
        PlacingNext(before, Content(), c, buckets, i, goal);
      }
      PlacingDone(Content(), c, buckets, goal);
    }

    /** The sibling with the fewest members. */
    method LeastLoadedSibling(c: nat, source: nat) returns (target: Option<nat>)
      requires Tiled() && c < |counts|
      ensures target.Some? ==> target.value < counts[c] && GlobalFineId(counts, c, target.value) != source
      ensures forall local :: 0 <= local < counts[c] && GlobalFineId(counts, c, local) != source ==>
        target.Some? && Load(GlobalFineId(counts, c, target.value)) <= Load(GlobalFineId(counts, c, local))
    {
      target := None;
      for local := 0 to l1[c].numFine
        invariant target.Some? ==> target.value < counts[c] && GlobalFineId(counts, c, target.value) != source
        invariant forall i :: 0 <= i < local && GlobalFineId(counts, c, i) != source ==>
          target.Some? && Load(GlobalFineId(counts, c, target.value)) <= Load(GlobalFineId(counts, c, i))
      {
        var g := GlobalFineId(counts, c, local);
        if g != source && (target.None? || Load(g) < Load(GlobalFineId(counts, c, target.value))) {
          target := Some(local);
        }
      }
    }

    function Load(f: nat): nat
      reads this
    {
      LoadAt(clusters, f)
    }

    /** Move what exceeds the limit to the least loaded sibling. */
    method RelocateExcess(source: nat) returns (moved: bool)
      requires Tiled()
      modifies this`clusters
      ensures Tiled() && Content() == old(Content())
      ensures moved ==> old(Load(source)) > MAX_CLUSTER_MEMBERS == Load(source)
      ensures !moved ==> clusters == old(clusters)
      ensures !moved && source < total && old(Load(source)) > MAX_CLUSTER_MEMBERS ==>
        forall g: nat :: Siblings(counts, source, g) ==> g == source
    {
      var at := CoarseLocalFromGlobal(counts, source);
      if at.None? || source !in clusters || |clusters[source].members| <= MAX_CLUSTER_MEMBERS { return false; }
      var c, members := at.value.0, clusters[source].members;
      var excess := |members| - MAX_CLUSTER_MEMBERS;
      var target := LeastLoadedSibling(c, source);
      if target.None? {
        OnlySibling(counts, source, c);
        return false;
      }
      var g := GlobalFineId(counts, c, target.value);
      var scored := ByScore(members, l1[c].centroids[target.value], geo.score);
      var cut := Order.Min(excess, |members| - 1);
      ByScoreParts(members, l1[c].centroids[target.value], geo.score, cut);
      InSpaces(counts, source, c);
      InSpaces(counts, g, c);
      MoveBetween(source, scored[cut..], g, scored[..cut], c);
      return true;
    }

    method SplitOversized()
      requires Tiled()
      modifies this`counts, this`total, this`l1, this`clusters
      ensures Tiled() && Content() == old(Content()) && Grown(old(counts), counts)
      ensures (forall f :: f in old(clusters) ==> old(Load(f)) <= MAX_CLUSTER_MEMBERS) ==> unchanged(this)
    {
      for round := 0 to MAX_ROUNDS
        invariant Tiled() && Content() == old(Content()) && Grown(old(counts), counts)
        invariant round > 0 ==> exists f :: f in old(clusters) && old(Load(f)) > MAX_CLUSTER_MEMBERS
        invariant round == 0 ==>
          counts == old(counts) && total == old(total) && l1 == old(l1) && clusters == old(clusters)
      {
        var oversized := set f | f in clusters && |clusters[f].members| > MAX_CLUSTER_MEMBERS;
        if oversized == {} { return; }
        assert round == 0 ==> exists f :: f in oversized && old(Load(f)) > MAX_CLUSTER_MEMBERS;
        var progress := TryEach(oversized, BinarySplit);
        if !progress { progress := TryEach(oversized, Multishard); }
        if !progress { progress := TryEach(oversized, Relocate); }
        if !progress { break; }
      }
    }

    /** One way of shrinking, tried on each cluster in any order. */
    method TryEach(ids: set<nat>, way: Shrink) returns (progress: bool)
      requires Tiled()
      modifies this`counts, this`total, this`l1, this`clusters
      ensures Tiled() && Content() == old(Content()) && Grown(old(counts), counts)
    {
      progress := false;
      var todo := ids;
      while todo != {}
        invariant Tiled() && Content() == old(Content()) && Grown(old(counts), counts)
      {
        var f :| f in todo;
        var done;
        match way {
          case BinarySplit => done := TryBinarySplit(f);
          case Multishard => done := TryMultishard(f);
          case Relocate => done := RelocateExcess(f);
        }
        progress := progress || done;
        todo := todo - {f};
      }
    }

    // ----- Merging, reassigning, refreshing -----

    /** Merge a cluster into the one its first member is nearest to, unless that is itself or has no room. */
    method MergeOne(f: nat) returns (ghost target: nat)
      requires Tiled()
      modifies this`clusters
      ensures Tiled() && Content() == old(Content())
      ensures target == f ==> forall g: nat :: MembersAt(clusters, g) == old(MembersAt(clusters, g))
      ensures target != f ==>
        f in old(clusters) && clusters == Extend(old(clusters) - {f}, target, old(clusters)[f].members)
      ensures target != f ==> old(Load(target)) + old(Load(f)) <= MAX_CLUSTER_MEMBERS
      ensures forall c: nat :: InCell(counts, f, c) && old(Load(f)) > 0 ==>
        target == MergeTarget(counts, l1, old(clusters), geo.score, f, c)
    {
      target := f;
      var at := CoarseLocalFromGlobal(counts, f);
      if at.None? {
        Outside(counts, f);
        return;
      }
      var c := at.value.0;
      forall d: nat | InCell(counts, f, d) ensures d == c { InCellUnique(counts, f, c, d); }
      InSpaces(counts, f, c);
      PutBack(clusters, f);
      var members := TakeOut(f, c);
      if members == [] {
        WithNothing(Content(), c);
        return;
      }
      var g := GlobalFineId(counts, c, NearestOr0(l1[c].centroids, members[0].vec, geo.score));
      if g == f || Load(g) + |members| > MAX_CLUSTER_MEMBERS {
        ExtendAt(f, members, c);
        return;
      }
      target := g;
      InSpaces(counts, g, c);
      ExtendAt(g, members, c);
    }

    /** No merge pushes a cluster over the limit. */
    method MergeTinyClusters()
      requires Tiled()
      modifies this`clusters
      ensures Tiled() && Content() == old(Content())
      ensures forall g: nat :: Load(g) <= MAX_CLUSTER_MEMBERS || Load(g) <= old(Load(g))
    {
      var todo := set f | f in clusters && 0 < |clusters[f].members| <= MERGE_CLUSTER_MAX_MEMBERS;
      while todo != {}
        invariant Tiled() && Content() == old(Content())
        invariant forall g: nat :: Load(g) <= MAX_CLUSTER_MEMBERS || Load(g) <= old(Load(g))
      {
        var f :| f in todo;
        ghost var before := clusters;
        ghost var target := MergeOne(f);
        forall g: nat ensures Load(g) <= MAX_CLUSTER_MEMBERS || Load(g) <= LoadAt(before, g) {
          MergedLoad(before, clusters, f, target, g);
        }
        todo := todo - {f};
      }
    }

    /** The moves out of one cluster. */
    method DriftedOf(f: nat) returns (moves: seq<(Id, nat)>)
      requires Tiled() && f in clusters
      ensures forall move :: move in moves ==> Planned(counts, l1, clusters, geo.score, move)
      ensures Drifts(counts, l1, clusters, geo.score, f, moves)
    {
      moves := [];
      var at := CoarseLocalFromGlobal(counts, f);
      if at.None? {
        Outside(counts, f);
        return;
      }
      var (c, local) := at.value;
      var members := clusters[f].members;
      for i := 0 to |members|
        invariant forall move :: move in moves ==> Planned(counts, l1, clusters, geo.score, move)
        invariant forall k :: 0 <= k < i ==> Moved(counts, l1, clusters, geo.score, f, c, members[k], moves)
      {
        var best := NearestOr0(l1[c].centroids, members[i].vec, geo.score);
        var dest := GlobalFineId(counts, c, best);
        if best != local && Load(dest) < MAX_CLUSTER_MEMBERS {
          assert members[i] in MembersAt(clusters, f);
          assert PlannedFor(counts, l1, clusters, geo.score, (members[i].docId, dest), f, c, members[i]);
          moves := moves + [(members[i].docId, dest)];
        }
      }
      AllDrifted(counts, l1, clusters, geo.score, f, c, moves);
    }

    /** Take the document out of whichever cluster has it, and put it at its destination.  No other
        document moves. */
    method MoveDoc(move: (Id, nat), ghost docs: map<Id, Vector>)
      requires Tiled() && Holds(Sum(Content()), docs) && MoveOk(Spaces(counts), Content(), move)
      modifies this`clusters
      ensures Tiled() && Content() == old(Content())
      ensures OneMoved(old(clusters), clusters, move)
    {
      if !(exists f :: f in clusters && HasDoc(clusters[f].members, move.0)) {
        NoneHasIt(clusters, move.0);
        return;
      }
      var f :| f in clusters && HasDoc(clusters[f].members, move.0);
      var members := clusters[f].members;
      var i := Position(members, move.0);
      RemovedAt(members, i);
      SpacesTotal(counts);
      ghost var c := SameCell(Spaces(counts), clusters, docs, move, f, members[i]);
      ghost var before := clusters;
      MoveBetween(f, members[..i] + members[i + 1..], move.1, [members[i]], c);
      forall g: nat, m: Member ensures FollowsMove(before, clusters, move, g, m) {
        if m in MembersAt(before, g) { MovedOne(Spaces(counts), before, docs, f, i, move.1, g, m); }
      }
    }

    /** Every member ends up at the destination planned for it from the state at the start; the rest stay
        where they are. */
    method ReassignDriftedMembers(ghost docs: map<Id, Vector>)
      requires Tiled() && Holds(Sum(Content()), docs)
      modifies this`clusters
      ensures Tiled() && Content() == old(Content())
      ensures forall f: nat, c: nat, m: Member :: InCell(counts, f, c) && m in MembersAt(old(clusters), f) ==>
        m in MembersAt(clusters, Destination(counts, l1, old(clusters), geo.score, f, c, m))
    {
      ghost var start := clusters;
      var moves := PlanMoves();
      MakeMoves(moves, docs);
      ReassignedAll(counts, l1, start, clusters, geo.score, moves);
    }

    method MakeMoves(moves: seq<(Id, nat)>, ghost docs: map<Id, Vector>)
      requires Tiled() && Holds(Sum(Content()), docs)
      requires forall move :: move in moves ==> Planned(counts, l1, clusters, geo.score, move)
      modifies this`clusters
      ensures Tiled() && Content() == old(Content())
      ensures Reassigned(counts, l1, old(clusters), clusters, geo.score, moves)
    {
      ghost var start := clusters;
      SpacesTotal(counts);
      assert HeldOnce(counts, start, docs);
      for i := 0 to |moves|
        invariant Tiled() && Content() == old(Content())
        invariant Reassigned(counts, l1, start, clusters, geo.score, moves[..i])
      {
        assert moves[i] in moves;
        PlannedIsOk(counts, l1, start, geo.score, moves[i]);
        ghost var before := clusters;
        MoveDoc(moves[i], docs);
        ReassignedMore(counts, l1, start, before, clusters, geo.score, moves, i, docs);
      }
      assert moves[..|moves|] == moves;
    }

    /** All moves, cluster by cluster in any order. */
    method PlanMoves() returns (moves: seq<(Id, nat)>)
      requires Tiled()
      ensures forall move :: move in moves ==> Planned(counts, l1, clusters, geo.score, move)
      ensures forall f: nat :: Drifts(counts, l1, clusters, geo.score, f, moves)
    {
      moves := [];
      var todo := clusters.Keys;
      while todo != {}
        invariant todo <= clusters.Keys
        invariant forall move :: move in moves ==> Planned(counts, l1, clusters, geo.score, move)
        invariant forall f: nat :: f !in todo ==> Drifts(counts, l1, clusters, geo.score, f, moves)
      {
        var f :| f in todo;
        var more := DriftedOf(f);
        moves := moves + more;
        todo := todo - {f};
      }
    }

    /** Each fine centroid becomes the mean of its cluster; one without members stays. */
    method RefreshFineCentroids()
      requires Tiled()
      modifies this`l1
      ensures Tiled()
      ensures forall c, local :: 0 <= c < |counts| && 0 <= local < counts[c] ==>
        l1[c].centroids[local] == old(Refreshed(c, local))
    {
      var todo := l1.Keys;
      while todo != {}
        invariant todo <= l1.Keys && Tiled()
        invariant forall c, local :: 0 <= c < |counts| && 0 <= local < counts[c] ==>
          l1[c].centroids[local] == if c in todo then old(l1)[c].centroids[local] else old(Refreshed(c, local))
      {
        var c :| c in todo;
        RefreshCell(c);
        todo := todo - {c};
      }
    }

    function Refreshed(c: nat, local: nat): Vector
      requires c in l1 && c < |counts| && local < |l1[c].centroids|
      reads this
    {
      var g := GlobalFineId(counts, c, local);
      var means := if g in clusters && clusters[g].members != [] then geo.kmeans(clusters[g].members, 1) else [];
      if means != [] then means[0] else l1[c].centroids[local]
    }

    method RefreshCell(c: nat)
      requires Tiled() && c < |counts|
      modifies this`l1
      ensures Tiled() && forall d :: 0 <= d < |counts| && d != c ==> l1[d] == old(l1)[d]
      ensures forall local :: 0 <= local < counts[c] ==> l1[c].centroids[local] == old(Refreshed(c, local))
    {
      for local := 0 to l1[c].numFine
        invariant Tiled() && forall d :: 0 <= d < |counts| && d != c ==> l1[d] == old(l1)[d]
        invariant forall i :: 0 <= i < counts[c] ==>
          l1[c].centroids[i] == if i < local then old(Refreshed(c, i)) else old(l1)[c].centroids[i]
      {
        var centroids := l1[c].centroids[local := Refreshed(c, local)];
        l1 := l1[c := L1(l1[c].coarseId, l1[c].globalStart, l1[c].numFine, centroids)];
      }
    }

    /** A whole maintenance pass keeps every document exactly where it belongs: the tiling holds and
        each coarse cell keeps its members. */
    method RunIncrementalMaintenance(ghost docs: map<Id, Vector>)
      requires Tiled() && Holds(Sum(Content()), docs)
      modifies this
      ensures Tiled() && Content() == old(Content())
      ensures Grown(old(counts), counts) && (old(NoSpill()) ==> NoSpill())
      ensures old(total) == 0 || coarse == [] ==> unchanged(this)
      ensures old(total) != 0 && coarse != [] ==> passes == Order.Min(old(passes) + 1, U32_MAX)
    {
      if total == 0 || coarse == [] { return; }
      SpillIsLast(counts, clusters);
      passes := Order.Min(passes + 1, U32_MAX);
      PruneEmptyClusters();
      SplitOversized();
      MergeTinyClusters();
      ReassignDriftedMembers(docs);
      RefreshFineCentroids();
      PruneEmptyClusters();
      SplitOversized();
      SpillIsLast(counts, clusters);
    }

    // ----- apply_delta -----

    method RemoveDoc(id: Id, ghost docs: map<Id, Vector>)
      requires Tiled() && Holds(Sum(Content()), docs)
      modifies this`clusters
      ensures Tiled() && Holds(Sum(Content()), docs - {id})
      ensures old(NoSpill()) ==> NoSpill()
    {
      HoldsForgotten(Spaces(counts), clusters, docs, id);
      clusters := Forgotten(clusters, id);
    }

    /** Add a document to the cluster nearest to it.  It lands in the coarse cell nearest to it when that has
        a fine centroid, else in the next cell that has one, else behind all cells. */
    method AssignDocToNearest(id: Id, vec: Vector, ghost docs: map<Id, Vector>)
      requires Tiled() && coarse != [] && Holds(Sum(Content()), docs) && id !in docs
      modifies this`clusters
      ensures Tiled() && Holds(Sum(Content()), docs[id := vec])
      ensures LastUsed(counts) && old(NoSpill()) ==> NoSpill()
      ensures var c := NearestOr0(coarse, vec, geo.score);
        && Content() == With(old(Content()), LandingCell(counts, c), multiset{Member(id, vec)})
        && clusters == Extend(old(clusters), Target(counts, l1, c, vec, geo.score), [Member(id, vec)])
    {
      var c := NearestOr0(coarse, vec, geo.score);
      var local := NearestOr0(l1[c].centroids, vec, geo.score);
      ghost var before := clusters;
      Assigned(counts, l1, before, c, geo.score, Member(id, vec), docs);
      AssignedInside(counts, l1, before, c, geo.score, Member(id, vec), total);
      clusters := Extend(clusters, GlobalFineId(counts, c, local), [Member(id, vec)]);
    }

    method RemoveDocs(ids: seq<Id>, ghost docs: map<Id, Vector>)
      requires Tiled() && Holds(Sum(Content()), docs)
      modifies this`clusters
      ensures Tiled() && Holds(Sum(Content()), VectorsRemoved(docs, ids))
      ensures old(NoSpill()) ==> NoSpill()
    {
      ghost var now := docs;
      for i := 0 to |ids|
        invariant Tiled() && Holds(Sum(Content()), now)
        invariant VectorsRemoved(now, ids[i..]) == VectorsRemoved(docs, ids)
        invariant old(NoSpill()) ==> NoSpill()
      {
        assert ids[i..][1..] == ids[i + 1..];
        RemoveDoc(ids[i], now);
        now := now - {ids[i]};
      }
    }

    method PutDoc(id: Id, vec: Option<Vector>, ghost docs: map<Id, Vector>)
      requires Tiled() && coarse != [] && Holds(Sum(Content()), docs)
      modifies this`clusters
      ensures Tiled()
      ensures Holds(Sum(Content()), if vec.Some? && |vec.value| == dim then docs[id := vec.value] else docs - {id})
      ensures LastUsed(counts) && old(NoSpill()) ==> NoSpill()
    {
      RemoveDoc(id, docs);
      if vec.Some? && |vec.value| == dim {
        PutAgain(docs, id, vec.value);
        AssignDocToNearest(id, vec.value, docs - {id});
      }
    }

    /** After a delta the index holds the old documents minus the deletes, overridden by the upserts
        that have a vector of the right size, each once.  If the last cell is in use it stays so, and all
        documents stay in the cells. */
    method ApplyDelta(upserts: seq<Row>, deletes: seq<Id>, extract: Document -> Option<Vector>,
                      ghost docs: map<Id, Vector>)
      requires Tiled() && Holds(Sum(Content()), docs)
      modifies this
      ensures Tiled()
      ensures dim == 0 || coarse == [] ==> Content() == old(Content())
      ensures dim != 0 && coarse != [] ==> Holds(Sum(Content()), VectorsAfter(docs, upserts, deletes, dim, extract))
      ensures Grown(old(counts), counts)
      ensures LastUsed(counts) && old(NoSpill()) ==> NoSpill()
    {
      if dim == 0 || coarse == [] { return; }
      RemoveDocs(deletes, docs);
      ghost var now := VectorsRemoved(docs, deletes);
      for i := 0 to |upserts|
        invariant Tiled() && counts == old(counts) && Holds(Sum(Content()), now)
        invariant VectorsPut(now, upserts[i..], dim, extract) == VectorsAfter(docs, upserts, deletes, dim, extract)
        invariant LastUsed(counts) && old(NoSpill()) ==> NoSpill()
      {
        assert upserts[i..][1..] == upserts[i + 1..];
        var (id, doc) := upserts[i];
        var v := extract(doc);
        PutDoc(id, v, now);
        now := if v.Some? && |v.value| == dim then now[id := v.value] else now - {id};
      }
      RunIncrementalMaintenance(now);
    }
  }

  /** The last cell has a fine centroid, so that no document can miss the cells. */
  ghost predicate LastUsed(counts: seq<nat>) {
    counts != [] && counts[|counts| - 1] >= 1
  }

  /** Cells gain fine centroids, but never lose or get a first one. */
  ghost predicate Grown(before: seq<nat>, after: seq<nat>) {
    && |before| == |after|
    && forall c :: 0 <= c < |before| ==> before[c] <= after[c] && (before[c] == 0 ==> after[c] == 0)
  }

  /** A cell that has gained fine centroids is within the limit. */
  ghost predicate NonePastLimit(before: seq<nat>, after: seq<nat>) {
    && |before| == |after|
    && forall d :: 0 <= d < |before| ==>
         after[d] == before[d] || before[d] < after[d] <= Sizing.MAX_FINE_PER_COARSE
  }

  /** Only cell `c`, which was not empty, has gained fine centroids, within the limit. */
  ghost predicate CellGrown(before: seq<nat>, after: seq<nat>, c: nat) {
    && c < |before| == |after| && before[c] >= 1 && after == before[c := after[c]]
    && (after[c] == before[c] || before[c] < after[c] <= Sizing.MAX_FINE_PER_COARSE)
  }

  lemma OthersSame(before: seq<nat>, after: seq<nat>, c: nat)
    requires CellGrown(before, after, c)
    ensures Grown(before, after) && NonePastLimit(before, after)
  {
    forall d | 0 <= d < |before| && d != c ensures after[d] == before[d] {
      assert after[d] == before[c := after[c]][d];
    }
  }

  lemma PutAgain(docs: map<Id, Vector>, id: Id, vec: Vector)
    ensures (docs - {id})[id := vec] == docs[id := vec]
  {
  }

  lemma SpillIsLast(counts: seq<nat>, cl: Clusters)
    ensures LoadAt(cl, Total(counts)) == 0 <==> Cells(Spaces(counts), cl)[|counts|] == multiset{}
  {
    SpacesHold(counts, cl);
    assert LoadAt(cl, Total(counts)) == |MembersAt(cl, Total(counts))|;
  }

  lemma HalvesPlaced(counts: seq<nat>, cl: Clusters, f: nat, first: seq<Member>, g: nat, second: seq<Member>, c: nat)
    requires ClustersTiled(Total(counts) + 1, cl) && InCell(counts, f, c) && InCell(counts, g, c)
    requires f != g && g !in cl && MembersAt(cl, f) == multiset(first) + multiset(second)
    ensures var out := cl[f := Cluster(f, first)][g := Cluster(g, second)];
      ClustersTiled(Total(counts) + 1, out) && Cells(Spaces(counts), out) == Cells(Spaces(counts), cl)
  {
    InSpaces(counts, f, c);
    InSpaces(counts, g, c);
    CellsMove(Spaces(counts), cl, f, first, g, second, c);
    StartMonotone(counts, c + 1, |counts|);
    assert cl[f := Cluster(f, first)][g := Cluster(g, second)] == Extend(cl[f := Cluster(f, first)], g, second);
  }

  /** Two fine ids of the same coarse cell. */
  ghost predicate Siblings(counts: seq<nat>, f: nat, g: nat) {
    exists c: nat :: InCell(counts, f, c) && InCell(counts, g, c)
  }

  ghost predicate SameOutside(counts: seq<nat>, c: nat, before: Clusters, after: Clusters) {
    forall g: nat {:trigger ClusterAt(after, g)} :: !InCell(counts, g, c) ==>
      ClusterAt(after, g) == ClusterAt(before, g)
  }

  lemma ExtendOutside(counts: seq<nat>, c: nat, before: Clusters, after: Clusters, f: nat, ms: seq<Member>)
    requires SameOutside(counts, c, before, after) && InCell(counts, f, c)
    ensures SameOutside(counts, c, before, Extend(after, f, ms))
  {
    forall g: nat | !InCell(counts, g, c) ensures ClusterAt(Extend(after, f, ms), g) == ClusterAt(before, g) {
      assert ClusterAt(after, g) == ClusterAt(before, g);
    }
  }

  lemma MergedLoad(before: Clusters, after: Clusters, f: nat, target: nat, g: nat)
    requires target == f ==> forall h: nat :: MembersAt(after, h) == MembersAt(before, h)
    requires target != f ==> f in before && after == Extend(before - {f}, target, before[f].members)
    requires target != f ==> LoadAt(before, target) + LoadAt(before, f) <= MAX_CLUSTER_MEMBERS
    ensures LoadAt(after, g) <= MAX_CLUSTER_MEMBERS || LoadAt(after, g) <= LoadAt(before, g)
  {
    if target == f {
      assert LoadAt(after, g) == |MembersAt(after, g)| && LoadAt(before, g) == |MembersAt(before, g)|;
    }
  }

  /** Taking a cluster out and putting its members back changes no slot. */
  lemma PutBack(cl: Clusters, f: nat)
    ensures f in cl ==> forall g: nat :: MembersAt(Extend(cl - {f}, f, cl[f].members), g) == MembersAt(cl, g)
    ensures LoadAt(cl, f) == 0 ==> forall g: nat :: MembersAt(cl - {f}, g) == MembersAt(cl, g)
  {
  }

  lemma SomeBucket(buckets: seq<seq<Member>>, members: seq<Member>)
    requires Pooled(buckets) == multiset(members) && members != []
    ensures SomeFull(buckets, |buckets|)
  {
    assert members[0] in multiset(members);
    if forall i :: 0 <= i < |buckets| ==> buckets[i] == [] { AllEmptyPooled(buckets); }
  }

  lemma {:induction false} AllEmptyPooled(buckets: seq<seq<Member>>)
    requires forall i :: 0 <= i < |buckets| ==> buckets[i] == []
    ensures Pooled(buckets) == multiset{}
  {
    if buckets != [] { AllEmptyPooled(buckets[1..]); }
  }

  lemma ShardInCell(counts: seq<nat>, c: nat, i: nat)
    requires c < |counts| && counts[c] >= 1
    ensures InCell(counts, GlobalFineId(counts, c, i % counts[c]), c)
  {
  }

  datatype Shrink = BinarySplit | Multishard | Relocate

  predicate SomeFull(buckets: seq<seq<Member>>, n: nat)
    requires n <= |buckets|
  {
    exists i :: 0 <= i < n && buckets[i] != []
  }

  /** With the buckets from `i` on still to be placed, the cells come to `goal`. */
  ghost predicate Placing(cells: seq<multiset<Member>>, c: nat, buckets: seq<seq<Member>>, i: nat,
                          goal: seq<multiset<Member>>)
    requires i <= |buckets|
  {
    c < |cells| && With(cells, c, Pooled(buckets[i..])) == goal
  }

  lemma PlacingNext(cells: seq<multiset<Member>>, cells': seq<multiset<Member>>, c: nat, buckets: seq<seq<Member>>,
                    i: nat, goal: seq<multiset<Member>>)
    requires i < |buckets| && Placing(cells, c, buckets, i, goal)
    requires cells' == if buckets[i] == [] then cells else With(cells, c, multiset(buckets[i]))
    ensures Placing(cells', c, buckets, i + 1, goal)
    ensures SomeFull(buckets, i + 1) <==> SomeFull(buckets, i) || buckets[i] != []
  {
    assert buckets[i..][1..] == buckets[i + 1..];
    var rest := Pooled(buckets[i + 1..]);
    assert Pooled(buckets[i..]) == if buckets[i] == [] then rest else multiset(buckets[i]) + rest;
    WithTwice(cells, c, multiset(buckets[i]), Pooled(buckets[i + 1..]));
  }

  lemma PlacingDone(cells: seq<multiset<Member>>, c: nat, buckets: seq<seq<Member>>, goal: seq<multiset<Member>>)
    requires Placing(cells, c, buckets, |buckets|, goal)
    ensures cells == goal
  {
    assert buckets[|buckets|..] == [];
    WithNothing(cells, c);
  }

  lemma TwoBuckets(buckets: seq<seq<Member>>)
    requires |buckets| == 2
    ensures Pooled(buckets) == multiset(buckets[0]) + multiset(buckets[1])
  {
    assert buckets[1..][1..] == [];
    assert Pooled(buckets[1..]) == multiset(buckets[1]) + Pooled([]);
  }

  lemma HoldsAdded(cells: seq<multiset<Member>>, d: nat, docs: map<Id, Vector>, m: Member)
    requires d < |cells| && Holds(Sum(cells), docs) && m.docId !in docs
    ensures multiset([m]) == multiset{m} && Holds(Sum(With(cells, d, multiset{m})), docs[m.docId := m.vec])
  {
    SumWith(cells, d, multiset{m});
    HoldsMore(Sum(cells), docs, m);
  }

  /** K-means gives two centroids, and some member is nearest to the first while another is not. */
  ghost predicate Separable(members: seq<Member>, geo: Geometry) {
    var subs := geo.kmeans(members, 2);
    && OneVectorPerId(members) && |subs| >= 2
    && (exists m :: m in members && IsNearest(m.vec, subs, geo.score, 0))
    && (exists m :: m in members && !IsNearest(m.vec, subs, geo.score, 0))
  }

  lemma InItsBucket(members: seq<Member>, assign: map<Id, nat>, buckets: seq<seq<Member>>, m: Member)
    requires |buckets| == 2 && Pooled(buckets) == multiset(members) && m in members
    requires forall b, x :: 0 <= b < 2 && x in buckets[b] ==> b == BucketOf(assign, x.docId, 2)
    ensures m in buckets[BucketOf(assign, m.docId, 2)]
  {
    TwoBuckets(buckets);
    assert m in multiset(members);
    assert m in multiset(buckets[0]) || m in multiset(buckets[1]);
  }

  lemma SeparatedBuckets(members: seq<Member>, subs: seq<Vector>, score: (Vector, Vector) -> real, assign: map<Id, nat>,
                         buckets: seq<seq<Member>>)
    requires |subs| >= 2 && |buckets| == 2 && Pooled(buckets) == multiset(members)
    requires forall m :: m in members ==> m.docId in assign
    requires forall id :: id in assign ==> AssignedNearest(members, subs, score, assign, id)
    requires forall b, x :: 0 <= b < 2 && x in buckets[b] ==> b == BucketOf(assign, x.docId, 2)
    ensures OneVectorPerId(members) && (exists m :: m in members && IsNearest(m.vec, subs, score, 0)) ==>
      buckets[0] != []
    ensures OneVectorPerId(members) && (exists m :: m in members && !IsNearest(m.vec, subs, score, 0)) ==>
      buckets[1] != []
  {
    if OneVectorPerId(members) {
      if m :| m in members && IsNearest(m.vec, subs, score, 0) {
        OwnNearest(members, subs, score, assign, m);
        InItsBucket(members, assign, buckets, m);
      }
      if m :| m in members && !IsNearest(m.vec, subs, score, 0) {
        OwnNearest(members, subs, score, assign, m);
        InItsBucket(members, assign, buckets, m);
      }
    }
  }

  lemma OnlySibling(counts: seq<nat>, f: nat, c: nat)
    requires InCell(counts, f, c) && forall local :: 0 <= local < counts[c] ==> GlobalFineId(counts, c, local) == f
    ensures forall g: nat :: Siblings(counts, f, g) ==> g == f
  {
    forall g: nat | Siblings(counts, f, g) ensures g == f {
      var d: nat :| InCell(counts, f, d) && InCell(counts, g, d);
      InCellUnique(counts, f, c, d);
      assert GlobalFineId(counts, c, g - Start(counts, c)) == g;
    }
  }

  lemma Outside(counts: seq<nat>, f: nat)
    requires f >= Total(counts)
    ensures forall c: nat :: !InCell(counts, f, c)
  {
    forall c: nat | c < |counts| ensures !InCell(counts, f, c) { StartMonotone(counts, c + 1, |counts|); }
  }

  /** Where a tiny cluster goes: to the fine centroid its first member is nearest to, if there is room. */
  function MergeTarget(counts: seq<nat>, l1: map<nat, L1>, cl: Clusters, score: (Vector, Vector) -> real, f: nat,
                       c: nat): nat
    requires c < |counts|
  {
    if c !in l1 || LoadAt(cl, f) == 0 then f
    else
      var g := GlobalFineId(counts, c, NearestOr0(l1[c].centroids, cl[f].members[0].vec, score));
      if LoadAt(cl, g) + LoadAt(cl, f) <= MAX_CLUSTER_MEMBERS then g else f
  }

  /** How many shards to make of an oversized cluster. */
  function ShardCount(numFine: nat, members: nat): (k: nat)
    requires numFine >= 1 && members >= 1
    ensures 1 <= k <= numFine && k <= members
  {
    var wanted := Order.Min(numFine, (members + MAX_CLUSTER_MEMBERS - 1) / MAX_CLUSTER_MEMBERS);
    Order.Min(Order.Min(if wanted > 2 then wanted else 2, numFine), members)
  }

  // ----- Where a document lands -----

  /** The cell a document meant for cell `c` lands in: the first one from there on with a fine centroid,
      or behind all cells. */
  function LandingCell(counts: seq<nat>, c: nat): (d: nat)
    requires c <= |counts|
    ensures c <= d <= |counts| && (d < |counts| ==> counts[d] >= 1)
    decreases |counts| - c
  {
    if c == |counts| || counts[c] >= 1 then c else LandingCell(counts, c + 1)
  }

  /** The first id of an empty cell is the first id of the next. */
  lemma {:induction false} LandsThere(counts: seq<nat>, c: nat, local: nat)
    requires c <= |counts| && (if c < |counts| && counts[c] >= 1 then local < counts[c] else local == 0)
    ensures InCell(Spaces(counts), GlobalFineId(counts, c, local), LandingCell(counts, c))
    decreases |counts| - c
  {
    if c == |counts| {
      SpacesTotal(counts);
    } else if counts[c] >= 1 {
      InSpaces(counts, GlobalFineId(counts, c, local), c);
    } else {
      LandsThere(counts, c + 1, 0);
    }
  }

  lemma AssignedHolds(spaces: seq<nat>, cl: Clusters, f: nat, d: nat, m: Member, docs: map<Id, Vector>)
    requires InCell(spaces, f, d) && ClustersTiled(Total(spaces), cl)
    requires Holds(Sum(Cells(spaces, cl)), docs) && m.docId !in docs
    ensures ClustersTiled(Total(spaces), Extend(cl, f, [m]))
    ensures Cells(spaces, Extend(cl, f, [m])) == With(Cells(spaces, cl), d, multiset{m})
    ensures Holds(Sum(Cells(spaces, Extend(cl, f, [m]))), docs[m.docId := m.vec])
  {
    HoldsAdded(Cells(spaces, cl), d, docs, m);
    CellsExtend(spaces, cl, f, [m], d);
    StartMonotone(spaces, d + 1, |spaces|);
  }

  /** The fine centroid of cell `c` nearest to a vector, or the first id of an empty cell. */
  function Target(counts: seq<nat>, l1: map<nat, L1>, c: nat, vec: Vector, score: (Vector, Vector) -> real): nat
    requires c < |counts| && c in l1
  {
    GlobalFineId(counts, c, NearestOr0(l1[c].centroids, vec, score))
  }

  /** What assigning a document meant for cell `c` does. */
  lemma Assigned(counts: seq<nat>, l1: map<nat, L1>, cl: Clusters, c: nat, score: (Vector, Vector) -> real, m: Member,
                 docs: map<Id, Vector>)
    requires c < |counts| && L1Tiled(counts, l1) && ClustersTiled(Total(counts) + 1, cl)
    requires Holds(Sum(Cells(Spaces(counts), cl)), docs) && m.docId !in docs
    ensures var after := Extend(cl, Target(counts, l1, c, m.vec, score), [m]);
      && ClustersTiled(Total(counts) + 1, after) && Holds(Sum(Cells(Spaces(counts), after)), docs[m.docId := m.vec])
      && Cells(Spaces(counts), after) == With(Cells(Spaces(counts), cl), LandingCell(counts, c), multiset{m})
  {
    var local := NearestOr0(l1[c].centroids, m.vec, score);
    assert SegmentIs(l1[c], c, Start(counts, c), counts[c]);
    SpacesTotal(counts);
    LandsThere(counts, c, local);
    AssignedHolds(Spaces(counts), cl, GlobalFineId(counts, c, local), LandingCell(counts, c), m, docs);
  }

  lemma AssignedInside(counts: seq<nat>, l1: map<nat, L1>, cl: Clusters, c: nat, score: (Vector, Vector) -> real,
                       m: Member, total: nat)
    requires c < |counts| && L1Tiled(counts, l1) && total == Total(counts)
    ensures var after := Extend(cl, Target(counts, l1, c, m.vec, score), [m]);
      LastUsed(counts) ==> LoadAt(after, total) == LoadAt(cl, total)
  {
    assert SegmentIs(l1[c], c, Start(counts, c), counts[c]);
    if LastUsed(counts) { BelowTotal(counts, c, NearestOr0(l1[c].centroids, m.vec, score)); }
  }

  lemma BelowTotal(counts: seq<nat>, c: nat, local: nat)
    requires c < |counts| && LastUsed(counts)
    requires if counts[c] >= 1 then local < counts[c] else local == 0
    ensures GlobalFineId(counts, c, local) < Total(counts)
  {
    if counts[c] >= 1 { StartMonotone(counts, c + 1, |counts|); } else { StartMonotone(counts, c, |counts| - 1); }
  }

  /** A document lands in the cell it was meant for exactly if that has a fine centroid, and behind all
      cells exactly if neither that nor any later one has. */
  lemma {:induction false} LandsExactly(counts: seq<nat>, c: nat)
    requires c < |counts|
    ensures LandingCell(counts, c) == c <==> counts[c] >= 1
    ensures LandingCell(counts, c) == |counts| <==> forall d :: c <= d < |counts| ==> counts[d] == 0
    decreases |counts| - c
  {
    if counts[c] == 0 && c + 1 < |counts| { LandsExactly(counts, c + 1); }
  }

  /** Two cells, the second without a fine centroid: a document meant for it is at the total, and in
      neither cell. */
  lemma SpilledDocument(vec: Vector)
    ensures var counts, before := [1, 0], map[0 := Cluster(0, [])];
      var after := Extend(before, GlobalFineId(counts, 1, 0), [Member("a", vec)]);
      && LandingCell(counts, 1) == 2 && MembersAt(after, Total(counts)) == multiset{Member("a", vec)}
      && Cells(counts, after) == Cells(counts, before)
  {
    var counts, before := [1, 0], map[0 := Cluster(0, [])];
    assert LandingCell(counts, 1) == LandingCell(counts, 2);
    assert GlobalFineId(counts, 1, 0) == Total(counts) == 1;
    CellsBelow(counts, before, Extend(before, 1, [Member("a", vec)]));
  }
}
