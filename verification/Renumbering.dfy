/** Making room for a new fine centroid: later clusters and cells are renumbered
    (`append_fine_centroid` of `src/index/vector.rs`).
 */
module Renumbering {
  import opened Documents
  import opened Centroids
  import opened Tiling

  function ClusterAt(cl: Clusters, f: nat): Option<Cluster> {
    if f in cl then Some(cl[f]) else None
  }

  /** What sits at `f` once the clusters from `pivot` on have moved up by one. */
  function ShiftedAt(cl: Clusters, pivot: nat, f: nat): Option<Cluster> {
    if f < pivot then ClusterAt(cl, f)
    else if f > pivot && f - 1 in cl then Some(Cluster(f, cl[f - 1].members))
    else None
  }

  ghost predicate IsShift(cl: Clusters, out: Clusters, pivot: nat) {
    forall f: nat {:trigger ClusterAt(out, f)} :: ClusterAt(out, f) == ShiftedAt(cl, pivot, f)
  }

  method ShiftUp(cl: Clusters, pivot: nat) returns (out: Clusters)
    ensures IsShift(cl, out, pivot)
  {
    var rest, moved: Clusters := cl, map[];
    var todo := set f | f in cl && f >= pivot;
    while todo != {}
      invariant forall f :: f in todo ==> f in cl && f >= pivot
      invariant forall f: nat {:trigger ClusterAt(rest, f)} ::
        ClusterAt(rest, f) == if f < pivot || f in todo then ClusterAt(cl, f) else None
      invariant forall f: nat {:trigger ClusterAt(moved, f)} ::
        ClusterAt(moved, f) == if f > pivot && f - 1 !in todo then ShiftedAt(cl, pivot, f) else None
    {
      var from :| from in todo;
      ghost var rest0, moved0 := rest, moved;
      rest := rest - {from};
      moved := moved[from + 1 := Cluster(from + 1, cl[from].members)];
      todo := todo - {from};
      assert forall f: nat {:trigger ClusterAt(rest, f)} ::
        ClusterAt(rest, f) == if f == from then None else ClusterAt(rest0, f);
      assert forall f: nat {:trigger ClusterAt(moved, f)} :: f != from + 1 ==>
        ClusterAt(moved, f) == ClusterAt(moved0, f);
    }
    out := rest + moved;
    assert forall f: nat {:trigger ClusterAt(out, f)} ::
      ClusterAt(out, f) == if ClusterAt(moved, f).Some? then ClusterAt(moved, f) else ClusterAt(rest, f);
  }

  lemma ShiftMembersAt(cl: Clusters, out: Clusters, pivot: nat, f: nat)
    requires IsShift(cl, out, pivot)
    ensures f < pivot ==> MembersAt(out, f) == MembersAt(cl, f)
    ensures f == pivot ==> MembersAt(out, f) == multiset{}
    ensures f > pivot ==> MembersAt(out, f) == MembersAt(cl, f - 1)
  {
    assert ClusterAt(out, f) == ShiftedAt(cl, pivot, f);
  }

  lemma ShiftMembers(cl: Clusters, out: Clusters, pivot: nat)
    requires IsShift(cl, out, pivot)
    ensures MovedUp(cl, out, pivot)
  {
    forall f | 0 <= f < pivot ensures MembersAt(out, f) == MembersAt(cl, f) { ShiftMembersAt(cl, out, pivot, f); }
    ShiftMembersAt(cl, out, pivot, pivot);
    forall f | f > pivot ensures MembersAt(out, f) == MembersAt(cl, f - 1) { ShiftMembersAt(cl, out, pivot, f); }
  }

  lemma ShiftTiled(cl: Clusters, out: Clusters, pivot: nat, total: nat)
    requires IsShift(cl, out, pivot) && ClustersTiled(total, cl) && pivot <= total
    ensures ClustersTiled(total + 1, out)
  {
    forall f | f in out ensures out[f].centroidId == f && f < total + 1 {
      assert ClusterAt(out, f) == ShiftedAt(cl, pivot, f);
    }
  }

  /** The cells after `c` start one later. */
  method BumpLaterStarts(l1: map<nat, L1>, c: nat, n: nat) returns (out: map<nat, L1>)
    requires c < n
    ensures out.Keys == l1.Keys
    ensures forall d :: d in l1 ==> out[d] == if c < d < n then Bumped(l1[d]) else l1[d]
  {
    out := l1;
    for d := c + 1 to n
      invariant out.Keys == l1.Keys
      invariant forall e :: e in l1 ==> out[e] == if c < e < d then Bumped(l1[e]) else l1[e]
    {
      if d in out { out := out[d := Bumped(out[d])]; }
    }
  }

  function Bumped(seg: L1): L1 {
    L1(seg.coarseId, seg.globalStart + 1, seg.numFine, seg.centroids)
  }

  /** One more centroid in cell `c`, and later cells one further on. */
  lemma BumpedTiled(was: seq<nat>, c: nat, l1: map<nat, L1>, out: map<nat, L1>)
    requires c < |was| && L1Ok(was, l1) && out.Keys == l1.Keys
    requires forall d {:trigger l1[d]} :: 0 <= d < |was| ==>
      SegmentIs(l1[d], d, Start(was, d), if d == c then was[c] + 1 else was[d])
    requires forall d {:trigger out[d]} :: d in l1 ==> out[d] == if c < d < |was| then Bumped(l1[d]) else l1[d]
    ensures L1Tiled(was[c := was[c] + 1], out)
  {
    var grown := was[c := was[c] + 1];
    forall d | 0 <= d < |was| ensures SegmentIs(out[d], d, Start(grown, d), grown[d]) {
      StartGrown(was, c, d);
    }
  }

  lemma GrownStarts(counts: seq<nat>, c: nat)
    requires c < |counts|
    ensures var grown := counts[c := counts[c] + 1];
      Start(grown, c) == Start(counts, c) && Total(grown) == Total(counts) + 1 && Start(counts, c + 1) <= Total(counts)
  {
    StartGrown(counts, c, c);
    StartGrown(counts, c, |counts|);
    StartMonotone(counts, c + 1, |counts|);
  }

  lemma SpacesMovedUp(counts: seq<nat>, cl: Clusters, shifted: Clusters, c: nat)
    requires c < |counts| && IsShift(cl, shifted, Start(counts, c + 1))
    ensures Cells(Spaces(counts[c := counts[c] + 1]), shifted) == Cells(Spaces(counts), cl)
  {
    var spaces, grown := Spaces(counts), Spaces(counts[c := counts[c] + 1]);
    SpacesGrown(counts, c);
    ShiftedCells(spaces, grown, cl, shifted, c);
  }

  lemma ShiftedCells(counts: seq<nat>, grown: seq<nat>, cl: Clusters, shifted: Clusters, c: nat)
    requires c < |counts| && grown == counts[c := counts[c] + 1] && IsShift(cl, shifted, Start(counts, c + 1))
    ensures Cells(grown, shifted) == Cells(counts, cl)
  {
    ShiftMembers(cl, shifted, Start(counts, c + 1));
    CellsMovedUp(counts, cl, shifted, c);
  }

  lemma SpacesGrown(counts: seq<nat>, c: nat)
    requires c < |counts|
    ensures Spaces(counts)[c := Spaces(counts)[c] + 1] == Spaces(counts[c := counts[c] + 1])
    ensures Start(Spaces(counts), c + 1) == Start(counts, c + 1)
  {
    StartPrefix(counts, 1, c + 1);
  }

  /** What appending a fine centroid to cell `c` makes of a tiled index. */
  lemma CentroidAppended(counts: seq<nat>, l1: map<nat, L1>, l1': map<nat, L1>, l1'': map<nat, L1>, cl: Clusters,
                         shifted: Clusters, c: nat, cs: seq<Vector>)
    requires c < |counts| && L1Tiled(counts, l1) && ClustersTiled(Total(counts) + 1, cl)
    requires |cs| == counts[c] + 1 && l1' == l1[c := L1(l1[c].coarseId, l1[c].globalStart, |cs|, cs)]
    requires l1''.Keys == l1'.Keys && forall d {:trigger l1''[d]} :: d in l1' ==>
      l1''[d] == if c < d < |counts| then Bumped(l1'[d]) else l1'[d]
    requires IsShift(cl, shifted, Start(counts, c + 1))
    ensures var grown := counts[c := counts[c] + 1];
      && L1Tiled(grown, l1'') && ClustersTiled(Total(grown) + 1, shifted)
      && Cells(Spaces(grown), shifted) == Cells(Spaces(counts), cl)
      && Total(grown) == Total(counts) + 1 && Start(grown, c) == Start(counts, c)
  {
    GrownStarts(counts, c);
    ShiftTiled(cl, shifted, Start(counts, c + 1), Total(counts) + 1);
    SpacesMovedUp(counts, cl, shifted, c);
    AppendedSegments(counts, l1, l1', c, cs);
    BumpedTiled(counts, c, l1', l1'');
  }

  lemma AppendedSegments(counts: seq<nat>, l1: map<nat, L1>, l1': map<nat, L1>, c: nat, cs: seq<Vector>)
    requires c < |counts| && L1Tiled(counts, l1)
    requires |cs| == counts[c] + 1 && l1' == l1[c := L1(l1[c].coarseId, l1[c].globalStart, |cs|, cs)]
    ensures L1Ok(counts, l1')
    ensures forall d {:trigger l1'[d]} :: 0 <= d < |counts| ==>
      SegmentIs(l1'[d], d, Start(counts, d), if d == c then counts[c] + 1 else counts[d])
  {
    forall d | 0 <= d < |counts|
      ensures SegmentIs(l1'[d], d, Start(counts, d), if d == c then counts[c] + 1 else counts[d])
    {
      assert SegmentIs(l1[d], d, Start(counts, d), counts[d]);
    }
  }
}
