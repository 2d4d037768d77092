/** Keeping a query's probe plan within the cluster cap (`clamp_probe_widths_to_cluster_cap`,
    `clamp_probe_plan_for_query` of `src/index/vector.rs`).

    Widths are 32-bit and the cap is 64-bit; conversions to 32 bits drop the upper half.
 */
module ProbeWidths {
  import opened Documents
  import opened Centroids
  import opened Tiling
  import opened Probe
  import Order

  const TWO_32: nat := 0x1_0000_0000
  const TWO_64: nat := 0x1_0000_0000_0000_0000

  function AsU32(n: nat): nat {
    n % TWO_32
  }

  /** `cluster_get_upper_bound_for_probes`; it fits in 64 bits. */
  function Bound(coarse: nat, fine: nat): nat {
    AtLeastOne(coarse) + AtLeastOne(coarse) * AtLeastOne(fine) + 4
  }

  lemma BoundFits(coarse: nat, fine: nat)
    requires coarse < TWO_32 && fine < TWO_32
    ensures Bound(coarse, fine) < TWO_64
  {
    var c, f := AtLeastOne(coarse), AtLeastOne(fine);
    TimesMonotone(c, f, TWO_32 - 1);
    TimesMonotone(TWO_32 - 1, c, TWO_32 - 1);
  }

  lemma BoundFloored(coarse: nat, fine: nat)
    ensures Bound(AtLeastOne(coarse), AtLeastOne(fine)) == Bound(coarse, fine) >= 6
  {
    TimesMonotone(AtLeastOne(coarse), 1, AtLeastOne(fine));
  }

  lemma {:induction false} TimesMonotone(a: nat, b: nat, b': nat)
    requires b <= b'
    ensures a * b <= a * b'
  {
    if a > 0 { TimesMonotone(a - 1, b, b'); }
  }

  /** The coarse width the clamp aims at, before it is cut to 32 bits. */
  function CoarseCap(cap: nat): nat {
    AtLeastOne(Order.SaturatingSub(cap, 4) / 2)
  }

  /** What a clamp should give: widths of at least 1, none above its input, no more clusters than the
      cap, and nothing changed that was within it. */
  predicate Clamped(coarse: nat, fine: nat, cap: nat, c: nat, f: nat) {
    && 1 <= c <= AtLeastOne(coarse) && 1 <= f <= AtLeastOne(fine)
    && Bound(c, f) <= cap
    && (Bound(coarse, fine) <= cap ==> c == AtLeastOne(coarse) && f == AtLeastOne(fine))
  }

  lemma DivideRoom(room: nat, c: nat, f: nat)
    requires c >= 1 && f <= room / c
    ensures c * f <= room
  {
    TimesMonotone(c, f, room / c);
  }

  /** One step wider than a quotient does not fit. */
  lemma QuotientIsLargest(room: nat, c: nat)
    requires c >= 1
    ensures c * (room / c + 1) > room
  {
  }

  lemma CutCap(cap: nat)
    requires cap >= 6
    ensures AsU32(CoarseCap(cap)) <= CoarseCap(cap) == (cap - 4) / 2
    ensures cap < TWO_32 ==> AsU32(CoarseCap(cap)) == CoarseCap(cap)
  {
  }

  /** `clamp_probe_widths_to_cluster_cap`.  For every cap of at least 6 the plan returned is within the
      cap, and it is a proper clamp exactly when the coarse cap does not vanish in its conversion to 32
      bits.  Below that, the fine width is the largest that fits. */
  method ClampProbeWidths(coarse: nat, fine: nat, cap: nat) returns (c: nat, f: nat)
    requires coarse < TWO_32 && fine < TWO_32
    ensures cap >= 6 ==> Bound(c, f) <= cap
    ensures cap >= 6 ==>
      (Clamped(coarse, fine, cap, c, f) <==> Bound(coarse, fine) <= cap || AsU32(CoarseCap(cap)) != 0)
    ensures cap >= 6 && Bound(coarse, fine) > cap && cap < TWO_32 ==> (
      c == Order.Min(AtLeastOne(coarse), (cap - 4) / 2) && (f == AtLeastOne(fine) || Bound(c, f + 1) > cap))
    ensures cap >= 6 && Bound(coarse, fine) > cap && AsU32(CoarseCap(cap)) == 0 ==> c == 0
    ensures cap < 6 ==> c == 1 && f == 1
  {
    var f0 := AtLeastOne(fine);
    c := AtLeastOne(coarse);
    BoundFloored(coarse, fine);
    if Bound(c, f0) <= cap { return c, f0; }
    c := Order.Min(c, AsU32(CoarseCap(cap)));
    f := FineWidth(c, f0, cap);
    if cap >= 6 { OverClamped(coarse, fine, cap, c, f); }
    BoundFloored(c, f);
    if Bound(c, f) <= cap { return; }
    c, f := ShrinkCoarse(c, cap);
  }

  /** The fine width for a coarse width: what is left of the cap, shared out. */
  function FineWidth(c: nat, f0: nat, cap: nat): nat {
    var room := Order.SaturatingSub(Order.SaturatingSub(cap, 4), c);
    AtLeastOne(Order.Min(f0, if c > 0 then AsU32(AtLeastOne(room / c)) else 1))
  }

  /** The last resort, for caps below 6. */
  method ShrinkCoarse(start: nat, cap: nat) returns (c: nat, f: nat)
    requires cap < 6
    ensures c == 1 && f == 1
  {
    c, f := start, 1;
    while c > 1 && Bound(c, f) > cap
      invariant f == 1 && (c >= 1 || c == start)
    {
      c := c - 1;
      var room := Order.SaturatingSub(Order.SaturatingSub(cap, 4), c);
      SmallQuotient(room, c);
      f := AsU32(AtLeastOne(room / c));
    }
    c, f := AtLeastOne(c), AtLeastOne(f);
  }

  lemma SmallQuotient(room: nat, c: nat)
    requires c >= 1 && room <= c
    ensures room / c <= 1
  {
  }

  lemma FineFits(cap: nat, c: nat, f: nat, f0: nat)
    requires cap >= 6 && c <= (cap - 4) / 2 && f0 >= 1 && f == FineWidth(c, f0, cap)
    ensures Bound(c, f) <= cap && 1 <= f <= f0
    ensures cap < TWO_32 && c > 0 ==> f == f0 || Bound(c, f + 1) > cap
  {
    if c > 0 {
      var room := cap - 4 - c;
      AtLeastOnce(room, c);
      assert f <= room / c;
      DivideRoom(room, c, f);
      if cap < TWO_32 {
        QuotientIsLargest(room, c);
        QuotientAtMost(room, c);
      }
    }
  }

  lemma OverClamped(coarse: nat, fine: nat, cap: nat, c: nat, f: nat)
    requires cap >= 6 && Bound(coarse, fine) > cap
    requires c == Order.Min(AtLeastOne(coarse), AsU32(CoarseCap(cap))) && f == FineWidth(c, AtLeastOne(fine), cap)
    ensures Bound(c, f) <= cap
    ensures Clamped(coarse, fine, cap, c, f) <==> AsU32(CoarseCap(cap)) != 0
    ensures cap < TWO_32 ==>
      c == Order.Min(AtLeastOne(coarse), (cap - 4) / 2) && (f == AtLeastOne(fine) || Bound(c, f + 1) > cap)
  {
    CutCap(cap);
    FineFits(cap, c, f, AtLeastOne(fine));
  }

  lemma AtLeastOnce(a: nat, b: nat)
    requires b >= 1 && a >= b
    ensures a / b >= 1
  {
  }

  lemma QuotientAtMost(a: nat, b: nat)
    requires b >= 1
    ensures a / b <= a
  {
  }

  /** The conversion does lose the cap: with a cap of 2^33 + 4 the clamp returns a coarse width of 0. */
  lemma ClampVanishes()
    ensures var cap := 2 * TWO_32 + 4;
      Bound(TWO_32 - 1, 2) > cap && AsU32(CoarseCap(cap)) == 0
  {
  }

  // ----- The work of a clamped descent -----

  /** The effective widths of a plan stay within the cap. */
  predicate WithinCap(l0: L0, cap: nat) {
    Bound(l0.probeCoarse, l0.probeFine) <= cap
  }

  /** `clamp_probe_plan_for_query`. */
  method ClampPlan(l0: L0, cap: nat) returns (out: L0)
    requires l0.probeCoarse < TWO_32 && l0.probeFine < TWO_32 && cap >= 6
    ensures out == l0.(probeCoarse := out.probeCoarse, probeFine := out.probeFine)
    ensures l0.numFineTotal <= SMALL_INDEX ==> out == l0
    ensures l0.numFineTotal > SMALL_INDEX ==> WithinCap(out, cap)
    ensures WithinCap(l0, cap) ==> out == l0
  {
    if l0.numFineTotal <= SMALL_INDEX { return l0; }
    var coarse, fine := AtLeastOne(l0.probeCoarse), AtLeastOne(l0.probeFine);
    var c, f := ClampProbeWidths(coarse, fine, cap);
    if c != coarse || f != fine {
      out := l0.(probeCoarse := c, probeFine := f);
    } else {
      out := l0;
    }
  }

  ghost predicate CellsOnly(ix: Parts, coarse: seq<nat>, query: Vector, score: (Vector, Vector) -> real,
                            ids: set<nat>)
  {
    forall f :: f in ids ==> exists c: nat :: c < ix.l0.NumCoarse() && c in coarse && f in FromL1(ix, c, query, score)
  }

  /** Each probed cell gives at most the fine width. */
  lemma FromL1Bound(ix: Parts, c: nat, query: Vector, score: (Vector, Vector) -> real)
    requires TiledParts(ix) && c < ix.l0.NumCoarse() && ix.l0.numFineTotal > SMALL_INDEX
    ensures |FromL1(ix, c, query, score)| <= AtLeastOne(ix.l0.probeFine)
  {
    TopMPositions(ix.l1[c].centroids, query, score, ProbeFineCount(ix.l0, ix.l1[c].numFine));
  }

  lemma ListBound(ids: set<nat>, list: seq<nat>)
    requires forall f :: f in ids ==> f in list
    ensures |ids| <= |list|
  {
    Order.SubsetSize(ids, Order.Items(list));
    ItemsBound(list);
  }

  lemma {:induction false} ItemsBound(list: seq<nat>)
    ensures |Order.Items(list)| <= |list|
  {
    if list != [] {
      ItemsBound(list[1..]);
      assert Order.Items(list) == Order.Items(list[1..]) + {list[0]};
    }
  }

  lemma Without(ids: set<nat>, list: seq<nat>) returns (others: set<nat>)
    ensures forall f :: f in others ==> f in ids && f !in list
    ensures |ids| <= |others| + |list|
  {
    var mine := set f | f in ids && f in list;
    others := ids - mine;
    ListBound(mine, list);
    assert ids == mine + others;
  }

  lemma OneMore(n: nat, k: nat)
    ensures (n + 1) * k == n * k + k
  {
  }

  ghost predicate InSome(f: nat, lists: seq<seq<nat>>) {
    exists i :: 0 <= i < |lists| && f in lists[i]
  }

  lemma {:induction false} UnionBound(lists: seq<seq<nat>>, w: nat, ids: set<nat>)
    requires forall i :: 0 <= i < |lists| ==> |lists[i]| <= w
    requires forall f :: f in ids ==> InSome(f, lists)
    ensures |ids| <= |lists| * w
  {
    if lists == [] {
      assert ids == {};
    } else {
      var n := |lists| - 1;
      var others := Without(ids, lists[n]);
      forall f | f in others ensures InSome(f, lists[..n]) {
        assert InSome(f, lists);
      }
      UnionBound(lists[..n], w, others);
      OneMore(n, w);
    }
  }

  lemma DescentBound(ix: Parts, coarse: seq<nat>, query: Vector, score: (Vector, Vector) -> real, ids: set<nat>)
    requires TiledParts(ix) && ix.l0.numFineTotal > SMALL_INDEX && InRange(ix.l0, coarse)
    requires CellsOnly(ix, coarse, query, score, ids)
    ensures |ids| <= |coarse| * AtLeastOne(ix.l0.probeFine)
  {
    assert forall i :: 0 <= i < |coarse| ==> coarse[i] in coarse;
    var lists := seq(|coarse|, i requires 0 <= i < |coarse| => FromL1(ix, coarse[i], query, score));
    forall i | 0 <= i < |lists| ensures |lists[i]| <= AtLeastOne(ix.l0.probeFine) {
      FromL1Bound(ix, coarse[i], query, score);
    }
    forall f | f in ids ensures InSome(f, lists) {
      var c: nat :| c < ix.l0.NumCoarse() && c in coarse && f in FromL1(ix, c, query, score);
      var i :| 0 <= i < |coarse| && coarse[i] == c;
      assert f in lists[i];
    }
    UnionBound(lists, AtLeastOne(ix.l0.probeFine), ids);
  }

  lemma ItemsOfIncreasing(ids: seq<nat>)
    requires Increasing(ids)
    ensures |Order.Items(ids)| == |ids|
  {
    Order.DistinctCount(ids);
  }

  lemma SmallProbesBounded(ix: Parts, query: Vector, score: (Vector, Vector) -> real, probed: set<nat>)
    requires TiledParts(ix) && ix.routing.None? && ix.l0.numFineTotal <= SMALL_INDEX && |query| == ix.l0.dimensions
    requires forall f :: f in probed ==> Probed(ix, query, score, f)
    ensures |probed| <= SMALL_INDEX
  {
    var all: seq<nat> := seq(ix.l0.numFineTotal, i requires 0 <= i => i);
    forall f | f in probed ensures f in all {
      SmallIndexProbedWhole(ix, query, score, f);
      assert all[f] == f;
    }
    ListBound(probed, all);
  }

  lemma LargeProbesBounded(ix: Parts, cap: nat, query: Vector, score: (Vector, Vector) -> real, probed: set<nat>)
    requires TiledParts(ix) && ix.routing.None? && ix.l0.numFineTotal > SMALL_INDEX && WithinCap(ix.l0, cap)
    requires forall f :: f in probed ==> Probed(ix, query, score, f)
    ensures |probed| <= cap
  {
    var coarse := NearestCoarse(ix.l0, query, score);
    NearestCoarseInRange(ix.l0, query, score);
    TopMPositions(ix.l0.centroids, query, score, ProbeCoarseCount(ix.l0));
    forall f | f in probed
      ensures exists c: nat :: c < ix.l0.NumCoarse() && c in coarse && f in FromL1(ix, c, query, score)
    {
      var c: nat :| c < ix.l0.NumCoarse() && c in coarse && f in ProbeCell(ix, c, query, score);
    }
    DescentBound(ix, coarse, query, score, probed);
    TimesMonotone(AtLeastOne(ix.l0.probeFine), |coarse|, AtLeastOne(ix.l0.probeCoarse));
  }

  /** A clamped descent without routing probes at most `max(32, cap)` clusters, however many fine
      centroids there are. */
  lemma ProbesBounded(ix: Parts, cap: nat, query: Vector, score: (Vector, Vector) -> real, ids: seq<nat>)
    requires TiledParts(ix) && ix.routing.None? && (ix.l0.numFineTotal > SMALL_INDEX ==> WithinCap(ix.l0, cap))
    requires Increasing(ids) && forall f :: f in ids <==> Probed(ix, query, score, f)
    ensures |ids| <= SMALL_INDEX || |ids| <= cap
  {
    ItemsOfIncreasing(ids);
    if |query| == ix.l0.dimensions {
      if ix.l0.numFineTotal <= SMALL_INDEX {
        SmallProbesBounded(ix, query, score, Order.Items(ids));
      } else {
        LargeProbesBounded(ix, cap, query, score, Order.Items(ids));
      }
    } else {
      assert Order.Items(ids) == {};
    }
  }
}
