/** Global fine ids and the members of coarse cells (`src/index/vector.rs`).

    Coarse cell `c` owns the fine ids from `Start(counts, c)` up to `Start(counts, c + 1)`.  What a
    cell holds is a multiset of members, whatever clusters they sit in.
 */
module Tiling {
  import opened Documents
  import opened Centroids

  datatype Cluster = Cluster(centroidId: nat, members: seq<Member>)

  /** The fine centroids of one coarse cell. */
  datatype L1 = L1(coarseId: nat, globalStart: nat, numFine: nat, centroids: seq<Vector>)

  type Clusters = map<nat, Cluster>

  // ----- Numbering -----

  /** `global_id_start`. */
  function Start(counts: seq<nat>, c: nat): nat
    requires c <= |counts|
  {
    if c == 0 then 0 else Start(counts, c - 1) + counts[c - 1]
  }

  function Total(counts: seq<nat>): nat {
    Start(counts, |counts|)
  }

  function GlobalFineId(counts: seq<nat>, c: nat, local: nat): nat
    requires c <= |counts|
  {
    Start(counts, c) + local
  }

  predicate InCell(counts: seq<nat>, f: nat, c: nat) {
    c < |counts| && Start(counts, c) <= f < Start(counts, c + 1)
  }

  lemma {:induction false} StartMonotone(counts: seq<nat>, a: nat, b: nat)
    requires a <= b <= |counts|
    ensures Start(counts, a) <= Start(counts, b)
  {
    if a < b { StartMonotone(counts, a, b - 1); }
  }

  lemma InCellUnique(counts: seq<nat>, f: nat, c: nat, d: nat)
    requires InCell(counts, f, c) && InCell(counts, f, d)
    ensures c == d
  {
    if c < d { StartMonotone(counts, c + 1, d); }
    if d < c { StartMonotone(counts, d + 1, c); }
  }

  lemma {:induction false} Located(counts: seq<nat>, f: nat, n: nat) returns (c: nat)
    requires n <= |counts| && f < Start(counts, n)
    ensures InCell(counts, f, c)
  {
    if f < Start(counts, n - 1) { c := Located(counts, f, n - 1); } else { c := n - 1; }
  }

  /** `coarse_local_from_global`, the inverse of `global_fine_id`. */
  method CoarseLocalFromGlobal(counts: seq<nat>, f: nat) returns (r: Option<(nat, nat)>)
    ensures r.Some? <==> f < Total(counts)
    ensures r.Some? ==> InCell(counts, f, r.value.0) && GlobalFineId(counts, r.value.0, r.value.1) == f
  {
    var offset := 0;
    for c := 0 to |counts|
      invariant offset == Start(counts, c) <= f
    {
      if f < offset + counts[c] {
        StartMonotone(counts, c + 1, |counts|);
        return Some((c, f - offset));
      }
      offset := offset + counts[c];
    }
    return None;
  }

  /** Cell and local number come back from the global id, for every local number the cell has. */
  lemma GlobalIdInjective(counts: seq<nat>, c: nat, i: nat, d: nat, j: nat)
    requires c < |counts| && i < counts[c] && d < |counts| && j < counts[d]
    requires GlobalFineId(counts, c, i) == GlobalFineId(counts, d, j)
    ensures c == d && i == j
  {
    InCellUnique(counts, GlobalFineId(counts, c, i), c, d);
  }

  lemma {:induction false} StartPrefix(counts: seq<nat>, n: nat, d: nat)
    requires d <= |counts|
    ensures Start(counts + [n], d) == Start(counts, d)
  {
    if d > 0 { StartPrefix(counts, n, d - 1); }
  }

  /** The coarse cells and, behind them, the one id that no cell owns but documents can end up at. */
  function Spaces(counts: seq<nat>): seq<nat> {
    counts + [1]
  }

  lemma InSpaces(counts: seq<nat>, f: nat, c: nat)
    requires InCell(counts, f, c)
    ensures InCell(Spaces(counts), f, c)
  {
    StartPrefix(counts, 1, c);
    StartPrefix(counts, 1, c + 1);
  }

  lemma SpacesTotal(counts: seq<nat>)
    ensures Total(Spaces(counts)) == Total(counts) + 1
    ensures Start(Spaces(counts), |counts|) == Total(counts) && InCell(Spaces(counts), Total(counts), |counts|)
  {
    StartPrefix(counts, 1, |counts|);
  }

  // ----- Members by cell -----

  function MembersAt(cl: Clusters, f: nat): multiset<Member> {
    if f in cl then multiset(cl[f].members) else multiset{}
  }

  function Sum(cells: seq<multiset<Member>>): multiset<Member> {
    if cells == [] then multiset{} else Sum(cells[..|cells| - 1]) + cells[|cells| - 1]
  }

  function With(cells: seq<multiset<Member>>, c: nat, more: multiset<Member>): seq<multiset<Member>>
    requires c < |cells|
  {
    cells[c := cells[c] + more]
  }

  lemma {:induction false} SumWith(cells: seq<multiset<Member>>, c: nat, more: multiset<Member>)
    requires c < |cells|
    ensures Sum(With(cells, c, more)) == Sum(cells) + more
  {
    var last := |cells| - 1;
    if c == last {
      assert With(cells, c, more)[..last] == cells[..last];
    } else {
      SumWith(cells[..last], c, more);
      assert With(cells, c, more)[..last] == With(cells[..last], c, more);
    }
  }

  lemma {:induction false} SumAtLeast(cells: seq<multiset<Member>>, c: nat, m: Member)
    requires c < |cells|
    ensures Sum(cells)[m] >= cells[c][m]
  {
    var last := |cells| - 1;
    if c < last { SumAtLeast(cells[..last], c, m); }
  }

  lemma {:induction false} SumAtLeastBoth(cells: seq<multiset<Member>>, c: nat, d: nat, m: Member)
    requires c < d < |cells|
    ensures Sum(cells)[m] >= cells[c][m] + cells[d][m]
  {
    var last := |cells| - 1;
    if d < last { SumAtLeastBoth(cells[..last], c, d, m); } else { SumAtLeast(cells[..last], c, m); }
  }

  lemma SumMore(cells: seq<multiset<Member>>, last: multiset<Member>)
    ensures Sum(cells + [last]) == Sum(cells) + last
  {
    assert (cells + [last])[..|cells|] == cells;
  }

  lemma {:induction false} SumForgotten(cells: seq<multiset<Member>>, cells': seq<multiset<Member>>, id: Id, m: Member)
    requires |cells| == |cells'|
    requires forall c :: 0 <= c < |cells| ==> cells'[c][m] == if m.docId == id then 0 else cells[c][m]
    ensures Sum(cells')[m] == if m.docId == id then 0 else Sum(cells)[m]
  {
    if cells != [] { SumForgotten(cells[..|cells| - 1], cells'[..|cells| - 1], id, m); }
  }

  /** The slots numbered `lo` to `hi - 1`, and their members together. */
  function Slots(cl: Clusters, lo: nat, hi: nat): seq<multiset<Member>> {
    if lo >= hi then [] else seq(hi - lo, i requires 0 <= i < hi - lo => MembersAt(cl, lo + i))
  }

  function Bag(cl: Clusters, lo: nat, hi: nat): multiset<Member> {
    Sum(Slots(cl, lo, hi))
  }

  function CellBag(counts: seq<nat>, cl: Clusters, c: nat): multiset<Member>
    requires c < |counts|
  {
    Bag(cl, Start(counts, c), Start(counts, c + 1))
  }

  /** What each coarse cell holds. */
  function Cells(counts: seq<nat>, cl: Clusters): seq<multiset<Member>> {
    seq(|counts|, c requires 0 <= c < |counts| => CellBag(counts, cl, c))
  }

  lemma BagSame(cl: Clusters, cl': Clusters, lo: nat, hi: nat)
    requires forall f :: lo <= f < hi ==> MembersAt(cl', f) == MembersAt(cl, f)
    ensures Bag(cl', lo, hi) == Bag(cl, lo, hi)
  {
    assert Slots(cl', lo, hi) == Slots(cl, lo, hi);
  }

  lemma BagMore(cl: Clusters, cl': Clusters, lo: nat, hi: nat, f: nat, more: multiset<Member>)
    requires lo <= f < hi && MembersAt(cl', f) == MembersAt(cl, f) + more
    requires forall g :: lo <= g < hi && g != f ==> MembersAt(cl', g) == MembersAt(cl, g)
    ensures Bag(cl', lo, hi) == Bag(cl, lo, hi) + more
  {
    SlotsMore(cl, cl', lo, hi, f, more);
    SumWith(Slots(cl, lo, hi), f - lo, more);
  }

  lemma SlotsMore(cl: Clusters, cl': Clusters, lo: nat, hi: nat, f: nat, more: multiset<Member>)
    requires lo <= f < hi && MembersAt(cl', f) == MembersAt(cl, f) + more
    requires forall g :: lo <= g < hi && g != f ==> MembersAt(cl', g) == MembersAt(cl, g)
    ensures Slots(cl', lo, hi) == With(Slots(cl, lo, hi), f - lo, more)
  {
    var before, after := Slots(cl, lo, hi), Slots(cl', lo, hi);
    assert after[f - lo] == before[f - lo] + more;
    forall i | 0 <= i < hi - lo && i != f - lo ensures after[i] == before[i] {
      SlotSame(cl, cl', lo, hi, i);
    }
  }

  lemma SlotSame(cl: Clusters, cl': Clusters, lo: nat, hi: nat, i: nat)
    requires i < hi - lo && MembersAt(cl', lo + i) == MembersAt(cl, lo + i)
    ensures Slots(cl', lo, hi)[i] == Slots(cl, lo, hi)[i]
  {
  }

  lemma CellMore(counts: seq<nat>, cl: Clusters, cl': Clusters, f: nat, c: nat, more: multiset<Member>, d: nat)
    requires InCell(counts, f, c) && MembersAt(cl', f) == MembersAt(cl, f) + more && d < |counts|
    requires forall g: nat :: g != f ==> MembersAt(cl', g) == MembersAt(cl, g)
    ensures CellBag(counts, cl', d) == if d == c then CellBag(counts, cl, d) + more else CellBag(counts, cl, d)
  {
    if d == c {
      BagMore(cl, cl', Start(counts, d), Start(counts, d + 1), f, more);
    } else {
      if InCell(counts, f, d) { InCellUnique(counts, f, c, d); }
      BagSame(cl, cl', Start(counts, d), Start(counts, d + 1));
    }
  }

  /** One slot gains members: its cell gains them, and no other cell changes. */
  lemma CellsMore(counts: seq<nat>, cl: Clusters, cl': Clusters, f: nat, c: nat, more: multiset<Member>)
    requires InCell(counts, f, c) && MembersAt(cl', f) == MembersAt(cl, f) + more
    requires forall g: nat :: g != f ==> MembersAt(cl', g) == MembersAt(cl, g)
    ensures Cells(counts, cl') == With(Cells(counts, cl), c, more)
  {
    forall d | 0 <= d < |counts| ensures Cells(counts, cl')[d] == With(Cells(counts, cl), c, more)[d] {
      CellMore(counts, cl, cl', f, c, more, d);
    }
  }

  lemma CellsSame(counts: seq<nat>, cl: Clusters, cl': Clusters)
    requires forall f: nat :: MembersAt(cl', f) == MembersAt(cl, f)
    ensures Cells(counts, cl') == Cells(counts, cl)
  {
    forall d | 0 <= d < |counts| ensures Cells(counts, cl')[d] == Cells(counts, cl)[d] {
      CellSame(counts, cl, cl', d);
    }
  }

  lemma CellSame(counts: seq<nat>, cl: Clusters, cl': Clusters, d: nat)
    requires d < |counts| && forall f: nat :: MembersAt(cl', f) == MembersAt(cl, f)
    ensures CellBag(counts, cl', d) == CellBag(counts, cl, d)
  {
    BagSame(cl, cl', Start(counts, d), Start(counts, d + 1));
  }

  lemma CellsBelow(counts: seq<nat>, cl: Clusters, cl': Clusters)
    requires forall f: nat :: f < Total(counts) ==> MembersAt(cl', f) == MembersAt(cl, f)
    ensures Cells(counts, cl') == Cells(counts, cl)
  {
    forall d | 0 <= d < |counts| ensures Cells(counts, cl')[d] == Cells(counts, cl)[d] {
      CellBelow(counts, cl, cl', d);
    }
  }

  lemma CellBelow(counts: seq<nat>, cl: Clusters, cl': Clusters, d: nat)
    requires d < |counts| && forall f: nat :: f < Total(counts) ==> MembersAt(cl', f) == MembersAt(cl, f)
    ensures CellBag(counts, cl', d) == CellBag(counts, cl, d)
  {
    StartMonotone(counts, d + 1, |counts|);
    BagSame(cl, cl', Start(counts, d), Start(counts, d + 1));
  }

  lemma SpaceSame(counts: seq<nat>, cl: Clusters, d: nat)
    requires d < |counts|
    ensures CellBag(Spaces(counts), cl, d) == CellBag(counts, cl, d)
  {
    StartPrefix(counts, 1, d);
    StartPrefix(counts, 1, d + 1);
  }

  lemma SpaceBehind(counts: seq<nat>, cl: Clusters)
    ensures CellBag(Spaces(counts), cl, |counts|) == MembersAt(cl, Total(counts))
  {
    SpacesTotal(counts);
    assert Slots(cl, Total(counts), Total(counts) + 1) == [] + [MembersAt(cl, Total(counts))];
    SumMore([], MembersAt(cl, Total(counts)));
  }

  /** What the index holds is what the cells hold and what is behind them. */
  lemma SpacesHold(counts: seq<nat>, cl: Clusters)
    ensures Cells(Spaces(counts), cl) == Cells(counts, cl) + [MembersAt(cl, Total(counts))]
    ensures Sum(Cells(Spaces(counts), cl)) == Sum(Cells(counts, cl)) + MembersAt(cl, Total(counts))
  {
    forall d | 0 <= d < |counts| ensures Cells(Spaces(counts), cl)[d] == Cells(counts, cl)[d] {
      SpaceSame(counts, cl, d);
    }
    SpaceBehind(counts, cl);
    SumMore(Cells(counts, cl), MembersAt(cl, Total(counts)));
  }

  /** Entry-or-insert, then extend. */
  function Extend(cl: Clusters, f: nat, ms: seq<Member>): Clusters {
    cl[f := if f in cl then Cluster(cl[f].centroidId, cl[f].members + ms) else Cluster(f, ms)]
  }

  lemma CellsExtend(counts: seq<nat>, cl: Clusters, f: nat, ms: seq<Member>, c: nat)
    requires InCell(counts, f, c)
    ensures Cells(counts, Extend(cl, f, ms)) == With(Cells(counts, cl), c, multiset(ms))
  {
    CellsMore(counts, cl, Extend(cl, f, ms), f, c, multiset(ms));
  }

  lemma CellsRemove(counts: seq<nat>, cl: Clusters, f: nat, c: nat)
    requires InCell(counts, f, c)
    ensures Cells(counts, cl) == With(Cells(counts, cl - {f}), c, MembersAt(cl, f))
  {
    CellsMore(counts, cl - {f}, cl, f, c, MembersAt(cl, f));
  }

  /** Replacing the members of one slot. */
  lemma CellsPut(counts: seq<nat>, cl: Clusters, f: nat, ms: seq<Member>, c: nat)
    requires InCell(counts, f, c)
    ensures Cells(counts, cl[f := Cluster(f, ms)]) == With(Cells(counts, cl - {f}), c, multiset(ms))
  {
    CellsMore(counts, cl - {f}, cl[f := Cluster(f, ms)], f, c, multiset(ms));
  }

  lemma WithTwice(cells: seq<multiset<Member>>, c: nat, a: multiset<Member>, b: multiset<Member>)
    requires c < |cells|
    ensures With(With(cells, c, a), c, b) == With(cells, c, a + b)
  {
    assert cells[c] + a + b == cells[c] + (a + b);
  }

  /** Members taken out of one slot and added to another of the same cell. */
  lemma CellsMove(counts: seq<nat>, cl: Clusters, f: nat, keep: seq<Member>, g: nat, moved: seq<Member>, c: nat)
    requires InCell(counts, f, c) && InCell(counts, g, c)
    requires MembersAt(cl, f) == multiset(keep) + multiset(moved)
    ensures Cells(counts, Extend(cl[f := Cluster(f, keep)], g, moved)) == Cells(counts, cl)
  {
    CellsPut(counts, cl, f, keep, c);
    CellsExtend(counts, cl[f := Cluster(f, keep)], g, moved, c);
    WithTwice(Cells(counts, cl - {f}), c, multiset(keep), multiset(moved));
    CellsRemove(counts, cl, f, c);
  }

  // ----- Making room for a new fine centroid -----

  /** Clusters from `pivot` on have moved up by one. */
  ghost predicate MovedUp(cl: Clusters, moved: Clusters, pivot: nat) {
    && (forall f {:trigger MembersAt(moved, f)} :: 0 <= f < pivot ==> MembersAt(moved, f) == MembersAt(cl, f))
    && MembersAt(moved, pivot) == multiset{}
    && (forall f {:trigger MembersAt(moved, f)} :: f > pivot ==> MembersAt(moved, f) == MembersAt(cl, f - 1))
  }

  lemma BagMovedUp(cl: Clusters, moved: Clusters, pivot: nat, lo: nat, hi: nat)
    requires MovedUp(cl, moved, pivot) && pivot <= lo
    ensures Bag(moved, lo + 1, hi + 1) == Bag(cl, lo, hi)
  {
    assert Slots(moved, lo + 1, hi + 1) == Slots(cl, lo, hi);
  }

  lemma {:induction false} StartGrown(counts: seq<nat>, c: nat, d: nat)
    requires c < |counts| && d <= |counts|
    ensures Start(counts[c := counts[c] + 1], d) == Start(counts, d) + if d > c then 1 else 0
  {
    if d > 0 { StartGrown(counts, c, d - 1); }
  }

  /** The first id of each cell after cell `c` has grown by one. */
  lemma StartsGrown(counts: seq<nat>, grown: seq<nat>, c: nat, d: nat)
    requires c < |counts| && grown == counts[c := counts[c] + 1] && d < |counts|
    ensures d > c ==> Start(grown, d) == Start(counts, d) + 1 && Start(grown, d + 1) == Start(counts, d + 1) + 1
    ensures d > c ==> Start(counts, c + 1) <= Start(counts, d)
    ensures d < c ==> Start(grown, d) == Start(counts, d)
    ensures d < c ==> Start(grown, d + 1) == Start(counts, d + 1) <= Start(counts, c + 1)
    ensures d == c ==> Start(grown, d) == Start(counts, d) && Start(grown, d + 1) == Start(counts, d + 1) + 1
  {
    StartGrown(counts, c, d);
    StartGrown(counts, c, d + 1);
    if d > c { StartMonotone(counts, c + 1, d); } else { StartMonotone(counts, d + 1, c + 1); }
  }

  lemma BagBelow(cl: Clusters, moved: Clusters, pivot: nat, lo: nat, hi: nat)
    requires MovedUp(cl, moved, pivot) && hi <= pivot
    ensures Bag(moved, lo, hi) == Bag(cl, lo, hi)
  {
    BagSame(cl, moved, lo, hi);
  }

  lemma BagUpToPivot(cl: Clusters, moved: Clusters, pivot: nat, lo: nat)
    requires MovedUp(cl, moved, pivot) && lo <= pivot
    ensures Bag(moved, lo, pivot + 1) == Bag(cl, lo, pivot)
  {
    assert Slots(moved, lo, pivot + 1) == Slots(cl, lo, pivot) + [multiset{}];
    SumMore(Slots(cl, lo, pivot), multiset{});
  }

  /** Where a range of ids is after the move: above the pivot, below it, or ending at it. */
  predicate RangeMoved(pivot: nat, lo: nat, hi: nat, lo': nat, hi': nat) {
    || (pivot <= lo && lo' == lo + 1 && hi' == hi + 1)
    || (hi <= pivot && lo' == lo && hi' == hi)
    || (lo <= hi == pivot && lo' == lo && hi' == hi + 1)
  }

  lemma BagMovedRange(cl: Clusters, moved: Clusters, pivot: nat, lo: nat, hi: nat, lo': nat, hi': nat)
    requires MovedUp(cl, moved, pivot) && RangeMoved(pivot, lo, hi, lo', hi')
    ensures Bag(moved, lo', hi') == Bag(cl, lo, hi)
  {
    if pivot <= lo && lo' == lo + 1 {
      BagMovedUp(cl, moved, pivot, lo, hi);
    } else if hi' == hi {
      BagBelow(cl, moved, pivot, lo, hi);
    } else {
      BagUpToPivot(cl, moved, pivot, lo);
    }
  }

  lemma CellMoved(counts: seq<nat>, grown: seq<nat>, cl: Clusters, moved: Clusters, c: nat, d: nat)
    requires c < |counts| && grown == counts[c := counts[c] + 1] && d < |counts|
    requires MovedUp(cl, moved, Start(counts, c + 1))
    ensures CellBag(grown, moved, d) == CellBag(counts, cl, d)
  {
    CellRangeMoved(counts, grown, c, d);
    BagMovedRange(cl, moved, Start(counts, c + 1), Start(counts, d), Start(counts, d + 1), Start(grown, d),
                  Start(grown, d + 1));
  }

  lemma CellRangeMoved(counts: seq<nat>, grown: seq<nat>, c: nat, d: nat)
    requires c < |counts| && grown == counts[c := counts[c] + 1] && d < |counts|
    ensures RangeMoved(Start(counts, c + 1), Start(counts, d), Start(counts, d + 1), Start(grown, d),
                       Start(grown, d + 1))
  {
    StartsGrown(counts, grown, c, d);
    StartMonotone(counts, d, d + 1);
  }

  /** Growing cell `c` by one and moving later clusters up loses and overwrites nothing. */
  lemma CellsMovedUp(counts: seq<nat>, cl: Clusters, moved: Clusters, c: nat)
    requires c < |counts| && MovedUp(cl, moved, Start(counts, c + 1))
    ensures Cells(counts[c := counts[c] + 1], moved) == Cells(counts, cl)
  {
    var grown := counts[c := counts[c] + 1];
    forall d | 0 <= d < |counts| ensures Cells(grown, moved)[d] == Cells(counts, cl)[d] {
      CellMoved(counts, grown, cl, moved, c, d);
    }
  }

  // ----- The invariant -----

  ghost predicate L1Ok(counts: seq<nat>, l1: map<nat, L1>) {
    forall c :: c in l1 <==> 0 <= c < |counts|
  }

  predicate SegmentIs(seg: L1, c: nat, start: nat, n: nat) {
    seg.coarseId == c && seg.globalStart == start && seg.numFine == |seg.centroids| == n
  }

  ghost predicate L1Tiled(counts: seq<nat>, l1: map<nat, L1>) {
    && L1Ok(counts, l1)
    && forall c {:trigger l1[c]} :: 0 <= c < |counts| ==> SegmentIs(l1[c], c, Start(counts, c), counts[c])
  }

  ghost predicate ClustersTiled(total: nat, cl: Clusters) {
    forall f :: f in cl ==> cl[f].centroidId == f && f < total
  }

  // ----- Contents -----

  /** The members are exactly these documents, each once. */
  ghost predicate Holds(all: multiset<Member>, docs: map<Id, Vector>) {
    forall m: Member :: all[m] == if m.docId in docs && docs[m.docId] == m.vec then 1 else 0
  }

  /** With each document held once, an id is found in one cell only. */
  lemma OneCell(cells: seq<multiset<Member>>, docs: map<Id, Vector>, c: nat, m: Member, d: nat, m': Member)
    requires Holds(Sum(cells), docs)
    requires c < |cells| && d < |cells| && m in cells[c] && m' in cells[d] && m.docId == m'.docId
    ensures c == d && m == m'
  {
    SumAtLeast(cells, c, m);
    SumAtLeast(cells, d, m');
    if c < d { SumAtLeastBoth(cells, c, d, m); }
    if d < c { SumAtLeastBoth(cells, d, c, m); }
  }

  /** A member of a cluster is a member of its cell. */
  lemma BagHas(cl: Clusters, lo: nat, hi: nat, f: nat, m: Member)
    requires lo <= f < hi && m in MembersAt(cl, f)
    ensures m in Bag(cl, lo, hi)
  {
    SumAtLeast(Slots(cl, lo, hi), f - lo, m);
  }

  lemma BagBoth(cl: Clusters, lo: nat, hi: nat, f: nat, g: nat, m: Member)
    requires lo <= f < g < hi
    ensures Bag(cl, lo, hi)[m] >= MembersAt(cl, f)[m] + MembersAt(cl, g)[m]
  {
    SumAtLeastBoth(Slots(cl, lo, hi), f - lo, g - lo, m);
  }

  /** The cell of a member. */
  lemma CellOfMember(counts: seq<nat>, cl: Clusters, f: nat, m: Member) returns (c: nat)
    requires ClustersTiled(Total(counts), cl) && m in MembersAt(cl, f)
    ensures InCell(counts, f, c) && m in Cells(counts, cl)[c]
  {
    c := Located(counts, f, |counts|);
    BagHas(cl, Start(counts, c), Start(counts, c + 1), f, m);
  }

  lemma HeldAtMostOnce(cells: seq<multiset<Member>>, docs: map<Id, Vector>, c: nat, m: Member)
    requires Holds(Sum(cells), docs) && c < |cells|
    ensures cells[c][m] <= 1
  {
    SumAtLeast(cells, c, m);
  }

  /** Two slots of a cell that holds a member once do not both have it. */
  lemma NotInBoth(counts: seq<nat>, cl: Clusters, c: nat, f: nat, g: nat, m: Member)
    requires InCell(counts, f, c) && InCell(counts, g, c) && f < g && CellBag(counts, cl, c)[m] <= 1
    ensures m !in MembersAt(cl, f) || m !in MembersAt(cl, g)
  {
    BagBoth(cl, Start(counts, c), Start(counts, c + 1), f, g, m);
  }

  /** With each document held once, an id is found in one cluster only. */
  lemma OneSlot(counts: seq<nat>, cl: Clusters, docs: map<Id, Vector>, f: nat, m: Member, g: nat, m': Member)
    requires ClustersTiled(Total(counts), cl) && Holds(Sum(Cells(counts, cl)), docs)
    requires m in MembersAt(cl, f) && m' in MembersAt(cl, g) && m.docId == m'.docId
    ensures f == g && m == m'
  {
    var c := CellOfMember(counts, cl, f, m);
    var d := CellOfMember(counts, cl, g, m');
    OneCell(Cells(counts, cl), docs, c, m, d, m');
    HeldAtMostOnce(Cells(counts, cl), docs, c, m);
    if f < g { NotInBoth(counts, cl, c, f, g, m); }
    if g < f { NotInBoth(counts, cl, c, g, f, m); }
  }

  // ----- Forgetting a document -----

  function WithoutDoc(ms: seq<Member>, id: Id): seq<Member> {
    if ms == [] then []
    else (if ms[0].docId != id then [ms[0]] else []) + WithoutDoc(ms[1..], id)
  }

  lemma {:induction false} WithoutDocCount(ms: seq<Member>, id: Id, m: Member)
    ensures multiset(WithoutDoc(ms, id))[m] == if m.docId == id then 0 else multiset(ms)[m]
  {
    if ms != [] {
      WithoutDocCount(ms[1..], id, m);
      assert ms == [ms[0]] + ms[1..];
    }
  }

  function Forgotten(cl: Clusters, id: Id): Clusters {
    map f | f in cl :: Cluster(cl[f].centroidId, WithoutDoc(cl[f].members, id))
  }

  lemma BagForgotten(cl: Clusters, id: Id, lo: nat, hi: nat, m: Member)
    ensures Bag(Forgotten(cl, id), lo, hi)[m] == if m.docId == id then 0 else Bag(cl, lo, hi)[m]
  {
    var before, after := Slots(cl, lo, hi), Slots(Forgotten(cl, id), lo, hi);
    forall i | 0 <= i < |before| ensures after[i][m] == if m.docId == id then 0 else before[i][m] {
      SlotForgotten(cl, id, lo, hi, i, m);
    }
    SumForgotten(before, after, id, m);
  }

  lemma SlotForgotten(cl: Clusters, id: Id, lo: nat, hi: nat, i: nat, m: Member)
    requires i < hi - lo
    ensures Slots(Forgotten(cl, id), lo, hi)[i][m] == if m.docId == id then 0 else Slots(cl, lo, hi)[i][m]
  {
    MembersForgotten(cl, id, lo + i, m);
    assert Slots(cl, lo, hi)[i] == MembersAt(cl, lo + i);
    assert Slots(Forgotten(cl, id), lo, hi)[i] == MembersAt(Forgotten(cl, id), lo + i);
  }

  lemma MembersForgotten(cl: Clusters, id: Id, f: nat, m: Member)
    ensures MembersAt(Forgotten(cl, id), f)[m] == if m.docId == id then 0 else MembersAt(cl, f)[m]
  {
    if f in cl { WithoutDocCount(cl[f].members, id, m); }
  }

  lemma HoldsForgotten(counts: seq<nat>, cl: Clusters, docs: map<Id, Vector>, id: Id)
    requires Holds(Sum(Cells(counts, cl)), docs)
    ensures Holds(Sum(Cells(counts, Forgotten(cl, id))), docs - {id})
  {
    var cells, cells' := Cells(counts, cl), Cells(counts, Forgotten(cl, id));
    forall m: Member ensures Sum(cells')[m] == if m.docId in docs - {id} && docs[m.docId] == m.vec then 1 else 0 {
      forall c | 0 <= c < |counts| ensures cells'[c][m] == if m.docId == id then 0 else cells[c][m] {
        BagForgotten(cl, id, Start(counts, c), Start(counts, c + 1), m);
      }
      SumForgotten(cells, cells', id, m);
    }
  }

  lemma HoldsMore(all: multiset<Member>, docs: map<Id, Vector>, m: Member)
    requires Holds(all, docs) && m.docId !in docs
    ensures Holds(all + multiset{m}, docs[m.docId := m.vec])
  {
  }
}
