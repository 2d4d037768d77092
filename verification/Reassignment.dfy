/** Where reassignment sends the members of a cluster (`reassign_drifted_members` of
    `src/index/vector.rs`).
 */
module Reassignment {
  import opened Documents
  import opened Centroids
  import opened Tiling

  const MAX_CLUSTER_MEMBERS: nat := 512

  /** Each document is held once, in a coarse cell or behind them. */
  ghost predicate HeldOnce(counts: seq<nat>, cl: Clusters, docs: map<Id, Vector>) {
    ClustersTiled(Total(Spaces(counts)), cl) && Holds(Sum(Cells(Spaces(counts), cl)), docs)
  }

  /** A planned move: the document sits in the cell of its destination. */
  ghost predicate MoveOk(counts: seq<nat>, cells: seq<multiset<Member>>, move: (Id, nat)) {
    exists c: nat, m: Member :: InCell(counts, move.1, c) && c < |cells| && m in cells[c] && m.docId == move.0
  }

  predicate HasDoc(ms: seq<Member>, id: Id) {
    exists i :: 0 <= i < |ms| && ms[i].docId == id
  }

  function LoadAt(cl: Clusters, f: nat): nat {
    if f in cl then |cl[f].members| else 0
  }

  /** Some planned move is for this document. */
  predicate Covered(moves: seq<(Id, nat)>, id: Id) {
    exists k :: 0 <= k < |moves| && moves[k].0 == id
  }

  lemma CoveredMore(moves: seq<(Id, nat)>, i: nat)
    requires i < |moves|
    ensures forall id :: Covered(moves[..i + 1], id) <==> Covered(moves[..i], id) || moves[i].0 == id
  {
    assert moves[..i + 1] == moves[..i] + [moves[i]];
    forall id ensures Covered(moves[..i + 1], id) <==> Covered(moves[..i], id) || moves[i].0 == id {
      if moves[i].0 == id { assert moves[..i + 1][i].0 == id; }
      if Covered(moves[..i], id) {
        var k :| 0 <= k < i && moves[..i][k].0 == id;
        assert moves[..i + 1][k].0 == id;
      }
    }
  }

  /** Where reassignment sends a member of cluster `f`: to the nearest fine centroid of its cell if that
      has room, else nowhere. */
  function Destination(counts: seq<nat>, l1: map<nat, L1>, cl: Clusters, score: (Vector, Vector) -> real, f: nat,
                       c: nat, m: Member): nat
    requires c < |counts|
  {
    if c !in l1 then f
    else
      var dest := GlobalFineId(counts, c, NearestOr0(l1[c].centroids, m.vec, score));
      if LoadAt(cl, dest) < MAX_CLUSTER_MEMBERS then dest else f
  }

  /** A planned move is a member's, from its cluster to its destination in the same cell. */
  ghost predicate PlannedFor(counts: seq<nat>, l1: map<nat, L1>, cl: Clusters, score: (Vector, Vector) -> real,
                             move: (Id, nat), f: nat, c: nat, m: Member)
  {
    && InCell(counts, f, c) && InCell(counts, move.1, c) && m in MembersAt(cl, f)
    && m.docId == move.0 && move.1 == Destination(counts, l1, cl, score, f, c, m)
  }

  ghost predicate Planned(counts: seq<nat>, l1: map<nat, L1>, cl: Clusters, score: (Vector, Vector) -> real,
                          move: (Id, nat))
  {
    exists f: nat, c: nat, m: Member :: PlannedFor(counts, l1, cl, score, move, f, c, m)
  }

  /** The member stays, or its move is listed. */
  ghost predicate Moved(counts: seq<nat>, l1: map<nat, L1>, cl: Clusters, score: (Vector, Vector) -> real, f: nat,
                        c: nat, m: Member, moves: seq<(Id, nat)>)
    requires c < |counts|
  {
    Destination(counts, l1, cl, score, f, c, m) == f || (m.docId, Destination(counts, l1, cl, score, f, c, m)) in moves
  }

  ghost predicate Drifts(counts: seq<nat>, l1: map<nat, L1>, cl: Clusters, score: (Vector, Vector) -> real, f: nat,
                         moves: seq<(Id, nat)>)
  {
    forall c: nat, m: Member :: InCell(counts, f, c) && m in MembersAt(cl, f) ==>
      Moved(counts, l1, cl, score, f, c, m, moves)
  }

  lemma AllDrifted(counts: seq<nat>, l1: map<nat, L1>, cl: Clusters, score: (Vector, Vector) -> real, f: nat, c: nat,
                   moves: seq<(Id, nat)>)
    requires InCell(counts, f, c) && f in cl
    requires forall k :: 0 <= k < |cl[f].members| ==> Moved(counts, l1, cl, score, f, c, cl[f].members[k], moves)
    ensures Drifts(counts, l1, cl, score, f, moves)
  {
    forall d: nat, m: Member | InCell(counts, f, d) && m in MembersAt(cl, f)
      ensures Moved(counts, l1, cl, score, f, d, m, moves)
    {
      InCellUnique(counts, f, c, d);
      assert m in cl[f].members;
    }
  }

  lemma PlannedIsOk(counts: seq<nat>, l1: map<nat, L1>, cl: Clusters, score: (Vector, Vector) -> real, move: (Id, nat))
    requires Planned(counts, l1, cl, score, move)
    ensures MoveOk(Spaces(counts), Cells(Spaces(counts), cl), move)
  {
    var f: nat, c: nat, m: Member :| PlannedFor(counts, l1, cl, score, move, f, c, m);
    var spaces := Spaces(counts);
    InSpaces(counts, f, c);
    InSpaces(counts, move.1, c);
    BagHas(cl, Start(spaces, c), Start(spaces, c + 1), f, m);
    assert m in Cells(spaces, cl)[c];
  }

  /** The members whose moves have been made are at their destinations, the others where they were. */
  ghost predicate Reassigned(counts: seq<nat>, l1: map<nat, L1>, start: Clusters, cl: Clusters,
                             score: (Vector, Vector) -> real, done: seq<(Id, nat)>)
  {
    forall f: nat, c: nat, m: Member {:trigger SitsRight(counts, l1, start, cl, score, done, f, c, m)} ::
      InCell(counts, f, c) && m in MembersAt(start, f) ==> SitsRight(counts, l1, start, cl, score, done, f, c, m)
  }

  ghost predicate SitsRight(counts: seq<nat>, l1: map<nat, L1>, start: Clusters, cl: Clusters,
                            score: (Vector, Vector) -> real, done: seq<(Id, nat)>, f: nat, c: nat, m: Member)
    requires c < |counts|
  {
    m in MembersAt(cl, if Covered(done, m.docId) then Destination(counts, l1, start, score, f, c, m) else f)
  }

  /** A member of slot `g` is at the move's destination if the move is for its document, else still there. */
  ghost predicate FollowsMove(before: Clusters, after: Clusters, move: (Id, nat), g: nat, m: Member) {
    m in MembersAt(before, g) ==> m in MembersAt(after, if m.docId == move.0 then move.1 else g)
  }

  ghost predicate OneMoved(before: Clusters, after: Clusters, move: (Id, nat)) {
    forall g: nat, m: Member {:trigger FollowsMove(before, after, move, g, m)} :: FollowsMove(before, after, move, g, m)
  }

  /** A planned move of a member's document is the member's own. */
  lemma OwnDestination(counts: seq<nat>, l1: map<nat, L1>, start: Clusters, score: (Vector, Vector) -> real,
                       docs: map<Id, Vector>, move: (Id, nat), f: nat, c: nat, m: Member)
    requires HeldOnce(counts, start, docs) && Planned(counts, l1, start, score, move)
    requires InCell(counts, f, c) && m in MembersAt(start, f) && m.docId == move.0
    ensures move.1 == Destination(counts, l1, start, score, f, c, m)
  {
    var f': nat, c': nat, m': Member :| PlannedFor(counts, l1, start, score, move, f', c', m');
    OneSlot(Spaces(counts), start, docs, f, m, f', m');
    InCellUnique(counts, f, c, c');
  }

  /** One move made: a member is at its destination now if the move was its own, else where it was. */
  lemma ReassignedOne(counts: seq<nat>, l1: map<nat, L1>, start: Clusters, before: Clusters, after: Clusters,
                      score: (Vector, Vector) -> real,
                      done: seq<(Id, nat)>, move: (Id, nat), docs: map<Id, Vector>, f: nat, c: nat, m: Member)
    requires Reassigned(counts, l1, start, before, score, done)
    requires HeldOnce(counts, start, docs) && Planned(counts, l1, start, score, move)
    requires OneMoved(before, after, move) && InCell(counts, f, c) && m in MembersAt(start, f)
    ensures var at := if Covered(done, m.docId) || move.0 == m.docId
                      then Destination(counts, l1, start, score, f, c, m) else f;
      m in MembersAt(after, at)
  {
    var at := if Covered(done, m.docId) then Destination(counts, l1, start, score, f, c, m) else f;
    assert SitsRight(counts, l1, start, before, score, done, f, c, m);
    assert FollowsMove(before, after, move, at, m);
    if m.docId == move.0 { OwnDestination(counts, l1, start, score, docs, move, f, c, m); }
  }

  lemma ReassignedMore(counts: seq<nat>, l1: map<nat, L1>, start: Clusters, before: Clusters, after: Clusters,
                       score: (Vector, Vector) -> real, moves: seq<(Id, nat)>, i: nat, docs: map<Id, Vector>)
    requires i < |moves| && Reassigned(counts, l1, start, before, score, moves[..i])
    requires HeldOnce(counts, start, docs) && Planned(counts, l1, start, score, moves[i])
    requires OneMoved(before, after, moves[i])
    ensures Reassigned(counts, l1, start, after, score, moves[..i + 1])
  {
    forall f: nat, c: nat, m: Member | InCell(counts, f, c) && m in MembersAt(start, f)
      ensures SitsRight(counts, l1, start, after, score, moves[..i + 1], f, c, m)
    {
      ReassignedOne(counts, l1, start, before, after, score, moves[..i], moves[i], docs, f, c, m);
      CoveredMore(moves, i);
    }
  }

  lemma ReassignedAll(counts: seq<nat>, l1: map<nat, L1>, start: Clusters, cl: Clusters,
                      score: (Vector, Vector) -> real, moves: seq<(Id, nat)>)
    requires Reassigned(counts, l1, start, cl, score, moves)
    requires forall f: nat :: Drifts(counts, l1, start, score, f, moves)
    ensures forall f: nat, c: nat, m: Member :: InCell(counts, f, c) && m in MembersAt(start, f) ==>
      m in MembersAt(cl, Destination(counts, l1, start, score, f, c, m))
  {
    forall f: nat, c: nat, m: Member | InCell(counts, f, c) && m in MembersAt(start, f)
      ensures m in MembersAt(cl, Destination(counts, l1, start, score, f, c, m))
    {
      assert SitsRight(counts, l1, start, cl, score, moves, f, c, m);
      assert Drifts(counts, l1, start, score, f, moves);
      assert Moved(counts, l1, start, score, f, c, m, moves);
      if (m.docId, Destination(counts, l1, start, score, f, c, m)) in moves {
        var k :| 0 <= k < |moves| && moves[k] == (m.docId, Destination(counts, l1, start, score, f, c, m));
        assert moves[k].0 == m.docId;
        assert Covered(moves, m.docId);
      }
    }
  }

  lemma NoneHasIt(cl: Clusters, id: Id)
    requires !(exists f :: f in cl && HasDoc(cl[f].members, id))
    ensures forall g: nat, m :: m in MembersAt(cl, g) ==> m.docId != id
  {
    forall g: nat, m | m in MembersAt(cl, g) ensures m.docId != id {
      assert m in cl[g].members;
      assert !HasDoc(cl[g].members, id);
    }
  }

  /** One document moved from cluster `f` to `dest`: it is there now, and the others are where they were. */
  lemma MovedOne(counts: seq<nat>, cl: Clusters, docs: map<Id, Vector>, f: nat, i: nat, dest: nat, g: nat, m: Member)
    requires ClustersTiled(Total(counts), cl) && Holds(Sum(Cells(counts, cl)), docs)
    requires f in cl && i < |cl[f].members| && m in MembersAt(cl, g)
    ensures var x := cl[f].members[i];
      m in MembersAt(Extend(cl[f := Cluster(f, cl[f].members[..i] + cl[f].members[i + 1..])], dest, [x]),
                     if m.docId == x.docId then dest else g)
  {
    var ms := cl[f].members;
    RemovedAt(ms, i);
    if m.docId == ms[i].docId {
      assert ms[i] in MembersAt(cl, f);
      OneSlot(counts, cl, docs, f, ms[i], g, m);
      ExtendHas(cl[f := Cluster(f, ms[..i] + ms[i + 1..])], dest, ms[i]);
    } else {
      StillHas(cl, f, i, g, m);
      ExtendKeeps(cl[f := Cluster(f, ms[..i] + ms[i + 1..])], dest, [ms[i]], g, m);
    }
  }

  lemma ExtendHas(cl: Clusters, f: nat, m: Member)
    ensures m in MembersAt(Extend(cl, f, [m]), f)
  {
  }

  lemma ExtendKeeps(cl: Clusters, f: nat, ms: seq<Member>, g: nat, m: Member)
    requires m in MembersAt(cl, g)
    ensures m in MembersAt(Extend(cl, f, ms), g)
  {
  }

  lemma StillHas(cl: Clusters, f: nat, i: nat, g: nat, m: Member)
    requires f in cl && i < |cl[f].members| && m in MembersAt(cl, g) && m != cl[f].members[i]
    ensures m in MembersAt(cl[f := Cluster(f, cl[f].members[..i] + cl[f].members[i + 1..])], g)
  {
    RemovedAt(cl[f].members, i);
  }

  /** The document of a planned move is still in the cell of its destination. */
  lemma SameCell(counts: seq<nat>, cl: Clusters, docs: map<Id, Vector>, move: (Id, nat), f: nat, m: Member)
    returns (c: nat)
    requires Holds(Sum(Cells(counts, cl)), docs) && MoveOk(counts, Cells(counts, cl), move)
    requires f in cl && f < Total(counts) && m in cl[f].members && m.docId == move.0
    ensures InCell(counts, f, c) && InCell(counts, move.1, c)
  {
    c := Located(counts, f, |counts|);
    assert m in MembersAt(cl, f);
    BagHas(cl, Start(counts, c), Start(counts, c + 1), f, m);
    var d: nat, m': Member :| InCell(counts, move.1, d) && d < |Cells(counts, cl)| && m' in Cells(counts, cl)[d] &&
      m'.docId == move.0;
    OneCell(Cells(counts, cl), docs, c, m, d, m');
  }

  lemma RemovedAt(ms: seq<Member>, i: nat)
    requires i < |ms|
    ensures multiset(ms) == multiset(ms[..i] + ms[i + 1..]) + multiset([ms[i]])
  {
    assert ms == ms[..i] + [ms[i]] + ms[i + 1..];
  }
}
