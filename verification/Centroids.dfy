/** Vectors, scores and centroid rankings (`top_m_centroids`, `nearest_centroid_id` and
    `assign_to_centroids` of `src/index/vector.rs`).

    Scores are real numbers and the scoring function is arbitrary.  K-means is any function that
    returns the right number of centroids.
 */
module Centroids {
  import opened Documents
  import Order

  type Vector = seq<real>

  /** A document's vector in a cluster. */
  datatype Member = Member(docId: Id, vec: Vector)

  datatype Geometry = Geometry(score: (Vector, Vector) -> real, kmeans: (seq<Member>, nat) -> seq<Vector>)

  /** As many centroids as asked for, but no more than there are vectors. */
  ghost predicate RightCount(geo: Geometry) {
    forall ms: seq<Member>, k: nat :: k >= 1 ==> |geo.kmeans(ms, k)| == Order.Min(k, |ms|)
  }

  // ----- top_m_centroids -----

  type Ranked = (nat, real)

  predicate Nearer(a: Ranked, b: Ranked) {
    a.1 > b.1 || (a.1 == b.1 && a.0 < b.0)
  }

  lemma NearerIsStrictTotal()
    ensures Order.StrictTotal(Nearer)
  {
  }

  function Ranks(cs: seq<Vector>, query: Vector, score: (Vector, Vector) -> real): seq<Ranked> {
    seq(|cs|, i requires 0 <= i < |cs| => (i, score(query, cs[i])))
  }

  function Firsts(rs: seq<Ranked>): seq<nat> {
    seq(|rs|, i requires 0 <= i < |rs| => rs[i].0)
  }

  /** The `m` best centroids, best first, ties by position. */
  function TopM(cs: seq<Vector>, query: Vector, score: (Vector, Vector) -> real, m: nat): seq<nat> {
    Firsts(Order.Take(Order.Sort(Ranks(cs, query, score), Nearer), m))
  }

  lemma TopMIsTop(cs: seq<Vector>, query: Vector, score: (Vector, Vector) -> real, m: nat)
    ensures Order.IsTop(Order.Take(Order.Sort(Ranks(cs, query, score), Nearer), m),
                        Order.Items(Ranks(cs, query, score)), m, Nearer)
  {
    NearerIsStrictTotal();
    Order.SortTakeIsTop(Ranks(cs, query, score), m, Nearer);
  }

  /** Positions of centroids, no two the same, and all of them when there are at most `m`. */
  lemma TopMPositions(cs: seq<Vector>, query: Vector, score: (Vector, Vector) -> real, m: nat)
    ensures |TopM(cs, query, score, m)| == Order.Min(m, |cs|)
    ensures forall i :: i in TopM(cs, query, score, m) ==> i < |cs|
    ensures Order.Distinct(TopM(cs, query, score, m))
    ensures m >= |cs| ==> forall i :: 0 <= i < |cs| ==> i in TopM(cs, query, score, m)
  {
    var ranks := Ranks(cs, query, score);
    var sorted := Order.Sort(ranks, Nearer);
    var top, ids := Order.Take(sorted, m), TopM(cs, query, score, m);
    Order.SortSameItems(ranks, Nearer);
    NearerIsStrictTotal();
    Order.SortAscending(ranks, Nearer);
    forall k | 0 <= k < |top| ensures top[k] in ranks { assert sorted[k] in sorted; }
    forall j, k | 0 <= j < k < |ids| ensures ids[j] != ids[k] {
      assert Nearer(sorted[j], sorted[k]);
      assert top[j] in ranks && top[k] in ranks;
    }
    if m >= |cs| {
      forall i | 0 <= i < |cs| ensures i in ids {
        assert ranks[i] in sorted;
        var k :| 0 <= k < |sorted| && sorted[k] == ranks[i];
        assert ids[k] == i;
      }
    }
  }

  /** The first of the best, or 0 when there are none. */
  function NearestOr0(cs: seq<Vector>, v: Vector, score: (Vector, Vector) -> real): (i: nat)
    ensures cs != [] ==> i < |cs|
    ensures cs == [] ==> i == 0
  {
    TopMPositions(cs, v, score, 1);
    var top := TopM(cs, v, score, 1);
    if top == [] then 0 else assert top[0] in top; top[0]
  }

  // ----- nearest_centroid_id and assign_to_centroids -----

  /** The first centroid with the best score. */
  ghost predicate IsNearest(v: Vector, cs: seq<Vector>, score: (Vector, Vector) -> real, best: nat) {
    && best < |cs|
    && forall i :: 0 <= i < |cs| ==>
      score(v, cs[i]) <= score(v, cs[best]) && (i < best ==> score(v, cs[i]) < score(v, cs[best]))
  }

  method NearestCentroidId(v: Vector, cs: seq<Vector>, score: (Vector, Vector) -> real) returns (best: nat)
    ensures cs == [] ==> best == 0
    ensures cs != [] ==> IsNearest(v, cs, score, best)
  {
    best := 0;
    for i := 0 to |cs|
      invariant best < i || best == 0 == i
      invariant forall j :: 0 <= j < i ==>
        score(v, cs[j]) <= score(v, cs[best]) && (j < best ==> score(v, cs[j]) < score(v, cs[best]))
    {
      if i > 0 && score(v, cs[i]) > score(v, cs[best]) { best := i; }
    }
  }

  /** Each id's centroid is the nearest to a vector it came with. */
  ghost predicate AssignedNearest(ms: seq<Member>, cs: seq<Vector>, score: (Vector, Vector) -> real, out: map<Id, nat>,
                                  id: Id)
    requires id in out
  {
    exists m :: m in ms && m.docId == id && if cs == [] then out[id] == 0 else IsNearest(m.vec, cs, score, out[id])
  }

  method AssignToCentroids(ms: seq<Member>, cs: seq<Vector>, score: (Vector, Vector) -> real)
    returns (out: map<Id, nat>)
    ensures forall m :: m in ms ==> m.docId in out
    ensures forall id :: id in out ==> AssignedNearest(ms, cs, score, out, id)
  {
    out := map[];
    for i := 0 to |ms|
      invariant forall k :: 0 <= k < i ==> ms[k].docId in out
      invariant forall id :: id in out ==> AssignedNearest(ms, cs, score, out, id)
    {
      var best := NearestCentroidId(ms[i].vec, cs, score);
      ghost var before := out;
      out := out[ms[i].docId := best];
      forall id | id in out ensures AssignedNearest(ms, cs, score, out, id) {
        if id == ms[i].docId {
          assert ms[i] in ms;
        } else {
          assert AssignedNearest(ms, cs, score, before, id);
        }
      }
    }
  }

  function BucketOf(assign: map<Id, nat>, id: Id, k: nat): nat
    requires k >= 1
  {
    Order.Min(if id in assign then assign[id] else 0, k - 1)
  }

  /** Put each member in the bucket its document was assigned to, the last one at most. */
  method Bucketed(ms: seq<Member>, assign: map<Id, nat>, k: nat) returns (buckets: seq<seq<Member>>)
    requires k >= 1
    ensures |buckets| == k && Pooled(buckets) == multiset(ms)
    ensures forall b, m :: 0 <= b < k && m in buckets[b] ==> m in ms && b == BucketOf(assign, m.docId, k)
  {
    buckets := seq(k, _ => []);
    EmptyBuckets(k);
    for i := 0 to |ms|
      invariant |buckets| == k && Pooled(buckets) == multiset(ms[..i])
      invariant forall b, m :: 0 <= b < k && m in buckets[b] ==> m in ms && b == BucketOf(assign, m.docId, k)
    {
      var sub := BucketOf(assign, ms[i].docId, k);
      PooledPush(buckets, sub, ms[i]);
      buckets := buckets[sub := buckets[sub] + [ms[i]]];
      assert ms[..i + 1] == ms[..i] + [ms[i]];
    }
    assert ms[..|ms|] == ms;
  }

  ghost predicate OneVectorPerId(ms: seq<Member>) {
    forall x, y :: x in ms && y in ms && x.docId == y.docId ==> x == y
  }

  /** With one vector per id, everyone gets their own nearest centroid. */
  lemma OwnNearest(ms: seq<Member>, cs: seq<Vector>, score: (Vector, Vector) -> real, assign: map<Id, nat>, m: Member)
    requires OneVectorPerId(ms) && m in ms && m.docId in assign && AssignedNearest(ms, cs, score, assign, m.docId)
    ensures cs != [] ==> IsNearest(m.vec, cs, score, assign[m.docId])
  {
    var x :| x in ms && x.docId == m.docId &&
      if cs == [] then assign[m.docId] == 0 else IsNearest(x.vec, cs, score, assign[m.docId]);
  }

  /** All members of all buckets. */
  function Pooled(buckets: seq<seq<Member>>): multiset<Member> {
    if buckets == [] then multiset{} else multiset(buckets[0]) + Pooled(buckets[1..])
  }

  lemma {:induction false} EmptyBuckets(k: nat)
    ensures Pooled(seq(k, _ => [])) == multiset{}
  {
    if k > 0 {
      EmptyBuckets(k - 1);
      var all: seq<seq<Member>> := seq(k, _ => []);
      assert all[1..] == seq(k - 1, _ => []);
    }
  }

  lemma {:induction false} PooledPush(buckets: seq<seq<Member>>, i: nat, m: Member)
    requires i < |buckets|
    ensures Pooled(buckets[i := buckets[i] + [m]]) == Pooled(buckets) + multiset{m}
  {
    var after := buckets[i := buckets[i] + [m]];
    if i == 0 {
      assert after[1..] == buckets[1..];
    } else {
      PooledPush(buckets[1..], i - 1, m);
      assert after[1..] == buckets[1..][i - 1 := buckets[i] + [m]];
    }
  }
}
