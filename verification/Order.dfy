/** Orders and rankings shared by the whole model.

    Rust orders `String` byte by byte, which is the same as code point by code point; `Less`
    is that order.  `Sort` stands for `sort_by`/`sort_unstable` with a comparator that never
    answers "equal" for two different items, and `IsTop` says what "sort, then truncate to k"
    promises, independently of any sorting.
 */
module Order {

  /** Lexicographic order on strings. */
  predicate Less(a: string, b: string) {
    b != "" && (a == "" || a[0] < b[0] || (a[0] == b[0] && Less(a[1..], b[1..])))
  }

  lemma {:induction false} LessIrreflexive(a: string)
    ensures !Less(a, a)
  {
    if a != "" { LessIrreflexive(a[1..]); }
  }

  lemma {:induction false} LessTransitive(a: string, b: string, c: string)
    requires Less(a, b) && Less(b, c)
    ensures Less(a, c)
  {
    if a != "" && a[0] == b[0] && b[0] == c[0] { LessTransitive(a[1..], b[1..], c[1..]); }
  }

  lemma {:induction false} LessTotal(a: string, b: string)
    ensures Less(a, b) || a == b || Less(b, a)
  {
    if a != "" && b != "" && a[0] == b[0] {
      LessTotal(a[1..], b[1..]);
      assert a == [a[0]] + a[1..] && b == [b[0]] + b[1..];
    }
  }

  ghost predicate StrictTotal<T(!new)>(less: (T, T) -> bool) {
    && (forall x :: !less(x, x))
    && (forall x, y, z :: less(x, y) && less(y, z) ==> less(x, z))
    && (forall x, y :: x != y ==> less(x, y) || less(y, x))
  }

  lemma LessIsStrictTotal()
    ensures StrictTotal(Less)
  {
    forall x: string ensures !Less(x, x) { LessIrreflexive(x); }
    forall x, y, z | Less(x, y) && Less(y, z) ensures Less(x, z) { LessTransitive(x, y, z); }
    forall x: string, y | x != y ensures Less(x, y) || Less(y, x) { LessTotal(x, y); }
  }

  /** Strictly increasing under `less`. */
  ghost predicate Ascending<T(!new)>(s: seq<T>, less: (T, T) -> bool) {
    forall i, j :: 0 <= i < j < |s| ==> less(s[i], s[j])
  }

  function Insert<T>(x: T, s: seq<T>, less: (T, T) -> bool): seq<T> {
    if s == [] || !less(s[0], x) then [x] + s else [s[0]] + Insert(x, s[1..], less)
  }

  /** A stable sort. */
  function Sort<T>(s: seq<T>, less: (T, T) -> bool): seq<T> {
    if s == [] then [] else Insert(s[0], Sort(s[1..], less), less)
  }

  lemma {:induction false} InsertKeepsItems<T>(x: T, s: seq<T>, less: (T, T) -> bool)
    ensures multiset(Insert(x, s, less)) == multiset{x} + multiset(s)
  {
    if s != [] && less(s[0], x) {
      InsertKeepsItems(x, s[1..], less);
      assert s == [s[0]] + s[1..];
    }
  }

  /** Sorting only permutes, whatever the comparator does. */
  lemma {:induction false} SortPermutes<T>(s: seq<T>, less: (T, T) -> bool)
    ensures multiset(Sort(s, less)) == multiset(s)
  {
    if s != [] {
      SortPermutes(s[1..], less);
      InsertKeepsItems(s[0], Sort(s[1..], less), less);
      assert s == [s[0]] + s[1..];
    }
  }

  lemma SortSameItems<T>(s: seq<T>, less: (T, T) -> bool)
    ensures |Sort(s, less)| == |s|
    ensures forall x :: x in Sort(s, less) <==> x in s
  {
    SortPermutes(s, less);
    assert |multiset(Sort(s, less))| == |multiset(s)|;
    forall x ensures x in Sort(s, less) <==> x in s {
      assert x in Sort(s, less) <==> x in multiset(Sort(s, less));
      assert x in s <==> x in multiset(s);
    }
  }

  lemma {:induction false} InsertAscending<T(!new)>(x: T, s: seq<T>, less: (T, T) -> bool)
    requires StrictTotal(less) && Ascending(s, less) && x !in s
    ensures Ascending(Insert(x, s, less), less)
  {
    if s != [] && less(s[0], x) {
      var rest := Insert(x, s[1..], less);
      InsertAscending(x, s[1..], less);
      InsertKeepsItems(x, s[1..], less);
      forall j | 0 <= j < |rest| ensures less(s[0], rest[j]) {
        assert rest[j] in multiset(rest);
        assert rest[j] == x || rest[j] in s[1..];
      }
    }
  }

  ghost predicate Distinct<T>(s: seq<T>) {
    forall i, j :: 0 <= i < j < |s| ==> s[i] != s[j]
  }

  /** Under a strict total order, distinct items come out strictly ascending. */
  lemma {:induction false} SortAscending<T(!new)>(s: seq<T>, less: (T, T) -> bool)
    requires StrictTotal(less) && Distinct(s)
    ensures Ascending(Sort(s, less), less)
  {
    if s != [] {
      SortAscending(s[1..], less);
      SortSameItems(s[1..], less);
      assert s[0] !in s[1..];
      InsertAscending(s[0], Sort(s[1..], less), less);
    }
  }

  ghost function Items<T>(s: seq<T>): set<T> {
    set x | x in s
  }

  lemma {:induction false} DistinctCount<T>(s: seq<T>)
    requires Distinct(s)
    ensures |Items(s)| == |s|
  {
    if s != [] {
      DistinctCount(s[1..]);
      assert Items(s) == {s[0]} + Items(s[1..]);
      assert s[0] !in Items(s[1..]);
    }
  }

  lemma AscendingIsDistinct<T(!new)>(s: seq<T>, less: (T, T) -> bool)
    requires StrictTotal(less) && Ascending(s, less)
    ensures Distinct(s) && |Items(s)| == |s|
  {
    forall i, j | 0 <= i < j < |s| ensures s[i] != s[j] { assert less(s[i], s[j]); }
    DistinctCount(s);
  }

  function Min(a: nat, b: nat): nat {
    if a < b then a else b
  }

  /** Unsigned subtraction that stops at zero. */
  function SaturatingSub(a: nat, b: nat): nat {
    if a < b then 0 else a - b
  }

  function Take<T>(s: seq<T>, k: nat): seq<T> {
    s[..Min(k, |s|)]
  }

  /** `top` lists, best first, the `k` items of `pool` that `less` puts first (all of them when
      the pool is smaller). */
  ghost predicate IsTop<T(!new)>(top: seq<T>, pool: set<T>, k: nat, less: (T, T) -> bool) {
    && Ascending(top, less)
    && |top| == Min(k, |pool|)
    && (forall x :: x in top ==> x in pool)
    && (forall x, r :: x in pool && x !in top && r in top ==> less(r, x))
  }

  /** Sort-then-truncate computes the top k. */
  lemma SortTakeIsTop<T(!new)>(s: seq<T>, k: nat, less: (T, T) -> bool)
    requires StrictTotal(less) && Distinct(s)
    ensures IsTop(Take(Sort(s, less), k), Items(s), k, less)
  {
    var sorted := Sort(s, less);
    var top := Take(sorted, k);
    SortAscending(s, less);
    SortSameItems(s, less);
    DistinctCount(s);
    forall x, r | x in Items(s) && x !in top && r in top ensures less(r, x) {
      assert x in sorted;
      var i :| 0 <= i < |sorted| && sorted[i] == x;
      var j :| 0 <= j < |top| && top[j] == r;
      assert forall m :: 0 <= m < |top| ==> top[m] == sorted[m];
      assert sorted[j] == r;
    }
  }

  /** The top k is unique. */
  lemma {:induction false} TopUnique<T(!new)>(a: seq<T>, b: seq<T>, pool: set<T>, k: nat, less: (T, T) -> bool)
    requires StrictTotal(less) && IsTop(a, pool, k, less) && IsTop(b, pool, k, less)
    ensures a == b
  {
    AscendingIsDistinct(a, less);
    AscendingIsDistinct(b, less);
    TopSameItems(a, b, pool, k, less);
    AscendingUnique(a, b, less);
  }

  lemma SameSizeDifferences<T>(a: set<T>, b: set<T>)
    requires |a| == |b|
    ensures |a - b| == |b - a|
  {
    assert a == a * b + (a - b) && b == a * b + (b - a);
  }

  lemma TopExchange<T(!new)>(x: T, y: T, a: seq<T>, b: seq<T>, pool: set<T>, k: nat, less: (T, T) -> bool)
    requires StrictTotal(less) && IsTop(a, pool, k, less) && IsTop(b, pool, k, less)
    requires x in a && x !in b
    ensures y in b ==> y in a
  {
    assert y in b && y !in a ==> less(x, y) && less(y, x);
  }

  lemma TopSameItems<T(!new)>(a: seq<T>, b: seq<T>, pool: set<T>, k: nat, less: (T, T) -> bool)
    requires StrictTotal(less) && IsTop(a, pool, k, less) && IsTop(b, pool, k, less)
    ensures Items(a) == Items(b)
  {
    AscendingIsDistinct(a, less);
    AscendingIsDistinct(b, less);
    SameSizeDifferences(Items(a), Items(b));
    if x :| x in a && x !in b {
      forall y | y in b ensures y in a { TopExchange(x, y, a, b, pool, k, less); }
      assert Items(b) - Items(a) == {};
    }
    assert |Items(a) - Items(b)| == 0;
    assert |Items(b) - Items(a)| == 0;
  }

  lemma {:induction false} AscendingUnique<T(!new)>(a: seq<T>, b: seq<T>, less: (T, T) -> bool)
    requires StrictTotal(less) && Ascending(a, less) && Ascending(b, less) && Items(a) == Items(b)
    ensures a == b
  {
    AscendingIsDistinct(a, less);
    AscendingIsDistinct(b, less);
    if a != [] {
      assert a[0] in Items(b) && b[0] in Items(a);
      assert a[0] == b[0];
      assert Items(a[1..]) == Items(a) - {a[0]};
      assert Items(b[1..]) == Items(b) - {b[0]};
      AscendingUnique(a[1..], b[1..], less);
      assert a == [a[0]] + a[1..] && b == [b[0]] + b[1..];
    }
  }

  /** Everything ranked before a listed item is listed too, so no more than `k - 1` items are. */
  lemma RankedBefore<T(!new)>(top: seq<T>, pool: set<T>, k: nat, less: (T, T) -> bool, r: T, before: set<T>)
    requires StrictTotal(less) && IsTop(top, pool, k, less) && r in top
    requires before <= pool && AllBefore(before, r, less)
    ensures |before| < k
  {
    forall y | y in before ensures y in top && y != r {
      assert less(y, r);
    }
    AscendingIsDistinct(top, less);
    var others := Items(top) - {r};
    assert before <= others;
    SubsetSize(before, others);
  }

  lemma SubsetSize<T>(a: set<T>, b: set<T>)
    requires a <= b
    ensures |a| <= |b|
  {
    assert b == a + (b - a);
  }

  ghost predicate AllBefore<T(!new)>(w: set<T>, x: T, less: (T, T) -> bool) {
    forall y :: y in w ==> less(y, x)
  }

  /** `k` items of `some` are ranked before `x`. */
  ghost predicate Outranked<T(!new)>(x: T, some: set<T>, k: nat, less: (T, T) -> bool) {
    exists w: set<T> :: w <= some && |w| >= k && AllBefore(w, x, less)
  }

  /** The top k of a part is the top k of the whole when everything left out is outranked k times. */
  lemma TopOfPart<T(!new)>(top: seq<T>, some: set<T>, pool: set<T>, k: nat, less: (T, T) -> bool)
    requires StrictTotal(less) && IsTop(top, some, k, less) && some <= pool
    requires forall x :: x in pool && x !in some ==> Outranked(x, some, k, less)
    ensures IsTop(top, pool, k, less)
  {
    if x :| x in pool && x !in some {
      var w :| w <= some && |w| >= k && AllBefore(w, x, less);
      SubsetSize(w, some);
      SubsetSize(some, pool);
    } else {
      assert some == pool;
    }
    forall x, r | x in pool && x !in top && r in top ensures less(r, x) {
      if x !in some { OutrankedIsWorse(top, some, k, less, r, x); }
    }
  }

  lemma OutrankedIsWorse<T(!new)>(top: seq<T>, some: set<T>, k: nat, less: (T, T) -> bool, r: T, x: T)
    requires StrictTotal(less) && IsTop(top, some, k, less) && r in top && x !in some && Outranked(x, some, k, less)
    ensures less(r, x)
  {
    var w :| w <= some && |w| >= k && AllBefore(w, x, less);
    if less(x, r) { RankedBefore(top, some, k, less, r, w); }
  }

  // ----- Scored ids: best score first, ties by id -----

  type Scored = (string, real)

  predicate Better(a: Scored, b: Scored) {
    a.1 > b.1 || (a.1 == b.1 && Less(a.0, b.0))
  }

  lemma BetterIsStrictTotal()
    ensures StrictTotal(Better)
  {
    LessIsStrictTotal();
    forall x, y, z | Better(x, y) && Better(y, z) ensures Better(x, z) {
      if x.1 == y.1 == z.1 { LessTransitive(x.0, y.0, z.0); }
    }
    forall x: Scored, y: Scored | x != y ensures Better(x, y) || Better(y, x) {
      if x.1 == y.1 { LessTotal(x.0, y.0); }
    }
  }

  /** The entries of a score table. */
  ghost function Entries(scores: map<string, real>): set<Scored> {
    set id | id in scores :: (id, scores[id])
  }

  /** List the entries of a table, in any order. */
  method ListEntries(scores: map<string, real>) returns (list: seq<Scored>)
    ensures Items(list) == Entries(scores) && Distinct(list)
  {
    list := [];
    var todo := scores.Keys;
    while todo != {}
      invariant todo <= scores.Keys && Distinct(list)
      invariant forall x :: x in list <==> x.0 in scores && x.0 !in todo && x.1 == scores[x.0]
    {
      var id :| id in todo;
      list := list + [(id, scores[id])];
      todo := todo - {id};
    }
  }
}
