/** How many centroids a build makes (`num_coarse_for_version`, `num_fine_for_version` and what they
    call, in `src/index/vector.rs`).
 */
module Sizing {
  import Order

  const MAX_COARSE_CENTROIDS: nat := 16
  const MAX_COARSE_CENTROIDS_V3: nat := 256
  const MAX_FINE_PER_COARSE: nat := 256
  const MAX_FINE_PER_COARSE_V3: nat := 8
  const V3_TARGET_DOCS_PER_COARSE: nat := 500
  const V3_INDEX_OBJECT_CAP: nat := 500

  /** The square root, rounded up. */
  function CeilSqrt(n: nat): (r: nat)
    ensures r * r >= n && (r > 0 ==> (r - 1) * (r - 1) < n)
  {
    CeilSqrtFrom(n, 0)
  }

  function CeilSqrtFrom(n: nat, k: nat): (r: nat)
    requires k > 0 ==> (k - 1) * (k - 1) < n
    ensures r * r >= n && (r > 0 ==> (r - 1) * (r - 1) < n)
    decreases n - k
  {
    if k * k >= n then k
    else
      SquareAtLeast(k);
      CeilSqrtFrom(n, k + 1)
  }

  lemma SquareAtLeast(k: nat)
    ensures k * k >= k
  {
  }

  function Max(a: nat, b: nat): nat {
    if a > b then a else b
  }

  function Clamp(x: nat, lo: nat, hi: nat): nat
    requires lo <= hi
  {
    Max(lo, Order.Min(x, hi))
  }

  function CeilDiv(a: nat, b: nat): nat
    requires b > 0
  {
    (a + b - 1) / b
  }

  function NumFine(n: nat, v3: bool): (k: nat)
    ensures k <= n && (n > 0 ==> k >= 1) && (v3 ==> k <= MAX_FINE_PER_COARSE_V3)
  {
    if n == 0 then 0
    else Order.Min(Clamp(CeilSqrt(n), 1, n), if v3 then MAX_FINE_PER_COARSE_V3 else MAX_FINE_PER_COARSE)
  }

  function NumCoarseV2(n: nat): (k: nat)
    requires n > 0
    ensures 1 <= k <= n
  {
    if n <= 32 then 1 else Order.Min(Clamp(Max(CeilSqrt(n) / 4, 4), 1, n), MAX_COARSE_CENTROIDS)
  }

  /** L1 and cluster objects if the documents were spread evenly. */
  function ObjectCountEstimate(n: nat, k: nat): nat {
    if k == 0 then 0 else k + k * NumFine(CeilDiv(n, k), true)
  }

  lemma SmallSquare(r: nat)
    ensures r < 8 ==> r * r <= 49
  {
  }

  /** A cell of 50 or more documents gets all 8 fine centroids. */
  lemma BigCellIsFull(n: nat)
    requires n >= 50
    ensures NumFine(n, true) == MAX_FINE_PER_COARSE_V3
  {
    SmallSquare(CeilSqrt(n));
  }

  lemma EstimateOfBigCells(n: nat, k: nat)
    requires 1 <= k <= n / 500
    ensures ObjectCountEstimate(n, k) == 9 * k
  {
    assert 500 * k <= n;
    assert CeilDiv(n, k) >= 500 by {
      assert n + k - 1 >= 500 * k;
      DivAtLeast(n + k - 1, k, 500);
    }
    BigCellIsFull(CeilDiv(n, k));
  }

  lemma DivAtLeast(a: nat, b: nat, q: nat)
    requires b > 0 && a >= q * b
    ensures a / b >= q
  {
    var d := a / b;
    assert a < b * d + b;
    if d < q { TimesAtMost(b, d, q); }
  }

  lemma {:induction false} TimesAtMost(b: nat, d: nat, q: nat)
    requires d < q
    ensures b * d + b <= q * b
  {
    if d + 1 < q { TimesAtMost(b, d, q - 1); }
  }

  /** The closed form of the sizing loop. */
  function CoarseCountV3(n: nat): nat {
    if n <= 32 then 1 else Max(8, Order.Min(n / 500, 55))
  }

  /** `num_coarse_v3`, the loop. */
  method NumCoarseV3(n: nat) returns (k: nat)
    ensures k == CoarseCountV3(n)
  {
    if n <= 32 { return 1; }
    k := Max(n / V3_TARGET_DOCS_PER_COARSE, 8);
    k := Order.Min(Clamp(k, 8, n), MAX_COARSE_CENTROIDS_V3);
    while k > 8 && ObjectCountEstimate(n, k) >= V3_INDEX_OBJECT_CAP
      invariant 8 <= k && (k > 8 ==> k <= n / 500)
      invariant CoarseCountV3(n) == Max(8, Order.Min(k, 55))
    {
      EstimateOfBigCells(n, k);
      k := k - 1;
    }
    if k > 8 { EstimateOfBigCells(n, k); }
  }

  method NumCoarse(n: nat, v3: bool) returns (k: nat)
    requires n > 0
    ensures 1 <= k <= n && (v3 ==> k <= 55)
  {
    if v3 { k := NumCoarseV3(n); } else { k := NumCoarseV2(n); }
  }
}
