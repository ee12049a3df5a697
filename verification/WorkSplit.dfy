/** Adding up a shared array: each process adds its own slice and then, holding the lock, adds that to the total. */
module WorkSplit {

  /** Where slice `id` begins, for an array of length `dim` and `n` processes. */
  function Bound(dim: nat, n: nat, id: nat): nat
    requires n > 0
  {
    id * (dim / n) + id * (dim % n) / n
  }

  lemma Floor(x: nat, n: nat, q: nat)
    requires n > 0 && q * n <= x < (q + 1) * n
    ensures x / n == q
  {
    var d := x / n;
    assert d * n <= x < (d + 1) * n;
    assert d < q ==> (d + 1) * n <= q * n;
    assert d > q ==> (q + 1) * n <= d * n;
  }

  /** Adding less than the divisor moves a quotient by at most one. */
  lemma QuotientStep(x: nat, y: nat, n: nat)
    requires n > 0 && y < n
    ensures x / n <= (x + y) / n <= x / n + 1
  {
    var q := x / n;
    assert q * n <= x < (q + 1) * n;
    if x + y < (q + 1) * n {
      Floor(x + y, n, q);
    } else {
      assert (q + 2) * n == (q + 1) * n + n;
      Floor(x + y, n, q + 1);
    }
  }

  /** The slices' bounds, as each process computes its own. */
  function Bounds(dim: nat, n: nat): (b: seq<nat>)
    requires n > 0
    ensures |b| == n + 1
  {
    seq(n + 1, id requires 0 <= id => Bound(dim, n, id))
  }

  lemma BoundStep(dim: nat, n: nat, id: nat)
    requires id < n
    ensures Bound(dim, n, 0) == 0 && Bound(dim, n, n) == dim
    ensures Bound(dim, n, id) + dim / n <= Bound(dim, n, id + 1) <= Bound(dim, n, id) + dim / n + 1
  {
    var per, left := dim / n, dim % n;
    Floor(n * left, n, left);
    assert n * per + left == dim;
    assert (id + 1) * left == id * left + left && (id + 1) * per == id * per + per;
    QuotientStep(id * left, left, n);
  }

  /** Slices that meet end to end, from the start of an array of length `dim` to its end. */
  ghost predicate Tiles(b: seq<nat>, dim: nat) {
    |b| > 1 && b[0] == 0 && b[|b| - 1] == dim && forall i, j :: 0 <= i <= j < |b| ==> b[i] <= b[j]
  }

  lemma {:induction false} BoundsAscend(dim: nat, n: nat, i: nat, j: nat)
    requires i <= j <= n && n > 0
    ensures Bound(dim, n, i) <= Bound(dim, n, j)
    decreases j - i
  {
    hide Bound;
    if i < j {
      BoundStep(dim, n, j - 1);
      BoundsAscend(dim, n, i, j - 1);
    }
  }

  /** For every length and number of processes the slices tile the array, and their sizes differ by at most one. */
  lemma {:induction false} SlicesTile(dim: nat, n: nat)
    requires n > 0
    ensures Tiles(Bounds(dim, n), dim)
    ensures forall i :: 0 <= i < n ==> dim / n <= Bounds(dim, n)[i + 1] - Bounds(dim, n)[i] <= dim / n + 1
  {
    hide Bound;
    var b := Bounds(dim, n);
    BoundStep(dim, n, 0);
    forall i: nat, j: nat | i <= j <= n ensures b[i] <= b[j] {
      BoundsAscend(dim, n, i, j);
    }
    forall i: nat | i < n ensures dim / n <= b[i + 1] - b[i] <= dim / n + 1 {
      BoundStep(dim, n, i);
    }
  }

  /** Every place of the array is in exactly one slice. */
  lemma {:induction false} OneSlice(b: seq<nat>, dim: nat, k: nat) returns (id: nat)
    requires Tiles(b, dim) && k < dim
    ensures id + 1 < |b| && b[id] <= k < b[id + 1]
    ensures forall j :: 0 <= j < |b| - 1 && b[j] <= k < b[j + 1] ==> j == id
  {
    id := 0;
    while b[id + 1] <= k
      invariant id + 1 < |b| && b[id] <= k
      decreases |b| - id
    {
      id := id + 1;
    }
  }

  function Sum(a: seq<int>, lo: nat, hi: nat): int
    requires lo <= hi <= |a|
    decreases hi - lo
  {
    if lo == hi then 0 else Sum(a, lo, hi - 1) + a[hi - 1]
  }

  lemma {:induction false} SumInTwo(a: seq<int>, lo: nat, mid: nat, hi: nat)
    requires lo <= mid <= hi <= |a|
    ensures Sum(a, lo, hi) == Sum(a, lo, mid) + Sum(a, mid, hi)
    decreases hi - mid
  {
    if mid < hi {
      SumInTwo(a, lo, mid, hi - 1);
    }
  }

  method LocalSum(a: seq<int>, start: nat, end: nat) returns (sum: int)
    requires start <= end <= |a|
    ensures sum == Sum(a, start, end)
  {
    sum := 0;
    for i := start to end
      invariant sum == Sum(a, start, i)
    {
      sum := sum + a[i];
    }
  }

  function Share(a: seq<int>, b: seq<nat>, id: nat): int
    requires Tiles(b, |a|) && id + 1 < |b|
  {
    Sum(a, b[id], b[id + 1])
  }

  predicate Processes(order: seq<nat>, n: nat) {
    forall k :: 0 <= k < |order| ==> order[k] < n
  }

  /** The processes add their shares in the order in which they get the lock. */
  function Total(a: seq<int>, b: seq<nat>, order: seq<nat>): int
    requires Tiles(b, |a|) && Processes(order, |b| - 1)
  {
    if order == [] then 0 else Total(a, b, order[..|order| - 1]) + Share(a, b, order[|order| - 1])
  }

  method AddShares(a: seq<int>, b: seq<nat>, order: seq<nat>) returns (total: int)
    requires Tiles(b, |a|) && Processes(order, |b| - 1)
    ensures total == Total(a, b, order)
  {
    total := 0;
    for k := 0 to |order|
      invariant total == Total(a, b, order[..k])
    {
      assert order[..k + 1][..k] == order[..k];
      var mine := LocalSum(a, b[order[k]], b[order[k] + 1]);
      total := total + mine;
    }
    assert order[..|order|] == order;
  }

  /** `order` has each of the first `m` processes once. */
  ghost predicate Permutes(order: seq<nat>, m: nat) {
    |order| == m && Processes(order, m) && forall j, k :: 0 <= j < k < m ==> order[j] != order[k]
  }

  lemma {:induction false} TotalWithout(a: seq<int>, b: seq<nat>, order: seq<nat>, k: nat)
    requires Tiles(b, |a|) && Processes(order, |b| - 1) && k < |order|
    ensures Processes(order[..k] + order[k + 1..], |b| - 1)
    ensures Total(a, b, order) == Total(a, b, order[..k] + order[k + 1..]) + Share(a, b, order[k])
    decreases |order|
  {
    var last := |order| - 1;
    if k == last {
      assert order[..k] + order[k + 1..] == order[..last];
    } else {
      var front := order[..last];
      TotalWithout(a, b, front, k);
      assert (order[..k] + order[k + 1..])[..last - 1] == front[..k] + front[k + 1..];
    }
  }

  lemma {:induction false} SomewhereLast(order: seq<nat>, m: nat) returns (k: nat)
    requires Permutes(order, m) && m > 0
    ensures k < m && order[k] == m - 1
    ensures Permutes(order[..k] + order[k + 1..], m - 1)
  {
    if forall k :: 0 <= k < m ==> order[k] != m - 1 {
      TooMany(order, m - 1);
    }
    k :| 0 <= k < m && order[k] == m - 1;
  }

  lemma {:induction false} TooMany(order: seq<nat>, m: nat)
    requires Processes(order, m) && forall j, k :: 0 <= j < k < |order| ==> order[j] != order[k]
    ensures |order| <= m
    decreases m
  {
    assert |order| > 0 ==> order[0] < m;
    if m > 0 {
      if k :| 0 <= k < |order| && order[k] == m - 1 {
        TooMany(order[..k] + order[k + 1..], m - 1);
      } else {
        TooMany(order, m - 1);
      }
    }
  }

  lemma {:induction false} FirstShares(a: seq<int>, b: seq<nat>, m: nat, order: seq<nat>)
    requires Tiles(b, |a|) && m < |b| && Permutes(order, m)
    ensures Total(a, b, order) == Sum(a, 0, b[m])
    decreases m
  {
    if m > 0 {
      var k := SomewhereLast(order, m);
      TotalWithout(a, b, order, k);
      FirstShares(a, b, m - 1, order[..k] + order[k + 1..]);
      SumInTwo(a, 0, b[m - 1], b[m]);
    }
  }

  /** In whatever order the processes get the lock, the total is the sum of the whole array. */
  lemma {:induction false} AnyOrder(a: seq<int>, n: nat, order: seq<nat>)
    requires n > 0 && Permutes(order, n)
    ensures Tiles(Bounds(|a|, n), |a|) && Total(a, Bounds(|a|, n), order) == Sum(a, 0, |a|)
  {
    SlicesTile(|a|, n);
    FirstShares(a, Bounds(|a|, n), n, order);
  }
}
