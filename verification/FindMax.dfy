/** The divide-and-conquer maximum subarray of findmax.c. */
module MaximumSubarray {

  /** The sum of s[p..q]. */
  function Sum(s: seq<int>, p: nat, q: nat): int
    requires p <= q <= |s|
  {
    if p == q then 0 else Sum(s, p, q - 1) + s[q - 1]
  }

  lemma {:induction false} SumSplit(s: seq<int>, p: nat, m: nat, q: nat)
    requires p <= m <= q <= |s|
    ensures Sum(s, p, q) == Sum(s, p, m) + Sum(s, m, q)
  {
    if m < q {
      SumSplit(s, p, m, q - 1);
    }
  }

  /** best is the greatest sum of a contiguous, possibly empty segment of s[l..hi]. */
  ghost predicate IsMaximum(s: seq<int>, l: nat, hi: nat, best: int)
    requires l <= hi <= |s|
  {
    && (exists p, q :: l <= p <= q <= hi && Sum(s, p, q) == best)
    && (forall p, q | l <= p <= q <= hi :: Sum(s, p, q) <= best)
  }

  /** best is the greatest sum of a segment of s[l..mid] that ends at mid. */
  ghost predicate BestEnding(s: seq<int>, l: nat, mid: nat, best: int)
    requires l <= mid <= |s|
  {
    && (exists p :: l <= p <= mid && Sum(s, p, mid) == best)
    && (forall p | l <= p <= mid :: Sum(s, p, mid) <= best)
  }

  /** best is the greatest sum of a segment of s[mid..hi] that starts at mid. */
  ghost predicate BestStarting(s: seq<int>, mid: nat, hi: nat, best: int)
    requires mid <= hi <= |s|
  {
    && (exists q :: mid <= q <= hi && Sum(s, mid, q) == best)
    && (forall q | mid <= q <= hi :: Sum(s, mid, q) <= best)
  }

  function Max2(x: int, y: int): int {
    if x > y then x else y
  }

  function Max3(x: int, y: int, z: int): int {
    if x > y then (if x > z then x else z) else (if y > z then y else z)
  }

  /** The loop that runs down from the middle. */
  method ScanLeft(x: array<int>, l: int, m: int) returns (lmax: int)
    requires 0 <= l <= m < x.Length
    ensures BestEnding(x[..], l, m + 1, lmax)
  {
    ghost var s, mid := x[..], m + 1;
    var sum := 0;
    lmax := 0;
    var i := m;
    while i >= l
      invariant l - 1 <= i <= m && sum == Sum(s, i + 1, mid)
      invariant BestEnding(s, i + 1, mid, lmax)
    {
      SumSplit(s, i, i + 1, mid);
      assert Sum(s, i, i) == 0;
      assert Sum(s, i, i + 1) == x[i];
      sum := sum + x[i];
      lmax := Max2(lmax, sum);
      i := i - 1;
    }
  }

  /** The loop that runs up from the middle. */
  method ScanRight(x: array<int>, m: int, u: int) returns (rmax: int)
    requires 0 <= m <= u < x.Length
    ensures BestStarting(x[..], m + 1, u + 1, rmax)
  {
    ghost var s, mid := x[..], m + 1;
    var sum := 0;
    rmax := 0;
    var i := m + 1;
    while i <= u
      invariant mid <= i <= u + 1 && sum == Sum(s, mid, i)
      invariant BestStarting(s, mid, i, rmax)
    {
      sum := sum + x[i];
      assert sum == Sum(s, mid, i + 1);
      rmax := Max2(rmax, sum);
      i := i + 1;
    }
  }

  /** A segment lies in one half or crosses the middle. */
  lemma Combine(s: seq<int>, l: nat, mid: nat, hi: nat, lmax: int, rmax: int, left: int, right: int)
    requires l <= mid <= hi <= |s|
    requires BestEnding(s, l, mid, lmax) && BestStarting(s, mid, hi, rmax)
    requires IsMaximum(s, l, mid, left) && IsMaximum(s, mid, hi, right)
    ensures IsMaximum(s, l, hi, Max3(lmax + rmax, left, right))
  {
    var best := Max3(lmax + rmax, left, right);
    forall p, q | l <= p <= q <= hi ensures Sum(s, p, q) <= best {
      if p <= mid <= q {
        SumSplit(s, p, mid, q);
      }
    }
    var p :| l <= p <= mid && Sum(s, p, mid) == lmax;
    var q :| mid <= q <= hi && Sum(s, mid, q) == rmax;
    SumSplit(s, p, mid, q);
    assert Sum(s, p, q) == lmax + rmax;
  }

  method MaxSum3(x: array<int>, l: int, u: int) returns (best: int)
    requires l <= u ==> 0 <= l && u < x.Length
    ensures if l <= u then IsMaximum(x[..], l, u + 1, best) else best == 0
    decreases u + 1 - l
  {
    if l > u {
      return 0;
    }
    if l == u {
      assert Sum(x[..], l, l) == 0 && Sum(x[..], l, l + 1) == x[l] && Sum(x[..], l + 1, l + 1) == 0;
      return Max2(0, x[l]);
    }
    var m := (l + u) / 2;
    var lmax := ScanLeft(x, l, m);
    var rmax := ScanRight(x, m, u);
    var left := MaxSum3(x, l, m);
    var right := MaxSum3(x, m + 1, u);
    Combine(x[..], l, m + 1, u + 1, lmax, rmax, left, right);
    best := Max3(lmax + rmax, left, right);
  }

  method FindMax(a: array<int>, n: int) returns (best: int)
    requires n <= a.Length
    ensures if n >= 0 then IsMaximum(a[..], 0, n, best) else best == 0
  {
    assert Sum(a[..], 0, 0) == 0;
    best := MaxSum3(a, 0, n - 1);
  }
}
