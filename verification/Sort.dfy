/** The in-place sorts and the selection of sort.c. */
module Sorting {
  import opened Sequences

  // ---------------------------------------------------------------------------------------------
  // Sorted sequences.

  ghost predicate Sorted(s: seq<int>) {
    forall i, j | 0 <= i < j < |s| :: s[i] <= s[j]
  }

  function InsertInto(s: seq<int>, v: int): seq<int> {
    if s == [] || v <= s[0] then [v] + s else [s[0]] + InsertInto(s[1..], v)
  }

  /** The sorted rearrangement of s. */
  function SortOf(s: seq<int>): seq<int> {
    if s == [] then [] else InsertInto(SortOf(s[1..]), s[0])
  }

  lemma {:induction false} InsertIntoElements(s: seq<int>, v: int)
    ensures multiset(InsertInto(s, v)) == multiset(s) + multiset{v}
    ensures forall w :: w in InsertInto(s, v) <==> w == v || w in s
  {
    if s == [] || v <= s[0] {
    } else {
      InsertIntoElements(s[1..], v);
      assert s == [s[0]] + s[1..];
    }
  }

  lemma {:induction false} InsertIntoSorts(s: seq<int>, v: int)
    requires Sorted(s)
    ensures Sorted(InsertInto(s, v))
  {
    if s == [] || v <= s[0] {
    } else {
      InsertIntoSorts(s[1..], v);
      InsertIntoElements(s[1..], v);
      var rest := InsertInto(s[1..], v);
      forall j | 0 <= j < |rest| ensures s[0] <= rest[j] {
        assert rest[j] in rest;
      }
    }
  }

  lemma {:induction false} SortOfSorts(s: seq<int>)
    ensures Sorted(SortOf(s)) && multiset(SortOf(s)) == multiset(s) && |SortOf(s)| == |s|
  {
    if s != [] {
      SortOfSorts(s[1..]);
      InsertIntoSorts(SortOf(s[1..]), s[0]);
      InsertIntoElements(SortOf(s[1..]), s[0]);
      assert s == [s[0]] + s[1..];
      assert |multiset(SortOf(s))| == |SortOf(s)| && |multiset(s)| == |s|;
    }
  }

  lemma {:induction false} SortedIsUnique(s: seq<int>, t: seq<int>)
    requires Sorted(s) && Sorted(t) && multiset(s) == multiset(t)
    ensures s == t
  {
    assert |s| == |multiset(s)| == |multiset(t)| == |t|;
    if s != [] {
      FirstIsLeast(s, t);
      RestElements(s);
      RestElements(t);
      SortedIsUnique(s[1..], t[1..]);
      assert s == [s[0]] + s[1..] && t == [t[0]] + t[1..];
    }
  }

  lemma FirstIsLeast(s: seq<int>, t: seq<int>)
    requires Sorted(s) && Sorted(t) && multiset(s) == multiset(t) && s != [] && t != []
    ensures s[0] == t[0]
  {
    assert s[0] in multiset(t) && t[0] in multiset(s);
  }

  lemma RestElements(s: seq<int>)
    requires s != []
    ensures multiset(s[1..]) == multiset(s) - multiset{s[0]}
  {
    assert s == [s[0]] + s[1..];
  }

  // ---------------------------------------------------------------------------------------------
  // Rearranging a range.

  /** `after` differs from `before` by a permutation of the positions from l up to but not hi. */
  ghost predicate Rearranged(before: seq<int>, after: seq<int>, l: int, hi: int) {
    && |before| == |after|
    && (forall v :: Count(before, v) == Count(after, v))
    && (forall k | 0 <= k < |before| && !(l <= k < hi) :: after[k] == before[k])
  }

  lemma {:induction false} CountIsMultiplicity(s: seq<int>, v: int)
    ensures Count(s, v) == multiset(s)[v]
  {
    if s != [] {
      CountIsMultiplicity(s[1..], v);
      assert s == [s[0]] + s[1..];
    }
  }

  lemma RearrangedElements(before: seq<int>, after: seq<int>, l: int, hi: int)
    requires Rearranged(before, after, l, hi)
    ensures multiset(before) == multiset(after)
  {
    forall v ensures multiset(before)[v] == multiset(after)[v] {
      CountIsMultiplicity(before, v);
      CountIsMultiplicity(after, v);
    }
  }

  lemma ThreeParts(s: seq<int>, l: int, hi: int)
    requires 0 <= l <= hi <= |s|
    ensures multiset(s) == multiset(s[..l]) + multiset(s[l..hi]) + multiset(s[hi..])
  {
    assert s == s[..l] + s[l..hi] + s[hi..];
  }

  lemma Cancel(p: multiset<int>, a: multiset<int>, b: multiset<int>, q: multiset<int>)
    requires p + a + q == p + b + q
    ensures a == b
  {
    forall v ensures a[v] == b[v] {
      assert (p + a + q)[v] == p[v] + a[v] + q[v];
      assert (p + b + q)[v] == p[v] + b[v] + q[v];
    }
  }

  lemma RearrangedRange(before: seq<int>, after: seq<int>, l: int, hi: int)
    requires Rearranged(before, after, l, hi) && 0 <= l <= hi <= |before|
    ensures multiset(before[l..hi]) == multiset(after[l..hi])
    ensures forall k | l <= k < hi :: after[k] in before[l..hi]
  {
    RearrangedElements(before, after, l, hi);
    ThreeParts(before, l, hi);
    ThreeParts(after, l, hi);
    assert before[..l] == after[..l];
    assert before[hi..] == after[hi..];
    Cancel(multiset(before[..l]), multiset(before[l..hi]), multiset(after[l..hi]), multiset(before[hi..]));
    forall k | l <= k < hi ensures after[k] in before[l..hi] {
      assert after[k] == after[l..hi][k - l];
      assert after[k] in multiset(after[l..hi]);
    }
  }

  function Swapped(s: seq<int>, i: nat, j: nat): seq<int>
    requires i < |s| && j < |s|
  {
    s[i := s[j]][j := s[i]]
  }

  lemma SwapRearranges(was: seq<int>, s: seq<int>, i: nat, j: nat, l: int, hi: int)
    requires Rearranged(was, s, l, hi) && l <= i < hi && l <= j < hi && i < |s| && j < |s|
    ensures Rearranged(was, Swapped(s, i, j), l, hi)
  {
    forall v ensures Count(was, v) == Count(Swapped(s, i, j), v) {
      CountUpdate(s, i, s[j], v);
      CountUpdate(s[i := s[j]], j, s[i], v);
    }
  }

  method Swap(x: array<int>, i: int, j: int)
    requires 0 <= i < x.Length && 0 <= j < x.Length
    modifies x
    ensures x[..] == Swapped(old(x[..]), i, j)
  {
    var t := x[i];
    x[i] := x[j];
    x[j] := t;
  }

  /** Which index each range gets when one is drawn at random; no range is drawn from twice. */
  type Draw = (int, int) -> int

  ghost predicate InRange(draw: Draw) {
    forall l, u | l <= u :: l <= draw(l, u) <= u
  }

  method RandInt(l: int, u: int, draw: Draw) returns (i: int)
    requires l <= u && InRange(draw)
    ensures l <= i <= u && i == draw(l, u)
  {
    i := draw(l, u);
  }

  // ---------------------------------------------------------------------------------------------
  // Partitioning with two scans.

  /** The range l..u is split around position p. */
  ghost predicate SplitAt(s: seq<int>, l: int, p: int, u: int)
    requires 0 <= l <= p <= u < |s|
  {
    (forall k | l <= k < p :: s[k] <= s[p]) && (forall k | p < k <= u :: s[p] <= s[k])
  }

  /** Moves up at least one place, and on past elements below the pivot. */
  method ScanUp(x: array<int>, start: int, u: int, t: int) returns (i: int)
    requires 0 <= start <= u < x.Length
    ensures start < i <= u + 1
    ensures forall k | start < k < i :: x[k] < t
    ensures i <= u ==> t <= x[i]
  {
    i := start + 1;
    while i <= u && x[i] < t
      invariant start < i <= u + 1
      invariant forall k | start < k < i :: x[k] < t
    {
      i := i + 1;
    }
  }

  /**
   * Moves down at least one place, and on past elements above the pivot. The scan has no bound of its
   * own: the pivot kept at x[l] stops it.
   */
  method ScanDown(x: array<int>, start: int, l: int, t: int) returns (j: int)
    requires 0 <= l < start <= x.Length && x[l] == t
    ensures l <= j < start
    ensures forall k | j < k < start :: x[k] > t
    ensures x[j] <= t
  {
    j := start - 1;
    while x[j] > t
      invariant l <= j < start
      invariant forall k | j < k < start :: x[k] > t
      decreases j - l
    {
      j := j - 1;
    }
  }

  /** Swapping the pivot with the last element not above it splits the range there. */
  lemma PivotPlaced(s: seq<int>, l: int, j: int, u: int)
    requires 0 <= l <= j <= u < |s|
    requires forall k | l < k <= j :: s[k] <= s[l]
    requires forall k | j < k <= u :: s[l] <= s[k]
    ensures SplitAt(Swapped(s, l, j), l, j, u) && Swapped(s, l, j)[j] == s[l]
  {
  }

  /** The loop shared by qsort3, qsort4 and nthmin, with the swap that puts the pivot in place. */
  method TwoScans(x: array<int>, l: int, u: int) returns (j: int)
    requires 0 <= l < u < x.Length
    modifies x
    ensures l <= j <= u
    ensures Rearranged(old(x[..]), x[..], l, u + 1) && SplitAt(x[..], l, j, u)
    ensures x[j] == old(x[l])
  {
    ghost var was := x[..];
    var t := x[l];
    var i := l;
    j := u + 1;
    while true
      invariant l <= i <= j <= u + 1 && l < j && i <= u
      invariant x[l] == t
      invariant forall k | l < k <= i :: x[k] <= t
      invariant forall k | j <= k <= u :: t <= x[k]
      invariant Rearranged(was, x[..], l, u + 1)
      decreases u - i
    {
      i := ScanUp(x, i, u, t);
      j := ScanDown(x, j, l, t);
      if i > j {
        break;
      }
      SwapRearranges(was, x[..], i, j, l, u + 1);
      Swap(x, i, j);
    }
    SwapRearranges(was, x[..], l, j, l, u + 1);
    PivotPlaced(x[..], l, j, u);
    Swap(x, l, j);
  }

  /** The start shared by qsort4 and nthmin: the element drawn becomes the pivot. */
  method ScansFromDraw(x: array<int>, l: int, u: int, draw: Draw) returns (j: int)
    requires 0 <= l < u < x.Length && InRange(draw)
    modifies x
    ensures l <= j <= u && l <= draw(l, u) <= u
    ensures Rearranged(old(x[..]), x[..], l, u + 1) && SplitAt(x[..], l, j, u)
    ensures x[j] == old(x[draw(l, u)])
  {
    var r := RandInt(l, u, draw);
    SwapRearranges(x[..], x[..], l, r, l, u + 1);
    Swap(x, l, r);
    j := TwoScans(x, l, u);
  }

  /** Sorting both sides of a split sorts the whole. */
  lemma SplitThenSorted(split: seq<int>, mid: seq<int>, end: seq<int>, l: int, p: int, u: int)
    requires 0 <= l <= p <= u < |split| && SplitAt(split, l, p, u)
    requires Rearranged(split, mid, l, p) && Sorted(mid[l..p])
    requires Rearranged(mid, end, p + 1, u + 1) && Sorted(end[p + 1..u + 1])
    ensures Sorted(end[l..u + 1])
  {
    RearrangedRange(split, mid, l, p);
    RearrangedRange(mid, end, p + 1, u + 1);
    assert end[l..p] == mid[l..p];
    forall k | l <= k < p ensures end[k] <= end[p] {
      assert mid[k] in split[l..p];
    }
    forall k | p < k <= u ensures end[p] <= end[k] {
      assert end[k] in mid[p + 1..u + 1];
    }
    var s := end[l..u + 1];
    forall a, b | 0 <= a < b < |s| ensures s[a] <= s[b] {
      if b < p - l {
        assert s[a] == mid[l..p][a] && s[b] == mid[l..p][b];
      } else if a > p - l {
        assert s[a] == end[p + 1..u + 1][a - (p + 1 - l)] && s[b] == end[p + 1..u + 1][b - (p + 1 - l)];
      }
    }
  }

  method QSort3(x: array<int>, l: int, u: int)
    requires l < u ==> 0 <= l && u < x.Length
    modifies x
    ensures Rearranged(old(x[..]), x[..], l, u + 1)
    ensures l < u ==> Sorted(x[l..u + 1])
    decreases u + 1 - l
  {
    if l >= u {
      return;
    }
    var j := TwoScans(x, l, u);
    ghost var split := x[..];
    QSort3(x, l, j - 1);
    ghost var mid := x[..];
    QSort3(x, j + 1, u);
    SplitThenSorted(split, mid, x[..], l, j, u);
  }

  method QSort4(x: array<int>, l: int, u: int, draw: Draw)
    requires (l < u ==> 0 <= l && u < x.Length) && InRange(draw)
    modifies x
    ensures Rearranged(old(x[..]), x[..], l, u + 1)
    ensures l < u ==> Sorted(x[l..u + 1])
    decreases u + 1 - l
  {
    if l >= u {
      return;
    }
    var j := ScansFromDraw(x, l, u, draw);
    ghost var split := x[..];
    QSort4(x, l, j - 1, draw);
    ghost var mid := x[..];
    QSort4(x, j + 1, u, draw);
    SplitThenSorted(split, mid, x[..], l, j, u);
  }

  // ---------------------------------------------------------------------------------------------
  // Selection.

  datatype Option<T> = None | Some(value: T)

  /** Rearranging one side of a split keeps it a split of the whole around any split of that side. */
  lemma SplitWithin(split: seq<int>, end: seq<int>, l: int, p: int, u: int, k: int)
    requires 0 <= l <= p <= u < |split| && SplitAt(split, l, p, u)
    requires p < k <= u ==> Rearranged(split, end, p + 1, u + 1) && SplitAt(end, p + 1, k, u)
    requires l <= k < p ==> Rearranged(split, end, l, p) && SplitAt(end, l, k, p - 1)
    requires l <= k <= u && k != p
    ensures Rearranged(split, end, l, u + 1) && SplitAt(end, l, k, u)
  {
    if p < k {
      RearrangedRange(split, end, p + 1, u + 1);
      assert end[k] in split[p + 1..u + 1];
      forall i | l <= i < k ensures end[i] <= end[k] {
        if i <= p {
          assert end[i] == split[i] <= split[p];
        }
      }
    } else {
      RearrangedRange(split, end, l, p);
      assert end[k] in split[l..p];
      forall i | k < i <= u ensures end[k] <= end[i] {
        if p <= i {
          assert end[i] == split[i] >= split[p];
        }
      }
    }
  }

  /** One partition: where the pivot came to stand, and the elements afterwards. */
  datatype Cut = Cut(pivot: int, split: seq<int>)

  /**
   * The partitions that lead from `before` to `after` in search of rank k: each splits the range that
   * is left around the element drawn from it, and the search goes on beside the pivot that k lies on.
   */
  ghost predicate IsTrail(trail: seq<Cut>, before: seq<int>, after: seq<int>, l: int, u: int, k: int, draw: Draw)
    decreases |trail|
  {
    if l >= u then trail == [] && after == before
    else
      && 0 <= l && u < |before| && l <= draw(l, u) <= u
      && trail != []
      && l <= trail[0].pivot <= u
      && Rearranged(before, trail[0].split, l, u + 1)
      && SplitAt(trail[0].split, l, trail[0].pivot, u)
      && trail[0].split[trail[0].pivot] == before[draw(l, u)]
      && (if trail[0].pivot == k then |trail| == 1 && after == trail[0].split
          else if trail[0].pivot < k then IsTrail(trail[1..], trail[0].split, after, trail[0].pivot + 1, u, k, draw)
          else IsTrail(trail[1..], trail[0].split, after, l, trail[0].pivot - 1, k, draw))
  }

  /** The search ends at a pivot placed at k; otherwise it ends at a range of fewer than two elements. */
  predicate EndsAt(trail: seq<Cut>, k: int) {
    trail != [] && trail[|trail| - 1].pivot == k
  }

  /** A search for a rank outside the range never ends at it. */
  lemma {:induction false} RankOutside(trail: seq<Cut>, before: seq<int>, after: seq<int>, l: int, u: int, k: int, draw: Draw)
    requires IsTrail(trail, before, after, l, u, k, draw) && !(l <= k <= u)
    ensures !EndsAt(trail, k)
    decreases |trail|
  {
    if l < u {
      var rest, p := trail[1..], trail[0].pivot;
      if p < k {
        RankOutside(rest, trail[0].split, after, p + 1, u, k, draw);
      } else {
        RankOutside(rest, trail[0].split, after, l, p - 1, k, draw);
      }
      assert |trail| > 1 ==> rest[|rest| - 1] == trail[|trail| - 1];
    }
  }

  /** A search beside the first pivot, with that pivot's cut in front. */
  lemma TrailExtended(first: Cut, rest: seq<Cut>, before: seq<int>, after: seq<int>, l: int, u: int, k: int, draw: Draw)
    requires 0 <= l < u < |before| && l <= draw(l, u) <= u && l <= first.pivot <= u && first.pivot != k
    requires Rearranged(before, first.split, l, u + 1) && SplitAt(first.split, l, first.pivot, u)
    requires first.split[first.pivot] == before[draw(l, u)]
    requires first.pivot < k ==> IsTrail(rest, first.split, after, first.pivot + 1, u, k, draw)
    requires first.pivot > k ==> IsTrail(rest, first.split, after, l, first.pivot - 1, k, draw)
    ensures IsTrail([first] + rest, before, after, l, u, k, draw)
    ensures EndsAt([first] + rest, k) <==> EndsAt(rest, k)
  {
    assert ([first] + rest)[1..] == rest;
  }

  /** What a search does to the range follows from its trail. */
  lemma {:induction false} TrailRearranges(trail: seq<Cut>, before: seq<int>, after: seq<int>, l: int, u: int, k: int, draw: Draw)
    requires IsTrail(trail, before, after, l, u, k, draw) && (l == u ==> 0 <= l < |before|)
    ensures Rearranged(before, after, l, u + 1)
    ensures l <= k <= u ==> SplitAt(after, l, k, u)
    decreases |trail|
  {
    if l < u && trail[0].pivot != k {
      var p, split := trail[0].pivot, trail[0].split;
      if p < k {
        TrailRearranges(trail[1..], split, after, p + 1, u, k, draw);
      } else {
        TrailRearranges(trail[1..], split, after, l, p - 1, k, draw);
      }
      if l <= k <= u {
        SplitWithin(split, after, l, p, u, k);
      }
    }
  }

  /**
   * For a rank inside the range, leaves the k-th smallest at x[k]. A value is returned exactly when the
   * search, as the draws lead it, ends at a pivot placed at k, and it is x[k]; when the search runs
   * down to fewer than two elements, nothing is returned.
   */
  method NthMin(x: array<int>, l: int, u: int, k: int, draw: Draw) returns (r: Option<int>, ghost trail: seq<Cut>)
    requires (l <= u ==> 0 <= l && u < x.Length) && InRange(draw)
    modifies x
    ensures Rearranged(old(x[..]), x[..], l, u + 1)
    ensures l <= k <= u ==> SplitAt(x[..], l, k, u)
    ensures IsTrail(trail, old(x[..]), x[..], l, u, k, draw)
    ensures r.Some? <==> EndsAt(trail, k)
    ensures r.Some? ==> l <= k <= u && r.value == x[k]
    decreases u - l
  {
    ghost var was := x[..];
    if l >= u {
      return None, [];
    }
    var j := ScansFromDraw(x, l, u, draw);
    ghost var first := Cut(j, x[..]);
    if j == k {
      trail := [first];
      TrailRearranges(trail, was, x[..], l, u, k, draw);
      return Some(x[j]), trail;
    }
    ghost var rest;
    if j < k {
      r, rest := NthMin(x, j + 1, u, k, draw);
    } else {
      r, rest := NthMin(x, l, j - 1, k, draw);
    }
    TrailExtended(first, rest, was, x[..], l, u, k, draw);
    trail := [first] + rest;
    TrailRearranges(trail, was, x[..], l, u, k, draw);
  }

  /** Draws that miss: of two elements in order, the larger drawn first leaves nothing to return for rank 0. */
  method SmallerOfTwoIsNotReturned(x: array<int>) returns (r: Option<int>)
    requires x[..] == [1, 2]
    modifies x
    ensures r.None? && x[0] == 1
  {
    ghost var trail;
    r, trail := NthMin(x, 0, 1, 0, (l, u) => u);
    OnlyArrangement(trail[0].split, trail[0].pivot);
    OnlyArrangement(x[..], 0);
  }

  lemma OnlyArrangement(s: seq<int>, p: int)
    requires Rearranged([1, 2], s, 0, 2) && 0 <= p <= 1 && SplitAt(s, 0, p, 1)
    ensures s == [1, 2]
  {
    assert s == [s[0], s[1]];
    RearrangedElements([1, 2], s, 0, 2);
    assert s[0] in multiset([1, 2]) && s[1] in multiset([1, 2]);
    assert multiset(s)[1] == multiset([1, 2])[1] == 1;
  }

  /** Sorting keeps the elements, hence any bound on them. */
  lemma SortOfBounds(s: seq<int>, v: int)
    ensures (forall w | w in s :: w <= v) ==> forall w | w in SortOf(s) :: w <= v
    ensures (forall w | w in s :: v <= w) ==> forall w | w in SortOf(s) :: v <= w
  {
    SortOfSorts(s);
    forall w | w in SortOf(s) ensures w in s {
      assert w in multiset(SortOf(s));
    }
  }

  lemma SortedAround(l: seq<int>, v: int, r: seq<int>)
    requires Sorted(l) && Sorted(r)
    requires (forall w | w in l :: w <= v) && (forall w | w in r :: v <= w)
    ensures Sorted(l + [v] + r)
  {
    var s := l + [v] + r;
    forall i, j | 0 <= i < j < |s| ensures s[i] <= s[j] {
      assert i < |l| ==> s[i] in l;
      assert j > |l| ==> s[j] in r;
    }
  }

  lemma SplitSorted(left: seq<int>, v: int, right: seq<int>)
    requires forall w | w in left :: w <= v
    requires forall w | w in right :: v <= w
    ensures SortOf(left + [v] + right) == SortOf(left) + [v] + SortOf(right)
  {
    SortOfSorts(left);
    SortOfSorts(right);
    SortOfSorts(left + [v] + right);
    SortOfBounds(left, v);
    SortOfBounds(right, v);
    SortedAround(SortOf(left), v, SortOf(right));
    SortedIsUnique(SortOf(left) + [v] + SortOf(right), SortOf(left + [v] + right));
  }

  lemma SortOfRearranged(s: seq<int>, t: seq<int>)
    requires multiset(s) == multiset(t)
    ensures SortOf(s) == SortOf(t)
  {
    SortOfSorts(s);
    SortOfSorts(t);
    SortedIsUnique(SortOf(s), SortOf(t));
  }

  /** An element that splits its range is what sorting the range would put in its place. */
  lemma SplitIsOrderStatistic(before: seq<int>, after: seq<int>, l: int, k: int, u: int)
    requires 0 <= l <= k <= u < |after|
    requires Rearranged(before, after, l, u + 1) && SplitAt(after, l, k, u)
    ensures |SortOf(before[l..u + 1])| == u + 1 - l
    ensures after[k] == SortOf(before[l..u + 1])[k - l]
  {
    RearrangedRange(before, after, l, u + 1);
    var left, right := after[l..k], after[k + 1..u + 1];
    SplitSorted(left, after[k], right);
    assert after[l..u + 1] == left + [after[k]] + right;
    SortOfRearranged(before[l..u + 1], after[l..u + 1]);
    SortOfSorts(left);
    SortOfSorts(before[l..u + 1]);
  }

  /** Any rearrangement of a range that sorts it is the sorted range. */
  lemma SortedRangeIsSortOf(before: seq<int>, after: seq<int>, l: int, hi: int)
    requires Rearranged(before, after, l, hi) && 0 <= l <= hi <= |before| && Sorted(after[l..hi])
    ensures after[l..hi] == SortOf(before[l..hi])
  {
    RearrangedRange(before, after, l, hi);
    SortOfSorts(before[l..hi]);
    SortedIsUnique(after[l..hi], SortOf(before[l..hi]));
  }

  // ---------------------------------------------------------------------------------------------
  // Partitioning with one scan.

  method Partition(x: array<int>, l: int, u: int) returns (m: int)
    requires 0 <= l <= u < x.Length
    modifies x
    ensures l <= m <= u
    ensures Rearranged(old(x[..]), x[..], l, u + 1) && SplitAt(x[..], l, m, u)
    ensures x[m] == old(x[l])
  {
    ghost var was := x[..];
    m := l;
    var t := x[l];
    var i := l + 1;
    while i <= u
      invariant l <= m < i <= u + 1
      invariant x[l] == t
      invariant forall k | l < k <= m :: x[k] < t
      invariant forall k | m < k < i :: t <= x[k]
      invariant Rearranged(was, x[..], l, u + 1)
    {
      if x[i] < t {
        m := m + 1;
        SwapRearranges(was, x[..], m, i, l, u + 1);
        Swap(x, m, i);
      }
      i := i + 1;
    }
    SwapRearranges(was, x[..], l, m, l, u + 1);
    PivotPlaced(x[..], l, m, u);
    Swap(x, l, m);
  }

  method QSort1(x: array<int>, l: int, u: int)
    requires l < u ==> 0 <= l && u < x.Length
    modifies x
    ensures Rearranged(old(x[..]), x[..], l, u + 1)
    ensures l < u ==> Sorted(x[l..u + 1])
    decreases u + 1 - l
  {
    if l >= u {
      return;
    }
    var p := Partition(x, l, u);
    ghost var split := x[..];
    QSort1(x, l, p - 1);
    ghost var mid := x[..];
    QSort1(x, p + 1, u);
    SplitThenSorted(split, mid, x[..], l, p, u);
  }

  // ---------------------------------------------------------------------------------------------
  // Insertion sorts.

  method ISort1(x: array<int>, n: int)
    requires 0 <= n <= x.Length
    modifies x
    ensures Rearranged(old(x[..]), x[..], 0, n) && Sorted(x[..n])
  {
    ghost var was := x[..];
    var i := 1;
    while i < n
      invariant 1 <= i && (i <= n || i == 1)
      invariant forall a, b | 0 <= a < b < i && b < n :: x[a] <= x[b]
      invariant Rearranged(was, x[..], 0, n)
    {
      var j := i;
      while j > 0 && x[j - 1] > x[j]
        invariant 0 <= j <= i
        invariant forall a, b | 0 <= a < b <= i && b != j :: x[a] <= x[b]
        invariant Rearranged(was, x[..], 0, n)
      {
        SwapRearranges(was, x[..], j - 1, j, 0, n);
        Swap(x, j - 1, j);
        j := j - 1;
      }
      i := i + 1;
    }
  }

  /** All but position j of s[..i + 1] is in order, and what is behind j exceeds t, which belongs at j or before. */
  ghost predicate OpenAt(s: seq<int>, j: int, i: int, t: int) {
    && 0 <= j <= i < |s|
    && s[j] == t
    && (forall a, b | 0 <= a < b <= i && b != j && a != j :: s[a] <= s[b])
    && (forall b | j < b <= i :: t < s[b])
  }

  lemma ShiftStep(s: seq<int>, j: int, i: int, t: int)
    requires OpenAt(s, j, i, t) && j > 0 && s[j - 1] > t
    ensures OpenAt(Swapped(s, j, j - 1), j - 1, i, t)
  {
  }

  lemma ShiftDone(s: seq<int>, j: int, i: int, t: int)
    requires OpenAt(s, j, i, t) && (j > 0 ==> s[j - 1] <= t)
    ensures Sorted(s[..i + 1])
  {
    forall a, b | 0 <= a < b <= i ensures s[a] <= s[b] {
      assert b == j && a < j - 1 ==> s[a] <= s[j - 1];
    }
  }

  /** One insertion that shifts instead of swapping; `t` is the value whose place is open. */
  method ShiftIn(x: array<int>, i: int)
    requires 0 < i < x.Length && Sorted(x[..i])
    modifies x
    ensures Rearranged(old(x[..]), x[..], 0, i + 1) && Sorted(x[..i + 1])
  {
    ghost var was := x[..];
    ghost var now := was;
    assert forall a, b | 0 <= a < b < i :: x[..i][a] <= x[..i][b];
    var t := x[i];
    var j := i;
    while j > 0 && x[j - 1] > t
      invariant |now| == x.Length && OpenAt(now, j, i, t)
      invariant forall k | 0 <= k < x.Length && k != j :: x[k] == now[k]
      invariant Rearranged(was, now, 0, i + 1)
    {
      SwapRearranges(was, now, j, j - 1, 0, i + 1);
      ShiftStep(now, j, i, t);
      now := Swapped(now, j, j - 1);
      x[j] := x[j - 1];
      j := j - 1;
    }
    x[j] := t;
    assert x[..] == now;
    ShiftDone(now, j, i, t);
  }

  method ISort3(x: array<int>, n: int)
    requires 0 <= n <= x.Length
    modifies x
    ensures Rearranged(old(x[..]), x[..], 0, n) && Sorted(x[..n])
  {
    var i := 1;
    while i < n
      invariant 1 <= i && (i <= n || i == 1)
      invariant i <= n ==> Sorted(x[..i])
      invariant Rearranged(old(x[..]), x[..], 0, n)
    {
      ShiftIn(x, i);
      i := i + 1;
    }
  }
}
