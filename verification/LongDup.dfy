/** The longest string that occurs M + 1 times, found in a sorted suffix array (longdup.c). */
module LongestDuplicate {

  type Byte = x: int | 0 <= x < 256

  /** The text as stored: its bytes followed by a terminating zero. */
  function Buffer(text: seq<Byte>): (r: seq<Byte>)
    ensures |r| == |text| + 1 && r[|text|] == 0
  {
    text + [0]
  }

  ghost predicate Terminated(buf: seq<Byte>) {
    |buf| > 0 && buf[|buf| - 1] == 0
  }

  /** The C string that starts at p: everything up to the first zero byte. */
  function StringAt(buf: seq<Byte>, p: nat): seq<Byte>
    requires Terminated(buf) && p < |buf|
    decreases |buf| - p
  {
    if buf[p] == 0 then [] else [buf[p]] + StringAt(buf, p + 1)
  }

  function CommonLength(s: seq<Byte>, t: seq<Byte>): nat {
    if s == [] || t == [] || s[0] != t[0] then 0 else 1 + CommonLength(s[1..], t[1..])
  }

  /** strcmp(s, t) <= 0 for zero-free s and t. */
  predicate Leq(s: seq<Byte>, t: seq<Byte>) {
    s == [] || (t != [] && (s[0] < t[0] || (s[0] == t[0] && Leq(s[1..], t[1..]))))
  }

  /** The two walking pointers, which stop at a mismatch or at the end of the first string. */
  method ComLen(buf: seq<Byte>, first: nat, second: nat) returns (i: nat)
    requires Terminated(buf) && first < |buf| && second < |buf|
    ensures i == CommonLength(StringAt(buf, first), StringAt(buf, second))
  {
    var p: nat, q: nat := first, second;
    i := 0;
    var equal := true;
    while equal && buf[p] != 0
      invariant p <= |buf| && q <= |buf|
      invariant equal ==> p < |buf| && q < |buf|
      invariant equal ==> i + CommonLength(StringAt(buf, p), StringAt(buf, q)) ==
                          CommonLength(StringAt(buf, first), StringAt(buf, second))
      invariant !equal ==> i == CommonLength(StringAt(buf, first), StringAt(buf, second))
      decreases equal, |buf| - p
    {
      equal := buf[p] == buf[q];
      p, q := p + 1, q + 1;
      if equal {
        i := i + 1;
      }
    }
  }

  /** What qsort with pstrcmp leaves in `a`: every start position once, in string order. */
  ghost predicate SuffixArray(text: seq<Byte>, a: seq<nat>) {
    && |a| == |text|
    && (forall i | 0 <= i < |a| :: a[i] < |text|)
    && (forall i, j | 0 <= i < j < |a| :: a[i] != a[j])
    && (forall i, j | 0 <= i < j < |a| ::
          Leq(StringAt(Buffer(text), a[i]), StringAt(Buffer(text), a[j])))
  }

  /** A zero-free w occurs in the text at position p. */
  predicate OccursAt(text: seq<Byte>, w: seq<Byte>, p: nat) {
    p + |w| <= |text| && text[p..p + |w|] == w
  }

  function Occurrences(text: seq<Byte>, w: seq<Byte>): set<nat> {
    set p: nat | p < |text| && OccursAt(text, w, p)
  }

  /** A zero-free w occurs at M + 1 positions or more, overlapping or not. */
  ghost predicate Repeated(text: seq<Byte>, w: seq<Byte>, m: nat) {
    0 !in w && |Occurrences(text, w)| >= m + 1
  }

  // ---------------------------------------------------------------------------------------------
  // Strings.

  /** For zero-free w, occurring at p is being a prefix of the C string there. */
  lemma {:induction false} OccursIffPrefix(text: seq<Byte>, w: seq<Byte>, p: nat)
    requires p <= |text| && 0 !in w
    ensures OccursAt(text, w, p) <==> w <= StringAt(Buffer(text), p)
    decreases |w|
  {
    var buf := Buffer(text);
    if w != [] {
      if p + |w| <= |text| {
        assert text[p..p + |w|][0] == text[p];
      }
      if p == |text| || text[p] == 0 {
        assert !(w <= StringAt(buf, p));
      } else {
        OccursIffPrefix(text, w[1..], p + 1);
        assert OccursAt(text, w, p) <==> text[p] == w[0] && OccursAt(text, w[1..], p + 1) by {
          if OccursAt(text, w, p) {
            assert text[p..p + |w|][1..] == w[1..];
          }
          if text[p] == w[0] && OccursAt(text, w[1..], p + 1) {
            assert text[p..p + |w|] == [text[p]] + text[p + 1..p + |w|];
          }
        }
        var t := StringAt(buf, p);
        assert t[1..] == StringAt(buf, p + 1);
        assert w <= t <==> w[0] == t[0] && w[1..] <= t[1..];
      }
    }
  }

  lemma {:induction false} StringHasNoZero(buf: seq<Byte>, p: nat)
    requires Terminated(buf) && p < |buf|
    ensures 0 !in StringAt(buf, p)
    decreases |buf| - p
  {
    if buf[p] != 0 {
      StringHasNoZero(buf, p + 1);
    }
  }

  /** The common length is the length of the longest common prefix. */
  lemma {:induction false} CommonLengthIsLongest(s: seq<Byte>, t: seq<Byte>)
    ensures CommonLength(s, t) <= |s| && CommonLength(s, t) <= |t|
    ensures s[..CommonLength(s, t)] <= t
    ensures forall w :: w <= s && w <= t ==> |w| <= CommonLength(s, t)
  {
    if s != [] && t != [] && s[0] == t[0] {
      CommonLengthIsLongest(s[1..], t[1..]);
      var n := CommonLength(s[1..], t[1..]);
      assert s[..n + 1] == [s[0]] + s[1..][..n];
      forall w | w <= s && w <= t ensures |w| <= CommonLength(s, t) {
        if w != [] {
          assert w[1..] <= s[1..] && w[1..] <= t[1..];
        }
      }
    } else {
      forall w | w != [] && w <= t ensures w[0] == t[0] {
      }
      forall w | w != [] && w <= s ensures w[0] == s[0] {
      }
    }
  }

  /** A string between two others in the order shares every prefix they share. */
  lemma {:induction false} Sandwich(s: seq<Byte>, t: seq<Byte>, u: seq<Byte>, w: seq<Byte>)
    requires Leq(s, t) && Leq(t, u) && w <= s && w <= u
    ensures w <= t
  {
    if w != [] {
      assert w[0] == s[0] == u[0];
      Sandwich(s[1..], t[1..], u[1..], w[1..]);
    }
  }

  // ---------------------------------------------------------------------------------------------
  // Sets of positions.

  lemma {:induction false} ImageIsSmaller(a: seq<nat>, ks: set<nat>)
    requires forall k | k in ks :: k < |a|
    ensures |set k | k in ks :: a[k]| <= |ks|
    decreases ks
  {
    var image := set k | k in ks :: a[k];
    if ks == {} {
      assert image == {};
    } else {
      var k :| k in ks;
      var rest := set j | j in ks - {k} :: a[j];
      ImageIsSmaller(a, ks - {k});
      assert image == rest + {a[k]};
    }
  }

  lemma {:induction false} SliceIsSet(a: seq<nat>, i: nat, n: nat)
    requires i + n <= |a|
    requires forall j, k | 0 <= j < k < |a| :: a[j] != a[k]
    ensures |set k | i <= k < i + n :: a[k]| == n
  {
    var image := set k | i <= k < i + n :: a[k];
    if n == 0 {
      assert image == {};
    } else {
      SliceIsSet(a, i, n - 1);
      var rest := set k | i <= k < i + n - 1 :: a[k];
      assert image == rest + {a[i + n - 1]};
    }
  }

  lemma {:induction false} IntervalBound(ks: set<nat>, lo: nat, n: nat)
    requires forall k | k in ks :: lo <= k < lo + n
    ensures |ks| <= n
    decreases n
  {
    if n == 0 {
      assert ks == {};
    } else {
      IntervalBound(ks - {lo + n - 1}, lo, n - 1);
      assert |ks| <= |ks - {lo + n - 1}| + 1;
    }
  }

  lemma {:induction false} Least(ks: set<nat>) returns (lo: nat)
    requires ks != {}
    ensures lo in ks && forall k | k in ks :: lo <= k
    decreases ks
  {
    var first :| first in ks;
    lo := first;
    if k :| k in ks && k < first {
      var below := set j | j in ks && j < first;
      assert k in below && first !in below;
      assert below < ks;
      lo := Least(below);
      assert forall j | j in ks :: j < first ==> j in below;
    }
  }

  // ---------------------------------------------------------------------------------------------
  // The scan.

  function At(text: seq<Byte>, a: seq<nat>, i: nat): seq<Byte>
    requires SuffixArray(text, a) && i < |a|
  {
    StringAt(Buffer(text), a[i])
  }

  function Neighbours(text: seq<Byte>, a: seq<nat>, m: nat, i: nat): nat
    requires SuffixArray(text, a) && i + m < |a|
  {
    CommonLength(At(text, a, i), At(text, a, i + m))
  }

  /** A common prefix of two entries is a prefix of every entry between them. */
  lemma SharedBetween(text: seq<Byte>, a: seq<nat>, i: nat, j: nat, k: nat, w: seq<Byte>)
    requires SuffixArray(text, a) && i <= j <= k < |a|
    requires w <= At(text, a, i) && w <= At(text, a, k)
    ensures w <= At(text, a, j)
  {
    if i < j < k {
      Sandwich(At(text, a, i), At(text, a, j), At(text, a, k), w);
    }
  }

  /** Entries i and i + M share a prefix only by giving it M + 1 occurrences. */
  lemma NeighboursRepeat(text: seq<Byte>, a: seq<nat>, m: nat, i: nat)
    requires SuffixArray(text, a) && i + m < |a|
    ensures Neighbours(text, a, m, i) <= |At(text, a, i)|
    ensures Repeated(text, At(text, a, i)[..Neighbours(text, a, m, i)], m)
  {
    var s, u := At(text, a, i), At(text, a, i + m);
    CommonLengthIsLongest(s, u);
    var w := s[..CommonLength(s, u)];
    StringHasNoZero(Buffer(text), a[i]);
    PrefixOfAll(text, a, m, i, w);
  }

  lemma PrefixOfAll(text: seq<Byte>, a: seq<nat>, m: nat, i: nat, w: seq<Byte>)
    requires SuffixArray(text, a) && i + m < |a| && 0 !in w
    requires w <= At(text, a, i) && w <= At(text, a, i + m)
    ensures Repeated(text, w, m)
  {
    var slice := set k | i <= k < i + (m + 1) :: a[k];
    SliceIsSet(a, i, m + 1);
    forall k | i <= k < i + (m + 1) ensures a[k] in Occurrences(text, w) {
      SharedBetween(text, a, i, k, i + m, w);
      OccursIffPrefix(text, w, a[k]);
    }
    Subset(slice, Occurrences(text, w));
  }

  lemma Subset(small: set<nat>, large: set<nat>)
    requires small <= large
    ensures |small| <= |large|
  {
    assert large == small + (large - small);
  }

  function EntriesWith(text: seq<Byte>, a: seq<nat>, w: seq<Byte>): set<nat>
    requires SuffixArray(text, a)
  {
    set k: nat | k < |a| && w <= At(text, a, k)
  }

  /** Every occurrence is at some entry. */
  lemma OccurrencesAreEntries(text: seq<Byte>, a: seq<nat>, w: seq<Byte>)
    requires SuffixArray(text, a) && 0 !in w
    ensures |Occurrences(text, w)| <= |EntriesWith(text, a, w)|
  {
    var ks := EntriesWith(text, a, w);
    var image := set k | k in ks :: a[k];
    forall p | p in Occurrences(text, w) ensures p in image {
      var k := PositionOf(text, a, p);
      OccursIffPrefix(text, w, p);
      assert k in ks;
    }
    Subset(Occurrences(text, w), image);
    ImageIsSmaller(a, ks);
  }

  /** More than m numbers lie more than m - 1 apart. */
  lemma FarApart(ks: set<nat>, m: nat) returns (i: nat, k: nat)
    requires |ks| >= m + 1
    ensures i in ks && k in ks && i + m <= k
  {
    i := Least(ks);
    if forall k | k in ks :: k < i + m {
      IntervalBound(ks, i, m);
      assert false;
    } else {
      k :| k in ks && k >= i + m;
    }
  }

  /** A string with M + 1 occurrences is a prefix of two entries that are M apart. */
  lemma RepeatHasNeighbours(text: seq<Byte>, a: seq<nat>, m: nat, w: seq<Byte>) returns (i: nat)
    requires SuffixArray(text, a) && Repeated(text, w, m)
    ensures i + m < |a| && |w| <= Neighbours(text, a, m, i)
  {
    OccurrencesAreEntries(text, a, w);
    var k;
    i, k := FarApart(EntriesWith(text, a, w), m);
    SharedBetween(text, a, i, i + m, k, w);
    NeighboursShare(text, a, m, i, w);
  }

  lemma NeighboursShare(text: seq<Byte>, a: seq<nat>, m: nat, i: nat, w: seq<Byte>)
    requires SuffixArray(text, a) && i + m < |a| && w <= At(text, a, i) && w <= At(text, a, i + m)
    ensures |w| <= Neighbours(text, a, m, i)
  {
    CommonLengthIsLongest(At(text, a, i), At(text, a, i + m));
  }

  /** Distinct positions below n fill an array of n entries. */
  lemma PositionOf(text: seq<Byte>, a: seq<nat>, p: nat) returns (k: nat)
    requires SuffixArray(text, a) && p < |text|
    ensures k < |a| && a[k] == p
  {
    if k' :| 0 <= k' < |a| && a[k'] == p {
      k := k';
    } else {
      var image := set k | 0 <= k < 0 + |a| :: a[k];
      SliceIsSet(a, 0, |a|);
      assert p !in image;
      var all := image + {p};
      IntervalBound(all, 0, |text|);
      assert false;
    }
  }

  /**
   * The loop of main. For more than M bytes the result is the greatest length of a string that
   * occurs at M + 1 or more positions, and position a[maxi] is where one such string is printed
   * from; otherwise the loop finds nothing and leaves -1.
   */
  method Scan(text: seq<Byte>, a: seq<nat>, m: nat) returns (maxlen: int, maxi: nat)
    requires SuffixArray(text, a)
    ensures |text| <= m ==> maxlen == -1
    ensures |text| > m ==>
              && maxi < |a|
              && 0 <= maxlen <= |At(text, a, maxi)|
              && Repeated(text, At(text, a, maxi)[..maxlen], m)
    ensures |text| > m ==> forall w | Repeated(text, w, m) :: |w| <= maxlen
  {
    var buf := Buffer(text);
    maxlen := -1;
    maxi := 0;
    var i := 0;
    while i < |a| - m
      invariant 0 <= i && (i <= |a| - m || i == 0)
      invariant i == 0 ==> maxlen == -1
      invariant i > 0 ==> maxi < i && maxlen == Neighbours(text, a, m, maxi)
      invariant forall k: nat | k < i :: Neighbours(text, a, m, k) <= maxlen
    {
      var length := ComLen(buf, a[i], a[i + m]);
      assert length == Neighbours(text, a, m, i);
      if length > maxlen {
        maxlen := length;
        maxi := i;
      }
      i := i + 1;
    }
    if |text| > m {
      NeighboursRepeat(text, a, m, maxi);
      forall w | Repeated(text, w, m) ensures |w| <= maxlen {
        var k := RepeatHasNeighbours(text, a, m, w);
      }
    }
  }
}
