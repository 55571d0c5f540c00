/** The elimination ring of josephus.c, and the same over the node pool of mylist.c (josephus2.c). */
module JosephusRing {

  // ---------------------------------------------------------------------------------------------
  // The elimination on sequences. A circle is read from the node after the current one.

  function Rotate<T>(c: seq<T>, k: nat): (r: seq<T>)
    ensures |r| == |c|
    decreases k
  {
    if k == 0 || c == [] then c else Rotate(c[1..] + [c[0]], k - 1)
  }

  /** What is printed: pass over `steps`, take the next one out, and finally print the last one. */
  function Eliminate(c: seq<int>, steps: nat): seq<int>
    decreases |c|
  {
    if |c| <= 1 then c
    else
      var r := Rotate(c, steps);
      [r[0]] + Eliminate(r[1..], steps)
  }

  function Numbers(n: nat): seq<int> {
    seq(n, i => i + 1)
  }

  /** The number of single moves the counting loop makes. */
  function Steps(m: int): nat {
    if m > 1 then m - 1 else 0
  }

  /** The classical recurrence for the index of the survivor. */
  function Survivor(n: nat, m: nat): nat
    requires n >= 1
  {
    if n == 1 then 0 else (Survivor(n - 1, m) + m) % n
  }

  lemma Multiple(n: int, k: int)
    requires n > 0
    ensures k > 0 ==> n * k >= n
    ensures k < 0 ==> n * k <= -n
  {
    if k > 0 {
      assert n * k >= n * 1;
    } else if k < 0 {
      assert n * k <= n * (-1);
    }
  }

  lemma RemainderIsUnique(x: int, n: int, q: int, r: int)
    requires n > 0 && x == n * q + r && 0 <= r < n
    ensures x % n == r
  {
    var p, s := x / n, x % n;
    assert x == n * p + s;
    assert n * (p - q) == r - s;
    Multiple(n, p - q);
  }

  /** The remainder of the successor. */
  lemma NextRemainder(x: nat, n: nat)
    requires n > 0
    ensures (x + 1) % n == if x % n + 1 == n then 0 else x % n + 1
  {
    var q, r := x / n, x % n;
    assert x == n * q + r;
    if r + 1 < n {
      RemainderIsUnique(x + 1, n, q, r + 1);
    } else {
      assert n * q + n == n * (q + 1);
      RemainderIsUnique(x + 1, n, q + 1, 0);
    }
  }

  lemma {:induction false} RotateAt<T>(c: seq<T>, k: nat, i: nat)
    requires i < |c|
    ensures 0 <= (i + k) % |c| < |c| && Rotate(c, k)[i] == c[(i + k) % |c|]
    decreases k
  {
    if k > 0 {
      RotateAt(c[1..] + [c[0]], k - 1, i);
      NextRemainder(i + k - 1, |c|);
    }
  }

  lemma {:induction false} RotateElements(c: seq<int>, k: nat)
    ensures multiset(Rotate(c, k)) == multiset(c)
    decreases k
  {
    if k > 0 && c != [] {
      RotateElements(c[1..] + [c[0]], k - 1);
      assert c == [c[0]] + c[1..];
    }
  }

  /** Every number of the circle is printed exactly once. */
  lemma {:induction false} EliminatesEachOnce(c: seq<int>, steps: nat)
    ensures multiset(Eliminate(c, steps)) == multiset(c)
    decreases |c|
  {
    if |c| > 1 {
      var r := Rotate(c, steps);
      RotateElements(c, steps);
      EliminatesEachOnce(r[1..], steps);
      assert r == [r[0]] + r[1..];
    }
  }

  /** One number printed, and what is left to print. */
  lemma EliminateStep(printed: seq<int>, c: seq<int>, steps: nat)
    requires |c| > 1
    ensures var r := Rotate(c, steps);
            printed + Eliminate(c, steps) == (printed + [r[0]]) + Eliminate(r[1..], steps)
  {
  }

  /** The last number printed is the one the recurrence names. */
  lemma {:induction false} LastIsSurvivor(c: seq<int>, m: nat)
    requires |c| >= 1 && m >= 1
    ensures Survivor(|c|, m) < |c| && Eliminate(c, m - 1) != []
    ensures var out := Eliminate(c, m - 1); out[|out| - 1] == c[Survivor(|c|, m)]
    decreases |c|
  {
    if |c| > 1 {
      var r := Rotate(c, m - 1);
      LastIsSurvivor(r[1..], m);
      var s := Survivor(|c| - 1, m);
      RotateAt(c, m - 1, s + 1);
      assert s + 1 + (m - 1) == s + m;
      assert r[1..][s] == r[s + 1] == c[Survivor(|c|, m)];
    }
  }

  /** Which of n numbers is taken out as the i-th, by the recurrence over smaller circles. */
  function PlaceOf(n: nat, m: nat, i: nat): int
    requires i < n && m >= 1
    decreases n
  {
    if i == 0 then (m - 1) % n else (PlaceOf(n - 1, m, i - 1) + m) % n
  }

  lemma {:induction false} EliminateLength(c: seq<int>, steps: nat)
    ensures |Eliminate(c, steps)| == |c|
    decreases |c|
  {
    if |c| > 1 {
      EliminateLength(Rotate(c, steps)[1..], steps);
    }
  }

  /** The whole order of elimination. */
  lemma {:induction false} EliminatedAt(c: seq<int>, m: nat, i: nat)
    requires i < |c| && m >= 1
    ensures 0 <= PlaceOf(|c|, m, i) < |c| && |Eliminate(c, m - 1)| == |c|
    ensures Eliminate(c, m - 1)[i] == c[PlaceOf(|c|, m, i)]
    decreases |c|
  {
    EliminateLength(c, m - 1);
    if |c| > 1 {
      var r := Rotate(c, m - 1);
      if i == 0 {
        RotateAt(c, m - 1, 0);
      } else {
        EliminatedAt(r[1..], m, i - 1);
        var p := PlaceOf(|c| - 1, m, i - 1);
        RotateAt(c, m - 1, p + 1);
        assert p + 1 + (m - 1) == p + m;
        assert r[1..][p] == r[p + 1];
      }
    } else {
      assert (m - 1) % 1 == 0;
    }
  }

  /** For N, M >= 1: each of 1 to N once, and J(N) + 1 last. */
  lemma JosephusResult(n: nat, m: nat)
    requires n >= 1 && m >= 1
    ensures var out := Eliminate(Numbers(n), Steps(m));
            && |out| == n
            && (forall i | 0 <= i < n :: out[i] == PlaceOf(n, m, i) + 1)
            && multiset(out) == multiset(Numbers(n))
            && out[|out| - 1] == Survivor(n, m) + 1
  {
    EliminatesEachOnce(Numbers(n), Steps(m));
    LastIsSurvivor(Numbers(n), m);
    EliminateLength(Numbers(n), Steps(m));
    forall i | 0 <= i < n ensures Eliminate(Numbers(n), Steps(m))[i] == PlaceOf(n, m, i) + 1 {
      EliminatedAt(Numbers(n), m, i);
    }
  }

  // ---------------------------------------------------------------------------------------------
  // Circular lists in the heap.

  class Node {
    var item: int
    var next: Node?

    constructor ()
      ensures next == null
    {
      item := 0;
      next := null;
    }
  }

  /** `c` is a whole circle; the current node is its last one. */
  ghost predicate Circle(c: seq<Node>)
    reads c
  {
    && |c| > 0
    && (forall i, j | 0 <= i < j < |c| :: c[i] != c[j])
    && (forall i | 0 <= i < |c| - 1 :: c[i].next == c[i + 1])
    && c[|c| - 1].next == c[0]
  }

  ghost function Items(c: seq<Node>): (r: seq<int>)
    reads c
    ensures |r| == |c|
  {
    seq(|c|, i requires 0 <= i < |c| reads c => c[i].item)
  }

  /** A chain through c, on to d and back to its first node is a circle. */
  lemma CircleGrows(c: seq<Node>, d: Node)
    requires |c| > 0 && d !in c
    requires forall i, j | 0 <= i < j < |c| :: c[i] != c[j]
    requires forall i | 0 <= i < |c| - 1 :: c[i].next == c[i + 1]
    requires c[|c| - 1].next == d && d.next == c[0]
    ensures Circle(c + [d])
  {
  }

  /** What is left when the last node points past the first. */
  lemma CircleShrinks(c: seq<Node>)
    requires |c| > 1
    requires forall i, j | 0 <= i < j < |c| :: c[i] != c[j]
    requires forall i | 0 <= i < |c| - 1 :: c[i].next == c[i + 1]
    requires c[|c| - 1].next == c[1]
    ensures Circle(c[1..])
  {
  }

  lemma NumberedItems(c: seq<Node>)
    requires forall k | 0 <= k < |c| :: c[k].item == k + 1
    ensures Items(c) == Numbers(|c|)
  {
  }

  lemma ItemsAfterFirst(r: seq<Node>, items: seq<int>)
    requires |r| > 0 && |items| == |r| && forall k | 0 <= k < |r| :: r[k].item == items[k]
    ensures [r[0].item] + Items(r[1..]) == items
  {
  }

  lemma CircleIsSingle(c: seq<Node>)
    requires Circle(c)
    ensures c[|c| - 1].next == c[|c| - 1] <==> |c| == 1
  {
  }

  lemma {:induction false} RotateCircle(c: seq<Node>, k: nat)
    requires Circle(c)
    ensures Circle(Rotate(c, k)) && Items(Rotate(c, k)) == Rotate(Items(c), k)
    ensures forall n :: n in Rotate(c, k) <==> n in c
    decreases k
  {
    if k > 0 {
      var d := c[1..] + [c[0]];
      assert c == [c[0]] + c[1..];
      assert Items(d) == Items(c)[1..] + [Items(c)[0]];
      RotateCircle(d, k - 1);
    }
  }

  lemma {:induction false} RotateOnce<T>(c: seq<T>, k: nat)
    requires c != []
    ensures Rotate(c, k + 1) == Rotate(c, k)[1..] + [Rotate(c, k)[0]]
    decreases k
  {
    if k > 0 {
      RotateOnce(c[1..] + [c[0]], k - 1);
    }
  }

  /** The counting loop: moves the current node on once for each i from 1 to M - 1. */
  method Advance(start: Node, m: int, ghost c: seq<Node>) returns (x: Node)
    requires Circle(c) && start == c[|c| - 1]
    ensures Circle(Rotate(c, Steps(m))) && x == Rotate(c, Steps(m))[|c| - 1]
    ensures Items(Rotate(c, Steps(m))) == Rotate(Items(c), Steps(m))
    ensures forall n :: n in Rotate(c, Steps(m)) <==> n in c
  {
    x := start;
    var i := 1;
    while i < m
      invariant i >= 1 && (i <= m || i == 1)
      invariant x == Rotate(c, i - 1)[|c| - 1]
    {
      RotateCircle(c, i - 1);
      RotateOnce(c, i - 1);
      x := x.next;
      i := i + 1;
    }
    RotateCircle(c, Steps(m));
  }

  method InsertNext(x: Node, t: Node)
    requires x != t
    modifies x`next, t`next
    ensures x.next == t && t.next == old(x.next)
  {
    t.next := x.next;
    x.next := t;
  }

  method DeleteNext(x: Node) returns (t: Node)
    requires x.next != null
    modifies x`next
    ensures t == old(x.next) && x.next == old(x.next.next)
    ensures t != x ==> t.next == old(x.next.next)
  {
    t := x.next;
    x.next := t.next;
  }

  /** The construction loop of josephus.c; below 1, N counts as 1. */
  method Build(n: int) returns (x: Node, ghost c: seq<Node>)
    ensures Circle(c) && x == c[|c| - 1] && fresh(c)
    ensures Items(c) == Numbers(if n >= 1 then n else 1)
  {
    var t := new Node();
    x := t;
    t.item := 1;
    t.next := t;
    c := [t];
    var i := 2;
    while i <= n
      invariant 2 <= i && (i <= n + 1 || i == 2)
      invariant |c| == i - 1 && Circle(c) && x == c[|c| - 1] && t == c[0] && fresh(c)
      invariant forall k | 0 <= k < |c| :: c[k].item == k + 1
    {
      var d := new Node();
      x.next := d;
      x := d;
      x.next := t;
      x.item := i;
      CircleGrows(c, d);
      c := c + [d];
      i := i + 1;
    }
    NumberedItems(c);
  }

  /** One round: count, then take the node after the current one out of the circle. */
  method Round(start: Node, m: int, ghost c: seq<Node>) returns (x: Node, d: Node)
    requires Circle(c) && start == c[|c| - 1] && |c| > 1
    modifies (set n | n in c)`next
    ensures var r := Rotate(c, Steps(m));
            x == r[|c| - 1] && d == r[0] && Circle(r[1..])
    ensures forall n | n in Rotate(c, Steps(m)) :: n in c
    ensures [d.item] + Items(Rotate(c, Steps(m))[1..]) == Rotate(old(Items(c)), Steps(m))
  {
    RotateCircle(c, Steps(m));
    x := Advance(start, m, c);
    ghost var r := Rotate(c, Steps(m));
    ghost var items := Items(r);
    assert x in r;
    d := x.next;
    x.next := d.next;
    CircleShrinks(r);
    assert forall k | 0 <= k < |r| :: r[k].item == items[k];
    ItemsAfterFirst(r, items);
  }

  /** josephus.c */
  method Josephus(n: int, m: int) returns (printed: seq<int>)
    ensures printed == Eliminate(Numbers(if n >= 1 then n else 1), Steps(m))
  {
    ghost var c;
    var x;
    x, c := Build(n);
    printed := [];
    ghost var all := Eliminate(Items(c), Steps(m));
    while x != x.next
      invariant Circle(c) && x == c[|c| - 1] && fresh(c)
      invariant all == printed + Eliminate(Items(c), Steps(m))
      decreases |c|
    {
      CircleIsSingle(c);
      ghost var was := Items(c);
      var d;
      x, d := Round(x, m, c);
      c := Rotate(c, Steps(m))[1..];
      EliminateStep(printed, was, Steps(m));
      assert Rotate(was, Steps(m))[1..] == Items(c);
      printed := printed + [d.item];
    }
    CircleIsSingle(c);
    printed := printed + [x.item];
  }

  // ---------------------------------------------------------------------------------------------
  // The node pool.

  /** Entry i of a null-terminated chain. */
  ghost function At(s: seq<Node>, i: nat): Node? {
    if i < |s| then s[i] else null
  }

  class Pool {
    var freelist: Node
    ghost var free: seq<Node>

    /** The unused nodes hang off the header in a null-terminated chain. */
    ghost predicate Valid()
      reads this, freelist, free
    {
      && freelist !in free
      && (forall i, j | 0 <= i < j < |free| :: free[i] != free[j])
      && freelist.next == At(free, 0)
      && (forall i | 0 <= i < |free| :: free[i].next == At(free, i + 1))
    }

    /** Header, unused nodes and a circle are all the nodes there are, and no node is two of these. */
    ghost predicate Partitions(nodes: set<Node>, c: seq<Node>)
      reads this
    {
      && freelist !in c && freelist !in free
      && freelist in nodes
      && (forall n | n in free :: n !in c && n in nodes)
      && (forall n | n in c :: n in nodes)
      && (forall n | n in nodes :: n == freelist || n in free || n in c)
    }

    /** initNodes: a header and N linked nodes. */
    constructor (n: nat)
      ensures Valid() && |free| == n && fresh(freelist) && fresh(free)
    {
      var header := new Node();
      freelist := header;
      free := [];
      new;
      var last := header;
      for i := 0 to n
        invariant Valid() && |free| == i && freelist == header && fresh(header) && fresh(free)
        invariant last == if i == 0 then header else free[i - 1]
      {
        var node := new Node();
        last.next := node;
        last := node;
        free := free + [node];
      }
    }

    method NewNode(i: int) returns (x: Node)
      requires Valid() && free != []
      modifies this`free, freelist`next, free[0]
      ensures Valid() && freelist == old(freelist) && free == old(free)[1..]
      ensures x == old(free)[0] && x.item == i && x.next == x
    {
      ghost var was := free;
      assert was[0].next == At(was, 1);
      x := DeleteNext(freelist);
      x.item := i;
      x.next := x;
      free := free[1..];
      forall k | 0 <= k < |free| ensures free[k] != x && free[k].next == At(free, k + 1) {
        assert free[k] == was[k + 1] && old(was[k + 1].next) == At(was, k + 2);
      }
    }

    method FreeNode(x: Node)
      requires Valid() && x != freelist && x !in free
      modifies this`free, freelist`next, x`next
      ensures Valid() && freelist == old(freelist) && free == [x] + old(free)
    {
      ghost var was := free;
      InsertNext(freelist, x);
      free := [x] + free;
      forall k | 0 < k < |free| ensures free[k] != x && free[k].next == At(free, k + 1) {
        assert free[k] == was[k - 1] && old(was[k - 1].next) == At(was, k);
      }
    }
  }

  /** The body of the construction loop: a new node behind the current one. */
  method AddFromPool(pool: Pool, x: Node, i: int, ghost c: seq<Node>, ghost nodes: set<Node>) returns (t: Node)
    requires pool.Valid() && pool.free != [] && pool.Partitions(nodes, c)
    requires Circle(c) && x == c[|c| - 1]
    modifies pool`free, nodes
    ensures pool.Valid() && pool.free == old(pool.free)[1..] && pool.Partitions(nodes, c + [t])
    ensures t == old(pool.free)[0] && t.item == i && Circle(c + [t])
    ensures forall n | n in c :: n.item == old(n.item)
  {
    ghost var before := pool.free;
    assert before[0] in before && before[0] !in c;
    t := pool.NewNode(i);
    assert before == [t] + pool.free;
    assert x in c;
    assert forall n | n in pool.free :: n in before && n != x && n != t;
    InsertNext(x, t);
    CircleGrows(c, t);
  }

  /** The construction loop of josephus2.c. */
  method BuildFromPool(pool: Pool, n: nat, ghost nodes: set<Node>) returns (x: Node, ghost c: seq<Node>)
    requires pool.Valid() && |pool.free| == n >= 1 && pool.Partitions(nodes, [])
    modifies pool`free, nodes
    ensures pool.Valid() && pool.free == []
    ensures Circle(c) && x == c[|c| - 1] && Items(c) == Numbers(n) && pool.Partitions(nodes, c)
  {
    ghost var before := pool.free;
    assert before[0] in before;
    x := pool.NewNode(1);
    assert before == [x] + pool.free;
    c := [x];
    var i := 2;
    while i <= n
      invariant 2 <= i <= n + 1 && |pool.free| == n + 1 - i
      invariant pool.Valid()
      invariant Circle(c) && x == c[|c| - 1] && |c| == i - 1
      invariant forall k | 0 <= k < |c| :: c[k].item == k + 1
      invariant pool.Partitions(nodes, c)
    {
      var t := AddFromPool(pool, x, i, c, nodes);
      x := t;
      c := c + [t];
      i := i + 1;
    }
    NumberedItems(c);
  }

  /** One round over the pool: the node taken out goes to the front of the unused ones. */
  method RoundInPool(pool: Pool, start: Node, m: int, ghost c: seq<Node>, ghost nodes: set<Node>)
    returns (x: Node, d: Node)
    requires Circle(c) && start == c[|c| - 1] && |c| > 1 && pool.Valid() && pool.Partitions(nodes, c)
    modifies pool`free, nodes`next
    ensures var r := Rotate(c, Steps(m));
            x == r[|c| - 1] && d == r[0] && Circle(r[1..]) && pool.Partitions(nodes, r[1..])
    ensures [d.item] + Items(Rotate(c, Steps(m))[1..]) == Rotate(old(Items(c)), Steps(m))
    ensures pool.Valid() && pool.free == [d] + old(pool.free)
  {
    RotateCircle(c, Steps(m));
    x := Advance(start, m, c);
    ghost var r := Rotate(c, Steps(m));
    ghost var items := Items(r);
    d := TakeOut(pool, x, r, nodes);
    assert forall k | 0 <= k < |r| :: r[k].item == items[k];
    ItemsAfterFirst(r, items);
  }

  method TakeOut(pool: Pool, x: Node, ghost r: seq<Node>, ghost nodes: set<Node>) returns (d: Node)
    requires Circle(r) && x == r[|r| - 1] && |r| > 1 && pool.Valid() && pool.Partitions(nodes, r)
    modifies pool`free, nodes`next
    ensures d == r[0] && Circle(r[1..]) && pool.Partitions(nodes, r[1..])
    ensures pool.Valid() && pool.free == [d] + old(pool.free)
  {
    assert x in r && r[0] in r;
    ghost var rest := r[1..];
    assert r == [r[0]] + rest;
    d := DeleteNext(x);
    CircleShrinks(r);
    pool.FreeNode(d);
  }

  /** josephus2.c, which prints what josephus.c prints; the nodes taken out return to the pool. */
  method JosephusFromPool(n: nat, m: int) returns (printed: seq<int>)
    requires n >= 1
    ensures printed == Eliminate(Numbers(n), Steps(m))
  {
    var pool := new Pool(n);
    ghost var nodes := {pool.freelist} + set k | k in pool.free;
    ghost var c;
    var x;
    x, c := BuildFromPool(pool, n, nodes);
    printed := [];
    ghost var all := Eliminate(Items(c), Steps(m));
    while x != x.next
      invariant Circle(c) && x == c[|c| - 1]
      invariant pool.Valid() && pool.Partitions(nodes, c) && |pool.free| + |c| == n
      invariant all == printed + Eliminate(Items(c), Steps(m))
      decreases |c|
    {
      CircleIsSingle(c);
      ghost var was := Items(c);
      var d;
      x, d := RoundInPool(pool, x, m, c, nodes);
      c := Rotate(c, Steps(m))[1..];
      EliminateStep(printed, was, Steps(m));
      assert Rotate(was, Steps(m))[1..] == Items(c);
      printed := printed + [d.item];
    }
    CircleIsSingle(c);
    printed := printed + [x.item];
  }
}
