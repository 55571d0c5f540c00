/** How often a value occurs in a sequence, how one update changes that, and raising all elements. */
module Sequences {

  /** Every element raised by the same amount. */
  function Raised(a: seq<int>, amount: int): (r: seq<int>)
    ensures |r| == |a| && forall c | 0 <= c < |a| :: r[c] == a[c] + amount
  {
    seq(|a|, c requires 0 <= c < |a| => a[c] + amount)
  }

  function Count<T(==)>(s: seq<T>, v: T): nat {
    if s == [] then 0 else (if s[0] == v then 1 else 0) + Count(s[1..], v)
  }

  lemma {:induction false} CountUpdate<T>(s: seq<T>, i: nat, x: T, v: T)
    requires i < |s|
    ensures Count(s[i := x], v) + (if s[i] == v then 1 else 0) == Count(s, v) + (if x == v then 1 else 0)
  {
    if i == 0 {
      assert s[i := x][1..] == s[1..];
    } else {
      assert s[i := x][1..] == s[1..][i - 1 := x];
      CountUpdate(s[1..], i - 1, x, v);
    }
  }

  lemma {:induction false} CountAppend<T>(s: seq<T>, x: T, v: T)
    ensures Count(s + [x], v) == Count(s, v) + if x == v then 1 else 0
  {
    if s == [] {
      assert [x][1..] == [];
    } else {
      assert (s + [x])[1..] == s[1..] + [x];
      CountAppend(s[1..], x, v);
    }
  }

  lemma {:induction false} CountNone<T>(s: seq<T>, v: T)
    ensures Count(s, v) == 0 <==> v !in s
  {
    if s != [] {
      CountNone(s[1..], v);
    }
  }

  lemma {:induction false} CountAll<T>(s: seq<T>, v: T)
    ensures Count(s, v) <= |s|
    ensures Count(s, v) == |s| <==> forall i | 0 <= i < |s| :: s[i] == v
  {
    if s != [] {
      CountAll(s[1..], v);
      assert (forall i | 0 <= i < |s| :: s[i] == v) ==> (forall i | 0 <= i < |s[1..]| :: s[1..][i] == v);
    }
  }

  /** When all but one position hold `v`, the exception is the position named. */
  lemma CountAllButOne<T>(s: seq<T>, v: T, i: nat)
    requires i < |s| && s[i] != v && Count(s, v) == |s| - 1
    ensures forall j | 0 <= j < |s| && j != i :: s[j] == v
  {
    CountUpdate(s, i, v, v);
    CountAll(s[i := v], v);
    forall j | 0 <= j < |s| && j != i ensures s[j] == v {
      assert s[i := v][j] == v;
    }
  }

  lemma {:induction false} CountConstant<T>(n: nat, v: T, w: T)
    ensures Count(seq(n, _ => v), w) == if v == w then n else 0
  {
    if n > 0 {
      assert seq(n, _ => v)[1..] == seq(n - 1, _ => v);
      CountConstant(n - 1, v, w);
    }
  }
}
