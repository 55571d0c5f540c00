/** The reference-counted handle of SmartPtr.h, over an explicit memory of handles and counts. */
module SmartPointers {
  import opened Sequences

  const NULL: nat := 0

  /** A counted_ptr: the object it points to and the address of its count. */
  datatype Handle = Handle(ptr: nat, count: nat)

  /**
   * The live handles and the allocated counts by address; `wraps` are the objects given to the
   * constructor and `deleted` those deleted, in order and with any repetition. Objects are told apart
   * by identity, so a later object at the address of a deleted one is another.
   */
  datatype Memory = Memory(
    handles: map<nat, Handle>, counts: map<nat, int>, wraps: seq<nat>, deleted: seq<nat>)

  const EMPTY := Memory(map[], map[], [], [])

  /** counted_ptr(Ty* p) at address h, with its new count at c. */
  function Wrapped(m: Memory, h: nat, p: nat, c: nat): Memory {
    m.(handles := m.handles[h := Handle(p, c)], counts := m.counts[c := 1],
       wraps := if p == NULL then m.wraps else m.wraps + [p])
  }

  /** The copy at address h of the handle at address from. */
  function Shared(m: Memory, h: nat, from: nat): Memory
    requires from in m.handles && m.handles[from].count in m.counts
  {
    var c := m.handles[from].count;
    m.(handles := m.handles[h := m.handles[from]], counts := m.counts[c := m.counts[c] + 1])
  }

  /** The handle at address h gone; the last one on its count takes count and object along. */
  function Dropped(m: Memory, h: nat): Memory
    requires h in m.handles && m.handles[h].count in m.counts
  {
    var Handle(p, c) := m.handles[h];
    if m.counts[c] - 1 == 0
    then m.(handles := m.handles - {h}, counts := m.counts - {c},
            deleted := if p == NULL then m.deleted else m.deleted + [p])
    else m.(handles := m.handles - {h}, counts := m.counts[c := m.counts[c] - 1])
  }

  function Assigned(m: Memory, h: nat, from: nat): Memory
    requires Inv(m) && h in m.handles && from in m.handles
  {
    if h == from then m
    else
      DropInv(m, h);
      Shared(Dropped(m, h), h, from)
  }

  /** dynamic_pointer_cast of the handle at `from` into h; a null result gets a count of its own. */
  function Cast(m: Memory, h: nat, from: nat, succeeds: bool, c: nat): Memory
    requires Inv(m) && from in m.handles
  {
    if succeeds && m.handles[from].ptr != NULL then Shared(m, h, from) else Wrapped(m, h, NULL, c)
  }

  function Sharers(m: Memory, c: nat): set<nat> {
    set h | h in m.handles && m.handles[h].count == c
  }

  /** No other handle uses the count of h. */
  ghost predicate LastOne(handles: map<nat, Handle>, h: nat)
    requires h in handles
  {
    forall k | k in handles && k != h :: handles[k].count != handles[h].count
  }

  predicate Held(m: Memory, o: nat) {
    exists h :: h in m.handles && m.handles[h].ptr == o
  }

  /** The counts that live handles on o use. */
  function Cells(m: Memory, o: nat): set<nat> {
    set h | h in m.handles && m.handles[h].ptr == o :: m.handles[h].count
  }

  ghost predicate CountsInv(m: Memory) {
    && (forall h | h in m.handles :: m.handles[h].count in m.counts)
    && (forall c | c in m.counts :: m.counts[c] == |Sharers(m, c)| >= 1)
  }

  ghost predicate OwnersInv(m: Memory) {
    forall h, k | h in m.handles && k in m.handles :: m.handles[h].count == m.handles[k].count ==>
      m.handles[h].ptr == m.handles[k].ptr
  }

  /** Every wrap of o is either still owned by a count of its own or has been paid for by a deletion. */
  ghost predicate Tally(m: Memory, o: nat) {
    Count(m.deleted, o) + |Cells(m, o)| == Count(m.wraps, o)
  }

  /** Each count is the number of live handles that share it, and these agree on their object. */
  ghost predicate Inv(m: Memory) {
    CountsInv(m) && OwnersInv(m) && forall o | o != NULL :: Tally(m, o)
  }

  /** Room for a new handle and a new count; the object may have been wrapped any number of times. */
  ghost predicate CanWrap(m: Memory, h: nat, c: nat) {
    h !in m.handles && c !in m.counts
  }

  lemma WrapInv(m: Memory, h: nat, p: nat, c: nat)
    requires Inv(m) && CanWrap(m, h, c)
    ensures Inv(Wrapped(m, h, p, c))
  {
    WrapCounts(m, h, p, c);
    forall o | o != NULL ensures Tally(Wrapped(m, h, p, c), o) {
      WrapTally(m, h, p, c, o);
    }
  }

  /** A new count on p, for one more wrap of p. */
  lemma WrapTally(m: Memory, h: nat, p: nat, c: nat, o: nat)
    requires CountsInv(m) && CanWrap(m, h, c) && o != NULL && Tally(m, o)
    ensures Tally(Wrapped(m, h, p, c), o)
  {
    var r := Wrapped(m, h, p, c);
    CountAppend(m.wraps, p, o);
    assert h in r.handles && forall k | k in m.handles :: k in r.handles && r.handles[k] == m.handles[k];
    if o == p {
      assert Cells(r, o) == Cells(m, o) + {c};
    } else {
      assert Cells(r, o) == Cells(m, o);
    }
  }

  lemma WrapCounts(m: Memory, h: nat, p: nat, c: nat)
    requires CountsInv(m) && CanWrap(m, h, c)
    ensures CountsInv(Wrapped(m, h, p, c))
  {
    var r := Wrapped(m, h, p, c);
    assert Sharers(r, c) == {h};
    forall d | d in m.counts ensures Sharers(r, d) == Sharers(m, d) {
    }
  }

  lemma ShareCounts(m: Memory, h: nat, from: nat)
    requires CountsInv(m) && h !in m.handles && from in m.handles
    ensures CountsInv(Shared(m, h, from))
  {
    var r := Shared(m, h, from);
    var c := m.handles[from].count;
    assert Sharers(r, c) == Sharers(m, c) + {h};
    forall d | d in m.counts && d != c ensures Sharers(r, d) == Sharers(m, d) {
    }
  }

  lemma ShareInv(m: Memory, h: nat, from: nat)
    requires Inv(m) && h !in m.handles && from in m.handles
    ensures Inv(Shared(m, h, from))
  {
    var r := Shared(m, h, from);
    ShareCounts(m, h, from);
    assert forall k | k in m.handles :: k in r.handles && r.handles[k] == m.handles[k];
    forall o | o != NULL ensures Tally(r, o) {
      assert Tally(m, o);
      assert Cells(r, o) == Cells(m, o);
    }
  }

  lemma DropCounts(m: Memory, h: nat)
    requires CountsInv(m) && h in m.handles
    ensures CountsInv(Dropped(m, h))
    ensures m.counts[m.handles[h].count] == 1 <==> forall k | k in m.handles && k != h :: m.handles[k].count != m.handles[h].count
  {
    var r := Dropped(m, h);
    var c := m.handles[h].count;
    assert Sharers(r, c) == Sharers(m, c) - {h};
    assert h in Sharers(m, c);
    forall d | d in m.counts && d != c ensures Sharers(r, d) == Sharers(m, d) {
    }
    if m.counts[c] == 1 {
      assert |Sharers(r, c)| == 0;
      forall k | k in m.handles && k != h ensures m.handles[k].count != c {
        assert k !in Sharers(r, c);
      }
    } else {
      var k :| k in Sharers(r, c);
      assert k in m.handles && k != h && m.handles[k].count == c;
    }
  }

  /** A count of o other than the one that goes with h keeps a handle. */
  lemma CellStays(m: Memory, h: nat, o: nat, d: nat)
    requires CountsInv(m) && OwnersInv(m) && h in m.handles && d in Cells(m, o)
    requires m.handles[h].count == d ==> m.counts[d] != 1
    ensures d in Cells(Dropped(m, h), o)
  {
    var k :| k in m.handles && m.handles[k].ptr == o && m.handles[k].count == d;
    if k == h {
      DropCounts(m, h);
      k :| k in m.handles && k != h && m.handles[k].count == d;
    }
    assert k in Dropped(m, h).handles;
  }

  /** Only the last handle on a count takes the count along. */
  lemma DropCells(m: Memory, h: nat, o: nat)
    requires CountsInv(m) && OwnersInv(m) && h in m.handles
    ensures var Handle(p, c) := m.handles[h];
            Cells(Dropped(m, h), o) == if o == p && m.counts[c] == 1 then Cells(m, o) - {c} else Cells(m, o)
    ensures m.handles[h].count in Cells(m, m.handles[h].ptr)
  {
    var c := m.handles[h].count;
    DropCounts(m, h);
    forall d | d in Cells(m, o) && (d == c ==> m.counts[c] != 1) ensures d in Cells(Dropped(m, h), o) {
      CellStays(m, h, o, d);
    }
    assert Cells(Dropped(m, h), o) <= Cells(m, o);
  }

  lemma DropTally(m: Memory, h: nat, o: nat)
    requires CountsInv(m) && OwnersInv(m) && h in m.handles && o != NULL && Tally(m, o)
    ensures Tally(Dropped(m, h), o)
  {
    DropCells(m, h, o);
    CountAppend(m.deleted, m.handles[h].ptr, o);
  }

  lemma DropInv(m: Memory, h: nat)
    requires Inv(m) && h in m.handles
    ensures Inv(Dropped(m, h))
  {
    DropCounts(m, h);
    forall o | o != NULL ensures Tally(Dropped(m, h), o) {
      DropTally(m, h, o);
    }
  }

  lemma AssignHandles(m: Memory, h: nat, from: nat)
    requires Inv(m) && h in m.handles && from in m.handles
    ensures Assigned(m, h, from).handles == m.handles[h := m.handles[from]]
  {
    if h == from {
      assert m.handles[h := m.handles[from]] == m.handles;
    } else {
      assert (m.handles - {h})[h := m.handles[from]] == m.handles[h := m.handles[from]];
    }
  }

  lemma AssignInv(m: Memory, h: nat, from: nat)
    requires Inv(m) && h in m.handles && from in m.handles
    ensures Inv(Assigned(m, h, from))
  {
    if h != from {
      DropInv(m, h);
      ShareInv(Dropped(m, h), h, from);
    }
  }

  /** A successful cast is the same handle again; otherwise the result is null, with a count of its own. */
  lemma CastHandles(m: Memory, h: nat, from: nat, succeeds: bool, c: nat)
    requires Inv(m) && from in m.handles
    ensures Cast(m, h, from, succeeds, c).handles ==
            m.handles[h := if succeeds && m.handles[from].ptr != NULL then m.handles[from] else Handle(NULL, c)]
    ensures var r := Cast(m, h, from, succeeds, c); r.wraps == m.wraps && r.deleted == m.deleted
  {
  }

  lemma CastInv(m: Memory, h: nat, from: nat, succeeds: bool, c: nat)
    requires Inv(m) && CanWrap(m, h, c) && from in m.handles
    ensures Inv(Cast(m, h, from, succeeds, c))
  {
    if succeeds && m.handles[from].ptr != NULL {
      ShareInv(m, h, from);
    } else {
      WrapInv(m, h, NULL, c);
    }
  }

  // ---------------------------------------------------------------------------------------------
  // Handles inside the objects they manage: deleting an object destroys the handles in it.

  /** The object that each handle is a member of; handles outside every object have none. */
  type Home = map<nat, nat>

  predicate LivesIn(home: Home, k: nat, o: nat) {
    k in home && home[k] == o
  }

  /**
   * When all handles on a count are among gone, every handle that lives in the object they delete is
   * in all.
   */
  ghost predicate Follow(m: Memory, home: Home, gone: set<nat>, all: set<nat>) {
    forall a, k | a in m.handles && k in m.handles && m.handles[a].ptr != NULL && LivesIn(home, k, m.handles[a].ptr) ::
      Sharers(m, m.handles[a].count) <= gone ==> k in all
  }

  /** Destroying the handles in d destroys no others. */
  ghost predicate Closed(m: Memory, home: Home, d: set<nat>) {
    Follow(m, home, d, d)
  }

  /** Destroying h destroys all of s. */
  ghost predicate Forced(m: Memory, home: Home, h: nat, s: set<nat>) {
    forall d | h in d && Closed(m, home, d) :: s <= d
  }

  /** gone is the least closed set of handles with h in it. */
  ghost predicate Doomed(m: Memory, home: Home, h: nat, gone: set<nat>) {
    h in gone && gone <= m.handles.Keys && Closed(m, home, gone) && Forced(m, home, h, gone)
  }

  /** The handles in the object that goes with next, if one does. */
  function Inmates(m: Memory, home: Home, next: nat): set<nat>
    requires next in m.handles && m.handles[next].count in m.counts
  {
    var Handle(p, c) := m.handles[next];
    var r := Dropped(m, next);
    if c !in r.counts && p != NULL then set k | k in r.handles && LivesIn(home, k, p) else {}
  }

  /** gone have been destroyed since m0 and work are still to go, and these are what must go so far. */
  ghost predicate Cascading(m0: Memory, m: Memory, home: Home, h: nat, work: set<nat>, gone: set<nat>) {
    && Inv(m)
    && gone <= m0.handles.Keys
    && m.handles == m0.handles - gone
    && work <= m.handles.Keys
    && h in gone + work
    && Forced(m0, home, h, gone + work)
    && Follow(m0, home, gone, gone + work)
  }

  /** A count goes with next exactly when next was the last of its handles not gone before. */
  lemma LastOfItsCount(m0: Memory, m: Memory, gone: set<nat>, next: nat)
    requires Inv(m) && m.handles == m0.handles - gone && next in m.handles
    ensures var c := m.handles[next].count;
            c !in Dropped(m, next).counts <==> Sharers(m0, c) <= gone + {next}
  {
    var c := m.handles[next].count;
    DropCounts(m, next);
    forall k | k in m.handles && k != next && m.handles[k].count == c ensures k in Sharers(m0, c) && k !in gone + {next} {
    }
    forall k | k in Sharers(m0, c) && k !in gone + {next} ensures k in m.handles && k != next && m.handles[k].count == c {
    }
  }

  lemma InmatesMustGo(m0: Memory, m: Memory, home: Home, gone: set<nat>, next: nat, d: set<nat>)
    requires Inv(m) && m.handles == m0.handles - gone && next in m.handles
    requires gone + {next} <= d && Closed(m0, home, d)
    ensures Inmates(m, home, next) <= d
  {
    LastOfItsCount(m0, m, gone, next);
    assert next in m0.handles && m0.handles[next] == m.handles[next];
    forall k | k in Inmates(m, home, next) ensures k in d {
      assert k in m0.handles && LivesIn(home, k, m0.handles[next].ptr);
    }
  }

  lemma InmatesFollow(m0: Memory, m: Memory, home: Home, gone: set<nat>, all: set<nat>, next: nat, a: nat, k: nat)
    requires OwnersInv(m0) && Inv(m) && m.handles == m0.handles - gone && next in m.handles && Follow(m0, home, gone, all)
    requires a in m0.handles && k in m0.handles && m0.handles[a].ptr != NULL && LivesIn(home, k, m0.handles[a].ptr)
    requires Sharers(m0, m0.handles[a].count) <= gone + {next}
    ensures k in all || k in gone + {next} || k in Inmates(m, home, next)
  {
    LastOfItsCount(m0, m, gone, next);
    if next in Sharers(m0, m0.handles[a].count) {
      assert m0.handles[a].ptr == m0.handles[next].ptr == m.handles[next].ptr;
      assert k !in gone + {next} ==> k in Dropped(m, next).handles;
    } else {
      assert Sharers(m0, m0.handles[a].count) <= gone;
    }
  }

  lemma CascadeForces(m0: Memory, m: Memory, home: Home, h: nat, work: set<nat>, gone: set<nat>, next: nat)
    requires Inv(m) && m.handles == m0.handles - gone && next in m.handles && next in work
    requires Forced(m0, home, h, gone + work)
    ensures Forced(m0, home, h, gone + {next} + (work - {next} + Inmates(m, home, next)))
  {
    forall d | h in d && Closed(m0, home, d) ensures gone + {next} + (work - {next} + Inmates(m, home, next)) <= d {
      InmatesMustGo(m0, m, home, gone, next, d);
    }
  }

  lemma CascadeFollows(m0: Memory, m: Memory, home: Home, work: set<nat>, gone: set<nat>, next: nat)
    requires OwnersInv(m0) && Inv(m) && m.handles == m0.handles - gone && next in m.handles && next in work
    requires Follow(m0, home, gone, gone + work)
    ensures Follow(m0, home, gone + {next}, gone + {next} + (work - {next} + Inmates(m, home, next)))
  {
    forall a, k | a in m0.handles && k in m0.handles && m0.handles[a].ptr != NULL && LivesIn(home, k, m0.handles[a].ptr) &&
                  Sharers(m0, m0.handles[a].count) <= gone + {next}
      ensures k in gone + {next} + (work - {next} + Inmates(m, home, next))
    {
      InmatesFollow(m0, m, home, gone, gone + work, next, a, k);
    }
  }

  lemma CascadeStep(m0: Memory, m: Memory, home: Home, h: nat, work: set<nat>, gone: set<nat>, next: nat)
    requires OwnersInv(m0) && Cascading(m0, m, home, h, work, gone) && next in work
    ensures Cascading(m0, Dropped(m, next), home, h, work - {next} + Inmates(m, home, next), gone + {next})
  {
    DropInv(m, next);
    CascadeForces(m0, m, home, h, work, gone, next);
    CascadeFollows(m0, m, home, work, gone, next);
    HandlesLeft(m0.handles, m.handles, gone, next);
  }

  lemma HandlesLeft(before: map<nat, Handle>, now: map<nat, Handle>, gone: set<nat>, next: nat)
    requires now == before - gone
    ensures now - {next} == before - (gone + {next})
  {
  }

  lemma CascadeStarts(m: Memory, home: Home, h: nat)
    requires Inv(m) && h in m.handles
    ensures Cascading(m, m, home, h, {h}, {})
  {
    assert m.handles - {} == m.handles;
    forall a | a in m.handles ensures !(Sharers(m, m.handles[a].count) <= {}) {
      assert a in Sharers(m, m.handles[a].count);
    }
  }

  lemma CascadeEnds(m0: Memory, m: Memory, home: Home, h: nat, gone: set<nat>)
    requires Cascading(m0, m, home, h, {}, gone)
    ensures Doomed(m0, home, h, gone)
  {
    assert gone + {} == gone;
  }

  /** A handle survives exactly when some closed set around h leaves it out. */
  lemma SurvivesExactlyOutside(m: Memory, home: Home, h: nat, gone: set<nat>, from: nat)
    requires Doomed(m, home, h, gone)
    ensures from !in gone <==> exists d :: h in d && Closed(m, home, d) && from !in d
  {
  }

  /** A source that lives in the object whose only handle is the target does not survive. */
  lemma SourceInsideItsTarget(m: Memory, home: Home, h: nat, gone: set<nat>, from: nat)
    requires CountsInv(m) && Doomed(m, home, h, gone) && h in m.handles && from in m.handles
    requires m.counts[m.handles[h].count] == 1 && m.handles[h].ptr != NULL && LivesIn(home, from, m.handles[h].ptr)
    ensures from in gone
  {
    DropCounts(m, h);
    forall k | k in Sharers(m, m.handles[h].count) ensures k in gone {
    }
  }

  /** A source that lives in no object always survives. */
  lemma SourceOutsideObjects(m: Memory, home: Home, h: nat, gone: set<nat>, from: nat)
    requires Doomed(m, home, h, gone) && from != h && from !in home
    ensures from !in gone
  {
    assert Closed(m, home, home.Keys + {h});
  }

  // ---------------------------------------------------------------------------------------------
  // The member functions, changing the memory in place.

  class Heap {
    var handles: map<nat, Handle>
    var counts: map<nat, int>
    ghost var wraps: seq<nat>
    ghost var deleted: seq<nat>

    ghost function AsMemory(): Memory
      reads this
    {
      Memory(handles, counts, wraps, deleted)
    }

    constructor ()
      ensures AsMemory() == EMPTY
    {
      handles := map[];
      counts := map[];
      wraps := [];
      deleted := [];
    }

    method Construct(h: nat, p: nat, c: nat)
      requires Inv(AsMemory()) && CanWrap(AsMemory(), h, c)
      modifies this
      ensures AsMemory() == Wrapped(old(AsMemory()), h, p, c) && Inv(AsMemory())
      ensures handles == old(handles)[h := Handle(p, c)] && Sharers(AsMemory(), c) == {h}
      ensures wraps == old(wraps) + (if p == NULL then [] else [p]) && deleted == old(deleted)
    {
      WrapInv(AsMemory(), h, p, c);
      handles := handles[h := Handle(p, c)];
      counts := counts[c := 1];
      if p != NULL {
        wraps := wraps + [p];
      }
    }

    method Copy(h: nat, from: nat)
      requires Inv(AsMemory()) && h !in handles && from in handles
      modifies this
      ensures AsMemory() == Shared(old(AsMemory()), h, from) && Inv(AsMemory())
      ensures handles == old(handles)[h := old(handles)[from]]
      ensures wraps == old(wraps) && deleted == old(deleted)
    {
      ShareInv(AsMemory(), h, from);
      var p := handles[from];
      handles := handles[h := Handle(p.ptr, p.count)];
      counts := counts[p.count := counts[p.count] + 1];
    }

    method DynamicCast(h: nat, from: nat, succeeds: bool, c: nat)
      requires Inv(AsMemory()) && CanWrap(AsMemory(), h, c) && from in handles
      modifies this
      ensures AsMemory() == Cast(old(AsMemory()), h, from, succeeds, c) && Inv(AsMemory())
      ensures handles ==
              old(handles)[h := if succeeds && old(handles)[from].ptr != NULL then old(handles)[from] else Handle(NULL, c)]
      ensures wraps == old(wraps) && deleted == old(deleted)
    {
      ghost var m := AsMemory();
      CastInv(m, h, from, succeeds, c);
      var p := if succeeds then handles[from].ptr else NULL;
      if p == NULL {
        handles := handles[h := Handle(NULL, c)];
        counts := counts[c := 1];
        assert AsMemory() == Wrapped(m, h, NULL, c);
      } else {
        var shared := handles[from].count;
        handles := handles[h := Handle(p, shared)];
        counts := counts[shared := counts[shared] + 1];
        assert AsMemory() == Shared(m, h, from);
      }
    }

    /** The count goes down; at zero the count and the object are deleted. */
    method Dispose(h: nat)
      requires Inv(AsMemory()) && h in handles
      modifies this
      ensures AsMemory() == Dropped(old(AsMemory()), h) && Inv(AsMemory())
      ensures handles == old(handles) - {h} && wraps == old(wraps)
      ensures var p := old(handles)[h].ptr;
              deleted == old(deleted) + if p != NULL && LastOne(old(handles), h) then [p] else []
    {
      ghost var m := AsMemory();
      var Handle(p, c) := handles[h];
      assert counts[c := counts[c] - 1] - {c} == counts - {c};
      counts := counts[c := counts[c] - 1];
      if counts[c] == 0 {
        counts := counts - {c};
        if p != NULL {
          deleted := deleted + [p];
        }
      }
      handles := handles - {h};
      assert AsMemory() == Dropped(m, h);
      DropInv(m, h);
      DropCounts(m, h);
    }

    /** Handles that share a count already are covered: the count cannot reach zero between. */
    method Assign(h: nat, from: nat)
      requires Inv(AsMemory()) && h in handles && from in handles
      modifies this
      ensures AsMemory() == Assigned(old(AsMemory()), h, from) && Inv(AsMemory())
      ensures handles == old(handles)[h := old(handles)[from]] && wraps == old(wraps)
      ensures var p := old(handles)[h].ptr;
              deleted == old(deleted) + if h != from && p != NULL && LastOne(old(handles), h) then [p] else []
    {
      ghost var m := AsMemory();
      AssignHandles(m, h, from);
      AssignInv(m, h, from);
      if h != from {
        Dispose(h);
        ghost var dropped := AsMemory();
        var p := handles[from];
        handles := handles[h := Handle(p.ptr, p.count)];
        counts := counts[p.count := counts[p.count] + 1];
        assert AsMemory() == Shared(dropped, h, from) == Assigned(m, h, from);
      }
    }
  }

  // ---------------------------------------------------------------------------------------------
  // Destroying and assigning when handles live inside objects.

  /** Destroys h and, one after the other, every handle inside an object deleted on the way, in any order. */
  method Destroy(heap: Heap, h: nat, home: Home) returns (ghost gone: set<nat>)
    requires Inv(heap.AsMemory()) && h in heap.handles
    modifies heap
    ensures Inv(heap.AsMemory())
    ensures Doomed(old(heap.AsMemory()), home, h, gone)
    ensures heap.handles == old(heap.handles) - gone
  {
    ghost var m0 := heap.AsMemory();
    var work := {h};
    gone := {};
    CascadeStarts(m0, home, h);
    while work != {}
      invariant Cascading(m0, heap.AsMemory(), home, h, work, gone)
      decreases |heap.handles|
    {
      var next :| next in work;
      CascadeStep(m0, heap.AsMemory(), home, h, work, gone, next);
      work := DestroyOne(heap, work, next, home);
      gone := gone + {next};
    }
    CascadeEnds(m0, heap.AsMemory(), home, h, gone);
  }

  /** One handle destroyed; the handles in an object that goes with it are added to those still to go. */
  method DestroyOne(heap: Heap, work: set<nat>, next: nat, home: Home) returns (left: set<nat>)
    requires Inv(heap.AsMemory()) && next in heap.handles
    modifies heap
    ensures heap.AsMemory() == old(Dropped(heap.AsMemory(), next))
    ensures left == work - {next} + old(Inmates(heap.AsMemory(), home, next))
    ensures |heap.handles| < old(|heap.handles|)
  {
    ghost var m := heap.AsMemory();
    Fewer(m.handles, next);
    var p, c := heap.handles[next].ptr, heap.handles[next].count;
    heap.Dispose(next);
    var inmates := {};
    if c !in heap.counts && p != NULL {
      inmates := set k | k in heap.handles && LivesIn(home, k, p);
    }
    assert inmates == Inmates(m, home, next);
    left := work - {next} + inmates;
  }

  lemma Fewer(handles: map<nat, Handle>, k: nat)
    requires k in handles
    ensures |handles - {k}| < |handles|
  {
    assert (handles - {k}).Keys + {k} == handles.Keys;
    assert |(handles - {k}).Keys| < |handles.Keys|;
  }

  /**
   * Assignment gives the target's object up before it reads the source. The source is still there
   * exactly when it is not doomed; otherwise what is read next has been destroyed.
   */
  method AssignAfterDestroying(heap: Heap, h: nat, from: nat, home: Home) returns (alive: bool)
    requires Inv(heap.AsMemory()) && h in heap.handles && from in heap.handles
    modifies heap
    ensures Inv(heap.AsMemory())
    ensures alive <==> h == from || exists d :: h in d && Closed(old(heap.AsMemory()), home, d) && from !in d
    ensures alive && h != from ==> h in heap.handles && heap.handles[h] == old(heap.handles[from])
    ensures h == from ==> heap.AsMemory() == old(heap.AsMemory())
  {
    if h == from {
      return true;
    }
    ghost var m0 := heap.AsMemory();
    ghost var gone := Destroy(heap, h, home);
    SurvivesExactlyOutside(m0, home, h, gone, from);
    alive := from in heap.handles;
    if alive {
      heap.Copy(h, from);
    }
  }

  // ---------------------------------------------------------------------------------------------
  // Whole programs.

  datatype Op =
    | Construct(h: nat, p: nat, c: nat)
    | Copy(h: nat, from: nat)
    | DynamicCast(h: nat, from: nat, succeeds: bool, c: nat)
    | Assign(h: nat, from: nat)
    | Destroy(h: nat)

  ghost predicate Allowed(m: Memory, op: Op) {
    match op
    case Construct(h, _, c) => CanWrap(m, h, c)
    case Copy(h, from) => h !in m.handles && from in m.handles
    case DynamicCast(h, from, _, c) => CanWrap(m, h, c) && from in m.handles
    case Assign(h, from) => h in m.handles && from in m.handles
    case Destroy(h) => h in m.handles
  }

  /** Any object may be wrapped at any time, and any live handle copied, cast, assigned or destroyed. */
  lemma AnyOperationMayCome(m: Memory, h: nat, from: nat, p: nat, c: nat, succeeds: bool)
    ensures h !in m.handles && c !in m.counts ==> Allowed(m, Construct(h, p, c))
    ensures h !in m.handles && from in m.handles ==> Allowed(m, Copy(h, from))
    ensures h !in m.handles && c !in m.counts && from in m.handles ==> Allowed(m, DynamicCast(h, from, succeeds, c))
    ensures h in m.handles && from in m.handles ==> Allowed(m, Assign(h, from))
    ensures h in m.handles ==> Allowed(m, Op.Destroy(h))
  {
  }

  ghost function After(m: Memory, op: Op): Memory
    requires Inv(m) && Allowed(m, op)
  {
    match op
    case Construct(h, p, c) => Wrapped(m, h, p, c)
    case Copy(h, from) => Shared(m, h, from)
    case DynamicCast(h, from, succeeds, c) => Cast(m, h, from, succeeds, c)
    case Assign(h, from) => Assigned(m, h, from)
    case Destroy(h) => Dropped(m, h)
  }

  /** Every operation keeps Inv (RunInv), so asking for it on the way shuts out no program. */
  ghost predicate StepBy(m: Memory, r: Memory, op: Op) {
    Inv(m) && Allowed(m, op) && r == After(m, op)
  }

  ghost predicate Next(m: Memory, r: Memory) {
    exists op :: StepBy(m, r, op)
  }

  /** What a program makes of the empty memory, operation by operation. */
  ghost predicate IsRun(run: seq<Memory>) {
    |run| > 0 && run[0] == EMPTY && forall i | 0 < i < |run| :: Next(run[i - 1], run[i])
  }

  lemma {:induction false} RunInv(run: seq<Memory>, k: nat)
    requires IsRun(run) && k < |run|
    ensures Inv(run[k])
  {
    if k > 0 {
      assert Next(run[k - 1], run[k]);
      var op :| StepBy(run[k - 1], run[k], op);
      match op
      case Construct(h, p, c) => WrapInv(run[k - 1], h, p, c);
      case Copy(h, from) => ShareInv(run[k - 1], h, from);
      case DynamicCast(h, from, succeeds, c) => CastInv(run[k - 1], h, from, succeeds, c);
      case Assign(h, from) => AssignInv(run[k - 1], h, from);
      case Destroy(h) => DropInv(run[k - 1], h);
    }
  }

  lemma HeldMeansCells(m: Memory, o: nat)
    ensures Held(m, o) <==> Cells(m, o) != {}
  {
    if Held(m, o) {
      var h :| h in m.handles && m.handles[h].ptr == o;
      assert m.handles[h].count in Cells(m, o);
    }
  }

  /**
   * After any program, repeated wraps of one object included: every count is exact, and an object has
   * been deleted once for each wrap whose count has gone.
   */
  lemma DeletedAsOftenAsWrapped(run: seq<Memory>, k: nat, o: nat)
    requires IsRun(run) && k < |run| && o != NULL
    ensures forall c | c in run[k].counts :: run[k].counts[c] == |Sharers(run[k], c)|
    ensures Count(run[k].deleted, o) + |Cells(run[k], o)| == Count(run[k].wraps, o)
    ensures !Held(run[k], o) ==> Count(run[k].deleted, o) == Count(run[k].wraps, o)
  {
    RunInv(run, k);
    HeldMeansCells(run[k], o);
    assert Tally(run[k], o);
  }

  /**
   * Once no handle holds an object, it has been deleted exactly once if and only if it was wrapped
   * exactly once; and one wrapped once is not deleted while any handle holds it.
   */
  lemma DeletedOnceExactlyWhenWrappedOnce(run: seq<Memory>, k: nat, o: nat)
    requires IsRun(run) && k < |run| && o != NULL
    ensures !Held(run[k], o) ==> (Count(run[k].deleted, o) == 1 <==> Count(run[k].wraps, o) == 1)
    ensures Held(run[k], o) && Count(run[k].wraps, o) == 1 ==> o !in run[k].deleted
  {
    DeletedAsOftenAsWrapped(run, k, o);
    HeldMeansCells(run[k], o);
    CountNone(run[k].deleted, o);
  }

  /** A handle dangles exactly when one of the counts made for its object has gone already. */
  lemma DanglesExactlyWhenACountHasGone(run: seq<Memory>, k: nat, o: nat)
    requires IsRun(run) && k < |run| && o != NULL && Held(run[k], o)
    ensures o in run[k].deleted <==> |Cells(run[k], o)| < Count(run[k].wraps, o)
  {
    DeletedAsOftenAsWrapped(run, k, o);
    CountNone(run[k].deleted, o);
  }

  function Latest(run: seq<Memory>): Memory
    requires run != []
  {
    run[|run| - 1]
  }

  lemma RunExtended(run: seq<Memory>, op: Op) returns (longer: seq<Memory>)
    requires IsRun(run) && Inv(Latest(run)) && Allowed(Latest(run), op)
    ensures IsRun(longer) && Latest(longer) == After(Latest(run), op) && Inv(Latest(longer))
  {
    longer := run + [After(Latest(run), op)];
    assert StepBy(longer[|run| - 1], longer[|run|], op);
    forall i | 0 < i < |longer| ensures Next(longer[i - 1], longer[i]) {
      if i < |run| {
        assert Next(run[i - 1], run[i]);
      }
    }
    RunInv(longer, |run|);
  }

  /** Handles `first` to `last - 1` share count 1 on p, of which nothing has been deleted. */
  ghost predicate SharedBy(m: Memory, p: nat, first: nat, last: nat) {
    && (forall h :: h in m.handles <==> first <= h < last)
    && (forall h | first <= h < last :: m.handles[h] == Handle(p, 1))
    && m.counts.Keys == {1}
    && m.wraps == [p]
    && m.deleted == []
  }

  lemma OneMoreHandle(run: seq<Memory>, p: nat, k: nat) returns (longer: seq<Memory>)
    requires IsRun(run) && Inv(Latest(run)) && SharedBy(Latest(run), p, 0, k) && k > 0 && p != NULL
    ensures IsRun(longer) && Inv(Latest(longer)) && SharedBy(Latest(longer), p, 0, k + 1)
  {
    var m := Latest(run);
    assert k - 1 in m.handles && k !in m.handles;
    longer := RunExtended(run, if k % 2 == 0 then Copy(k, k - 1) else DynamicCast(k, k - 1, true, 2));
  }

  lemma OneHandleLess(run: seq<Memory>, p: nat, k: nat, last: nat) returns (longer: seq<Memory>)
    requires IsRun(run) && Inv(Latest(run)) && SharedBy(Latest(run), p, k, last) && k < last && p != NULL
    ensures IsRun(longer) && Inv(Latest(longer))
    ensures k + 1 < last ==> SharedBy(Latest(longer), p, k + 1, last)
    ensures k + 1 == last ==> Latest(longer).handles == map[] && Latest(longer).wraps == [p] && Latest(longer).deleted == [p]
  {
    var m := Latest(run);
    assert k in m.handles && (k + 1 < last ==> k + 1 in m.handles);
    DropCounts(m, k);
    longer := RunExtended(run, Op.Destroy(k));
  }

  /** An object wrapped once, copied and cast any number of times, and deleted by the last handle to go. */
  lemma OneObjectsLife(p: nat, copies: nat) returns (run: seq<Memory>)
    requires p != NULL
    ensures IsRun(run) && Latest(run).handles == map[] && Latest(run).wraps == [p] && Latest(run).deleted == [p]
  {
    run := [EMPTY];
    run := RunExtended(run, Construct(0, p, 1));
    for k := 1 to copies + 1
      invariant IsRun(run) && Inv(Latest(run)) && SharedBy(Latest(run), p, 0, k)
    {
      run := OneMoreHandle(run, p, k);
    }
    for k := 0 to copies
      invariant IsRun(run) && Inv(Latest(run)) && SharedBy(Latest(run), p, k, copies + 1)
    {
      run := OneHandleLess(run, p, k, copies + 1);
    }
    run := OneHandleLess(run, p, copies, copies + 1);
  }

  /** The case arises: two handles made from one object, destroyed one after the other, delete it twice. */
  lemma WrappedTwiceIsDeletedTwice(p: nat)
    requires p != NULL
    ensures var m := Wrapped(Wrapped(EMPTY, 1, p, 1), 2, p, 2);
            m.handles.Keys == {1, 2} && Dropped(m, 1).handles.Keys == {2} && Dropped(Dropped(m, 1), 2).deleted == [p, p]
  {
  }
}
