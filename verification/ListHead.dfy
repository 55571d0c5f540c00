/** The circular doubly linked lists of list.h, operation by operation against sequences. */
module ListHeads {

  /** A list head or an entry's list member; null links stand for the poison values. */
  class Node {
    var next: Node?
    var prev: Node?

    /** LIST_HEAD: a list of its own. */
    constructor ()
      ensures Ring([this])
    {
      next := this;
      prev := this;
    }
  }

  ghost predicate Link(a: Node, b: Node)
    reads a, b
  {
    a.next == b && b.prev == a
  }

  /** The nodes of r, in order, form one circle in both directions. */
  ghost predicate Ring(r: seq<Node>)
    reads r
  {
    && |r| > 0
    && (forall i, j | 0 <= i < j < |r| :: r[i] != r[j])
    && (forall i | 0 <= i < |r| - 1 :: Link(r[i], r[i + 1]))
    && Link(r[|r| - 1], r[0])
  }

  /** r is the circle of the list with head `head` and the given entries. */
  ghost predicate IsList(head: Node, entries: seq<Node>)
    reads head, entries
  {
    Ring([head] + entries)
  }

  ghost predicate Disjoint(a: seq<Node>, b: seq<Node>) {
    forall n | n in a :: n !in b
  }

  /** A circle may be read from any of its nodes. */
  lemma Rotated(r: seq<Node>, k: nat)
    requires Ring(r) && k < |r|
    ensures Ring(r[k..] + r[..k])
  {
    var t := r[k..] + r[..k];
    assert t[0] == r[k];
    forall i | 0 <= i < |t| - 1 ensures Link(t[i], t[i + 1]) {
      if i < |r| - k - 1 {
        assert t[i] == r[k + i] && t[i + 1] == r[k + i + 1];
      } else if i == |r| - k - 1 {
        assert t[i] == r[|r| - 1] && t[i + 1] == r[0];
      } else {
        assert t[i] == r[k + i - |r|] && t[i + 1] == r[k + i + 1 - |r|];
      }
    }
    if k > 0 {
      assert t[|t| - 1] == r[k - 1];
    }
  }

  lemma Turned(a: seq<Node>, b: seq<Node>)
    requires Ring(a + b)
    ensures Ring(b + a)
  {
    if b == [] {
      assert a + b == a == b + a;
    } else {
      Rotated(a + b, |a|);
      assert (a + b)[|a|..] + (a + b)[..|a|] == b + a;
    }
  }

  /** A list in terms of its links. */
  lemma ListLinks(head: Node, entries: seq<Node>)
    ensures IsList(head, entries) <==>
      && head !in entries && (forall i, j | 0 <= i < j < |entries| :: entries[i] != entries[j])
      && (forall i | 0 <= i < |entries| - 1 :: Link(entries[i], entries[i + 1]))
      && Link(head, if entries == [] then head else entries[0])
      && Link(if entries == [] then head else entries[|entries| - 1], head)
  {
    var r := [head] + entries;
    assert forall i | 0 <= i < |entries| :: entries[i] == r[i + 1];
    if IsList(head, entries) {
      forall i | 0 <= i < |entries| ensures entries[i] != head {
        assert r[0] != r[i + 1];
      }
      forall i | 0 <= i < |entries| - 1 ensures Link(entries[i], entries[i + 1]) {
        assert Link(r[i + 1], r[i + 2]);
      }
      assert entries != [] ==> Link(r[0], r[1]);
    }
  }

  lemma NeighboursAt(r: seq<Node>, i: nat)
    requires Ring(r) && i < |r|
    ensures r[i].next == r[if i + 1 < |r| then i + 1 else 0]
    ensures r[i].prev == r[if i > 0 then i - 1 else |r| - 1]
  {
    assert i < |r| - 1 ==> Link(r[i], r[i + 1]);
    assert i > 0 ==> Link(r[i - 1], r[i]);
  }

  lemma LinksStayInside(r: seq<Node>)
    requires Ring(r)
    ensures forall n | n in r :: n.next in r && n.prev in r
  {
    forall n | n in r ensures n.next in r && n.prev in r {
      var i :| 0 <= i < |r| && r[i] == n;
      NeighboursAt(r, i);
    }
  }

  method InitListHead(list: Node)
    modifies list
    ensures IsList(list, [])
  {
    list.next := list;
    list.prev := list;
  }

  // ---------------------------------------------------------------------------------------------
  // The internal operations, on consecutive nodes of a circle read from a convenient place.

  /** Insert between the last and the first node of r. */
  method AddBetween(node: Node, prev: Node, next: Node, ghost r: seq<Node>)
    requires Ring(r) && next == r[0] && prev == r[|r| - 1] && node !in r
    modifies node, prev, next
    ensures Ring(r + [node])
  {
    next.prev := node;
    node.next := next;
    node.prev := prev;
    prev.next := node;
  }

  /** Join the neighbours of r[0], which leaves the circle if it is not alone in it. */
  method DelBetween(prev: Node, next: Node, ghost r: seq<Node>)
    requires Ring(r) && prev == r[0].prev && next == r[0].next
    modifies prev, next
    ensures |r| > 1 ==> Ring(r[1..]) && r[0].prev == prev && r[0].next == next
    ensures |r| == 1 ==> Ring(r)
  {
    assert |r| > 1 ==> Link(r[0], r[1]);
    next.prev := prev;
    prev.next := next;
  }

  // ---------------------------------------------------------------------------------------------
  // Adding and deleting.

  method Add(node: Node, head: Node, ghost entries: seq<Node>)
    requires IsList(head, entries) && node != head && node !in entries
    modifies node, head, head.next
    ensures IsList(head, [node] + entries)
  {
    NeighboursAt([head] + entries, 0);
    Turned([head], entries);
    AddBetween(node, head, head.next, entries + [head]);
    assert entries + [head] + [node] == entries + ([head] + [node]);
    Turned(entries, [head] + [node]);
    assert ([head] + [node]) + entries == [head] + ([node] + entries);
  }

  method AddTail(node: Node, head: Node, ghost entries: seq<Node>)
    requires IsList(head, entries) && node != head && node !in entries
    modifies node, head, head.prev
    ensures IsList(head, entries + [node])
  {
    AddBetween(node, head.prev, head, [head] + entries);
    assert [head] + entries + [node] == [head] + (entries + [node]);
  }

  /** The circle of a list read from its entry k. */
  ghost function FromEntry(head: Node, entries: seq<Node>, k: nat): seq<Node>
    requires k < |entries|
  {
    entries[k..] + [head] + entries[..k]
  }

  lemma ReadFromEntry(head: Node, entries: seq<Node>, k: nat)
    requires IsList(head, entries) && k < |entries|
    ensures Ring(FromEntry(head, entries, k))
  {
    assert [head] + entries == ([head] + entries[..k]) + entries[k..];
    Turned([head] + entries[..k], entries[k..]);
    assert entries[k..] + ([head] + entries[..k]) == FromEntry(head, entries, k);
  }

  lemma EntriesAreDistinct(head: Node, entries: seq<Node>)
    requires IsList(head, entries)
    ensures head !in entries
    ensures forall i, j | 0 <= i < j < |entries| :: entries[i] != entries[j]
  {
    var r := [head] + entries;
    forall i | 0 <= i < |entries| ensures entries[i] == r[i + 1] && entries[i] != head {
      assert r[0] != r[i + 1];
    }
  }

  function Without(entries: seq<Node>, k: nat): seq<Node>
    requires k < |entries|
  {
    entries[..k] + entries[k + 1..]
  }

  /** Entry k is left out, and the others keep their order. */
  lemma WithoutAt(entries: seq<Node>, k: nat)
    requires k < |entries|
    ensures |Without(entries, k)| == |entries| - 1
    ensures forall i | 0 <= i < k :: Without(entries, k)[i] == entries[i]
    ensures forall i | k < i < |entries| :: Without(entries, k)[i - 1] == entries[i]
  {
  }

  /** What is left of the circle read from entry k, read from the head. */
  lemma RestOfCircle(head: Node, entries: seq<Node>, k: nat)
    requires k < |entries| && Ring(FromEntry(head, entries, k)[1..])
    ensures IsList(head, Without(entries, k))
  {
    assert FromEntry(head, entries, k)[1..] == entries[k + 1..] + ([head] + entries[..k]);
    Turned(entries[k + 1..], [head] + entries[..k]);
    assert ([head] + entries[..k]) + entries[k + 1..] == [head] + Without(entries, k);
  }

  /** The two assignments of a deletion, for entry k of a list. */
  method Unlink(entry: Node, ghost head: Node, ghost entries: seq<Node>, ghost k: nat)
    requires IsList(head, entries) && k < |entries| && entry == entries[k]
    modifies entry.prev, entry.next
    ensures IsList(head, Without(entries, k)) && entry !in [head] + Without(entries, k)
  {
    EntriesAreDistinct(head, entries);
    ReadFromEntry(head, entries, k);
    ghost var r := FromEntry(head, entries, k);
    assert r[0] == entry && Link(r[|r| - 1], r[0]) && Link(r[0], r[1]);
    DelBetween(entry.prev, entry.next, r);
    RestOfCircle(head, entries, k);
  }

  method Del(entry: Node, ghost head: Node, ghost entries: seq<Node>, ghost k: nat)
    requires IsList(head, entries) && k < |entries| && entry == entries[k]
    modifies entry, entry.prev, entry.next
    ensures IsList(head, Without(entries, k))
    ensures entry.next == null && entry.prev == null
  {
    Unlink(entry, head, entries, k);
    entry.next := null;
    entry.prev := null;
  }

  method DelInit(entry: Node, ghost head: Node, ghost entries: seq<Node>, ghost k: nat)
    requires IsList(head, entries) && k < |entries| && entry == entries[k]
    modifies entry, entry.prev, entry.next
    ensures IsList(head, Without(entries, k)) && IsList(entry, [])
  {
    Unlink(entry, head, entries, k);
    InitListHead(entry);
  }

  // ---------------------------------------------------------------------------------------------
  // Replacing and moving.

  /** An empty old list gives an empty new one. */
  method Replace(oldNode: Node, newNode: Node, ghost r: seq<Node>)
    requires Ring(r) && oldNode == r[0] && newNode !in r
    modifies newNode, oldNode.next, oldNode.prev
    ensures Ring([newNode] + r[1..])
    ensures |r| > 1 ==> oldNode.next == old(oldNode.next) && oldNode.prev == old(oldNode.prev)
  {
    assert |r| > 1 ==> Link(r[0], r[1]);
    newNode.next := oldNode.next;
    newNode.next.prev := newNode;
    newNode.prev := oldNode.prev;
    newNode.prev.next := newNode;
  }

  method ReplaceInit(oldNode: Node, newNode: Node, ghost r: seq<Node>)
    requires Ring(r) && oldNode == r[0] && newNode !in r
    modifies oldNode, newNode, oldNode.next, oldNode.prev
    ensures Ring([newNode] + r[1..]) && Ring([oldNode])
  {
    Replace(oldNode, newNode, r);
    assert oldNode !in [newNode] + r[1..];
    InitListHead(oldNode);
  }

  /** Moves entry k of a list to its own front. */
  method MoveWithin(entry: Node, head: Node, ghost entries: seq<Node>, ghost k: nat)
    requires IsList(head, entries) && k < |entries| && entry == entries[k]
    modifies head, entries
    ensures IsList(head, [entry] + Without(entries, k))
  {
    LinksStayInside([head] + entries);
    Unlink(entry, head, entries, k);
    LinksStayInside([head] + Without(entries, k));
    Add(entry, head, Without(entries, k));
  }

  /** Unlinking an entry leaves another circle as it was. */
  method UnlinkBeside(entry: Node, ghost from: Node, ghost entries: seq<Node>, ghost k: nat, ghost ring: seq<Node>)
    requires IsList(from, entries) && k < |entries| && entry == entries[k]
    requires Ring(ring) && Disjoint([from] + entries, ring)
    modifies entry.prev, entry.next
    ensures IsList(from, Without(entries, k)) && Ring(ring)
    ensures entry !in [from] + Without(entries, k) && entry !in ring
    ensures forall n | n in ring :: n !in [from] + Without(entries, k)
  {
    LinksStayInside([from] + entries);
    assert entry in [from] + entries;
    assert forall n | n in [from] + Without(entries, k) :: n in [from] + entries;
    Unlink(entry, from, entries, k);
  }

  /** Adding a node leaves another circle as it was. */
  method AddBeside(node: Node, head: Node, ghost entries: seq<Node>, ghost ring: seq<Node>)
    requires IsList(head, entries) && node != head && node !in entries
    requires Ring(ring) && node !in ring && forall n | n in [head] + entries :: n !in ring
    modifies node, head, head.next
    ensures IsList(head, [node] + entries) && Ring(ring)
  {
    LinksStayInside([head] + entries);
    Add(node, head, entries);
  }

  method AddTailBeside(node: Node, head: Node, ghost entries: seq<Node>, ghost ring: seq<Node>)
    requires IsList(head, entries) && node != head && node !in entries
    requires Ring(ring) && node !in ring && forall n | n in [head] + entries :: n !in ring
    modifies node, head, head.prev
    ensures IsList(head, entries + [node]) && Ring(ring)
  {
    LinksStayInside([head] + entries);
    AddTail(node, head, entries);
  }

  /** Moves entry k of one list to the front of another. */
  method MoveAcross(entry: Node, ghost from: Node, ghost entries: seq<Node>, ghost k: nat,
                    head: Node, ghost others: seq<Node>)
    requires IsList(from, entries) && k < |entries| && entry == entries[k]
    requires IsList(head, others) && Disjoint([from] + entries, [head] + others)
    modifies from, entries, head, others
    ensures IsList(from, Without(entries, k)) && IsList(head, [entry] + others)
  {
    LinksStayInside([from] + entries);
    UnlinkBeside(entry, from, entries, k, [head] + others);
    LinksStayInside([head] + others);
    AddBeside(entry, head, others, [from] + Without(entries, k));
  }

  method MoveTailWithin(entry: Node, head: Node, ghost entries: seq<Node>, ghost k: nat)
    requires IsList(head, entries) && k < |entries| && entry == entries[k]
    modifies head, entries
    ensures IsList(head, Without(entries, k) + [entry])
  {
    LinksStayInside([head] + entries);
    Unlink(entry, head, entries, k);
    LinksStayInside([head] + Without(entries, k));
    AddTail(entry, head, Without(entries, k));
  }

  method MoveTailAcross(entry: Node, ghost from: Node, ghost entries: seq<Node>, ghost k: nat,
                        head: Node, ghost others: seq<Node>)
    requires IsList(from, entries) && k < |entries| && entry == entries[k]
    requires IsList(head, others) && Disjoint([from] + entries, [head] + others)
    modifies from, entries, head, others
    ensures IsList(from, Without(entries, k)) && IsList(head, others + [entry])
  {
    LinksStayInside([from] + entries);
    UnlinkBeside(entry, from, entries, k, [head] + others);
    LinksStayInside([head] + others);
    AddTailBeside(entry, head, others, [from] + Without(entries, k));
  }

  // ---------------------------------------------------------------------------------------------
  // Tests.

  method IsLast(list: Node, head: Node, ghost entries: seq<Node>, ghost k: nat) returns (last: bool)
    requires IsList(head, entries) && k < |entries| && list == entries[k]
    ensures last <==> k == |entries| - 1
  {
    EntriesAreDistinct(head, entries);
    ghost var r := [head] + entries;
    assert k < |entries| - 1 ==> Link(r[k + 1], r[k + 2]);
    last := list.next == head;
  }

  method Empty(head: Node, ghost entries: seq<Node>) returns (empty: bool)
    requires IsList(head, entries)
    ensures empty <==> entries == []
  {
    EntriesAreDistinct(head, entries);
    assert entries != [] ==> Link(([head] + entries)[0], ([head] + entries)[1]);
    empty := head.next == head;
  }

  method EmptyCareful(head: Node, ghost entries: seq<Node>) returns (empty: bool)
    requires IsList(head, entries)
    ensures empty <==> entries == []
  {
    EntriesAreDistinct(head, entries);
    assert entries != [] ==> Link(([head] + entries)[0], ([head] + entries)[1]);
    var next := head.next;
    empty := next == head && next == head.prev;
  }

  method Singular(head: Node, ghost entries: seq<Node>) returns (singular: bool)
    requires IsList(head, entries)
    ensures singular <==> |entries| == 1
  {
    EntriesAreDistinct(head, entries);
    ghost var r := [head] + entries;
    assert entries != [] ==> Link(r[0], r[1]) && Link(r[|r| - 1], r[0]);
    var empty := Empty(head, entries);
    singular := !empty && head.next == head.prev;
  }

  // ---------------------------------------------------------------------------------------------
  // Rotating.

  method RotateLeft(head: Node, ghost entries: seq<Node>)
    requires IsList(head, entries)
    modifies head, entries
    ensures IsList(head, if entries == [] then [] else entries[1..] + [entries[0]])
  {
    var empty := Empty(head, entries);
    if !empty {
      assert Link(([head] + entries)[0], ([head] + entries)[1]);
      var first := head.next;
      MoveTailWithin(first, head, entries, 0);
      assert Without(entries, 0) + [first] == entries[1..] + [entries[0]];
    }
  }

  /** Rotating as often as the list has entries restores it. */
  method RotateFully(head: Node, ghost entries: seq<Node>, length: nat)
    requires IsList(head, entries) && length == |entries|
    modifies head, entries
    ensures IsList(head, entries)
  {
    ghost var now := entries;
    for i := 0 to length
      invariant now == entries[i..] + entries[..i] && IsList(head, now)
    {
      assert now[1..] + [now[0]] == entries[i + 1..] + entries[..i + 1];
      RotateLeft(head, now);
      now := now[1..] + [now[0]];
    }
    assert now == entries;
  }

  // ---------------------------------------------------------------------------------------------
  // Cutting and splicing.

  /** The links that __list_cut_position leaves make two circles. */
  lemma CutApart(list: Node, head: Node, entries: seq<Node>, k: nat)
    requires k < |entries| && list != head && list !in entries && head !in entries
    requires forall i, j | 0 <= i < j < |entries| :: entries[i] != entries[j]
    requires forall i | 0 <= i < |entries| - 1 && i != k :: Link(entries[i], entries[i + 1])
    requires Link(list, entries[0]) && Link(entries[k], list)
    requires Link(head, if k + 1 < |entries| then entries[k + 1] else head)
    requires k + 1 < |entries| ==> Link(entries[|entries| - 1], head)
    ensures IsList(list, entries[..k + 1]) && IsList(head, entries[k + 1..])
  {
    ListLinks(list, entries[..k + 1]);
    ListLinks(head, entries[k + 1..]);
  }

  /** Moves the entries up to and including `entry`, entry k, to `list`. */
  method CutBetween(list: Node, head: Node, entry: Node, ghost entries: seq<Node>, ghost k: nat)
    requires IsList(head, entries) && k < |entries| && entry == entries[k] && list !in [head] + entries
    modifies list, head, entries
    ensures IsList(list, entries[..k + 1]) && IsList(head, entries[k + 1..])
  {
    ListLinks(head, entries);
    assert k + 1 < |entries| ==> Link(entries[k], entries[k + 1]);
    var newFirst := entry.next;
    list.next := head.next;
    list.next.prev := list;
    list.prev := entry;
    entry.next := list;
    head.next := newFirst;
    newFirst.prev := head;
    CutApart(list, head, entries, k);
  }

  /**
   * `k` is the index of `entry` among the entries, -1 for the head, or -2 for a node that is on no
   * list of more than one entry. An empty list is left alone, and `list` with it; so is a list of
   * one when `entry` is elsewhere.
   */
  method CutPosition(list: Node, head: Node, entry: Node, ghost entries: seq<Node>, ghost k: int)
    requires IsList(head, entries) && list !in [head] + entries
    requires -2 <= k < |entries| && (k == -1 ==> entry == head) && (k >= 0 ==> entry == entries[k])
    requires k == -2 ==> entry !in [head] + entries && |entries| <= 1
    modifies list, head, entries
    ensures k >= 0 ==> IsList(list, entries[..k + 1]) && IsList(head, entries[k + 1..])
    ensures k < 0 ==> IsList(head, entries)
    ensures k == -1 && entries != [] ==> IsList(list, [])
    ensures k == -2 || entries == [] ==> list.next == old(list.next) && list.prev == old(list.prev)
  {
    EntriesAreDistinct(head, entries);
    NeighboursAt([head] + entries, 0);
    assert k == -2 && entries != [] ==> entries[0] in [head] + entries;
    var empty := Empty(head, entries);
    if empty {
      return;
    }
    var singular := Singular(head, entries);
    if singular && head.next != entry && head != entry {
      return;
    }
    if entry == head {
      InitListHead(list);
    } else {
      CutBetween(list, head, entry, entries, k);
    }
  }

  /** Puts the entries of `list` between two consecutive nodes, the last and first of r. */
  method SpliceBetween(list: Node, prev: Node, next: Node, ghost entries: seq<Node>, ghost r: seq<Node>)
    requires IsList(list, entries) && entries != []
    requires Ring(r) && next == r[0] && prev == r[|r| - 1] && Disjoint([list] + entries, r)
    modifies entries, prev, next
    ensures Ring(r + entries)
    ensures list.next == old(list.next) && list.prev == old(list.prev)
  {
    ghost var l := [list] + entries;
    NeighboursAt(l, 0);
    EntriesAreDistinct(list, entries);
    assert l[|l| - 1] == entries[|entries| - 1];
    forall i | 0 <= i < |entries| ensures entries[i] !in r {
      assert entries[i] == l[i + 1];
    }
    assert list in l;
    var first := list.next;
    var last := list.prev;
    first.prev := prev;
    prev.next := first;
    last.next := next;
    next.prev := last;
    ghost var t := r + entries;
    forall i | 0 <= i < |t| - 1 ensures Link(t[i], t[i + 1]) {
      if i >= |r| {
        var j := i - |r|;
        assert old(Link(l[j + 1], l[j + 2]));
        assert t[i] == entries[j] == l[j + 1] && t[i + 1] == entries[j + 1] == l[j + 2];
      } else if i < |r| - 1 {
        assert old(Link(r[i], r[i + 1]));
        assert t[i] == r[i] && t[i + 1] == r[i + 1];
      } else {
        assert t[i] == prev && t[i + 1] == first;
      }
    }
    forall i, j | 0 <= i < j < |t| ensures t[i] != t[j] {
      if i < |r| <= j {
        assert t[j] == entries[j - |r|] && t[i] in r;
      } else if |r| <= i {
        assert t[i] == entries[i - |r|] && t[j] == entries[j - |r|];
      }
    }
  }

  /** The circle of a list with the entries split in two, read from the middle. */
  lemma ReadFromMiddle(head: Node, front: seq<Node>, back: seq<Node>)
    ensures IsList(head, front + back) <==> Ring(back + [head] + front)
  {
    assert [head] + (front + back) == ([head] + front) + back;
    assert back + [head] + front == back + ([head] + front);
    if IsList(head, front + back) {
      Turned([head] + front, back);
    }
    if Ring(back + [head] + front) {
      Turned(back, [head] + front);
    }
  }

  method Splice(list: Node, head: Node, ghost added: seq<Node>, ghost entries: seq<Node>)
    requires IsList(list, added) && IsList(head, entries) && Disjoint([list] + added, [head] + entries)
    modifies added, head, entries
    ensures IsList(head, added + entries)
    ensures list.next == old(list.next) && list.prev == old(list.prev)
  {
    assert list in [list] + added;
    var empty := Empty(list, added);
    if !empty {
      ghost var r := entries + [head];
      ReadFromMiddle(head, [], entries);
      assert [] + entries == entries && r + [] == r;
      NeighboursAt(r, |entries|);
      SpliceBetween(list, head, head.next, added, r);
      ReadFromMiddle(head, added, entries);
    } else {
      assert added + entries == entries;
    }
  }

  method SpliceTail(list: Node, head: Node, ghost added: seq<Node>, ghost entries: seq<Node>)
    requires IsList(list, added) && IsList(head, entries) && Disjoint([list] + added, [head] + entries)
    modifies added, head, entries
    ensures IsList(head, entries + added)
    ensures list.next == old(list.next) && list.prev == old(list.prev)
  {
    assert list in [list] + added;
    var empty := Empty(list, added);
    if !empty {
      NeighboursAt([head] + entries, 0);
      SpliceBetween(list, head.prev, head, added, [head] + entries);
      assert [head] + entries + added == [head] + (entries + added);
    } else {
      assert entries + added == entries;
    }
  }

  method SpliceInit(list: Node, head: Node, ghost added: seq<Node>, ghost entries: seq<Node>)
    requires IsList(list, added) && IsList(head, entries) && Disjoint([list] + added, [head] + entries)
    modifies list, added, head, entries
    ensures IsList(head, added + entries) && IsList(list, [])
  {
    assert list in [list] + added;
    EntriesAreDistinct(list, added);
    var empty := Empty(list, added);
    Splice(list, head, added, entries);
    if !empty {
      assert list !in [head] + (added + entries);
      InitListHead(list);
    }
  }

  method SpliceTailInit(list: Node, head: Node, ghost added: seq<Node>, ghost entries: seq<Node>)
    requires IsList(list, added) && IsList(head, entries) && Disjoint([list] + added, [head] + entries)
    modifies list, added, head, entries
    ensures IsList(head, entries + added) && IsList(list, [])
  {
    assert list in [list] + added;
    EntriesAreDistinct(list, added);
    var empty := Empty(list, added);
    SpliceTail(list, head, added, entries);
    if !empty {
      assert list !in [head] + (entries + added);
      InitListHead(list);
    }
  }

  /** Cutting at an entry into an empty list and splicing back restores the original. */
  method CutThenSplice(list: Node, head: Node, entry: Node, ghost entries: seq<Node>, ghost k: nat)
    requires IsList(head, entries) && IsList(list, []) && list !in [head] + entries
    requires k < |entries| && entry == entries[k]
    modifies list, head, entries
    ensures IsList(head, entries)
  {
    EntriesAreDistinct(head, entries);
    CutPosition(list, head, entry, entries, k);
    Splice(list, head, entries[..k + 1], entries[k + 1..]);
    assert entries[..k + 1] + entries[k + 1..] == entries;
  }

  // ---------------------------------------------------------------------------------------------
  // Safe iteration.

  /** The first two steps of a walk round a list. */
  lemma WalkStart(head: Node, entries: seq<Node>)
    requires IsList(head, entries)
    ensures head.next == if entries == [] then head else entries[0]
    ensures entries != [] ==> entries[0].next == if |entries| == 1 then head else entries[1]
    ensures forall e | e in [head] + entries :: e.next != null
  {
    var r := [head] + entries;
    NeighboursAt(r, 0);
    if entries != [] {
      NeighboursAt(r, 1);
    }
    LinksStayInside(r);
  }

  /** Deleted entries, poisoned and off the list. */
  ghost predicate Gone(visited: seq<Node>, head: Node, left: seq<Node>)
    reads visited
  {
    forall e | e in visited :: e !in [head] + left && e.next == null && e.prev == null
  }

  /** The loop body: the first entry of what is left goes, and those gone before stay as they are. */
  method DeleteFirst(pos: Node, ghost head: Node, ghost left: seq<Node>, ghost visited: seq<Node>)
    requires IsList(head, left) && left != [] && pos == left[0] && Gone(visited, head, left)
    modifies head, left
    ensures IsList(head, left[1..]) && Gone(visited + [pos], head, left[1..])
  {
    LinksStayInside([head] + left);
    EntriesAreDistinct(head, left);
    assert pos in [head] + left;
    Del(pos, head, left, 0);
    assert Without(left, 0) == left[1..];
  }

  lemma FirstMovesOver<T>(a: seq<T>, b: seq<T>)
    requires b != []
    ensures (a + [b[0]]) + b[1..] == a + b
    ensures forall i | 0 <= i < |b| :: b[i] == (a + b)[|a| + i]
  {
  }

  /** list_for_each_safe whose body deletes the entry it is given. */
  method DeleteEach(head: Node, ghost entries: seq<Node>) returns (ghost visited: seq<Node>)
    requires IsList(head, entries)
    modifies head, entries
    ensures visited == entries && IsList(head, [])
    ensures forall e | e in entries :: e.next == null && e.prev == null
  {
    visited := [];
    WalkStart(head, entries);
    var pos: Node := head.next;
    var n: Node := pos.next;
    ghost var left := entries;
    while pos != head
      invariant visited + left == entries
      invariant IsList(head, left) && Gone(visited, head, left)
      invariant pos == (if left == [] then head else left[0]) && n == pos.next
      decreases |left|
    {
      WalkStart(head, left);
      FirstMovesOver(visited, left);
      DeleteFirst(pos, head, left, visited);
      visited, left := visited + [pos], left[1..];
      WalkStart(head, left);
      pos := n;
      n := pos.next;
    }
    EntriesAreDistinct(head, left);
  }
}
