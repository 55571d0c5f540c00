/** The word counters: wordfreq.c over plain malloc, and wordfreqpref.c over two arenas. */
module WordFrequencies {
  import opened WordTable

  // ---------------------------------------------------------------------------------------------
  // wordfreq.c

  class MallocTable {
    const bin: array<int>
    var cells: seq<Cell>

    ghost function AsStore(): Store
      reads this, bin
    {
      Store(bin[..], cells)
    }

    ghost predicate Valid()
      reads this, bin
    {
      WellFormed(AsStore())
    }

    ghost function Shown(): Table
      requires Valid()
      reads this, bin
    {
      TableOfStore(AsStore())
    }

    constructor ()
      ensures Valid() && fresh(bin) && Shown() == TableOf([])
    {
      bin := new int[NHASH](_ => NULL);
      cells := [];
    }

    /** The search loop: the first node for s on its chain, or NULL. */
    method Find(s: Word, h: nat) returns (p: int)
      requires Valid() && h == HashOf(s)
      ensures NULL <= p < |cells| && Skips(cells, bin[h], p, s)
      ensures p != NULL ==> cells[p].word == s
    {
      p := bin[h];
      while p != NULL && cells[p].word != s
        invariant NULL <= p < |cells| && Skips(cells, bin[h], p, s)
        decreases p
      {
        SkipsOne(cells, bin[h], p, s);
        p := cells[p].next;
      }
    }

    method Bump(p: nat)
      requires p < |cells|
      modifies this`cells
      ensures AsStore() == Raise(old(AsStore()), p)
    {
      cells := cells[p := cells[p].(count := cells[p].count + 1)];
    }

    method Insert(s: Word, h: nat)
      requires bin.Length == NHASH && h == HashOf(s)
      modifies this`cells, bin
      ensures AsStore() == Push(old(AsStore()), s)
    {
      var p := |cells|;
      cells := cells + [Cell(s, 1, bin[h])];
      bin[h] := p;
    }

    method IncWord(s: Word)
      requires Valid()
      modifies this, bin
      ensures Valid() && Shown() == Counted(old(Shown()), s)
    {
      var h := Hash(s);
      var p := Find(s, h);
      if p != NULL {
        RaiseCounts(AsStore(), p);
        Bump(p);
      } else {
        PushCounts(AsStore(), s);
        Insert(s, h);
      }
    }
  }

  // ---------------------------------------------------------------------------------------------
  // wordfreqpref.c: characters

  const CHARGROUP := 10000
  const NODEGROUP := 1000

  datatype Addr = Addr(chunk: nat, off: nat)

  datatype Range = Range(at: Addr, len: nat)

  ghost predicate Apart(a: Range, b: Range) {
    a.at.chunk != b.at.chunk || a.at.off + a.len <= b.at.off || b.at.off + b.len <= a.at.off
  }

  ghost predicate Within(chunks: seq<seq<int>>, r: Range) {
    r.at.chunk < |chunks| && r.at.off + r.len <= |chunks[r.at.chunk]|
  }

  ghost function Slice(chunks: seq<seq<int>>, r: Range): seq<int>
    requires Within(chunks, r)
  {
    chunks[r.at.chunk][r.at.off..r.at.off + r.len]
  }

  lemma AppendZero(chunk: seq<int>, off: nat, s: Word)
    requires off + |s| < |chunk| && forall k | 0 <= k < |s| :: chunk[off + k] == s[k]
    ensures chunk[off + |s| := 0][off..off + |s| + 1] == s + [0]
  {
    var written := chunk[off + |s| := 0][off..off + |s| + 1];
    forall k | 0 <= k < |written| ensures written[k] == (s + [0])[k] {
      assert written[k] == chunk[off + |s| := 0][off + k];
    }
  }

  /** Writing inside one range leaves every range apart from it alone. */
  lemma WriteElsewhere(chunks: seq<seq<int>>, chunk: seq<int>, w: Range, r: Range)
    requires Within(chunks, w) && Within(chunks, r) && Apart(w, r) && |chunk| == |chunks[w.at.chunk]|
    requires forall k | 0 <= k < |chunk| && !(w.at.off <= k < w.at.off + w.len) :: chunk[k] == chunks[w.at.chunk][k]
    ensures Within(chunks[w.at.chunk := chunk], r)
    ensures Slice(chunks[w.at.chunk := chunk], r) == Slice(chunks, r)
  {
  }

  /** The memory that smalloc hands out, as the chunks obtained from malloc. */
  class CharArena {
    var chunks: seq<seq<int>>
    var freeChar: Addr
    var charLeft: int
    ghost var ranges: seq<Range>

    /** All ranges lie in their chunks, apart from each other and from what is still free. */
    ghost predicate Valid()
      reads this
    {
      && charLeft >= 0
      && (charLeft > 0 ==> Within(chunks, Range(freeChar, charLeft)))
      && (forall i | 0 <= i < |ranges| :: Within(chunks, ranges[i]))
      && (forall i | 0 <= i < |ranges| :: Apart(ranges[i], Range(freeChar, charLeft)))
      && (forall i, j | 0 <= i < j < |ranges| :: Apart(ranges[i], ranges[j]))
    }

    ghost function Content(j: nat): seq<int>
      requires Valid() && j < |ranges|
      reads this
    {
      Slice(chunks, ranges[j])
    }

    ghost function Contents(): (r: seq<seq<int>>)
      requires Valid()
      reads this
      ensures |r| == |ranges|
    {
      seq(|ranges|, j requires Valid() && 0 <= j < |ranges| reads this => Content(j))
    }

    constructor ()
      ensures Valid() && ranges == []
    {
      chunks := [];
      freeChar := Addr(0, 0);
      charLeft := 0;
      ranges := [];
    }

    method SMalloc(n: nat) returns (a: Addr)
      requires Valid() && n > 0
      modifies this
      ensures Valid() && ranges == old(ranges) + [Range(a, n)]
      ensures forall j: nat | j < |old(ranges)| :: Content(j) == old(Content(j))
    {
      ghost var was := chunks;
      if charLeft < n {
        freeChar := Addr(|chunks|, 0);
        chunks := chunks + [seq(n + CHARGROUP, _ => 0)];
        charLeft := n + CHARGROUP;
      }
      assert forall c | 0 <= c < |was| :: chunks[c] == was[c];
      a := freeChar;
      charLeft := charLeft - n;
      freeChar := Addr(freeChar.chunk, freeChar.off + n);
      ranges := ranges + [Range(a, n)];
    }

    /** strcpy into the j-th range. */
    method StrCpy(a: Addr, s: Word, ghost j: nat)
      requires Valid() && j < |ranges| && ranges[j] == Range(a, |s| + 1)
      modifies this`chunks
      ensures Valid() && Content(j) == s + [0]
      ensures forall i: nat | i < |ranges| && i != j :: Content(i) == old(Content(i))
    {
      var chunk := chunks[a.chunk];
      var i := 0;
      while i < |s|
        invariant i <= |s| && |chunk| == |chunks[a.chunk]|
        invariant forall k | 0 <= k < i :: chunk[a.off + k] == s[k]
        invariant forall k | 0 <= k < |chunk| && !(a.off <= k < a.off + i) :: chunk[k] == chunks[a.chunk][k]
      {
        chunk := chunk[a.off + i := s[i]];
        i := i + 1;
      }
      AppendZero(chunk, a.off, s);
      chunk := chunk[a.off + |s| := 0];
      ghost var was := chunks;
      chunks := chunks[a.chunk := chunk];
      forall k: nat | k < |ranges| && k != j ensures Content(k) == Slice(was, ranges[k]) {
        assert if k < j then Apart(ranges[k], ranges[j]) else Apart(ranges[j], ranges[k]);
        WriteElsewhere(was, chunk, ranges[j], ranges[k]);
      }
    }

    /** smalloc(strlen(s) + 1) and strcpy: every string kept before stays as it was. */
    method Keep(s: Word) returns (a: Addr)
      requires Valid()
      modifies this
      ensures Valid() && ranges == old(ranges) + [Range(a, |s| + 1)]
      ensures Contents() == old(Contents()) + [s + [0]]
    {
      a := SMalloc(|s| + 1);
      StrCpy(a, s, |ranges| - 1);
    }

    /** strcmp(s, a) == 0, for the string in the j-th range. */
    method SameString(s: Word, a: Addr, ghost j: nat, ghost w: Word) returns (same: bool)
      requires Valid() && j < |ranges| && ranges[j] == Range(a, |w| + 1) && Content(j) == w + [0]
      requires 0 !in s && 0 !in w
      ensures same <==> s == w
    {
      forall k | 0 <= k <= |w| ensures chunks[a.chunk][a.off + k] == if k < |w| then w[k] else 0 {
        assert Content(j)[k] == (w + [0])[k];
      }
      assert forall k | 0 <= k < |w| :: w[k] in w;
      var i := 0;
      while i < |s| && chunks[a.chunk][a.off + i] == s[i]
        invariant i <= |s| && i <= |w| && forall k | 0 <= k < i :: s[k] == w[k]
      {
        assert s[i] in s;
        i := i + 1;
      }
      same := i == |s| && chunks[a.chunk][a.off + i] == 0;
    }
  }

  // ---------------------------------------------------------------------------------------------
  // wordfreqpref.c: nodes and the table

  datatype Ptr = Nil | At(group: nat, idx: nat)

  datatype Rec = Rec(word: Addr, count: int, next: Ptr)

  /** Which allocation made the node at an address. */
  function Number(p: Ptr): int {
    if p.Nil? then NULL else p.group * NODEGROUP + p.idx
  }

  /** n nodes fit the groups. */
  ghost predicate Enough(nodes: seq<seq<Rec>>, n: nat) {
    n <= |nodes| * NODEGROUP && forall g | 0 <= g < |nodes| :: |nodes[g]| == NODEGROUP
  }

  ghost function NodeAt(nodes: seq<seq<Rec>>, k: nat): Rec
    requires Enough(nodes, k + 1)
  {
    nodes[k / NODEGROUP][k % NODEGROUP]
  }

  ghost function CellAt(nodes: seq<seq<Rec>>, words: seq<Word>, k: nat): Cell
    requires k < |words| && Enough(nodes, k + 1)
  {
    Cell(words[k], NodeAt(nodes, k).count, Number(NodeAt(nodes, k).next))
  }

  /** The bins' and nodes' contents, with word k as the word of the k-th node. */
  ghost function View(bin: seq<Ptr>, nodes: seq<seq<Rec>>, words: seq<Word>): Store
    requires Enough(nodes, |words|)
  {
    Store(
      seq(|bin|, h requires 0 <= h < |bin| => Number(bin[h])),
      seq(|words|, k requires 0 <= k < |words| => CellAt(nodes, words, k)))
  }

  /** Every pointer is an address in a group, so that numbers and addresses correspond. */
  ghost predicate InGroups(bin: seq<Ptr>, nodes: seq<seq<Rec>>, n: nat)
    requires Enough(nodes, n)
  {
    && (forall h | 0 <= h < |bin| :: bin[h].At? ==> bin[h].idx < NODEGROUP)
    && (forall k | 0 <= k < n :: NodeAt(nodes, k).next.At? ==> NodeAt(nodes, k).next.idx < NODEGROUP)
  }

  /** Word k stands, terminated, in the k-th range, and the k-th node points there. */
  ghost predicate WordsKept(nodes: seq<seq<Rec>>, words: seq<Word>, ranges: seq<Range>, contents: seq<seq<int>>)
    requires Enough(nodes, |words|)
  {
    && |ranges| == |contents| == |words|
    && (forall k | 0 <= k < |words| ::
          0 !in words[k] && ranges[k] == Range(NodeAt(nodes, k).word, |words[k]| + 1) && contents[k] == words[k] + [0])
  }

  /** Writing the node at address p changes the p-th node only. */
  lemma WriteNode(nodes: seq<seq<Rec>>, p: Ptr, node: Rec, k: nat)
    requires Enough(nodes, k + 1) && p.At? && p.group < |nodes| && p.idx < NODEGROUP
    ensures Enough(nodes[p.group := nodes[p.group][p.idx := node]], k + 1)
    ensures NodeAt(nodes[p.group := nodes[p.group][p.idx := node]], k) ==
            if k == Number(p) then node else NodeAt(nodes, k)
  {
    assert k == (k / NODEGROUP) * NODEGROUP + k % NODEGROUP;
  }

  /** A new group leaves the nodes of the others alone. */
  lemma GrowNodes(nodes: seq<seq<Rec>>, more: seq<seq<Rec>>, k: nat)
    requires Enough(nodes, k + 1) && nodes <= more && forall g | 0 <= g < |more| :: |more[g]| == NODEGROUP
    ensures Enough(more, k + 1) && NodeAt(more, k) == NodeAt(nodes, k)
  {
  }

  /** Raising the count of the p-th node shows as that and nothing else. */
  lemma RaiseView(bin: seq<Ptr>, nodes: seq<seq<Rec>>, words: seq<Word>, p: Ptr, node: Rec)
    requires Enough(nodes, |words|) && p.At? && p.group < |nodes| && p.idx < NODEGROUP && Number(p) < |words|
    requires node == NodeAt(nodes, Number(p)).(count := NodeAt(nodes, Number(p)).count + 1)
    ensures var after := nodes[p.group := nodes[p.group][p.idx := node]];
            && Enough(after, |words|)
            && View(bin, after, words) == Raise(View(bin, nodes, words), Number(p))
            && (forall k: nat | k < |words| ::
                  NodeAt(after, k).word == NodeAt(nodes, k).word && NodeAt(after, k).next == NodeAt(nodes, k).next)
  {
    var after := nodes[p.group := nodes[p.group][p.idx := node]];
    forall k: nat | k < |words| ensures NodeAt(after, k) == if k == Number(p) then node else NodeAt(nodes, k) {
      WriteNode(nodes, p, node, k);
    }
    assert View(bin, after, words).cells == Raise(View(bin, nodes, words), Number(p)).cells;
  }

  /** The new node in front of its chain shows as one Push. */
  lemma PushView(bin: seq<Ptr>, was: seq<seq<Rec>>, grown: seq<seq<Rec>>, words: seq<Word>, p: Ptr, node: Rec, s: Word)
    requires Enough(was, |words|) && Enough(grown, |words| + 1) && was <= grown && |bin| == NHASH
    requires p.At? && p.group < |grown| && p.idx < NODEGROUP && Number(p) == |words|
    requires node.count == 1 && node.next == bin[HashOf(s)]
    ensures var after := grown[p.group := grown[p.group][p.idx := node]];
            && Enough(after, |words| + 1)
            && View(bin[HashOf(s) := p], after, words + [s]) == Push(View(bin, was, words), s)
            && NodeAt(after, |words|) == node
            && forall k: nat | k < |words| :: NodeAt(after, k) == NodeAt(was, k)
  {
    var after := grown[p.group := grown[p.group][p.idx := node]];
    var n := |words|;
    WriteNode(grown, p, node, n);
    forall k: nat | k < n ensures NodeAt(after, k) == NodeAt(was, k) {
      WriteNode(grown, p, node, k);
      GrowNodes(was, grown, k);
    }
    var shown, pushed := View(bin[HashOf(s) := p], after, words + [s]), Push(View(bin, was, words), s);
    forall k | 0 <= k <= n ensures shown.cells[k] == pushed.cells[k] {
    }
    assert shown.cells == pushed.cells;
    assert shown.bin == pushed.bin;
  }

  /** All that the bins, the nodes and the characters have to say about each other. */
  ghost predicate Kept(bin: seq<Ptr>, nodes: seq<seq<Rec>>, words: seq<Word>, ranges: seq<Range>, contents: seq<seq<int>>)
    requires Enough(nodes, |words|)
  {
    && InGroups(bin, nodes, |words|)
    && WordsKept(nodes, words, ranges, contents)
    && WellFormed(View(bin, nodes, words))
  }

  lemma PushKeeps(bin: seq<Ptr>, was: seq<seq<Rec>>, grown: seq<seq<Rec>>, words: seq<Word>, p: Ptr, node: Rec,
                  s: Word, ranges: seq<Range>, contents: seq<seq<int>>)
    requires Enough(was, |words|) && Enough(grown, |words| + 1) && was <= grown && |bin| == NHASH
    requires p.At? && p.group < |grown| && p.idx < NODEGROUP && Number(p) == |words|
    requires node.count == 1 && node.next == bin[HashOf(s)]
    requires Kept(bin, was, words, ranges, contents) && 0 !in s && WellFormed(Push(View(bin, was, words), s))
    ensures var after := grown[p.group := grown[p.group][p.idx := node]];
            && Enough(after, |words| + 1)
            && View(bin[HashOf(s) := p], after, words + [s]) == Push(View(bin, was, words), s)
            && Kept(bin[HashOf(s) := p], after, words + [s], ranges + [Range(node.word, |s| + 1)], contents + [s + [0]])
  {
    PushView(bin, was, grown, words, p, node, s);
    var after := grown[p.group := grown[p.group][p.idx := node]];
    PushGroups(bin, was, after, words, p, node, HashOf(s), s, ranges, contents);
  }

  /** The new node keeps to the groups and points to its word. */
  lemma PushGroups(bin: seq<Ptr>, was: seq<seq<Rec>>, after: seq<seq<Rec>>, words: seq<Word>, p: Ptr, node: Rec,
                   h: nat, s: Word, ranges: seq<Range>, contents: seq<seq<int>>)
    requires Enough(was, |words|) && Enough(after, |words| + 1) && h < |bin| && p.At? && p.idx < NODEGROUP
    requires NodeAt(after, |words|) == node && forall k: nat | k < |words| :: NodeAt(after, k) == NodeAt(was, k)
    requires InGroups(bin, was, |words|) && node.next == bin[h]
    requires WordsKept(was, words, ranges, contents) && 0 !in s
    ensures InGroups(bin[h := p], after, |words| + 1)
    ensures WordsKept(after, words + [s], ranges + [Range(node.word, |s| + 1)], contents + [s + [0]])
  {
  }

  /** Raising a count changes nothing else. */
  lemma RaiseKeeps(bin: seq<Ptr>, nodes: seq<seq<Rec>>, words: seq<Word>, p: Ptr, node: Rec,
                   ranges: seq<Range>, contents: seq<seq<int>>)
    requires Enough(nodes, |words|) && p.At? && p.group < |nodes| && p.idx < NODEGROUP && Number(p) < |words|
    requires node == NodeAt(nodes, Number(p)).(count := NodeAt(nodes, Number(p)).count + 1)
    requires Kept(bin, nodes, words, ranges, contents) && WellFormed(Raise(View(bin, nodes, words), Number(p)))
    ensures var after := nodes[p.group := nodes[p.group][p.idx := node]];
            && Enough(after, |words|)
            && View(bin, after, words) == Raise(View(bin, nodes, words), Number(p))
            && Kept(bin, after, words, ranges, contents)
  {
    RaiseView(bin, nodes, words, p, node);
    var after := nodes[p.group := nodes[p.group][p.idx := node]];
    assert InGroups(bin, after, |words|);
    assert WordsKept(after, words, ranges, contents);
  }

  class ArenaTable {
    const bin: array<Ptr>
    var nodes: seq<seq<Rec>>
    var freeNode: Ptr
    var nodesLeft: int
    const chars: CharArena
    ghost var words: seq<Word>

    /** The nodes handed out so far are the first ones of the groups, and each is handed out once. */
    ghost predicate NodesValid(n: nat)
      reads this
    {
      && 0 <= nodesLeft <= NODEGROUP
      && |nodes| * NODEGROUP - nodesLeft == n
      && (nodesLeft > 0 ==> nodes != [] && freeNode == At(|nodes| - 1, NODEGROUP - nodesLeft))
      && Enough(nodes, n)
    }

    ghost function AsStore(): Store
      requires NodesValid(|words|)
      reads this, bin
    {
      View(bin[..], nodes, words)
    }

    ghost predicate Valid()
      reads this, bin, chars
    {
      && NodesValid(|words|)
      && chars.Valid()
      && Kept(bin[..], nodes, words, chars.ranges, chars.Contents())
    }

    ghost function Shown(): Table
      requires Valid()
      reads this, bin, chars
    {
      TableOfStore(AsStore())
    }

    constructor ()
      ensures Valid() && fresh(bin) && fresh(chars) && Shown() == TableOf([])
    {
      bin := new Ptr[NHASH](_ => Nil);
      nodes := [];
      freeNode := Nil;
      nodesLeft := 0;
      chars := new CharArena();
      words := [];
    }

    /** The next node of the current group, or the first of a new one. */
    method NMalloc() returns (p: Ptr)
      requires NodesValid(|words|)
      modifies this`nodes, this`freeNode, this`nodesLeft
      ensures NodesValid(|words| + 1) && old(nodes) <= nodes
      ensures p.At? && Number(p) == |words| && p.group < |nodes| && p.idx < NODEGROUP
    {
      if nodesLeft == 0 {
        nodes := nodes + [seq(NODEGROUP, _ => Rec(Addr(0, 0), 0, Nil))];
        freeNode := At(|nodes| - 1, 0);
        nodesLeft := NODEGROUP;
      }
      nodesLeft := nodesLeft - 1;
      p := freeNode;
      freeNode := At(p.group, p.idx + 1);
    }

    method Find(s: Word, h: nat) returns (p: Ptr)
      requires Valid() && h == HashOf(s) && 0 !in s
      ensures NULL <= Number(p) < |words| && Skips(AsStore().cells, AsStore().bin[h], Number(p), s)
      ensures p.At? ==> p.idx < NODEGROUP && words[Number(p)] == s
    {
      ghost var store := AsStore();
      p := bin[h];
      assert Number(p) == store.bin[h];
      while p.At?
        invariant p.At? ==> p.idx < NODEGROUP
        invariant NULL <= Number(p) < |words| && Skips(store.cells, store.bin[h], Number(p), s)
        decreases Number(p)
      {
        ghost var k := Number(p);
        assert k / NODEGROUP == p.group && k % NODEGROUP == p.idx;
        var node := nodes[p.group][p.idx];
        assert node == NodeAt(nodes, k) && store.cells[k] == CellAt(nodes, words, k);
        assert chars.Content(k) == chars.Contents()[k];
        var same := chars.SameString(s, node.word, k, words[k]);
        if same {
          return;
        }
        SkipsOne(store.cells, store.bin[h], k, s);
        p := node.next;
      }
    }

    /** The count of a node found goes up. */
    method Bump(p: Ptr)
      requires Valid() && p.At? && p.idx < NODEGROUP && 0 <= Number(p) < |words|
      requires WellFormed(Raise(AsStore(), Number(p)))
      modifies this`nodes
      ensures Valid() && AsStore() == Raise(old(AsStore()), Number(p))
    {
      ghost var k := Number(p);
      assert k / NODEGROUP == p.group && k % NODEGROUP == p.idx;
      var node := nodes[p.group][p.idx];
      var after := node.(count := node.count + 1);
      RaiseKeeps(bin[..], nodes, words, p, after, chars.ranges, chars.Contents());
      nodes := nodes[p.group := nodes[p.group][p.idx := after]];
    }

    /** A word not found gets a node and characters from the arenas. */
    method Insert(s: Word, h: nat)
      requires Valid() && h == HashOf(s) && 0 !in s && WellFormed(Push(AsStore(), s))
      modifies this, bin, chars
      ensures Valid() && AsStore() == Push(old(AsStore()), s)
    {
      ghost var was, start, ranges, contents := nodes, bin[..], chars.ranges, chars.Contents();
      var p := NMalloc();
      var a := chars.Keep(s);
      Link(p, Rec(a, 1, bin[h]), s, h, was, ranges, contents);
    }

    /** The new node is filled in and put in front of its chain. */
    method Link(p: Ptr, node: Rec, ghost s: Word, h: nat,
                ghost was: seq<seq<Rec>>, ghost ranges: seq<Range>, ghost contents: seq<seq<int>>)
      requires NodesValid(|words| + 1) && Enough(was, |words|) && was <= nodes
      requires p.At? && Number(p) == |words| && p.group < |nodes| && p.idx < NODEGROUP
      requires bin.Length == NHASH && h == HashOf(s) && 0 !in s && node.count == 1 && node.next == bin[h]
      requires Kept(bin[..], was, words, ranges, contents)
      requires WellFormed(Push(View(bin[..], was, words), s))
      requires chars.Valid()
      requires chars.ranges == ranges + [Range(node.word, |s| + 1)] && chars.Contents() == contents + [s + [0]]
      modifies this`nodes, this`words, bin
      ensures Valid() && AsStore() == old(Push(View(bin[..], was, words), s))
    {
      ghost var start := bin[..];
      PushKeeps(start, was, nodes, words, p, node, s, ranges, contents);
      nodes := nodes[p.group := nodes[p.group][p.idx := node]];
      bin[h] := p;
      words := words + [s];
      assert bin[..] == start[h := p];
    }

    method IncWord(s: Word)
      requires Valid() && 0 !in s
      modifies this, bin, chars
      ensures Valid() && Shown() == Counted(old(Shown()), s)
    {
      ghost var store := AsStore();
      var h := Hash(s);
      var p := Find(s, h);
      if p.At? {
        RaiseCounts(store, Number(p));
        Bump(p);
      } else {
        PushCounts(store, s);
        Insert(s, h);
      }
    }
  }

  // ---------------------------------------------------------------------------------------------
  // Streams of words.

  lemma TableOfNext(input: seq<Word>, i: nat)
    requires i < |input|
    ensures TableOf(input[..i + 1]) == Counted(TableOf(input[..i]), input[i])
  {
    assert input[..i + 1][..i] == input[..i];
  }

  /** The loop of main in wordfreq.c. */
  method CountPlain(input: seq<Word>) returns (table: MallocTable)
    ensures fresh(table) && fresh(table.bin) && table.Valid() && table.Shown() == TableOf(input)
  {
    table := new MallocTable();
    for i := 0 to |input|
      invariant fresh(table) && fresh(table.bin) && table.Valid()
      invariant table.Shown() == TableOf(input[..i])
    {
      TableOfNext(input, i);
      table.IncWord(input[i]);
    }
    assert input[..|input|] == input;
  }

  /** The loop of main in wordfreqpref.c. */
  method CountPooled(input: seq<Word>) returns (table: ArenaTable)
    requires forall w | w in input :: 0 !in w
    ensures fresh(table) && fresh(table.bin) && fresh(table.chars) && table.Valid() && table.Shown() == TableOf(input)
  {
    table := new ArenaTable();
    for i := 0 to |input|
      invariant fresh(table) && fresh(table.bin) && fresh(table.chars) && table.Valid()
      invariant table.Shown() == TableOf(input[..i])
    {
      TableOfNext(input, i);
      assert input[i] in input;
      table.IncWord(input[i]);
    }
    assert input[..|input|] == input;
  }

  /** Both programs, fed the same words, show the same chains with the same counts in the same order. */
  method CountBoth(input: seq<Word>) returns (plain: MallocTable, pooled: ArenaTable)
    requires forall w | w in input :: 0 !in w
    ensures plain.Valid() && pooled.Valid() && plain.Shown() == pooled.Shown() == TableOf(input)
  {
    plain := CountPlain(input);
    pooled := CountPooled(input);
  }
}
