/** The chained hash table of wordfreq.c: its meaning, and the proof that one step keeps it. */
module WordTable {
  import opened Sequences

  const NHASH := 45000
  const MULT := 31
  const NULL := -1

  /** A word as strcpy leaves it: characters without a zero. */
  type Word = seq<int>

  /** The unsigned 32-bit accumulation, in which a negative char counts modulo 2^32. */
  function Accumulated(s: Word): (h: nat)
    ensures h < 0x1_0000_0000
  {
    if s == [] then 0 else (MULT * Accumulated(s[..|s| - 1]) + s[|s| - 1]) % 0x1_0000_0000
  }

  function HashOf(s: Word): (h: nat)
    ensures h < NHASH
  {
    Accumulated(s) % NHASH
  }

  method Hash(s: Word) returns (h: nat)
    ensures h == HashOf(s)
  {
    h := 0;
    for i := 0 to |s|
      invariant h == Accumulated(s[..i])
    {
      assert s[..i + 1][..i] == s[..i];
      h := (MULT * h + s[i]) % 0x1_0000_0000;
    }
    assert s[..|s|] == s;
    h := h % NHASH;
  }

  function Power(b: nat, e: nat): nat {
    if e == 0 then 1 else b * Power(b, e - 1)
  }

  /** The sum of s[i] * MULT^(|s| - 1 - i). */
  function Polynomial(s: Word): int {
    if s == [] then 0 else s[0] * Power(MULT, |s| - 1) + Polynomial(s[1..])
  }

  lemma {:induction false} PolynomialLast(s: Word)
    requires s != []
    ensures Polynomial(s) == MULT * Polynomial(s[..|s| - 1]) + s[|s| - 1]
  {
    if |s| == 1 {
      assert Power(MULT, 0) == 1;
    } else {
      var front := s[..|s| - 1];
      PolynomialLast(s[1..]);
      assert s[1..][..|s| - 2] == front[1..];
      assert s[0] * Power(MULT, |s| - 1) == MULT * (s[0] * Power(MULT, |s| - 2));
    }
  }

  lemma WrappedStep(x: int, h: int, c: int)
    requires h == x % 0x1_0000_0000
    ensures (MULT * h + c) % 0x1_0000_0000 == (MULT * x + c) % 0x1_0000_0000
  {
    var q := x / 0x1_0000_0000;
    assert MULT * x + c == MULT * h + c + 0x1_0000_0000 * (MULT * q);
  }

  /** The hash is the polynomial in MULT modulo 2^32, then modulo NHASH. */
  lemma HashIsPolynomial(s: Word)
    ensures HashOf(s) == Polynomial(s) % 0x1_0000_0000 % NHASH
  {
    AccumulatedIsPolynomial(s);
  }

  lemma {:induction false} AccumulatedIsPolynomial(s: Word)
    ensures Accumulated(s) == Polynomial(s) % 0x1_0000_0000
    decreases |s|
  {
    if s != [] {
      var front, last := s[..|s| - 1], s[|s| - 1];
      AccumulatedIsPolynomial(front);
      PolynomialLast(s);
      WrappedStep(Polynomial(front), Accumulated(front), last);
    }
  }

  // ---------------------------------------------------------------------------------------------
  // What the table means.

  datatype Item = Item(word: Word, count: int)

  predicate HasWord(chain: seq<Item>, w: Word) {
    exists i :: 0 <= i < |chain| && chain[i].word == w
  }

  /** The chain with the count of the first entry for w raised. */
  function Bumped(chain: seq<Item>, w: Word): seq<Item> {
    if chain == [] then []
    else if chain[0].word == w then [Item(w, chain[0].count + 1)] + chain[1..]
    else [chain[0]] + Bumped(chain[1..], w)
  }

  function CountedIn(chain: seq<Item>, w: Word): seq<Item> {
    if HasWord(chain, w) then Bumped(chain, w) else [Item(w, 1)] + chain
  }

  type Table = t: seq<seq<Item>> | |t| == NHASH witness seq(NHASH, _ => [])

  /** One call of incword. */
  function Counted(t: Table, w: Word): Table {
    t[HashOf(w) := CountedIn(t[HashOf(w)], w)]
  }

  function TableOf(words: seq<Word>): Table {
    if words == [] then seq(NHASH, _ => [])
    else Counted(TableOf(words[..|words| - 1]), words[|words| - 1])
  }

  /** The count that a chain shows for w: that of its first entry, or nothing. */
  function CountIn(chain: seq<Item>, w: Word): int {
    if chain == [] then 0 else if chain[0].word == w then chain[0].count else CountIn(chain[1..], w)
  }

  ghost predicate DistinctWords(chain: seq<Item>) {
    forall i, j | 0 <= i < j < |chain| :: chain[i].word != chain[j].word
  }

  lemma {:induction false} BumpedWords(chain: seq<Item>, w: Word)
    ensures |Bumped(chain, w)| == |chain|
    ensures forall i | 0 <= i < |chain| :: Bumped(chain, w)[i].word == chain[i].word
  {
    if chain != [] && chain[0].word != w {
      BumpedWords(chain[1..], w);
    }
  }

  lemma {:induction false} BumpedCount(chain: seq<Item>, w: Word, v: Word)
    ensures CountIn(Bumped(chain, w), v) == CountIn(chain, v) + if v == w && HasWord(chain, w) then 1 else 0
  {
    if chain != [] {
      if chain[0].word == w {
        assert HasWord(chain, w);
        assert ([Item(w, chain[0].count + 1)] + chain[1..])[1..] == chain[1..];
      } else {
        BumpedCount(chain[1..], w, v);
        assert ([chain[0]] + Bumped(chain[1..], w))[1..] == Bumped(chain[1..], w);
        assert HasWord(chain, w) == HasWord(chain[1..], w) by {
          if HasWord(chain, w) {
            var i :| 0 <= i < |chain| && chain[i].word == w;
            assert chain[1..][i - 1].word == w;
          }
        }
      }
    }
  }

  lemma {:induction false} AbsentCountsZero(chain: seq<Item>, w: Word)
    requires !HasWord(chain, w)
    ensures CountIn(chain, w) == 0
  {
    if chain != [] {
      assert forall i | 0 <= i < |chain[1..]| :: chain[1..][i] == chain[i + 1];
      AbsentCountsZero(chain[1..], w);
    }
  }

  lemma CountedInCount(chain: seq<Item>, w: Word, v: Word)
    ensures CountIn(CountedIn(chain, w), v) == CountIn(chain, v) + if v == w then 1 else 0
  {
    BumpedCount(chain, w, v);
    if !HasWord(chain, w) {
      AbsentCountsZero(chain, w);
      assert ([Item(w, 1)] + chain)[1..] == chain;
    }
  }

  lemma CountedInWords(chain: seq<Item>, w: Word, v: Word)
    ensures HasWord(CountedIn(chain, w), v) <==> v == w || HasWord(chain, v)
    ensures DistinctWords(chain) ==> DistinctWords(CountedIn(chain, w))
  {
    var after := CountedIn(chain, w);
    BumpedWords(chain, w);
    if HasWord(chain, w) {
      assert HasWord(after, v) <==> HasWord(chain, v) by {
        if HasWord(chain, v) {
          var i :| 0 <= i < |chain| && chain[i].word == v;
          assert after[i].word == v;
        }
      }
    } else {
      BumpedStep(Item(w, 1), chain, v);
    }
  }

  /**
   * After any stream of words the table shows each word with the number of its occurrences, in the
   * chain of its hash value, and no chain shows a word twice or a word of another chain.
   */
  lemma {:induction false} TableCountsOccurrences(words: seq<Word>, v: Word, h: nat)
    requires h < NHASH
    ensures CountIn(TableOf(words)[HashOf(v)], v) == Count(words, v)
    ensures HasWord(TableOf(words)[h], v) <==> v in words && HashOf(v) == h
    ensures DistinctWords(TableOf(words)[h])
    decreases |words|
  {
    if words != [] {
      var before, w := words[..|words| - 1], words[|words| - 1];
      TableCountsOccurrences(before, v, h);
      TableCountsOccurrences(before, w, h);
      assert words == before + [w];
      CountAppend(before, w, v);
      assert v in words <==> v in before || v == w;
      CountedInCount(TableOf(before)[HashOf(v)], w, v);
      CountedInWords(TableOf(before)[h], w, v);
    }
  }

  // ---------------------------------------------------------------------------------------------
  // Nodes. A pointer is the number of the allocation that made the node, or NULL.

  datatype Cell = Cell(word: Word, count: int, next: int)

  datatype Store = Store(bin: seq<int>, cells: seq<Cell>)

  /** Links lead to nodes made earlier, and everything on a chain has the hash of its bin. */
  ghost predicate WellFormed(s: Store) {
    && |s.bin| == NHASH
    && (forall h | 0 <= h < NHASH :: NULL <= s.bin[h] < |s.cells| && (s.bin[h] != NULL ==> HashOf(s.cells[s.bin[h]].word) == h))
    && (forall p | 0 <= p < |s.cells| ::
          NULL <= s.cells[p].next < p &&
          (s.cells[p].next != NULL ==> HashOf(s.cells[s.cells[p].next].word) == HashOf(s.cells[p].word)))
  }

  function Chain(cells: seq<Cell>, p: int): seq<Item>
    requires p < |cells|
    requires forall q | 0 <= q < |cells| :: NULL <= cells[q].next < q
    decreases p + 1
  {
    if p < 0 then [] else [Item(cells[p].word, cells[p].count)] + Chain(cells, cells[p].next)
  }

  ghost function TableOfStore(s: Store): Table
    requires WellFormed(s)
  {
    seq(NHASH, h requires 0 <= h < NHASH => Chain(s.cells, s.bin[h]))
  }

  function Raise(s: Store, p: nat): Store
    requires p < |s.cells|
  {
    s.(cells := s.cells[p := s.cells[p].(count := s.cells[p].count + 1)])
  }

  function Push(s: Store, w: Word): Store
    requires |s.bin| == NHASH
  {
    s.(cells := s.cells + [Cell(w, 1, s.bin[HashOf(w)])], bin := s.bin[HashOf(w) := |s.cells|])
  }

  /** The walk from q reaches p without meeting w before it. */
  predicate Skips(cells: seq<Cell>, q: int, p: int, w: Word)
    requires q < |cells|
    requires forall k | 0 <= k < |cells| :: NULL <= cells[k].next < k
    decreases q + 1
  {
    q == p || (q >= 0 && q > p && cells[q].word != w && Skips(cells, cells[q].next, p, w))
  }

  lemma {:induction false} SkipsOne(cells: seq<Cell>, q: int, p: nat, w: Word)
    requires q < |cells| && p < |cells|
    requires forall k | 0 <= k < |cells| :: NULL <= cells[k].next < k
    requires Skips(cells, q, p, w) && cells[p].word != w
    ensures Skips(cells, q, cells[p].next, w)
    decreases q + 1
  {
    if q != p {
      SkipsOne(cells, cells[q].next, p, w);
    }
  }

  /** A walk off the end has seen every entry of the chain. */
  lemma {:induction false} SkippedAll(cells: seq<Cell>, q: int, w: Word)
    requires NULL <= q < |cells|
    requires forall k | 0 <= k < |cells| :: NULL <= cells[k].next < k
    requires Skips(cells, q, NULL, w)
    ensures !HasWord(Chain(cells, q), w)
    decreases q + 1
  {
    if q >= 0 {
      SkippedAll(cells, cells[q].next, w);
      var rest := Chain(cells, cells[q].next);
      assert forall i | 0 < i < |Chain(cells, q)| :: Chain(cells, q)[i] == rest[i - 1];
    }
  }

  /** Raising a count does not show in chains of other hash values, nor in chains of older nodes. */
  lemma {:induction false} RaiseElsewhere(s: Store, p: nat, q: int)
    requires WellFormed(s) && p < |s.cells| && q < |s.cells|
    requires q < p || HashOf(s.cells[q].word) != HashOf(s.cells[p].word)
    ensures Chain(Raise(s, p).cells, q) == Chain(s.cells, q)
    decreases q + 1
  {
    if q >= 0 {
      RaiseElsewhere(s, p, s.cells[q].next);
    }
  }

  lemma BumpedStep(first: Item, rest: seq<Item>, w: Word)
    ensures first.word == w ==> Bumped([first] + rest, w) == [Item(w, first.count + 1)] + rest
    ensures first.word != w ==> Bumped([first] + rest, w) == [first] + Bumped(rest, w)
    ensures HasWord([first] + rest, w) <==> first.word == w || HasWord(rest, w)
  {
    var chain := [first] + rest;
    assert chain[1..] == rest;
    assert forall i | 0 <= i < |rest| :: rest[i] == chain[i + 1];
  }

  lemma {:induction false} RaiseOnChain(s: Store, p: nat, q: int)
    requires WellFormed(s) && p < |s.cells| && NULL <= q < |s.cells|
    requires Skips(s.cells, q, p, s.cells[p].word)
    ensures HasWord(Chain(s.cells, q), s.cells[p].word)
    ensures Chain(Raise(s, p).cells, q) == Bumped(Chain(s.cells, q), s.cells[p].word)
    decreases q + 1
  {
    var w := s.cells[p].word;
    var first, rest := Item(s.cells[q].word, s.cells[q].count), Chain(s.cells, s.cells[q].next);
    BumpedStep(first, rest, w);
    if q == p {
      RaiseElsewhere(s, p, s.cells[q].next);
    } else {
      RaiseOnChain(s, p, s.cells[q].next);
    }
  }

  lemma {:induction false} PushElsewhere(s: Store, w: Word, q: int)
    requires WellFormed(s) && q < |s.cells|
    ensures Push(s, w).cells[..|s.cells|] == s.cells
    ensures forall k | 0 <= k < |Push(s, w).cells| :: NULL <= Push(s, w).cells[k].next < k
    ensures Chain(Push(s, w).cells, q) == Chain(s.cells, q)
    decreases q + 1
  {
    if q >= 0 {
      PushElsewhere(s, w, s.cells[q].next);
    }
  }

  lemma RaiseWellFormed(s: Store, p: nat)
    requires WellFormed(s) && p < |s.cells|
    ensures WellFormed(Raise(s, p))
  {
    var r := Raise(s, p);
    forall k | 0 <= k < |s.cells| ensures r.cells[k].word == s.cells[k].word && r.cells[k].next == s.cells[k].next {
    }
  }

  lemma CountedAt(t: Table, w: Word, h: nat)
    requires h < NHASH
    ensures h != HashOf(w) ==> Counted(t, w)[h] == t[h]
    ensures h == HashOf(w) && HasWord(t[h], w) ==> Counted(t, w)[h] == Bumped(t[h], w)
  {
  }

  lemma RaiseBin(s: Store, p: nat, h: nat)
    requires WellFormed(s) && p < |s.cells| && h < NHASH
    requires Skips(s.cells, s.bin[HashOf(s.cells[p].word)], p, s.cells[p].word)
    ensures WellFormed(Raise(s, p))
    ensures Chain(Raise(s, p).cells, s.bin[h]) == Counted(TableOfStore(s), s.cells[p].word)[h]
  {
    RaiseWellFormed(s, p);
    CountedAt(TableOfStore(s), s.cells[p].word, h);
    if h == HashOf(s.cells[p].word) {
      RaiseOnChain(s, p, s.bin[h]);
    } else if s.bin[h] != NULL {
      RaiseElsewhere(s, p, s.bin[h]);
    }
  }

  /** Finding w on its chain and raising its count is one step of the table. */
  lemma RaiseCounts(s: Store, p: nat)
    requires WellFormed(s) && p < |s.cells|
    requires Skips(s.cells, s.bin[HashOf(s.cells[p].word)], p, s.cells[p].word)
    ensures WellFormed(Raise(s, p)) && TableOfStore(Raise(s, p)) == Counted(TableOfStore(s), s.cells[p].word)
  {
    RaiseWellFormed(s, p);
    forall h: nat | h < NHASH
      ensures TableOfStore(Raise(s, p))[h] == Counted(TableOfStore(s), s.cells[p].word)[h]
    {
      RaiseBin(s, p, h);
    }
  }

  lemma PushBin(s: Store, w: Word, h: nat)
    requires WellFormed(s) && h < NHASH && !HasWord(Chain(s.cells, s.bin[HashOf(w)]), w)
    ensures WellFormed(Push(s, w))
    ensures Chain(Push(s, w).cells, Push(s, w).bin[h]) == Counted(TableOfStore(s), w)[h]
  {
    PushElsewhere(s, w, NULL);
    PushElsewhere(s, w, s.bin[h]);
  }

  /** Not finding w and putting a new node first on its chain is one step of the table. */
  lemma PushCounts(s: Store, w: Word)
    requires WellFormed(s) && Skips(s.cells, s.bin[HashOf(w)], NULL, w)
    ensures WellFormed(Push(s, w)) && TableOfStore(Push(s, w)) == Counted(TableOfStore(s), w)
  {
    var r := Push(s, w);
    PushElsewhere(s, w, NULL);
    SkippedAll(s.cells, s.bin[HashOf(w)], w);
    forall h | 0 <= h < NHASH
      ensures Chain(r.cells, r.bin[h]) == Counted(TableOfStore(s), w)[h]
    {
      PushBin(s, w, h);
    }
  }
}
