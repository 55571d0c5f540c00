/** Producer and consumer over a ring of string slots guarded by two semaphores (p83.c to p85.c). */
module SharedRing {

  const N_SLOTS := 6
  const SLOT_LEN := 50

  /** A slot holds the C string w: its characters and a terminating zero. */
  predicate Holds(slot: seq<int>, w: seq<int>) {
    |w| < |slot| && slot[..|w|] == w && slot[|w|] == 0
  }

  /** What the producer may copy into a slot. */
  predicate Fits(w: seq<int>, slotLen: nat) {
    0 !in w && |w| < slotLen
  }

  const ROWS := 5
  const COLS := 3

  /** The words of row r that a sentence chooses from. */
  function Row(r: nat): (row: seq<string>)
    ensures |row| == COLS
  {
    if r == 0 then ["A", "The", "One"]
    else if r == 1 then [" red", " polka-dot", " yellow"]
    else if r == 2 then [" spider", " dump truck", " tree"]
    else if r == 3 then [" broke", " ran", " fell"]
    else [" down", " away", " out"]
  }

  function Codes(s: string): (r: seq<int>)
    ensures |r| == |s|
  {
    seq(|s|, i requires 0 <= i < |s| => s[i] as int)
  }

  /** The sentence made of word choice[r] of each row r. */
  function Sentence(choice: seq<nat>): seq<int>
    requires |choice| <= ROWS && forall r | 0 <= r < |choice| :: choice[r] < COLS
  {
    if choice == [] then []
    else
      var r := |choice| - 1;
      Sentence(choice[..r]) + Codes(Row(r)[choice[r]])
  }

  /**
   * Every sentence the producer can compose fits a slot: no word has more than 11 characters, and the
   * first row none above 3.
   */
  lemma {:induction false} SentencesFit(choice: seq<nat>)
    requires |choice| <= ROWS && forall r | 0 <= r < |choice| :: choice[r] < COLS
    ensures |Sentence(choice)| <= if choice == [] then 0 else 11 * |choice| - 8
    ensures Fits(Sentence(choice), SLOT_LEN)
  {
    if choice != [] {
      var r := |choice| - 1;
      SentencesFit(choice[..r]);
      WordIsShort(r, choice[r]);
    }
  }

  lemma WordIsShort(r: nat, c: nat)
    requires c < COLS
    ensures |Row(r)[c]| <= if r == 0 then 3 else 11
    ensures 0 !in Codes(Row(r)[c])
  {
    var word := Row(r)[c];
    assert forall i | 0 <= i < |word| :: word[i] != '\0';
  }

  // ---------------------------------------------------------------------------------------------
  // The shared memory and the two copies.

  class Memory {
    const slots: nat
    const slotLen: nat
    const buffer: array2<int>
    var head: nat
    var tail: nat

    ghost predicate Valid()
      reads this
    {
      slots > 0 && slotLen > 0 && buffer.Length0 == slots && buffer.Length1 == slotLen && head < slots && tail < slots
    }

    ghost function Slot(i: nat): (r: seq<int>)
      requires Valid() && i < slots
      reads this, buffer
      ensures |r| == slotLen
    {
      seq(slotLen, j requires 0 <= j < slotLen reads this, buffer => buffer[i, j])
    }

    constructor ()
      ensures Valid() && slots == N_SLOTS && slotLen == SLOT_LEN && head == tail == 0 && fresh(buffer)
    {
      slots := N_SLOTS;
      slotLen := SLOT_LEN;
      buffer := new int[N_SLOTS, SLOT_LEN]((_, _) => 0);
      head := 0;
      tail := 0;
    }

    /** The producer's section between its two semaphore operations. */
    method Put(w: seq<int>)
      requires Valid() && Fits(w, slotLen)
      modifies this`tail, buffer
      ensures Valid() && tail == (old(tail) + 1) % slots
      ensures Holds(Slot(old(tail)), w)
      ensures forall i | 0 <= i < slots && i != old(tail) :: Slot(i) == old(Slot(i))
    {
      for j := 0 to |w|
        invariant tail == old(tail) && head == old(head)
        invariant forall k | 0 <= k < j :: buffer[tail, k] == w[k]
        invariant forall i, k | 0 <= i < slots && 0 <= k < slotLen && i != tail :: buffer[i, k] == old(buffer[i, k])
      {
        buffer[tail, j] := w[j];
      }
      buffer[tail, |w|] := 0;
      assert Slot(tail)[..|w|] == w;
      tail := (tail + 1) % slots;
    }

    /** The consumer's section between its two semaphore operations. */
    method Get(ghost w: seq<int>) returns (local: seq<int>)
      requires Valid() && Fits(w, slotLen) && Holds(Slot(head), w)
      modifies this`head
      ensures Valid() && head == (old(head) + 1) % slots && local == w
    {
      local := [];
      var j := 0;
      assert forall k | 0 <= k < |w| :: Slot(head)[k] == Slot(head)[..|w|][k] == w[k] != 0;
      while buffer[head, j] != 0
        invariant j <= |w| && local == w[..j]
        invariant forall k | 0 <= k < |w| :: buffer[head, k] == w[k] != 0
        invariant buffer[head, |w|] == 0
        decreases |w| - j
      {
        local := local + [buffer[head, j]];
        j := j + 1;
      }
      head := (head + 1) % slots;
    }
  }

  // ---------------------------------------------------------------------------------------------
  // Both processes interleaved, one character at a time.

  datatype Producer =
    | Composing
    | AwaitSlot(w: seq<int>)
    | Writing(w: seq<int>, j: nat)
    | Advancing(w: seq<int>)
    | Releasing(w: seq<int>)

  datatype Consumer =
    | AwaitItem
    | Reading(local: seq<int>)
    | Taking(local: seq<int>)
    | Freeing

  /** `avail` and `ready` are the semaphores; `released` and `consumed` are history. */
  datatype State = State(
    buffer: seq<seq<int>>, head: nat, tail: nat, avail: nat, ready: nat,
    producer: Producer, consumer: Consumer, released: seq<seq<int>>, consumed: seq<seq<int>>)

  ghost predicate Shaped(s: State, slots: nat, slotLen: nat) {
    && slots > 0
    && slotLen > 0
    && |s.buffer| == slots
    && (forall i | 0 <= i < slots :: |s.buffer[i]| == slotLen)
    && s.head < slots
    && s.tail < slots
  }

  function Start(slots: nat, slotLen: nat): State {
    State(seq(slots, _ => seq(slotLen, _ => 0)), 0, 0, slots, 0, Composing, AwaitItem, [], [])
  }

  datatype Event =
    | Compose(w: seq<int>)
    | AcquireSlot
    | WriteChar
    | AdvanceTail
    | ReleaseItem
    | AcquireItem
    | ReadChar
    | AdvanceHead
    | ReleaseSlot

  predicate Enabled(s: State, e: Event, slotLen: nat) {
    match e
    case Compose(w) => s.producer.Composing? && Fits(w, slotLen)
    case AcquireSlot => s.producer.AwaitSlot? && s.avail > 0
    case WriteChar => s.producer.Writing?
    case AdvanceTail => s.producer.Advancing?
    case ReleaseItem => s.producer.Releasing?
    case AcquireItem => s.consumer.AwaitItem? && s.ready > 0
    case ReadChar => s.consumer.Reading?
    case AdvanceHead => s.consumer.Taking?
    case ReleaseSlot => s.consumer.Freeing?
  }

  function Stored(s: State, j: nat, c: int): seq<seq<int>>
    requires s.tail < |s.buffer|
  {
    if j < |s.buffer[s.tail]| then s.buffer[s.tail := s.buffer[s.tail][j := c]] else s.buffer
  }

  function Apply(s: State, e: Event, slots: nat, slotLen: nat): State
    requires Shaped(s, slots, slotLen) && Enabled(s, e, slotLen)
  {
    match e
    case Compose(w) => s.(producer := AwaitSlot(w))
    case AcquireSlot => s.(avail := s.avail - 1, producer := Writing(s.producer.w, 0))
    case WriteChar =>
      var Writing(w, j) := s.producer;
      if j < |w| then s.(buffer := Stored(s, j, w[j]), producer := Writing(w, j + 1))
      else s.(buffer := Stored(s, j, 0), producer := Advancing(w))
    case AdvanceTail => s.(tail := (s.tail + 1) % slots, producer := Releasing(s.producer.w))
    case ReleaseItem =>
      s.(ready := s.ready + 1, released := s.released + [s.producer.w], producer := Composing)
    case AcquireItem => s.(ready := s.ready - 1, consumer := Reading([]))
    case ReadChar =>
      var local := s.consumer.local;
      if |local| >= slotLen || s.buffer[s.head][|local|] == 0 then s.(consumer := Taking(local))
      else s.(consumer := Reading(local + [s.buffer[s.head][|local|]]))
    case AdvanceHead =>
      s.(head := (s.head + 1) % slots, consumed := s.consumed + [s.consumer.local], consumer := Freeing)
    case ReleaseSlot => s.(avail := s.avail + 1, consumer := AwaitItem)
  }

  ghost predicate StepBy(s: State, r: State, e: Event, slots: nat, slotLen: nat) {
    Shaped(s, slots, slotLen) && Enabled(s, e, slotLen) && r == Apply(s, e, slots, slotLen)
  }

  ghost predicate Next(s: State, r: State, slots: nat, slotLen: nat) {
    exists e :: StepBy(s, r, e, slots, slotLen)
  }

  ghost predicate IsRun(run: seq<State>, slots: nat, slotLen: nat) {
    slots > 0 && slotLen > 0 && |run| > 0 && run[0] == Start(slots, slotLen) &&
    forall i | 0 < i < |run| :: Next(run[i - 1], run[i], slots, slotLen)
  }

  /** Slots a process holds between its two semaphore operations. */
  function ProducerHolds(s: State): nat {
    if s.producer.Composing? || s.producer.AwaitSlot? then 0 else 1
  }

  function ConsumerHolds(s: State): nat {
    if s.consumer.AwaitItem? then 0 else 1
  }

  /** Items the consumer has acquired but not counted as consumed. */
  function InHand(s: State): nat {
    if s.consumer.Reading? || s.consumer.Taking? then 1 else 0
  }

  /** Where the k-th item goes: the value of a ring index advanced k times from 0. */
  function SlotOf(k: nat, slots: nat): (i: nat)
    requires slots > 0
    ensures i < slots
  {
    if k == 0 then 0 else (SlotOf(k - 1, slots) + 1) % slots
  }

  ghost predicate Ledger(s: State, slots: nat)
    requires slots > 0
  {
    && s.avail + s.ready + ProducerHolds(s) + ConsumerHolds(s) == slots
    && s.ready + |s.consumed| + InHand(s) == |s.released|
    && s.head == SlotOf(|s.consumed|, slots)
    && s.tail == SlotOf(|s.released| + if s.producer.Releasing? then 1 else 0, slots)
  }

  /** Every item released and not yet consumed stands in its slot. */
  ghost predicate Unread(s: State, slots: nat, slotLen: nat)
    requires Shaped(s, slots, slotLen)
  {
    forall k | |s.consumed| <= k < |s.released| :: Holds(s.buffer[SlotOf(k, slots)], s.released[k])
  }

  ghost predicate ProducerInv(s: State, slots: nat, slotLen: nat)
    requires Shaped(s, slots, slotLen)
  {
    match s.producer
    case Composing => true
    case AwaitSlot(w) => Fits(w, slotLen)
    case Writing(w, j) => Fits(w, slotLen) && j <= |w| && s.buffer[SlotOf(|s.released|, slots)][..j] == w[..j]
    case Advancing(w) => Fits(w, slotLen) && Holds(s.buffer[SlotOf(|s.released|, slots)], w)
    case Releasing(w) => Fits(w, slotLen) && Holds(s.buffer[SlotOf(|s.released|, slots)], w)
  }

  ghost predicate ConsumerInv(s: State) {
    match s.consumer
    case Reading(local) => |s.consumed| < |s.released| && local <= s.released[|s.consumed|]
    case Taking(local) => |s.consumed| < |s.released| && local == s.released[|s.consumed|]
    case _ => true
  }

  ghost predicate Inv(s: State, slots: nat, slotLen: nat) {
    && Shaped(s, slots, slotLen)
    && Ledger(s, slots)
    && (forall w | w in s.released :: Fits(w, slotLen))
    && s.consumed <= s.released
    && Unread(s, slots, slotLen)
    && ProducerInv(s, slots, slotLen)
    && ConsumerInv(s)
  }

  /** Fewer than a whole round apart, two items have different slots. */
  lemma {:induction false} SlotsDiffer(a: nat, b: nat, slots: nat)
    requires slots > 0 && a <= b < a + slots
    ensures SlotOf(b, slots) == SlotOf(a, slots) + (b - a) || SlotOf(b, slots) == SlotOf(a, slots) + (b - a) - slots
    ensures a < b ==> SlotOf(a, slots) != SlotOf(b, slots)
  {
    if a < b {
      SlotsDiffer(a, b - 1, slots);
      Advance(SlotOf(b - 1, slots), slots);
    }
  }

  lemma Advance(i: nat, slots: nat)
    requires i < slots
    ensures (i + 1) % slots == if i + 1 == slots then 0 else i + 1
  {
  }

  /** The slot being filled is none of those that hold unread items, the one being read included. */
  lemma FilledSlotIsFree(s: State, slots: nat)
    requires slots > 0 && Ledger(s, slots) && ProducerHolds(s) == 1
    ensures forall k | |s.consumed| <= k < |s.released| :: SlotOf(k, slots) != SlotOf(|s.released|, slots)
  {
    forall k | |s.consumed| <= k < |s.released| ensures SlotOf(k, slots) != SlotOf(|s.released|, slots) {
      SlotsDiffer(k, |s.released|, slots);
    }
  }

  lemma StartInv(slots: nat, slotLen: nat)
    requires slots > 0 && slotLen > 0
    ensures Inv(Start(slots, slotLen), slots, slotLen)
  {
  }

  lemma AcquireStep(s: State, r: State, e: Event, slots: nat, slotLen: nat)
    requires Inv(s, slots, slotLen) && StepBy(s, r, e, slots, slotLen) && (e.Compose? || e.AcquireSlot?)
    ensures Inv(r, slots, slotLen)
  {
    assert Unread(r, slots, slotLen) && ProducerInv(r, slots, slotLen);
  }

  lemma TailStep(s: State, r: State, slots: nat, slotLen: nat)
    requires Inv(s, slots, slotLen) && StepBy(s, r, AdvanceTail, slots, slotLen)
    ensures Inv(r, slots, slotLen)
  {
    assert r.tail == SlotOf(|s.released| + 1, slots);
    assert Unread(r, slots, slotLen) && ProducerInv(r, slots, slotLen);
  }

  lemma ReleaseStep(s: State, r: State, slots: nat, slotLen: nat)
    requires Inv(s, slots, slotLen) && StepBy(s, r, ReleaseItem, slots, slotLen)
    ensures Inv(r, slots, slotLen)
  {
    var w := s.producer.w;
    assert r.released == s.released + [w];
    forall k | |r.consumed| <= k < |r.released| ensures Holds(r.buffer[SlotOf(k, slots)], r.released[k]) {
      assert k < |s.released| ==> r.released[k] == s.released[k];
    }
    assert forall v | v in r.released :: v in s.released || v == w;
    assert s.consumed <= r.released;
  }

  lemma WriteStep(s: State, r: State, slots: nat, slotLen: nat)
    requires Inv(s, slots, slotLen) && StepBy(s, r, WriteChar, slots, slotLen)
    ensures Inv(r, slots, slotLen)
  {
    FilledSlotIsFree(s, slots);
    var Writing(w, j) := s.producer;
    assert s.tail == SlotOf(|s.released|, slots);
    assert Unread(r, slots, slotLen);
    var slot := r.buffer[s.tail];
    if j < |w| {
      assert slot[..j + 1] == w[..j + 1];
    } else {
      assert slot[..|w|] == w;
    }
  }

  lemma ReadStep(s: State, r: State, slots: nat, slotLen: nat)
    requires Inv(s, slots, slotLen) && StepBy(s, r, ReadChar, slots, slotLen)
    ensures Inv(r, slots, slotLen)
  {
    var w := s.released[|s.consumed|];
    assert w in s.released && SlotOf(|s.consumed|, slots) == s.head;
    NextChar(s.buffer[s.head], w, s.consumer.local, slotLen);
    assert Unread(r, slots, slotLen) && ProducerInv(r, slots, slotLen);
  }

  /** Behind a part of the word the slot holds its next character, or the terminator. */
  lemma NextChar(slot: seq<int>, w: seq<int>, local: seq<int>, slotLen: nat)
    requires Holds(slot, w) && Fits(w, slotLen) && local <= w
    ensures slot[|local|] == if |local| < |w| then w[|local|] else 0
    ensures |local| < |w| ==> w[|local|] != 0
  {
    if |local| < |w| {
      assert slot[|local|] == slot[..|w|][|local|] == w[|local|];
      assert w[|local|] in w;
    }
  }

  lemma SemaphoreStep(s: State, r: State, e: Event, slots: nat, slotLen: nat)
    requires Inv(s, slots, slotLen) && StepBy(s, r, e, slots, slotLen) && (e.AcquireItem? || e.ReleaseSlot?)
    ensures Inv(r, slots, slotLen)
  {
    assert Unread(r, slots, slotLen) && ProducerInv(r, slots, slotLen);
  }

  lemma HeadStep(s: State, r: State, slots: nat, slotLen: nat)
    requires Inv(s, slots, slotLen) && StepBy(s, r, AdvanceHead, slots, slotLen)
    ensures Inv(r, slots, slotLen)
  {
    assert Unread(r, slots, slotLen) && ProducerInv(r, slots, slotLen);
    assert s.released[..|s.consumed| + 1] == s.consumed + [s.released[|s.consumed|]];
  }

  lemma {:induction false} RunInv(run: seq<State>, slots: nat, slotLen: nat, i: nat)
    requires IsRun(run, slots, slotLen) && i < |run|
    ensures Inv(run[i], slots, slotLen)
  {
    if i == 0 {
      StartInv(slots, slotLen);
    } else {
      RunInv(run, slots, slotLen, i - 1);
      assert Next(run[i - 1], run[i], slots, slotLen);
      var e :| StepBy(run[i - 1], run[i], e, slots, slotLen);
      if e.WriteChar? {
        WriteStep(run[i - 1], run[i], slots, slotLen);
      } else if e.ReadChar? {
        ReadStep(run[i - 1], run[i], slots, slotLen);
      } else if e.AdvanceHead? {
        HeadStep(run[i - 1], run[i], slots, slotLen);
      } else if e.AcquireItem? || e.ReleaseSlot? {
        SemaphoreStep(run[i - 1], run[i], e, slots, slotLen);
      } else if e.AdvanceTail? {
        TailStep(run[i - 1], run[i], slots, slotLen);
      } else if e.ReleaseItem? {
        ReleaseStep(run[i - 1], run[i], slots, slotLen);
      } else {
        AcquireStep(run[i - 1], run[i], e, slots, slotLen);
      }
    }
  }

  /** The two semaphores and the slots the processes hold always add up to the number of slots. */
  lemma SlotsAreConserved(run: seq<State>, slots: nat, slotLen: nat, i: nat)
    requires IsRun(run, slots, slotLen) && i < |run|
    ensures run[i].avail + run[i].ready + ProducerHolds(run[i]) + ConsumerHolds(run[i]) == slots
    ensures run[i].ready + |run[i].consumed| + InHand(run[i]) == |run[i].released|
  {
    RunInv(run, slots, slotLen, i);
  }

  /** The consumer receives the producer's strings unmixed, in order, each once. */
  lemma ConsumedIsPrefix(run: seq<State>, slots: nat, slotLen: nat, i: nat)
    requires IsRun(run, slots, slotLen) && i < |run|
    ensures run[i].consumed <= run[i].released
    ensures |run[i].released| - |run[i].consumed| <= slots
  {
    RunInv(run, slots, slotLen, i);
  }

  /** No slot is written while it is read or holds an item not read yet, and no copy leaves its slot. */
  lemma NoSlotIsShared(run: seq<State>, slots: nat, slotLen: nat, i: nat)
    requires IsRun(run, slots, slotLen) && i < |run|
    ensures run[i].producer.Writing? && run[i].consumer.Reading? ==> run[i].head != run[i].tail
    ensures run[i].producer.Writing? ==>
              forall k | |run[i].consumed| <= k < |run[i].released| :: SlotOf(k, slots) != run[i].tail
    ensures run[i].producer.Writing? ==> run[i].producer.j < slotLen
    ensures run[i].consumer.Reading? ==> |run[i].consumer.local| < slotLen
  {
    RunInv(run, slots, slotLen, i);
    if run[i].producer.Writing? {
      FilledSlotIsFree(run[i], slots);
    }
    if run[i].consumer.Reading? {
      assert run[i].released[|run[i].consumed|] in run[i].released;
    }
  }

  /** The two processes are never both blocked. */
  lemma SomeProcessCanStep(run: seq<State>, slots: nat, slotLen: nat, i: nat)
    requires IsRun(run, slots, slotLen) && i < |run|
    ensures exists e :: Enabled(run[i], e, slotLen)
  {
    RunInv(run, slots, slotLen, i);
    var s := run[i];
    var p :=
      match s.producer
      case Composing => Compose([])
      case AwaitSlot(_) => AcquireSlot
      case Writing(_, _) => WriteChar
      case Advancing(_) => AdvanceTail
      case Releasing(_) => ReleaseItem;
    var c :=
      match s.consumer
      case AwaitItem => AcquireItem
      case Reading(_) => ReadChar
      case Taking(_) => AdvanceHead
      case Freeing => ReleaseSlot;
    assert Enabled(s, p, slotLen) || Enabled(s, c, slotLen);
  }

  // ---------------------------------------------------------------------------------------------
  // What is composed is delivered.

  /** The events that lead from each state of a run to the next. */
  ghost predicate IsHistory(run: seq<State>, events: seq<Event>, slots: nat, slotLen: nat) {
    && IsRun(run, slots, slotLen)
    && |events| == |run| - 1
    && forall i | 0 <= i < |events| :: StepBy(run[i], run[i + 1], events[i], slots, slotLen)
  }

  /** The strings composed among the events, in order. */
  function Composed(events: seq<Event>): seq<seq<int>> {
    if events == [] then []
    else
      var last := events[|events| - 1];
      Composed(events[..|events| - 1]) + if last.Compose? then [last.w] else []
  }

  /** The string the producer is at work on. */
  function AtWork(p: Producer): seq<seq<int>> {
    if p.Composing? then [] else [p.w]
  }

  /** What has been released, and the string at work, are the strings composed, in order. */
  lemma {:induction false} ComposedIsReleased(run: seq<State>, events: seq<Event>, slots: nat, slotLen: nat, i: nat)
    requires IsHistory(run, events, slots, slotLen) && i < |run|
    ensures run[i].released + AtWork(run[i].producer) == Composed(events[..i])
  {
    if i > 0 {
      ComposedIsReleased(run, events, slots, slotLen, i - 1);
      assert StepBy(run[i - 1], run[i - 1 + 1], events[i - 1], slots, slotLen);
      assert events[..i][..i - 1] == events[..i - 1];
    }
  }

  /** The strings consumed are the first of those composed: unmixed, in order, each once. */
  lemma ConsumedIsComposed(run: seq<State>, events: seq<Event>, slots: nat, slotLen: nat, i: nat)
    requires IsHistory(run, events, slots, slotLen) && i < |run|
    ensures run[i].consumed <= Composed(events[..i])
  {
    ConsumedIsPrefix(run, slots, slotLen, i);
    ComposedIsReleased(run, events, slots, slotLen, i);
  }

  /** The steps of the consumer for one string. */
  function ConsumerSteps(w: seq<int>): nat {
    |w| + 4
  }

  function StepsFor(ws: seq<seq<int>>): nat {
    if ws == [] then 0 else ConsumerSteps(ws[0]) + StepsFor(ws[1..])
  }

  lemma {:induction false} StepsForAppend(ws: seq<seq<int>>, w: seq<int>)
    ensures StepsFor(ws + [w]) == StepsFor(ws) + ConsumerSteps(w)
  {
    if ws == [] {
      assert [w][1..] == [];
    } else {
      assert (ws + [w])[1..] == ws[1..] + [w];
      StepsForAppend(ws[1..], w);
    }
  }

  /** The steps still to take for the string at work. */
  function ProducerLeft(p: Producer): int {
    match p
    case Composing => 0
    case AwaitSlot(w) => |w| + 4 + ConsumerSteps(w)
    case Writing(w, j) => |w| - j + 3 + ConsumerSteps(w)
    case Advancing(w) => 2 + ConsumerSteps(w)
    case Releasing(w) => 1 + ConsumerSteps(w)
  }

  /** Released strings the consumer has not acquired. */
  function Waiting(s: State): seq<seq<int>> {
    if |s.consumed| + InHand(s) <= |s.released| then s.released[|s.consumed| + InHand(s)..] else []
  }

  function ConsumerLeft(s: State): int {
    match s.consumer
    case AwaitItem => 0
    case Reading(local) => (if |s.consumed| < |s.released| then |s.released[|s.consumed|]| else 0) - |local| + 3
    case Taking(_) => 2
    case Freeing => 1
  }

  /** Steps until everything composed has been consumed. */
  function StepsLeft(s: State): int {
    ProducerLeft(s.producer) + StepsFor(Waiting(s)) + ConsumerLeft(s)
  }

  lemma ProducerUsesStep(s: State, r: State, e: Event, slots: nat, slotLen: nat)
    requires ProducerInRange(s.producer) && StepBy(s, r, e, slots, slotLen)
    requires e.Compose? || e.AcquireSlot? || e.WriteChar? || e.AdvanceTail?
    ensures StepsLeft(r) == if e.Compose? then StepsLeft(s) + |e.w| + 4 + ConsumerSteps(e.w) else StepsLeft(s) - 1
  {
    assert Waiting(r) == Waiting(s);
  }

  predicate ProducerInRange(p: Producer) {
    p.Writing? ==> p.j <= |p.w|
  }

  lemma ReleaseUsesStep(s: State, r: State, slots: nat, slotLen: nat)
    requires StepBy(s, r, ReleaseItem, slots, slotLen) && Ledger(s, slots) && ConsumerInv(s)
    ensures StepsLeft(r) == StepsLeft(s) - 1
  {
    assert Waiting(r) == Waiting(s) + [s.producer.w];
    StepsForAppend(Waiting(s), s.producer.w);
  }

  lemma AcquireUsesStep(s: State, r: State, slots: nat, slotLen: nat)
    requires StepBy(s, r, AcquireItem, slots, slotLen) && Ledger(s, slots)
    ensures StepsLeft(r) == StepsLeft(s) - 1
  {
    assert Waiting(s) == [s.released[|s.consumed|]] + Waiting(r);
  }

  lemma ReadUsesStep(s: State, r: State, slots: nat, slotLen: nat)
    requires Inv(s, slots, slotLen) && StepBy(s, r, ReadChar, slots, slotLen)
    ensures StepsLeft(r) == StepsLeft(s) - 1
  {
    ReadAtHead(s, slots, slotLen);
    assert Waiting(r) == Waiting(s);
  }

  /** The consumer reads the item's next character, or its end. */
  lemma ReadAtHead(s: State, slots: nat, slotLen: nat)
    requires Inv(s, slots, slotLen) && s.consumer.Reading?
    ensures |s.consumed| < |s.released|
    ensures var local, w := s.consumer.local, s.released[|s.consumed|];
            |local| <= |w| < slotLen && (s.buffer[s.head][|local|] == 0 <==> |local| == |w|)
  {
    var w := s.released[|s.consumed|];
    assert w in s.released && SlotOf(|s.consumed|, slots) == s.head;
    NextChar(s.buffer[s.head], w, s.consumer.local, slotLen);
  }

  lemma FreeingUsesStep(s: State, r: State, e: Event, slots: nat, slotLen: nat)
    requires ConsumerInv(s) && StepBy(s, r, e, slots, slotLen) && (e.AdvanceHead? || e.ReleaseSlot?)
    ensures StepsLeft(r) == StepsLeft(s) - 1
  {
    assert Waiting(r) == Waiting(s);
  }

  /** Every step except composing brings delivery of everything composed one step closer. */
  lemma EveryStepCounts(s: State, r: State, e: Event, slots: nat, slotLen: nat)
    requires Inv(s, slots, slotLen) && StepBy(s, r, e, slots, slotLen)
    ensures StepsLeft(r) == if e.Compose? then StepsLeft(s) + |e.w| + 4 + ConsumerSteps(e.w) else StepsLeft(s) - 1
  {
    if e.ReadChar? {
      ReadUsesStep(s, r, slots, slotLen);
    } else if e.ReleaseItem? {
      ReleaseUsesStep(s, r, slots, slotLen);
    } else if e.AcquireItem? {
      AcquireUsesStep(s, r, slots, slotLen);
    } else if e.AdvanceHead? || e.ReleaseSlot? {
      FreeingUsesStep(s, r, e, slots, slotLen);
    } else {
      ProducerUsesStep(s, r, e, slots, slotLen);
    }
  }

  /**
   * Until everything composed has been consumed, some step other than composing is possible and takes
   * one off the steps left; at none left, what has been consumed is all that was composed.
   */
  lemma EverythingIsDelivered(run: seq<State>, events: seq<Event>, slots: nat, slotLen: nat, i: nat)
    requires IsHistory(run, events, slots, slotLen) && i < |run|
    ensures StepsLeft(run[i]) >= 0
    ensures StepsLeft(run[i]) == 0 ==> run[i].consumed == Composed(events[..i])
    ensures StepsLeft(run[i]) > 0 ==> exists e :: Enabled(run[i], e, slotLen) && !e.Compose?
    ensures i < |events| && !events[i].Compose? ==> StepsLeft(run[i + 1]) == StepsLeft(run[i]) - 1
  {
    RunInv(run, slots, slotLen, i);
    ComposedIsReleased(run, events, slots, slotLen, i);
    NothingLeft(run[i], slots, slotLen);
    if StepsLeft(run[i]) > 0 {
      DeliveryGoesOn(run[i], slots, slotLen);
    }
    if i < |events| {
      EveryStepCounts(run[i], run[i + 1], events[i], slots, slotLen);
    }
  }

  /** Any string that fits may be composed next, and a process waits only for its semaphore. */
  lemma ProcessesMayAct(s: State, slotLen: nat)
    ensures forall w | s.producer.Composing? && Fits(w, slotLen) :: Enabled(s, Compose(w), slotLen)
    ensures s.producer.AwaitSlot? && s.avail > 0 ==> Enabled(s, AcquireSlot, slotLen)
    ensures s.producer.Writing? ==> Enabled(s, WriteChar, slotLen)
    ensures s.producer.Advancing? ==> Enabled(s, AdvanceTail, slotLen)
    ensures s.producer.Releasing? ==> Enabled(s, ReleaseItem, slotLen)
    ensures s.consumer.AwaitItem? && s.ready > 0 ==> Enabled(s, AcquireItem, slotLen)
    ensures s.consumer.Reading? ==> Enabled(s, ReadChar, slotLen)
    ensures s.consumer.Taking? ==> Enabled(s, AdvanceHead, slotLen)
    ensures s.consumer.Freeing? ==> Enabled(s, ReleaseSlot, slotLen)
  {
  }

  lemma NothingLeft(s: State, slots: nat, slotLen: nat)
    requires Inv(s, slots, slotLen)
    ensures StepsLeft(s) >= 0
    ensures StepsLeft(s) == 0 ==> s.consumed == s.released && s.producer.Composing?
  {
    assert s.consumed <= s.released;
    if StepsLeft(s) == 0 {
      assert Waiting(s) == [];
    }
  }

  lemma NoneWaiting(s: State, slots: nat)
    requires slots > 0 && Ledger(s, slots)
    ensures s.ready == 0 ==> Waiting(s) == []
  {
  }

  lemma DeliveryGoesOn(s: State, slots: nat, slotLen: nat)
    requires Inv(s, slots, slotLen) && StepsLeft(s) > 0
    ensures exists e :: Enabled(s, e, slotLen) && !e.Compose?
  {
    var p :=
      match s.producer
      case Composing => AcquireSlot
      case AwaitSlot(_) => AcquireSlot
      case Writing(_, _) => WriteChar
      case Advancing(_) => AdvanceTail
      case Releasing(_) => ReleaseItem;
    var c :=
      match s.consumer
      case AwaitItem => AcquireItem
      case Reading(_) => ReadChar
      case Taking(_) => AdvanceHead
      case Freeing => ReleaseSlot;
    NoneWaiting(s, slots);
    assert Enabled(s, p, slotLen) || Enabled(s, c, slotLen);
  }
}
