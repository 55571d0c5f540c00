/** The pipeline of programs/pipe.c: one-slot stages, each forwarding its datum plus one. */
module Pipeline {
  import opened Sequences

  datatype Slot = Slot(ready: bool, data: int)

  function Fill(slots: seq<Slot>, i: nat, value: int): seq<Slot>
    requires i < |slots|
  {
    slots[i := Slot(true, value)]
  }

  function Drain(slots: seq<Slot>, i: nat): seq<Slot>
    requires i < |slots|
  {
    slots[i := slots[i].(ready := false)]
  }

  // ---------------------------------------------------------------------------------------------
  // The linked stages in the heap.

  class Stage {
    var dataReady: int
    var data: int
    var next: Stage?

    constructor ()
      ensures dataReady == 0 && next == null
    {
      dataReady := 0;
      data := 0;
      next := null;
    }
  }

  class Pipe {
    var head: Stage
    var tail: Stage
    var stages: int
    var active: int
    ghost var chain: seq<Stage>

    ghost predicate Valid()
      reads this, chain
    {
      && |chain| == stages + 1 >= 1
      && head == chain[0]
      && tail == chain[stages]
      && tail.next == null
      && (forall i | 0 <= i < stages :: chain[i].next == chain[i + 1])
      && (forall i, j | 0 <= i < j <= stages :: chain[i] != chain[j])
      && (forall i | 0 <= i <= stages :: chain[i].dataReady == 0 || chain[i].dataReady == 1)
    }

    ghost function Slots(): (r: seq<Slot>)
      reads this, chain
      ensures |r| == |chain|
    {
      seq(|chain|, i requires 0 <= i < |chain| reads this, chain =>
        Slot(chain[i].dataReady == 1, chain[i].data))
    }

    /** Builds the list link by link; `last` is the stage whose link is written next. */
    constructor Create(stages: int)
      requires stages >= 0
      ensures Valid() && fresh(chain) && this.stages == stages && active == 0
      ensures forall i | 0 <= i <= stages :: !Slots()[i].ready
    {
      this.stages := stages;
      active := 0;
      var first := new Stage();
      head := first;
      tail := first;
      chain := [first];
      new;
      var last := head;
      for index := 1 to stages + 1
        invariant fresh(chain) && |chain| == index && head == chain[0] && last == chain[index - 1]
        invariant this.stages == stages && active == 0
        invariant last.next == null
        invariant forall i | 0 <= i < index - 1 :: chain[i].next == chain[i + 1]
        invariant forall i, j | 0 <= i < j < index :: chain[i] != chain[j]
        invariant forall i | 0 <= i < index :: chain[i].dataReady == 0
      {
        var stage := new Stage();
        last.next := stage;
        last := stage;
        chain := chain + [stage];
      }
      tail := last;
    }

    /** One pass through the guarded part of a send; `sent` is false when the sender must wait. */
    method Send(stage: Stage, ghost i: nat, value: int) returns (sent: bool)
      requires Valid() && i < |chain| && stage == chain[i]
      modifies stage`dataReady, stage`data
      ensures Valid() && sent == !old(Slots())[i].ready
      ensures Slots() == if sent then Fill(old(Slots()), i, value) else old(Slots())
    {
      if stage.dataReady != 0 {
        return false;
      }
      stage.data := value;
      stage.dataReady := 1;
      sent := true;
    }

    /** What a stage thread does with a datum: the send to its successor. */
    method Forward(stage: Stage, ghost i: nat) returns (sent: bool)
      requires Valid() && i < stages && stage == chain[i]
      modifies {chain[i + 1]}
      ensures Valid() && sent == !old(Slots())[i + 1].ready
      ensures Slots() ==
              if sent then Fill(old(Slots()), i + 1, old(Slots())[i].data + 1) else old(Slots())
    {
      assert chain[i].next == chain[i + 1];
      sent := Send(stage.next, i + 1, stage.data + 1);
    }

    /** The end of the stage's round. */
    method Clear(stage: Stage, ghost i: nat)
      requires Valid() && i < stages && stage == chain[i]
      modifies stage`dataReady
      ensures Valid() && Slots() == Drain(old(Slots()), i)
    {
      stage.dataReady := 0;
    }

    /** The first critical section of starting a datum; the send to `head` follows. */
    method Begin()
      modifies this`active
      ensures active == old(active) + 1
    {
      active := active + 1;
    }

    /** The first critical section of collecting; `empty` means the caller returns at once. */
    method Claim() returns (empty: bool)
      modifies this`active
      ensures empty <==> old(active) <= 0
      ensures active == if empty then old(active) else old(active) - 1
    {
      if active <= 0 {
        empty := true;
      } else {
        empty := false;
        active := active - 1;
      }
    }

    /** One pass through the guarded part of collecting from the tail. */
    method Collect() returns (taken: bool, result: int)
      requires Valid()
      modifies tail`dataReady
      ensures Valid() && taken == old(Slots())[stages].ready
      ensures taken ==> result == old(Slots())[stages].data
      ensures Slots() == if taken then Drain(old(Slots()), stages) else old(Slots())
    {
      if tail.dataReady == 0 {
        return false, 0;
      }
      taken, result := true, tail.data;
      tail.dataReady := 0;
    }
  }

  // ---------------------------------------------------------------------------------------------
  // Stage threads and any number of clients, under an arbitrary scheduler.

  /**
   * A stage thread is waiting for data with its mutex released (`asleep` until signalled), holds
   * its mutex while sending, or holds it after the send, about to clear its own slot.
   */
  datatype Mode = Idle(asleep: bool) | Sending(asleep: bool) | Clearing

  /**
   * A client is in the send to the head after it has raised `active`, or waits at the tail after it
   * has lowered it; in either wait it may be `asleep` until signalled.
   */
  datatype Client = Away | Sender(value: int, asleep: bool) | Collector(asleep: bool)

  /** The last four components are history: values put in and taken out, and how many of each were begun. */
  datatype State = State(
    slots: seq<Slot>, modes: seq<Mode>, clients: seq<Client>, active: int,
    sent: seq<int>, collected: seq<int>, started: nat, claimed: nat)

  function Stages(s: State): nat {
    |s.modes|
  }

  ghost predicate Shaped(s: State) {
    |s.slots| == |s.modes| + 1
  }

  function Start(stages: nat, clients: nat): State {
    State(
      seq(stages + 1, _ => Slot(false, 0)), seq(stages, _ => Idle(true)), seq(clients, _ => Away), 0,
      [], [], 0, 0)
  }

  /** No thread holds the mutex of slot i; the tail has no thread of its own. */
  predicate MutexFree(s: State, i: nat) {
    i >= |s.modes| || s.modes[i].Idle?
  }

  function SignalData(modes: seq<Mode>, i: nat): (r: seq<Mode>)
    ensures |r| == |modes|
  {
    if i < |modes| && modes[i].Idle? then modes[i := Idle(false)] else modes
  }

  /** The only stage that can wait for slot i to empty is the one before it. */
  function SignalRoom(modes: seq<Mode>, i: nat): (r: seq<Mode>)
    ensures |r| == |modes|
  {
    if 0 < i <= |modes| && modes[i - 1].Sending? then modes[i - 1 := Sending(false)] else modes
  }

  predicate SleepingSender(c: Client) {
    c.Sender? && c.asleep
  }

  predicate SleepingCollector(c: Client) {
    c.Collector? && c.asleep
  }

  /** Who may be woken by a signal for room in slot i: a sleeping sender at the head, if there is one. */
  predicate RoomTarget(s: State, i: nat, wake: nat) {
    i == 0 ==>
      || (wake < |s.clients| && SleepingSender(s.clients[wake]))
      || forall c | 0 <= c < |s.clients| :: !SleepingSender(s.clients[c])
  }

  /** Who may be woken by a signal for data in slot i: a sleeping collector at the tail, if there is one. */
  predicate DataTarget(s: State, i: nat, wake: nat) {
    i == Stages(s) ==>
      || (wake < |s.clients| && SleepingCollector(s.clients[wake]))
      || forall c | 0 <= c < |s.clients| :: !SleepingCollector(s.clients[c])
  }

  function Roused(clients: seq<Client>, wake: nat): (r: seq<Client>)
    ensures |r| == |clients|
  {
    if wake < |clients| && !clients[wake].Away? then clients[wake := clients[wake].(asleep := false)] else clients
  }

  /** Slot i filled, and whoever may wait for data there signalled: its stage, or a collector. */
  function Filled(s: State, i: nat, value: int, wake: nat): (r: State)
    requires Shaped(s) && i <= Stages(s)
    ensures Shaped(r)
  {
    s.(slots := Fill(s.slots, i, value), modes := SignalData(s.modes, i),
       clients := if i == Stages(s) then Roused(s.clients, wake) else s.clients)
  }

  /** Slot i emptied, and whoever may wait for room there signalled: the stage before it, or a sender. */
  function Drained(s: State, i: nat, wake: nat): (r: State)
    requires Shaped(s) && i <= Stages(s)
    ensures Shaped(r)
  {
    s.(slots := Drain(s.slots, i), modes := SignalRoom(s.modes, i),
       clients := if i == 0 then Roused(s.clients, wake) else s.clients)
  }

  /** `wake` names the client that a signal wakes, where clients wait for it. */
  datatype Event =
    | Begin(c: nat, value: int)
    | Place(c: nat, wake: nat)
    | Claim(c: nat)
    | Collect(c: nat, wake: nat)
    | StirClient(c: nat)
    | Wake(i: nat)
    | Send(i: nat, wake: nat)
    | Clear(i: nat, wake: nat)
    | Stir(i: nat)

  predicate Enabled(s: State, e: Event)
    requires Shaped(s)
  {
    match e
    case Begin(c, _) => c < |s.clients| && s.clients[c].Away?
    case Place(c, wake) =>
      c < |s.clients| && s.clients[c].Sender? && !s.clients[c].asleep && MutexFree(s, 0) && DataTarget(s, 0, wake)
    case Claim(c) => c < |s.clients| && s.clients[c].Away?
    case Collect(c, wake) => c < |s.clients| && s.clients[c] == Collector(false) && RoomTarget(s, Stages(s), wake)
    case StirClient(c) => c < |s.clients| && (SleepingSender(s.clients[c]) || SleepingCollector(s.clients[c]))
    case Wake(i) => i < Stages(s) && s.modes[i] == Idle(false)
    case Send(i, wake) =>
      i < Stages(s) && s.modes[i] == Sending(false) && MutexFree(s, i + 1) && DataTarget(s, i + 1, wake)
    case Clear(i, wake) => i < Stages(s) && s.modes[i].Clearing? && RoomTarget(s, i, wake)
    case Stir(i) => i < Stages(s) && (s.modes[i] == Idle(true) || s.modes[i] == Sending(true))
  }

  function Apply(s: State, e: Event): (r: State)
    requires Shaped(s) && Enabled(s, e)
    ensures Shaped(r)
  {
    match e
    case Begin(c, v) =>
      s.(active := s.active + 1, started := s.started + 1, clients := s.clients[c := Sender(v, false)])
    case Place(c, wake) =>
      var v := s.clients[c].value;
      if s.slots[0].ready then s.(clients := s.clients[c := Sender(v, true)])
      else Filled(s.(clients := s.clients[c := Away], sent := s.sent + [v]), 0, v, wake)
    case Claim(c) =>
      if s.active <= 0 then s
      else s.(active := s.active - 1, claimed := s.claimed + 1, clients := s.clients[c := Collector(false)])
    case Collect(c, wake) =>
      var tail := s.slots[Stages(s)];
      if !tail.ready then s.(clients := s.clients[c := Collector(true)])
      else Drained(s.(clients := s.clients[c := Away], collected := s.collected + [tail.data]), Stages(s), wake)
    case StirClient(c) => s.(clients := Roused(s.clients, c))
    case Wake(i) =>
      if s.slots[i].ready
      then s.(modes := s.modes[i := Sending(false)])
      else s.(modes := s.modes[i := Idle(true)])
    case Send(i, wake) =>
      if s.slots[i + 1].ready
      then s.(modes := s.modes[i := Sending(true)])
      else
        var r := Filled(s, i + 1, s.slots[i].data + 1, wake);
        r.(modes := r.modes[i := Clearing])
    case Clear(i, wake) =>
      var r := Drained(s, i, wake);
      r.(modes := r.modes[i := Idle(true)])
    case Stir(i) =>
      s.(modes := s.modes[i := if s.modes[i].Idle? then Idle(false) else Sending(false)])
  }

  ghost predicate StepBy(s: State, r: State, e: Event) {
    Shaped(s) && Enabled(s, e) && r == Apply(s, e)
  }

  ghost predicate Next(s: State, r: State) {
    exists e :: StepBy(s, r, e)
  }

  ghost predicate IsRun(run: seq<State>, stages: nat, clients: nat) {
    |run| > 0 && run[0] == Start(stages, clients) && forall i | 0 < i < |run| :: Next(run[i - 1], run[i])
  }

  /** Slot i holds a datum that has not been passed on yet. */
  predicate Live(s: State, i: nat)
    requires Shaped(s) && i <= Stages(s)
  {
    s.slots[i].ready && (i == Stages(s) || !s.modes[i].Clearing?)
  }

  /** The result that slot i will deliver. */
  function Result(s: State, i: nat): seq<int>
    requires Shaped(s) && i <= Stages(s)
  {
    if Live(s, i) then [s.slots[i].data + (Stages(s) - i)] else []
  }

  function Results(s: State): (r: seq<seq<int>>)
    requires Shaped(s)
    ensures |r| == Stages(s) + 1
  {
    seq(Stages(s) + 1, i requires 0 <= i < Stages(s) + 1 => Result(s, i))
  }

  /** The parts put together, last part first. */
  function Flattened(parts: seq<seq<int>>): seq<int> {
    if parts == [] then [] else parts[|parts| - 1] + Flattened(parts[..|parts| - 1])
  }

  /** The results the slots will deliver, deepest slot first. */
  function AllContents(s: State): seq<int>
    requires Shaped(s)
  {
    Flattened(Results(s))
  }

  ghost predicate ModesInv(s: State)
    requires Shaped(s)
  {
    forall i | 0 <= i < Stages(s) ::
      && (s.modes[i].Idle? && s.modes[i].asleep ==> !s.slots[i].ready)
      && (!s.modes[i].Idle? ==> s.slots[i].ready)
      && (s.modes[i].Sending? && s.modes[i].asleep ==> s.slots[i + 1].ready)
  }

  ghost predicate Inv(s: State) {
    && Shaped(s)
    && ModesInv(s)
    && s.collected + AllContents(s) == Raised(s.sent, Stages(s))
    && s.active == s.started - s.claimed >= 0
    && s.started == |s.sent| + Senders(s.clients)
    && s.claimed == |s.collected| + Collectors(s.clients)
    && SendersInv(s)
    && CollectorsInv(s)
  }

  function Senders(clients: seq<Client>): nat {
    if clients == [] then 0 else (if clients[0].Sender? then 1 else 0) + Senders(clients[1..])
  }

  function Collectors(clients: seq<Client>): nat {
    if clients == [] then 0 else (if clients[0].Collector? then 1 else 0) + Collectors(clients[1..])
  }

  lemma {:induction false} ClientUpdate(clients: seq<Client>, i: nat, c: Client)
    requires i < |clients|
    ensures Senders(clients[i := c]) + (if clients[i].Sender? then 1 else 0) ==
            Senders(clients) + if c.Sender? then 1 else 0
    ensures Collectors(clients[i := c]) + (if clients[i].Collector? then 1 else 0) ==
            Collectors(clients) + if c.Collector? then 1 else 0
  {
    if i == 0 {
      assert clients[i := c][1..] == clients[1..];
    } else {
      assert clients[i := c][1..] == clients[1..][i - 1 := c];
      ClientUpdate(clients[1..], i - 1, c);
    }
  }

  lemma RousedTallies(clients: seq<Client>, wake: nat)
    ensures Senders(Roused(clients, wake)) == Senders(clients)
    ensures Collectors(Roused(clients, wake)) == Collectors(clients)
  {
    if wake < |clients| && !clients[wake].Away? {
      ClientUpdate(clients, wake, clients[wake].(asleep := false));
    }
  }

  lemma {:induction false} NoClients(clients: seq<Client>)
    ensures Senders(clients) == 0 <==> forall c | 0 <= c < |clients| :: !clients[c].Sender?
    ensures Collectors(clients) == 0 <==> forall c | 0 <= c < |clients| :: !clients[c].Collector?
  {
    if clients != [] {
      NoClients(clients[1..]);
      assert forall c | 0 < c < |clients| :: clients[c] == clients[1..][c - 1];
      assert forall c | 0 <= c < |clients[1..]| :: clients[1..][c] == clients[c + 1];
    }
  }

  predicate AwakeSender(c: Client) {
    c.Sender? && !c.asleep
  }

  predicate AwakeCollector(c: Client) {
    c.Collector? && !c.asleep
  }

  /** When the head has room and senders are waiting, one of them is awake. */
  ghost predicate SendersInv(s: State)
    requires Shaped(s)
  {
    || s.slots[0].ready
    || (forall c | 0 <= c < |s.clients| :: !s.clients[c].Sender?)
    || exists c :: 0 <= c < |s.clients| && AwakeSender(s.clients[c])
  }

  /** When the tail has a datum and collectors are waiting, one of them is awake. */
  ghost predicate CollectorsInv(s: State)
    requires Shaped(s)
  {
    || !s.slots[Stages(s)].ready
    || (forall c | 0 <= c < |s.clients| :: !s.clients[c].Collector?)
    || exists c :: 0 <= c < |s.clients| && AwakeCollector(s.clients[c])
  }

  lemma Associates(a: seq<int>, b: seq<int>, c: seq<int>)
    ensures (a + b) + c == a + (b + c)
  {
  }

  lemma FlattenedLast(parts: seq<seq<int>>, last: seq<int>)
    ensures Flattened(parts + [last]) == last + Flattened(parts)
  {
    assert (parts + [last])[..|parts|] == parts;
  }

  lemma {:induction false} FlattenedSplit(a: seq<seq<int>>, b: seq<seq<int>>)
    ensures Flattened(a + b) == Flattened(b) + Flattened(a)
  {
    if b == [] {
      assert a + b == a;
    } else {
      var front, last := b[..|b| - 1], b[|b| - 1];
      FlattenedSplit(a, front);
      assert b == front + [last];
      assert a + b == (a + front) + [last];
      FlattenedLast(a + front, last);
      FlattenedLast(front, last);
      Associates(last, Flattened(front), Flattened(a));
    }
  }

  lemma FlattenedSingle(x: seq<int>)
    ensures Flattened([x]) == x
  {
    assert [x][..0] == [];
  }

  lemma FlattenedPair(x: seq<int>, y: seq<int>)
    ensures Flattened([x, y]) == y + x
  {
    FlattenedSingle(x);
    assert [x, y][..1] == [x];
  }

  /** A part moved past an empty one leaves the whole as it was. */
  lemma FlattenedMoved(before: seq<seq<int>>, x: seq<int>, after: seq<seq<int>>)
    ensures Flattened(before + [x, []] + after) == Flattened(before + [[], x] + after)
  {
    FlattenedPair(x, []);
    FlattenedPair([], x);
    assert [] + x == x == x + [];
    FlattenedSplit(before + [x, []], after);
    FlattenedSplit(before + [[], x], after);
    FlattenedSplit(before, [x, []]);
    FlattenedSplit(before, [[], x]);
  }

  lemma PlaceResults(s: State, c: nat, wake: nat)
    requires Shaped(s) && Enabled(s, Place(c, wake)) && !s.slots[0].ready
    ensures Results(s) == [[]] + Results(s)[1..]
    ensures Results(Apply(s, Place(c, wake))) == [[s.clients[c].value + Stages(s)]] + Results(s)[1..]
  {
  }

  /** Filling the head adds the datum's eventual result behind everything already in the pipe. */
  lemma PlaceContents(s: State, c: nat, wake: nat)
    requires Shaped(s) && Enabled(s, Place(c, wake)) && !s.slots[0].ready
    ensures AllContents(Apply(s, Place(c, wake))) == AllContents(s) + [s.clients[c].value + Stages(s)]
  {
    var rest, v := Results(s)[1..], s.clients[c].value;
    PlaceResults(s, c, wake);
    FlattenedSplit([[]], rest);
    FlattenedSplit([[v + Stages(s)]], rest);
    FlattenedSingle([]);
    FlattenedSingle([v + Stages(s)]);
  }

  lemma SendResults(s: State, i: nat, wake: nat)
    requires Shaped(s) && ModesInv(s) && Enabled(s, Send(i, wake)) && !s.slots[i + 1].ready
    ensures var before, x, after := Results(s)[..i], Result(s, i), Results(s)[i + 2..];
            && Results(s) == before + [x, []] + after
            && Results(Apply(s, Send(i, wake))) == before + [[], x] + after
  {
  }

  /** Forwarding moves a datum one slot on, and neither its result nor its rank changes. */
  lemma SendContents(s: State, i: nat, wake: nat)
    requires Shaped(s) && ModesInv(s) && Enabled(s, Send(i, wake)) && !s.slots[i + 1].ready
    ensures AllContents(Apply(s, Send(i, wake))) == AllContents(s)
  {
    SendResults(s, i, wake);
    FlattenedMoved(Results(s)[..i], Result(s, i), Results(s)[i + 2..]);
  }

  lemma ModesStep(s: State, r: State, e: Event)
    requires Shaped(s) && ModesInv(s) && StepBy(s, r, e)
    ensures ModesInv(r)
  {
    if e.Place? {
      PlaceModes(s, e.c, e.wake);
    } else if e.Collect? {
      assert forall i | 0 <= i < Stages(s) - 1 :: r.modes[i] == s.modes[i];
    } else if e.Send? {
      SendModes(s, e.i, e.wake);
    } else if e.Clear? {
      ClearModes(s, e.i, e.wake);
    }
  }

  lemma PlaceModes(s: State, c: nat, wake: nat)
    requires Shaped(s) && ModesInv(s) && Enabled(s, Place(c, wake))
    ensures ModesInv(Apply(s, Place(c, wake)))
  {
  }

  lemma SendModes(s: State, i: nat, wake: nat)
    requires Shaped(s) && ModesInv(s) && Enabled(s, Send(i, wake))
    ensures ModesInv(Apply(s, Send(i, wake)))
  {
  }

  lemma ClearModes(s: State, i: nat, wake: nat)
    requires Shaped(s) && ModesInv(s) && Enabled(s, Clear(i, wake))
    ensures ModesInv(Apply(s, Clear(i, wake)))
  {
  }

  lemma CollectResults(s: State, c: nat, wake: nat)
    requires Shaped(s) && Enabled(s, Collect(c, wake)) && s.slots[Stages(s)].ready
    ensures var front := Results(s)[..Stages(s)];
            && Results(s) == front + [[s.slots[Stages(s)].data]]
            && Results(Apply(s, Collect(c, wake))) == front + [[]]
  {
  }

  lemma CollectContents(s: State, c: nat, wake: nat)
    requires Shaped(s) && Enabled(s, Collect(c, wake)) && s.slots[Stages(s)].ready
    ensures AllContents(s) == [s.slots[Stages(s)].data] + AllContents(Apply(s, Collect(c, wake)))
  {
    CollectResults(s, c, wake);
    FlattenedLast(Results(s)[..Stages(s)], [s.slots[Stages(s)].data]);
    FlattenedLast(Results(s)[..Stages(s)], []);
  }

  /** The event puts a datum in at the head or takes one out at the tail. */
  predicate IsFlow(s: State, e: Event)
    requires Shaped(s)
  {
    (e.Place? && !s.slots[0].ready) || (e.Collect? && s.slots[Stages(s)].ready)
  }

  lemma OtherContents(s: State, e: Event)
    requires Shaped(s) && ModesInv(s) && Enabled(s, e) && !IsFlow(s, e)
    ensures AllContents(Apply(s, e)) == AllContents(s)
  {
    if e.Send? && !s.slots[e.i + 1].ready {
      SendContents(s, e.i, e.wake);
    } else {
      OtherResults(s, e);
    }
  }

  lemma OtherResults(s: State, e: Event)
    requires Shaped(s) && ModesInv(s) && Enabled(s, e) && !IsFlow(s, e)
    requires e.Send? ==> s.slots[e.i + 1].ready
    ensures Results(Apply(s, e)) == Results(s)
  {
  }

  lemma PlaceFlow(s: State, c: nat, wake: nat)
    requires Inv(s) && Enabled(s, Place(c, wake)) && !s.slots[0].ready
    ensures var r := Apply(s, Place(c, wake)); r.collected + AllContents(r) == Raised(r.sent, Stages(r))
  {
    var v := s.clients[c].value;
    PlaceContents(s, c, wake);
    Associates(s.collected, AllContents(s), [v + Stages(s)]);
    assert Raised(s.sent + [v], Stages(s)) == Raised(s.sent, Stages(s)) + [v + Stages(s)];
  }

  lemma CollectFlow(s: State, c: nat, wake: nat)
    requires Inv(s) && Enabled(s, Collect(c, wake)) && s.slots[Stages(s)].ready
    ensures var r := Apply(s, Collect(c, wake)); r.collected + AllContents(r) == Raised(r.sent, Stages(r))
  {
    CollectContents(s, c, wake);
    Associates(s.collected, [s.slots[Stages(s)].data], AllContents(Apply(s, Collect(c, wake))));
  }

  lemma FlowStep(s: State, r: State, e: Event)
    requires Inv(s) && StepBy(s, r, e)
    ensures r.collected + AllContents(r) == Raised(r.sent, Stages(r))
  {
    if IsFlow(s, e) {
      if e.Place? {
        PlaceFlow(s, e.c, e.wake);
      } else {
        CollectFlow(s, e.c, e.wake);
      }
    } else {
      OtherContents(s, e);
    }
  }

  lemma LedgerStep(s: State, r: State, e: Event)
    requires Inv(s) && StepBy(s, r, e)
    ensures r.active == r.started - r.claimed >= 0
    ensures r.started == |r.sent| + Senders(r.clients) && r.claimed == |r.collected| + Collectors(r.clients)
  {
    if e.Begin? {
      ClientUpdate(s.clients, e.c, Sender(e.value, false));
    } else if e.Place? {
      ClientUpdate(s.clients, e.c, Away);
      ClientUpdate(s.clients, e.c, Sender(s.clients[e.c].value, true));
      RousedTallies(s.clients[e.c := Away], e.wake);
    } else if e.Claim? {
      ClientUpdate(s.clients, e.c, Collector(false));
    } else if e.Collect? {
      ClientUpdate(s.clients, e.c, Away);
      ClientUpdate(s.clients, e.c, Collector(true));
      RousedTallies(s.clients[e.c := Away], e.wake);
    } else if e.StirClient? {
      RousedTallies(s.clients, e.c);
    } else if e.Send? || e.Clear? {
      RousedTallies(s.clients, e.wake);
    }
  }

  /** Room made at the head wakes a sender if one sleeps, and those awake stay so until they fill it. */
  lemma SendersStep(s: State, r: State, e: Event)
    requires Shaped(s) && SendersInv(s) && StepBy(s, r, e)
    ensures SendersInv(r)
  {
    if !r.slots[0].ready {
      if e.Begin? {
        assert AwakeSender(r.clients[e.c]);
      } else if s.slots[0].ready {
        assert (e.Clear? && e.i == 0) || (e.Collect? && Stages(s) == 0);
        if e.wake < |s.clients| && SleepingSender(s.clients[e.wake]) {
          assert AwakeSender(r.clients[e.wake]);
        } else if c :| 0 <= c < |s.clients| && r.clients[c].Sender? {
          assert AwakeSender(r.clients[c]);
        }
      } else if c :| 0 <= c < |s.clients| && AwakeSender(s.clients[c]) {
        assert AwakeSender(r.clients[c]);
      }
    }
  }

  /** A datum put into the tail wakes a collector if one sleeps, and those awake stay so until they take it. */
  lemma CollectorsStep(s: State, r: State, e: Event)
    requires Shaped(s) && CollectorsInv(s) && StepBy(s, r, e)
    ensures CollectorsInv(r)
  {
    if r.slots[Stages(r)].ready {
      if e.Claim? && s.active > 0 {
        assert AwakeCollector(r.clients[e.c]);
      } else if !s.slots[Stages(s)].ready {
        assert (e.Send? && e.i + 1 == Stages(s)) || (e.Place? && Stages(s) == 0);
        if e.wake < |s.clients| && SleepingCollector(s.clients[e.wake]) {
          assert AwakeCollector(r.clients[e.wake]);
        } else if c :| 0 <= c < |s.clients| && r.clients[c].Collector? {
          assert AwakeCollector(r.clients[c]);
        }
      } else if c :| 0 <= c < |s.clients| && AwakeCollector(s.clients[c]) {
        assert AwakeCollector(r.clients[c]);
      }
    }
  }

  lemma InvStep(s: State, r: State, e: Event)
    requires Inv(s) && StepBy(s, r, e)
    ensures Inv(r) && Stages(r) == Stages(s) && |r.clients| == |s.clients|
  {
    ModesStep(s, r, e);
    FlowStep(s, r, e);
    LedgerStep(s, r, e);
    SendersStep(s, r, e);
    CollectorsStep(s, r, e);
  }

  lemma StartInv(stages: nat, clients: nat)
    ensures Inv(Start(stages, clients))
  {
    NothingFlattened(Results(Start(stages, clients)));
    NoClients(Start(stages, clients).clients);
  }

  lemma {:induction false} NothingFlattened(parts: seq<seq<int>>)
    ensures Flattened(parts) == [] <==> forall i | 0 <= i < |parts| :: parts[i] == []
  {
    if parts != [] {
      var front, last := parts[..|parts| - 1], parts[|parts| - 1];
      NothingFlattened(front);
      assert |Flattened(parts)| == |last| + |Flattened(front)|;
      assert forall i | 0 <= i < |front| :: parts[i] == front[i];
    }
  }

  lemma {:induction false} RunInv(run: seq<State>, stages: nat, clients: nat, k: nat)
    requires IsRun(run, stages, clients) && k < |run|
    ensures Inv(run[k]) && Stages(run[k]) == stages && |run[k].clients| == clients
  {
    if k == 0 {
      StartInv(stages, clients);
    } else {
      RunInv(run, stages, clients, k - 1);
      assert Next(run[k - 1], run[k]);
      var e :| StepBy(run[k - 1], run[k], e);
      InvStep(run[k - 1], run[k], e);
    }
  }

  /**
   * The n-th value taken from the tail is the n-th value sent to the head plus the number of
   * stages, and the data still in the slots are exactly the later ones, in order.
   */
  lemma FirstInFirstOut(run: seq<State>, stages: nat, clients: nat, k: nat)
    requires IsRun(run, stages, clients) && k < |run|
    ensures Shaped(run[k]) && |run[k].collected| <= |run[k].sent|
    ensures forall n | 0 <= n < |run[k].collected| :: run[k].collected[n] == run[k].sent[n] + stages
    ensures AllContents(run[k]) == Raised(run[k].sent[|run[k].collected|..], stages)
  {
    RunInv(run, stages, clients, k);
    var s := run[k];
    var all := Raised(s.sent, stages);
    assert all == s.collected + AllContents(s);
    forall n | 0 <= n < |s.collected| ensures s.collected[n] == s.sent[n] + stages {
      assert s.collected[n] == all[n];
    }
    assert all[|s.collected|..] == AllContents(s);
  }

  /**
   * `active` is the number of started data whose result is unclaimed; data in the pipe and on the
   * way to it are those plus the claims not served yet. So a claimant always has a datum coming.
   */
  lemma LedgerBalances(run: seq<State>, stages: nat, clients: nat, k: nat)
    requires IsRun(run, stages, clients) && k < |run|
    ensures Shaped(run[k])
    ensures run[k].active == run[k].started - run[k].claimed >= 0
    ensures |AllContents(run[k])| + Senders(run[k].clients) == run[k].active + Collectors(run[k].clients)
    ensures Collectors(run[k].clients) > 0 ==> AllContents(run[k]) != [] || Senders(run[k].clients) > 0
  {
    RunInv(run, stages, clients, k);
    var s := run[k];
    assert |s.collected + AllContents(s)| == |s.sent|;
  }

  predicate IsStageEvent(e: Event) {
    e.Wake? || e.Send? || e.Clear?
  }

  /** A stage event other than going back to sleep. */
  predicate Productive(s: State, e: Event)
    requires Shaped(s)
  {
    && IsStageEvent(e)
    && Enabled(s, e)
    && match e
       case Wake(i) => s.slots[i].ready
       case Send(i, _) => !s.slots[i + 1].ready
       case _ => true
  }

  lemma {:induction false} LastLive(s: State, n: nat) returns (i: nat)
    requires Shaped(s) && n <= Stages(s) + 1 && exists j: nat :: j < n && Live(s, j)
    ensures i < n && Live(s, i) && forall j: nat | i < j < n :: !Live(s, j)
  {
    if Live(s, n - 1) {
      i := n - 1;
    } else {
      i := LastLive(s, n - 1);
    }
  }

  lemma SomeDataTarget(s: State, i: nat) returns (wake: nat)
    ensures DataTarget(s, i, wake)
  {
    if c: nat :| c < |s.clients| && SleepingCollector(s.clients[c]) {
      wake := c;
    } else {
      wake := 0;
    }
  }

  lemma SomeRoomTarget(s: State, i: nat) returns (wake: nat)
    ensures RoomTarget(s, i, wake)
  {
    if c: nat :| c < |s.clients| && SleepingSender(s.clients[c]) {
      wake := c;
    } else {
      wake := 0;
    }
  }

  /** An empty tail with a datum anywhere behind it: some stage can move, and no wakeup was lost. */
  lemma StagesNeverJam(run: seq<State>, stages: nat, clients: nat, k: nat)
    requires IsRun(run, stages, clients) && k < |run|
    requires Shaped(run[k]) && AllContents(run[k]) != [] && !run[k].slots[Stages(run[k])].ready
    ensures exists e :: Productive(run[k], e)
  {
    RunInv(run, stages, clients, k);
    var s := run[k];
    NothingFlattened(Results(s));
    var i := LastLive(s, Stages(s) + 1);
    assert i < Stages(s) && !Live(s, i + 1);
    if i + 1 < Stages(s) && s.modes[i + 1].Clearing? {
      assert Productive(s, Clear(i + 1, 0));
    } else if s.modes[i].Idle? {
      assert Productive(s, Wake(i));
    } else {
      var wake := SomeDataTarget(s, i + 1);
      assert Productive(s, Send(i, wake));
    }
  }

  /** A client's pass that puts its datum in or takes one out, so that the client is done. */
  predicate Serves(s: State, e: Event)
    requires Shaped(s)
  {
    Enabled(s, e) && IsFlow(s, e)
  }

  /**
   * Clients share one condition at the head and one at the tail, and a signal wakes one of them only.
   * Still, while the head is empty and senders are waiting one of them can put its datum in at once,
   * and while the tail is full and collectors are waiting one of them can take it.
   */
  lemma NoClientIsForgotten(run: seq<State>, stages: nat, clients: nat, k: nat)
    requires IsRun(run, stages, clients) && k < |run|
    ensures Shaped(run[k])
    ensures !run[k].slots[0].ready && Senders(run[k].clients) > 0 ==> exists e :: Serves(run[k], e) && e.Place?
    ensures run[k].slots[Stages(run[k])].ready && Collectors(run[k].clients) > 0 ==>
              exists e :: Serves(run[k], e) && e.Collect?
  {
    RunInv(run, stages, clients, k);
    var s := run[k];
    NoClients(s.clients);
    if !s.slots[0].ready && Senders(s.clients) > 0 {
      var c :| 0 <= c < |s.clients| && AwakeSender(s.clients[c]);
      var wake := SomeDataTarget(s, 0);
      assert Serves(s, Place(c, wake));
    }
    if s.slots[Stages(s)].ready && Collectors(s.clients) > 0 {
      var c :| 0 <= c < |s.clients| && AwakeCollector(s.clients[c]);
      var wake := SomeRoomTarget(s, Stages(s));
      assert Serves(s, Collect(c, wake));
    }
  }

  /** While a collector waits, some stage can make progress or some client can be served. */
  lemma CollectorsAreNotStuck(run: seq<State>, stages: nat, clients: nat, k: nat)
    requires IsRun(run, stages, clients) && k < |run|
    ensures Shaped(run[k])
    ensures Collectors(run[k].clients) > 0 ==> exists e :: Productive(run[k], e) || Serves(run[k], e)
  {
    RunInv(run, stages, clients, k);
    var s := run[k];
    if Collectors(s.clients) > 0 {
      LedgerBalances(run, stages, clients, k);
      NoClientIsForgotten(run, stages, clients, k);
      if AllContents(s) != [] && !s.slots[Stages(s)].ready {
        StagesNeverJam(run, stages, clients, k);
      } else if AllContents(s) == [] && s.slots[0].ready {
        NothingFlattened(Results(s));
        assert Results(s)[0] == [];
        var wake := SomeRoomTarget(s, 0);
        assert Productive(s, Clear(0, wake));
      }
    }
  }

  /** How far slot i's datum is from the tail, in quarters of a stage. */
  function Distance(s: State, i: nat): nat
    requires Shaped(s) && i < Stages(s)
  {
    if !s.slots[i].ready then 0
    else match s.modes[i]
      case Idle(_) => 4 * (Stages(s) - i) + 1
      case Sending(_) => 4 * (Stages(s) - i)
      case Clearing => 1
  }

  function TotalDistance(s: State, n: nat): nat
    requires Shaped(s) && n <= Stages(s)
  {
    if n == 0 then 0 else TotalDistance(s, n - 1) + Distance(s, n - 1)
  }

  lemma {:induction false} DistanceFrame(s: State, r: State, n: nat)
    requires Shaped(s) && Shaped(r) && Stages(s) == Stages(r) && n <= Stages(s)
    requires forall j: nat | j < n :: Distance(r, j) == Distance(s, j)
    ensures TotalDistance(r, n) == TotalDistance(s, n)
  {
    if n > 0 {
      DistanceFrame(s, r, n - 1);
    }
  }

  /** The distances of a state that differs from another in two neighbouring slots at most. */
  lemma {:induction false} DistanceUpdate(s: State, r: State, i: nat, n: nat)
    requires Shaped(s) && Shaped(r) && Stages(s) == Stages(r) && i < n <= Stages(s)
    requires forall j: nat | j < Stages(s) && j != i && j != i + 1 :: Distance(r, j) == Distance(s, j)
    ensures TotalDistance(r, n) - TotalDistance(s, n) ==
            Distance(r, i) - Distance(s, i) + if i + 1 < n then Distance(r, i + 1) - Distance(s, i + 1) else 0
  {
    if n > i + 1 {
      DistanceUpdate(s, r, i, n - 1);
    } else {
      DistanceFrame(s, r, i);
    }
  }

  /** What a step of stage i, or a spurious wakeup of it, takes off the distances. */
  function Gain(s: State, r: State, i: nat): int
    requires Shaped(s) && Shaped(r) && Stages(s) == Stages(r) && i < Stages(s)
  {
    Distance(s, i) - Distance(r, i) + if i + 1 < Stages(s) then Distance(s, i + 1) - Distance(r, i + 1) else 0
  }

  /** A datum at the tail. */
  function AtTail(s: State): nat
    requires Shaped(s)
  {
    if s.slots[Stages(s)].ready then 1 else 0
  }

  /** Only the stage and its successor change their distance, and a datum put into the tail gains most. */
  lemma DistancesBy(s: State, r: State, e: Event)
    requires Shaped(s) && ModesInv(s) && StepBy(s, r, e) && (IsStageEvent(e) || e.Stir?)
    ensures Shaped(r) && Stages(s) == Stages(r) && e.i < Stages(s)
    ensures forall j: nat | j < Stages(s) && j != e.i && j != e.i + 1 :: Distance(r, j) == Distance(s, j)
    ensures Gain(s, r, e.i) >= AtTail(r) - AtTail(s) >= 0
    ensures Productive(s, e) ==> Gain(s, r, e.i) > AtTail(r) - AtTail(s)
  {
    var i := e.i;
    forall j: nat | j < Stages(s) && j != i && j != i + 1 ensures Distance(r, j) == Distance(s, j) {
      assert s.slots[j] == r.slots[j];
      assert s.modes[j] == r.modes[j] || (s.modes[j].Sending? && r.modes[j].Sending?);
    }
  }

  // ---------------------------------------------------------------------------------------------
  // Progress of all threads together.

  /**
   * Passes still needed until every datum begun has been taken from the tail: those of the data in the
   * pipe, and for each sender those of a datum that has yet to go all the way.
   */
  function PassesLeft(s: State): nat
    requires Shaped(s)
  {
    TotalDistance(s, Stages(s)) + AtTail(s) + (4 * Stages(s) + 2) * Senders(s.clients)
  }

  /** A pass that moves a datum: into the head, on by a stage, or out of the tail. */
  predicate Advances(s: State, e: Event)
    requires Shaped(s)
  {
    Productive(s, e) || Serves(s, e)
  }

  lemma StageDistances(s: State, r: State, e: Event)
    requires Shaped(s) && ModesInv(s) && StepBy(s, r, e) && (IsStageEvent(e) || e.Stir?)
    ensures Shaped(r) && Stages(r) == Stages(s)
    ensures var gain := TotalDistance(s, Stages(s)) - TotalDistance(r, Stages(s));
            gain >= AtTail(r) - AtTail(s) >= 0 && (Productive(s, e) ==> gain > AtTail(r) - AtTail(s))
  {
    DistancesBy(s, r, e);
    DistanceUpdate(s, r, e.i, Stages(s));
  }

  lemma StageKeepsSenders(s: State, r: State, e: Event)
    requires StepBy(s, r, e) && (IsStageEvent(e) || e.Stir?)
    ensures Senders(r.clients) == Senders(s.clients)
  {
    if e.Send? || e.Clear? {
      RousedTallies(s.clients, e.wake);
    }
  }

  /** Stage events never take data further from the tail, and productive ones bring them closer. */
  lemma StageUsesPass(s: State, r: State, e: Event)
    requires Shaped(s) && ModesInv(s) && StepBy(s, r, e) && (IsStageEvent(e) || e.Stir?)
    ensures Shaped(r) && Stages(r) == Stages(s) && PassesLeft(r) <= PassesLeft(s)
    ensures TotalDistance(r, Stages(s)) <= TotalDistance(s, Stages(s))
    ensures Productive(s, e) ==> PassesLeft(r) < PassesLeft(s)
    ensures Productive(s, e) ==> TotalDistance(r, Stages(s)) < TotalDistance(s, Stages(s))
  {
    StageDistances(s, r, e);
    StageKeepsSenders(s, r, e);
  }

  lemma PlaceDistances(s: State, c: nat, wake: nat)
    requires Shaped(s) && Enabled(s, Place(c, wake)) && !s.slots[0].ready
    ensures var r, n := Apply(s, Place(c, wake)), Stages(s);
            Stages(r) == n && TotalDistance(r, n) + AtTail(r) == TotalDistance(s, n) + AtTail(s) + 4 * n + 1
  {
    var r, n := Apply(s, Place(c, wake)), Stages(s);
    if n > 0 {
      forall j: nat | 0 < j < n ensures Distance(r, j) == Distance(s, j) {
        assert r.slots[j] == s.slots[j] && r.modes[j] == s.modes[j];
      }
      DistanceUpdate(s, r, 0, n);
    }
  }

  lemma PlaceUsesPass(s: State, c: nat, wake: nat)
    requires Shaped(s) && Enabled(s, Place(c, wake)) && !s.slots[0].ready
    ensures PassesLeft(Apply(s, Place(c, wake))) == PassesLeft(s) - 1
  {
    var r, n := Apply(s, Place(c, wake)), Stages(s);
    PlaceDistances(s, c, wake);
    ClientUpdate(s.clients, c, Away);
    RousedTallies(s.clients[c := Away], wake);
    assert (4 * n + 2) * Senders(s.clients) == (4 * n + 2) * Senders(r.clients) + (4 * n + 2);
  }

  lemma CollectUsesPass(s: State, c: nat, wake: nat)
    requires Shaped(s) && Enabled(s, Collect(c, wake)) && s.slots[Stages(s)].ready
    ensures PassesLeft(Apply(s, Collect(c, wake))) < PassesLeft(s)
  {
    var r := Apply(s, Collect(c, wake));
    ClientUpdate(s.clients, c, Away);
    RousedTallies(s.clients[c := Away], wake);
    DistanceFrame(s, r, Stages(s));
  }

  lemma ClientKeepsPasses(s: State, r: State, e: Event)
    requires Inv(s) && StepBy(s, r, e) && !IsFlow(s, e) && (e.Place? || e.Collect? || e.Claim? || e.StirClient?)
    ensures Shaped(r) && PassesLeft(r) == PassesLeft(s)
  {
    LedgerStep(s, r, e);
    DistanceFrame(s, r, Stages(s));
  }

  /** Nothing but a new beginning adds to the passes left, and every pass that moves a datum uses one. */
  lemma PassIsUsedUp(s: State, r: State, e: Event)
    requires Inv(s) && StepBy(s, r, e) && !e.Begin?
    ensures Shaped(r) && PassesLeft(r) <= PassesLeft(s)
    ensures Advances(s, e) ==> PassesLeft(r) < PassesLeft(s)
  {
    if IsStageEvent(e) || e.Stir? {
      StageUsesPass(s, r, e);
    } else if !IsFlow(s, e) {
      ClientKeepsPasses(s, r, e);
    } else if e.Place? {
      PlaceUsesPass(s, e.c, e.wake);
    } else {
      CollectUsesPass(s, e.c, e.wake);
    }
  }

  /** From state j to state k the events lead from each state to the next, and none begins a datum. */
  ghost predicate NothingBegins(run: seq<State>, events: seq<Event>, j: nat, k: nat)
    requires j <= k < |run| == |events|
  {
    forall i: nat | j <= i < k :: StepBy(run[i], run[i + 1], events[i]) && !events[i].Begin?
  }

  /** How many of the steps from state j to state k move a datum. */
  ghost function Advanced(run: seq<State>, events: seq<Event>, j: nat, k: nat): nat
    requires j <= k < |run| == |events| && NothingBegins(run, events, j, k)
    decreases k
  {
    if j == k then 0
    else
      var i: nat := k - 1;
      assert StepBy(run[i], run[i + 1], events[i]);
      Advanced(run, events, j, i) + if Advances(run[i], events[i]) then 1 else 0
  }

  lemma OneMoreStep(run: seq<State>, events: seq<Event>, j: nat, i: nat)
    requires j <= i < i + 1 < |run| == |events| && NothingBegins(run, events, j, i + 1)
    ensures NothingBegins(run, events, j, i)
    ensures StepBy(run[i], run[i + 1], events[i]) && !events[i].Begin?
    ensures Advanced(run, events, j, i + 1) == Advanced(run, events, j, i) + if Advances(run[i], events[i]) then 1 else 0
  {
    assert StepBy(run[i], run[i + 1], events[i]);
  }

  lemma {:induction false} PassesAreUsedUp(run: seq<State>, events: seq<Event>, stages: nat, clients: nat, j: nat, k: nat)
    requires IsRun(run, stages, clients) && j <= k < |run| == |events| && NothingBegins(run, events, j, k)
    ensures Shaped(run[j]) && Shaped(run[k])
    ensures PassesLeft(run[k]) + Advanced(run, events, j, k) <= PassesLeft(run[j])
    decreases k - j
  {
    if j < k {
      OneMoreStep(run, events, j, k - 1);
      PassesAreUsedUp(run, events, stages, clients, j, k - 1);
      RunInv(run, stages, clients, k - 1);
      PassIsUsedUp(run[k - 1], run[k], events[k - 1]);
    } else {
      RunInv(run, stages, clients, k);
    }
  }

  /**
   * While nothing new is begun, no more steps move a datum than there were passes left, and while a
   * collector waits such a step is possible: every claim is served after boundedly many.
   */
  lemma ClaimsAreServed(run: seq<State>, events: seq<Event>, stages: nat, clients: nat, j: nat, k: nat)
    requires IsRun(run, stages, clients) && j <= k < |run| == |events| && NothingBegins(run, events, j, k)
    ensures Shaped(run[j]) && Shaped(run[k])
    ensures Advanced(run, events, j, k) <= PassesLeft(run[j])
    ensures Collectors(run[k].clients) > 0 ==> exists e :: Advances(run[k], e)
    ensures Advanced(run, events, j, k) == PassesLeft(run[j]) ==> Collectors(run[k].clients) == 0
  {
    PassesAreUsedUp(run, events, stages, clients, j, k);
    SomeoneAdvances(run, stages, clients, k);
    NoPassesLeft(run, stages, clients, k);
  }

  lemma SomeoneAdvances(run: seq<State>, stages: nat, clients: nat, k: nat)
    requires IsRun(run, stages, clients) && k < |run|
    ensures Shaped(run[k])
    ensures Collectors(run[k].clients) > 0 ==> exists e :: Advances(run[k], e)
  {
    CollectorsAreNotStuck(run, stages, clients, k);
    if Collectors(run[k].clients) > 0 {
      var e :| Productive(run[k], e) || Serves(run[k], e);
      assert Advances(run[k], e);
    }
  }

  /** With no pass left nobody waits: the step that a waiting collector leaves possible would need one. */
  lemma NoPassesLeft(run: seq<State>, stages: nat, clients: nat, k: nat)
    requires IsRun(run, stages, clients) && k < |run|
    ensures Shaped(run[k])
    ensures PassesLeft(run[k]) == 0 ==> Collectors(run[k].clients) == 0
  {
    RunInv(run, stages, clients, k);
    SomeoneAdvances(run, stages, clients, k);
    var s := run[k];
    if Collectors(s.clients) > 0 {
      var e :| Advances(s, e);
      PassIsUsedUp(s, Apply(s, e), e);
    }
  }

  // ---------------------------------------------------------------------------------------------
  // What clients may rely on.

  /** Stages and `active` change as the pipe's own methods change them, and as nothing else does. */
  lemma EventsUseThePipe(s: State, e: Event)
    requires Shaped(s) && Enabled(s, e)
    ensures var r := Apply(s, e);
            match e
            case Begin(_, _) => r.slots == s.slots && r.active == s.active + 1
            case Claim(_) => r.slots == s.slots && r.active == if s.active <= 0 then s.active else s.active - 1
            case Place(c, _) =>
              r.active == s.active && r.slots == if s.slots[0].ready then s.slots else Fill(s.slots, 0, s.clients[c].value)
            case Collect(_, _) =>
              r.active == s.active && r.slots == if s.slots[Stages(s)].ready then Drain(s.slots, Stages(s)) else s.slots
            case Send(i, _) =>
              && r.active == s.active
              && r.slots == if s.slots[i + 1].ready then s.slots else Fill(s.slots, i + 1, s.slots[i].data + 1)
            case Clear(i, _) => r.active == s.active && r.slots == Drain(s.slots, i)
            case _ => r.active == s.active && r.slots == s.slots
  {
  }

  /** A claim is granted exactly while more data have been begun than claimed. */
  lemma ClaimIsGranted(run: seq<State>, stages: nat, clients: nat, k: nat, c: nat)
    requires IsRun(run, stages, clients) && k < |run| && c < clients
    ensures Shaped(run[k]) && c < |run[k].clients|
    ensures run[k].clients[c].Away? ==>
              && Enabled(run[k], Claim(c))
              && (Apply(run[k], Claim(c)).clients[c] == Collector(false) <==> run[k].started > run[k].claimed)
              && (run[k].started <= run[k].claimed ==> Apply(run[k], Claim(c)) == run[k])
  {
    RunInv(run, stages, clients, k);
  }

  /** The events that lead from each state of a run to the next. */
  ghost predicate IsHistory(run: seq<State>, events: seq<Event>, stages: nat, clients: nat) {
    && IsRun(run, stages, clients)
    && |events| == |run| - 1
    && forall i | 0 <= i < |events| :: StepBy(run[i], run[i + 1], events[i])
  }

  /** How often value v is begun among the events. */
  function Begun(events: seq<Event>, v: int): nat {
    if events == [] then 0
    else
      var last := events[|events| - 1];
      Begun(events[..|events| - 1], v) + if last.Begin? && last.value == v then 1 else 0
  }

  /** How many senders are about to put in the value v. */
  function Pending(clients: seq<Client>, v: int): nat {
    if clients == [] then 0 else PendingOf(clients[0], v) + Pending(clients[1..], v)
  }

  function PendingOf(c: Client, v: int): nat {
    if c.Sender? && c.value == v then 1 else 0
  }

  lemma {:induction false} PendingUpdate(clients: seq<Client>, i: nat, c: Client, v: int)
    requires i < |clients|
    ensures Pending(clients[i := c], v) + PendingOf(clients[i], v) == Pending(clients, v) + PendingOf(c, v)
  {
    if i == 0 {
      assert clients[i := c][1..] == clients[1..];
    } else {
      assert clients[i := c][1..] == clients[1..][i - 1 := c];
      PendingUpdate(clients[1..], i - 1, c, v);
    }
  }

  lemma RousedPending(clients: seq<Client>, wake: nat, v: int)
    ensures Pending(Roused(clients, wake), v) == Pending(clients, v)
  {
    if wake < |clients| && !clients[wake].Away? {
      PendingUpdate(clients, wake, clients[wake].(asleep := false), v);
    }
  }

  /** A step adds to the values sent and pending exactly what it begins. */
  lemma PendingStep(s: State, r: State, e: Event, v: int)
    requires StepBy(s, r, e)
    ensures Count(r.sent, v) + Pending(r.clients, v) ==
            Count(s.sent, v) + Pending(s.clients, v) + if e.Begin? && e.value == v then 1 else 0
  {
    if e.Begin? {
      PendingUpdate(s.clients, e.c, Sender(e.value, false), v);
    } else if e.Place? {
      PendingUpdate(s.clients, e.c, Away, v);
      PendingUpdate(s.clients, e.c, Sender(s.clients[e.c].value, true), v);
      RousedPending(s.clients[e.c := Away], e.wake, v);
      CountAppend(s.sent, s.clients[e.c].value, v);
    } else if e.Claim? {
      PendingUpdate(s.clients, e.c, Collector(false), v);
    } else if e.Collect? {
      PendingUpdate(s.clients, e.c, Away, v);
      PendingUpdate(s.clients, e.c, Collector(true), v);
      RousedPending(s.clients[e.c := Away], e.wake, v);
    } else if e.StirClient? {
      RousedPending(s.clients, e.c, v);
    } else if e.Send? || e.Clear? {
      RousedPending(s.clients, e.wake, v);
    }
  }

  lemma {:induction false} NothingPending(n: nat, v: int)
    ensures Pending(seq(n, _ => Away), v) == 0
  {
    if n > 0 {
      assert seq(n, _ => Away)[1..] == seq(n - 1, _ => Away);
      NothingPending(n - 1, v);
    }
  }

  /** Each value has been put into the head, or is held by a sender, as often as it was begun. */
  lemma {:induction false} SentIsWhatWasBegun(run: seq<State>, events: seq<Event>, stages: nat, clients: nat, k: nat, v: int)
    requires IsHistory(run, events, stages, clients) && k < |run|
    ensures Count(run[k].sent, v) + Pending(run[k].clients, v) == Begun(events[..k], v)
  {
    if k == 0 {
      NothingPending(clients, v);
    } else {
      SentIsWhatWasBegun(run, events, stages, clients, k - 1, v);
      assert StepBy(run[k - 1], run[k - 1 + 1], events[k - 1]);
      PendingStep(run[k - 1], run[k], events[k - 1], v);
      assert events[..k][..k - 1] == events[..k - 1];
    }
  }

  /** Any sleeper may wake without a signal. */
  lemma SleepersMayStir(s: State)
    requires Shaped(s)
    ensures forall i: nat | i < Stages(s) && !s.modes[i].Clearing? && s.modes[i].asleep ::
              Enabled(s, Stir(i)) && Apply(s, Stir(i)) == s.(modes := s.modes[i := s.modes[i].(asleep := false)])
    ensures forall c: nat | c < |s.clients| && !s.clients[c].Away? && s.clients[c].asleep ::
              Enabled(s, StirClient(c)) && Apply(s, StirClient(c)) == s.(clients := s.clients[c := s.clients[c].(asleep := false)])
  {
  }

  /** A thread that finds its condition not met goes to sleep, and nothing else happens. */
  lemma WaitersSleep(s: State, e: Event)
    requires Shaped(s) && Enabled(s, e)
    ensures match e
            case Place(c, _) => s.slots[0].ready ==> Apply(s, e) == s.(clients := s.clients[c := s.clients[c].(asleep := true)])
            case Collect(c, _) => !s.slots[Stages(s)].ready ==> Apply(s, e) == s.(clients := s.clients[c := Collector(true)])
            case Wake(i) => !s.slots[i].ready ==> Apply(s, e) == s.(modes := s.modes[i := Idle(true)])
            case Send(i, _) => s.slots[i + 1].ready ==> Apply(s, e) == s.(modes := s.modes[i := Sending(true)])
            case _ => true
  {
  }

  /** Away clients may begin any value or claim at any time, and whoever is awake may make its next pass. */
  lemma AnyoneMayAct(s: State) returns (sender: nat, collector: nat)
    requires Shaped(s)
    ensures forall c: nat, v | c < |s.clients| && s.clients[c].Away? :: Enabled(s, Begin(c, v))
    ensures forall c: nat | c < |s.clients| && s.clients[c].Away? :: Enabled(s, Claim(c))
    ensures forall c: nat | c < |s.clients| && AwakeSender(s.clients[c]) && MutexFree(s, 0) :: Enabled(s, Place(c, collector))
    ensures forall c: nat | c < |s.clients| && AwakeCollector(s.clients[c]) :: Enabled(s, Collect(c, sender))
    ensures forall i: nat | i < Stages(s) && s.modes[i] == Idle(false) :: Enabled(s, Wake(i))
    ensures forall i: nat | i < Stages(s) && s.modes[i] == Sending(false) && MutexFree(s, i + 1) :: Enabled(s, Send(i, collector))
    ensures forall i: nat | i < Stages(s) && s.modes[i].Clearing? :: Enabled(s, Clear(i, sender))
  {
    sender := SomeRoomTarget(s, 0);
    collector := SomeDataTarget(s, Stages(s));
  }

  function Latest(run: seq<State>): State
    requires run != []
  {
    run[|run| - 1]
  }

  lemma RunExtended(run: seq<State>, stages: nat, clients: nat, e: Event) returns (longer: seq<State>)
    requires IsRun(run, stages, clients) && Shaped(Latest(run)) && Enabled(Latest(run), e)
    ensures IsRun(longer, stages, clients) && Latest(longer) == Apply(Latest(run), e)
  {
    longer := run + [Apply(Latest(run), e)];
    assert StepBy(longer[|run| - 1], longer[|run|], e);
    forall i | 0 < i < |longer| ensures Next(longer[i - 1], longer[i]) {
      if i < |run| {
        assert Next(run[i - 1], run[i]);
      }
    }
  }

  /** One client, away, with nothing begun and not collected. */
  ghost predicate Quiet(s: State, stages: nat) {
    && |s.slots| == stages + 1
    && |s.modes| == stages
    && s.clients == [Away]
    && s.active == 0
    && (forall i | 0 <= i <= stages :: !s.slots[i].ready)
    && (forall i | 0 <= i < stages :: s.modes[i] == Idle(true))
  }

  /** One datum, in slot at; its stage has been signalled and all others sleep. */
  ghost predicate Travelling(s: State, stages: nat, at: nat, value: int) {
    && |s.slots| == stages + 1
    && |s.modes| == stages
    && at <= stages
    && s.clients == [Away]
    && s.active == 1
    && s.slots[at] == Slot(true, value + at)
    && (forall i | 0 <= i <= stages && i != at :: !s.slots[i].ready)
    && (forall i | 0 <= i < stages :: s.modes[i] == Idle(i != at))
  }

  lemma StartValue(run: seq<State>, stages: nat, v: int) returns (longer: seq<State>)
    requires IsRun(run, stages, 1) && Quiet(Latest(run), stages)
    ensures IsRun(longer, stages, 1) && Travelling(Latest(longer), stages, 0, v)
    ensures Latest(longer).sent == Latest(run).sent + [v] && Latest(longer).collected == Latest(run).collected
  {
    longer := RunExtended(run, stages, 1, Begin(0, v));
    longer := RunExtended(longer, stages, 1, Place(0, 1));
    assert Latest(longer).clients == [Away];
  }

  lemma MoveOn(run: seq<State>, stages: nat, at: nat, v: int) returns (longer: seq<State>)
    requires IsRun(run, stages, 1) && Travelling(Latest(run), stages, at, v) && at < stages
    ensures IsRun(longer, stages, 1) && Travelling(Latest(longer), stages, at + 1, v)
    ensures Latest(longer).sent == Latest(run).sent && Latest(longer).collected == Latest(run).collected
  {
    longer := RunExtended(run, stages, 1, Wake(at));
    longer := RunExtended(longer, stages, 1, Send(at, 1));
    longer := RunExtended(longer, stages, 1, Clear(at, 1));
  }

  lemma CollectValue(run: seq<State>, stages: nat, v: int) returns (longer: seq<State>)
    requires IsRun(run, stages, 1) && Travelling(Latest(run), stages, stages, v)
    ensures IsRun(longer, stages, 1) && Quiet(Latest(longer), stages)
    ensures Latest(longer).sent == Latest(run).sent && Latest(longer).collected == Latest(run).collected + [v + stages]
  {
    longer := RunExtended(run, stages, 1, Claim(0));
    longer := RunExtended(longer, stages, 1, Collect(0, 1));
    assert Latest(longer).clients == [Away];
  }

  /** Any values can be sent through, and every one comes back raised by the number of stages. */
  lemma EverythingCanBeCollected(values: seq<int>, stages: nat) returns (run: seq<State>)
    ensures IsRun(run, stages, 1)
    ensures Latest(run).sent == values && Latest(run).collected == Raised(values, stages)
  {
    run := [Start(stages, 1)];
    for k := 0 to |values|
      invariant IsRun(run, stages, 1) && Quiet(Latest(run), stages)
      invariant Latest(run).sent == values[..k] && Latest(run).collected == Raised(values[..k], stages)
    {
      run := StartValue(run, stages, values[k]);
      for at := 0 to stages
        invariant IsRun(run, stages, 1) && Travelling(Latest(run), stages, at, values[k])
        invariant Latest(run).sent == values[..k] + [values[k]] && Latest(run).collected == Raised(values[..k], stages)
      {
        run := MoveOn(run, stages, at, values[k]);
      }
      run := CollectValue(run, stages, values[k]);
      assert values[..k + 1] == values[..k] + [values[k]];
      assert Raised(values[..k + 1], stages) == Raised(values[..k], stages) + [values[k] + stages];
    }
    assert values[..|values|] == values;
  }
}
