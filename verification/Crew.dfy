/** The work crew of programs/crew.c: workers that take items from a queue they also feed. */
module WorkCrew {
  import opened Sequences

  const CREW_SIZE := 4

  /**
   * A file-system entry as a worker finds it: a directory lists its entries without "." and "..",
   * and `opens` says whether opendir succeeds on it; every other entry is a leaf.
   */
  datatype Entry = Leaf(path: string) | Dir(path: string, opens: bool, children: seq<Entry>)

  /** How often entry x occurs in the tree e. */
  function Times(x: Entry, e: Entry): nat
    decreases e, 1
  {
    (if e == x then 1 else 0) + if e.Dir? then TimesIn(x, e.children) else 0
  }

  function TimesIn(x: Entry, es: seq<Entry>): nat
    decreases es, 0
  {
    if es == [] then 0 else Times(x, es[0]) + TimesIn(x, es[1..])
  }

  lemma {:induction false} TimesInAppend(x: Entry, es: seq<Entry>, e: Entry)
    ensures TimesIn(x, es + [e]) == TimesIn(x, es) + Times(x, e)
  {
    if es == [] {
      assert [e][1..] == [];
    } else {
      assert (es + [e])[1..] == es[1..] + [e];
      TimesInAppend(x, es[1..], e);
    }
  }

  // ---------------------------------------------------------------------------------------------
  // The queue and the counter in the heap.

  /** What the mutex protects. */
  datatype Board = Board(queue: seq<Entry>, count: int)

  function Queued(b: Board, e: Entry): Board {
    Board(b.queue + [e], b.count + 1)
  }

  function Taken(b: Board): Board
    requires b.queue != []
  {
    b.(queue := b.queue[1..])
  }

  function Finished(b: Board): Board {
    b.(count := b.count - 1)
  }

  class Work {
    const entry: Entry
    var next: Work?

    constructor (entry: Entry)
      ensures this.entry == entry && next == null
    {
      this.entry := entry;
      next := null;
    }
  }

  class Crew {
    var workCount: int
    var first: Work?
    var last: Work?
    ghost var items: seq<Work>

    ghost predicate Valid()
      reads this, items
    {
      && (items == [] ==> first == null && last == null)
      && (items != [] ==> first == items[0] && last == items[|items| - 1] && items[|items| - 1].next == null)
      && (forall i | 0 <= i < |items| - 1 :: items[i].next == items[i + 1])
      && (forall i, j | 0 <= i < j < |items| :: items[i] != items[j])
    }

    ghost function Queue(): seq<Entry>
      reads this
    {
      seq(|items|, i requires 0 <= i < |items| reads this => items[i].entry)
    }

    ghost function AsBoard(): Board
      reads this
    {
      Board(Queue(), workCount)
    }

    constructor Create()
      ensures Valid() && AsBoard() == Board([], 0)
    {
      workCount := 0;
      first := null;
      last := null;
      items := [];
    }

    method Enqueue(work: Work)
      requires Valid() && work !in items && work.next == null
      modifies this, last
      ensures Valid() && items == old(items) + [work]
      ensures AsBoard() == Queued(old(AsBoard()), work.entry)
    {
      if first == null {
        first := work;
        last := work;
      } else {
        last.next := work;
        last := work;
      }
      items := items + [work];
      workCount := workCount + 1;
    }

    /** A worker's test for work and, when there is some, the removal of the first item. */
    method Take() returns (work: Work?)
      requires Valid()
      modifies this`first, this`last, this`items
      ensures Valid()
      ensures work == null <==> old(Queue()) == []
      ensures work == null ==> AsBoard() == old(AsBoard())
      ensures work != null ==> work == old(items)[0] && items == old(items)[1..]
      ensures work != null ==> work.entry == old(Queue())[0] && AsBoard() == Taken(old(AsBoard()))
    {
      work := first;
      if work == null {
        return;
      }
      first := work.next;
      if first == null {
        last := null;
      }
      items := items[1..];
    }

    /** The end of an item; `idle` asks for the broadcast and for the worker to leave its loop. */
    method Finish() returns (idle: bool)
      modifies this`workCount
      ensures AsBoard() == Finished(old(AsBoard()))
      ensures idle <==> AsBoard().count <= 0
    {
      workCount := workCount - 1;
      idle := workCount <= 0;
    }
  }

  // ---------------------------------------------------------------------------------------------
  // Workers and any number of callers of crew_start, under an arbitrary scheduler.

  datatype Worker =
    | Arriving(asleep: bool)
    | Seeking(asleep: bool)
    | Processing(item: Entry, done: nat)
    | Exited

  datatype Client =
    | Away
    | AwaitFree(tree: Entry, asleep: bool)
    | AwaitDone(asleep: bool)

  /**
   * `lost` counts failed opens. The rest is history: the trees asked for, the entries processed, and
   * the directories that could not be opened, each in order.
   */
  datatype State = State(
    count: int, queue: seq<Entry>, workers: seq<Worker>, clients: seq<Client>,
    requested: seq<Entry>, processed: seq<Entry>, abandoned: seq<Entry>,
    lost: nat, drains: nat)

  function Start(workers: nat, clients: nat): State {
    State(0, [], seq(workers, _ => Arriving(false)), seq(clients, _ => Away),
          [], [], [], 0, 0)
  }

  predicate Asleep(w: Worker) {
    (w.Arriving? || w.Seeking?) && w.asleep
  }

  predicate Awake(w: Worker) {
    !w.Exited? && !Asleep(w)
  }

  function Woken(w: Worker): Worker {
    match w
    case Arriving(_) => Arriving(false)
    case Seeking(_) => Seeking(false)
    case _ => w
  }

  /** Signalling `go` wakes one sleeping worker if there is any. */
  predicate CanSignal(workers: seq<Worker>, wake: nat) {
    (wake < |workers| && Asleep(workers[wake])) || forall i | 0 <= i < |workers| :: !Asleep(workers[i])
  }

  function Signal(workers: seq<Worker>, wake: nat): (r: seq<Worker>)
    ensures |r| == |workers|
  {
    if wake < |workers| then workers[wake := Woken(workers[wake])] else workers
  }

  function BroadcastDone(clients: seq<Client>): (r: seq<Client>)
    ensures |r| == |clients|
  {
    seq(|clients|, i requires 0 <= i < |clients| =>
      match clients[i]
      case Away => Away
      case AwaitFree(tree, _) => AwaitFree(tree, false)
      case AwaitDone(_) => AwaitDone(false))
  }

  datatype Event =
    | Call(c: nat, tree: Entry, wake: nat)
    | Recheck(c: nat, wake: nat)
    | Arrive(w: nat)
    | Take(w: nat)
    | Push(w: nat, wake: nat)
    | FailOpen(w: nat)
    | Finish(w: nat)
    | StirWorker(w: nat)
    | StirClient(c: nat)

  /** Item w is a directory that opened and has an entry left to queue. */
  predicate HasMore(w: Worker) {
    w.Processing? && w.item.Dir? && w.item.opens && w.done < |w.item.children|
  }

  predicate IsUnopened(w: Worker) {
    w.Processing? && w.item.Dir? && !w.item.opens
  }

  predicate Enabled(s: State, e: Event) {
    match e
    case Call(c, _, wake) => c < |s.clients| && s.clients[c].Away? && CanSignal(s.workers, wake)
    case Recheck(c, wake) =>
      c < |s.clients| && !s.clients[c].Away? && !s.clients[c].asleep && CanSignal(s.workers, wake)
    case Arrive(w) => w < |s.workers| && s.workers[w] == Arriving(false)
    case Take(w) => w < |s.workers| && s.workers[w] == Seeking(false)
    case Push(w, wake) => w < |s.workers| && HasMore(s.workers[w]) && CanSignal(s.workers, wake)
    case FailOpen(w) => w < |s.workers| && IsUnopened(s.workers[w])
    case Finish(w) =>
      w < |s.workers| && s.workers[w].Processing? && !HasMore(s.workers[w]) && !IsUnopened(s.workers[w])
    case StirWorker(w) => w < |s.workers| && Asleep(s.workers[w])
    case StirClient(c) => c < |s.clients| && !s.clients[c].Away? && s.clients[c].asleep
  }

  /** The caller holds the mutex: it waits while the crew is busy, otherwise queues and waits. */
  function Submit(s: State, c: nat, tree: Entry, wake: nat): State
    requires c < |s.clients|
  {
    if s.count > 0 then
      s.(clients := s.clients[c := AwaitFree(tree, true)])
    else
      s.(queue := s.queue + [tree], count := s.count + 1, workers := Signal(s.workers, wake),
         clients := s.clients[c := if s.count + 1 > 0 then AwaitDone(true) else Away],
         requested := s.requested + [tree])
  }

  function Apply(s: State, e: Event): State
    requires Enabled(s, e)
  {
    match e
    case Call(c, tree, wake) => Submit(s, c, tree, wake)
    case Recheck(c, wake) =>
      if s.clients[c].AwaitFree? then Submit(s, c, s.clients[c].tree, wake)
      else s.(clients := s.clients[c := if s.count > 0 then AwaitDone(true) else Away])
    case Arrive(w) =>
      s.(workers := s.workers[w := if s.count == 0 then Arriving(true) else Seeking(false)])
    case Take(w) =>
      if s.queue == [] then s.(workers := s.workers[w := Seeking(true)])
      else s.(queue := s.queue[1..], workers := s.workers[w := Processing(s.queue[0], 0)])
    case Push(w, wake) =>
      var Processing(item, done) := s.workers[w];
      s.(queue := s.queue + [item.children[done]], count := s.count + 1,
         workers := Signal(s.workers, wake)[w := Processing(item, done + 1)])
    case FailOpen(w) =>
      s.(workers := s.workers[w := Seeking(false)], lost := s.lost + 1,
         abandoned := s.abandoned + [s.workers[w].item])
    case Finish(w) =>
      var idle := s.count - 1 <= 0;
      s.(count := s.count - 1, processed := s.processed + [s.workers[w].item],
         workers := s.workers[w := if idle then Exited else Seeking(false)],
         clients := if idle then BroadcastDone(s.clients) else s.clients,
         drains := if idle then s.drains + 1 else s.drains)
    case StirWorker(w) => s.(workers := s.workers[w := Woken(s.workers[w])])
    case StirClient(c) => s.(clients := s.clients[c := s.clients[c].(asleep := false)])
  }

  function BoardOf(s: State): Board {
    Board(s.queue, s.count)
  }

  /** Every event updates queue and counter as the crew's methods do, or not at all. */
  lemma EventsUseTheCrew(s: State, e: Event)
    requires Enabled(s, e)
    ensures var r := BoardOf(Apply(s, e));
            match e
            case Call(_, tree, _) => r == if s.count > 0 then BoardOf(s) else Queued(BoardOf(s), tree)
            case Recheck(c, _) =>
              r == if s.clients[c].AwaitFree? && s.count <= 0 then Queued(BoardOf(s), s.clients[c].tree) else BoardOf(s)
            case Take(w) => if s.queue == [] then r == BoardOf(s) else r == Taken(BoardOf(s))
            case Push(w, _) => r == Queued(BoardOf(s), s.workers[w].item.children[s.workers[w].done])
            case Finish(w) => r == Finished(BoardOf(s)) && (Apply(s, e).workers[w].Exited? <==> r.count <= 0)
            case _ => r == BoardOf(s)
  {
  }

  ghost predicate StepBy(s: State, r: State, e: Event) {
    Enabled(s, e) && r == Apply(s, e)
  }

  ghost predicate Next(s: State, r: State) {
    exists e :: StepBy(s, r, e)
  }

  ghost predicate IsRun(run: seq<State>, workers: nat, clients: nat) {
    |run| > 0 && run[0] == Start(workers, clients) && forall i | 0 < i < |run| :: Next(run[i - 1], run[i])
  }

  function Unqueued(w: Worker): seq<Entry>
    requires w.Processing?
  {
    if w.item.Dir? && w.done <= |w.item.children| then w.item.children[w.done..] else []
  }

  /** How often x is among what a worker answers for: its item and the entries it has yet to queue. */
  function Held(x: Entry, w: Worker): nat {
    if !w.Processing? then 0
    else (if w.item == x then 1 else 0) + TimesIn(x, Unqueued(w))
  }

  function HeldByAll(x: Entry, ws: seq<Worker>): nat {
    if ws == [] then 0 else Held(x, ws[0]) + HeldByAll(x, ws[1..])
  }

  function Busy(ws: seq<Worker>): nat {
    if ws == [] then 0 else (if ws[0].Processing? then 1 else 0) + Busy(ws[1..])
  }

  function Gone(ws: seq<Worker>): nat {
    if ws == [] then 0 else (if ws[0].Exited? then 1 else 0) + Gone(ws[1..])
  }

  lemma {:induction false} HeldUpdate(x: Entry, ws: seq<Worker>, i: nat, w: Worker)
    requires i < |ws|
    ensures HeldByAll(x, ws[i := w]) + Held(x, ws[i]) == HeldByAll(x, ws) + Held(x, w)
  {
    if i == 0 {
      assert ws[i := w][1..] == ws[1..];
    } else {
      assert ws[i := w][1..] == ws[1..][i - 1 := w];
      HeldUpdate(x, ws[1..], i - 1, w);
    }
  }

  lemma {:induction false} WorkerUpdate(ws: seq<Worker>, i: nat, w: Worker)
    requires i < |ws|
    ensures Busy(ws[i := w]) + (if ws[i].Processing? then 1 else 0) == Busy(ws) + if w.Processing? then 1 else 0
    ensures Gone(ws[i := w]) + (if ws[i].Exited? then 1 else 0) == Gone(ws) + if w.Exited? then 1 else 0
  {
    if i == 0 {
      assert ws[i := w][1..] == ws[1..];
    } else {
      assert ws[i := w][1..] == ws[1..][i - 1 := w];
      WorkerUpdate(ws[1..], i - 1, w);
    }
  }

  lemma SignalTallies(ws: seq<Worker>, wake: nat)
    ensures Busy(Signal(ws, wake)) == Busy(ws) && Gone(Signal(ws, wake)) == Gone(ws)
  {
    if wake < |ws| {
      WorkerUpdate(ws, wake, Woken(ws[wake]));
    }
  }

  lemma SignalHeld(x: Entry, ws: seq<Worker>, wake: nat)
    ensures HeldByAll(x, Signal(ws, wake)) == HeldByAll(x, ws)
  {
    if wake < |ws| {
      HeldUpdate(x, ws, wake, Woken(ws[wake]));
    }
  }

  lemma {:induction false} NobodyBusy(ws: seq<Worker>)
    ensures Busy(ws) == 0 <==> forall i | 0 <= i < |ws| :: !ws[i].Processing?
    ensures Gone(ws) <= |ws|
    ensures Gone(ws) == |ws| <==> forall i | 0 <= i < |ws| :: ws[i].Exited?
  {
    if ws != [] {
      NobodyBusy(ws[1..]);
      assert forall i | 0 < i < |ws| :: ws[i] == ws[1..][i - 1];
      assert forall i | 0 <= i < |ws[1..]| :: ws[1..][i] == ws[i + 1];
    }
  }

  lemma {:induction false} NothingHeld(x: Entry, ws: seq<Worker>)
    requires Busy(ws) == 0
    ensures HeldByAll(x, ws) == 0
  {
    if ws != [] {
      NothingHeld(x, ws[1..]);
    }
  }

  ghost predicate CountInv(s: State) {
    && s.count == |s.queue| + Busy(s.workers) + s.lost
    && s.drains == Gone(s.workers)
  }

  /** Every occurrence of x in a requested tree is in exactly one place. */
  ghost predicate NodesInv(s: State, x: Entry) {
    TimesIn(x, s.requested) ==
    Count(s.processed, x) + TimesIn(x, s.queue) + HeldByAll(x, s.workers) + TimesIn(x, s.abandoned)
  }

  ghost predicate WakeInv(s: State) {
    && (s.queue == [] || (exists i :: 0 <= i < |s.workers| && Awake(s.workers[i])) || Gone(s.workers) == |s.workers|)
    && (forall c | 0 <= c < |s.clients| :: !s.clients[c].Away? && s.clients[c].asleep ==> s.count > 0)
  }

  ghost predicate ItemsInv(s: State) {
    forall i | 0 <= i < |s.workers| && s.workers[i].Processing? ::
      s.workers[i].done <= (if s.workers[i].item.Dir? then |s.workers[i].item.children| else 0) &&
      (IsUnopened(s.workers[i]) ==> s.workers[i].done == 0)
  }

  ghost predicate Inv(s: State) {
    CountInv(s) && WakeInv(s) && ItemsInv(s)
  }

  /**
   * Creates a crew. More workers than CREW_SIZE are refused; any smaller request still gets
   * CREW_SIZE of them.
   */
  method CreateCrew(crewSize: int) returns (crew: Crew?, workers: seq<Worker>)
    ensures crew == null <==> crewSize > CREW_SIZE
    ensures crew != null ==> fresh(crew) && crew.Valid() && crew.AsBoard() == Board([], 0)
    ensures workers == if crew == null then [] else Start(CREW_SIZE, 0).workers
  {
    workers := [];
    if crewSize > CREW_SIZE {
      return null, workers;
    }
    crew := new Crew.Create();
    for index := 0 to CREW_SIZE
      invariant workers == seq(index, _ => Arriving(false))
    {
      workers := workers + [Arriving(false)];
    }
  }

  // What each event keeps.

  /** After a signal somebody is awake, unless every worker has left. */
  lemma SignalWakes(ws: seq<Worker>, wake: nat)
    requires CanSignal(ws, wake)
    ensures (exists i :: 0 <= i < |ws| && Awake(Signal(ws, wake)[i])) || Gone(Signal(ws, wake)) == |ws|
  {
    var r := Signal(ws, wake);
    NobodyBusy(r);
    if Gone(r) != |ws| {
      var i :| 0 <= i < |ws| && !r[i].Exited?;
      if wake < |ws| && Asleep(ws[wake]) {
        assert Awake(r[wake]);
      } else {
        assert !Asleep(ws[i]) && Awake(r[i]);
      }
    }
  }

  lemma SubmitInv(s: State, c: nat, tree: Entry, wake: nat)
    requires Inv(s) && c < |s.clients| && CanSignal(s.workers, wake)
    ensures Inv(Submit(s, c, tree, wake))
  {
    if s.count <= 0 {
      SignalTallies(s.workers, wake);
      SignalWakes(s.workers, wake);
    }
  }

  lemma SubmitNodes(s: State, c: nat, tree: Entry, wake: nat, x: Entry)
    requires NodesInv(s, x) && c < |s.clients|
    ensures NodesInv(Submit(s, c, tree, wake), x)
  {
    SignalHeld(x, s.workers, wake);
    TimesInAppend(x, s.queue, tree);
    TimesInAppend(x, s.requested, tree);
  }

  lemma TakeInv(s: State, w: nat)
    requires Inv(s) && Enabled(s, Take(w))
    ensures Inv(Apply(s, Take(w)))
  {
    var r := Apply(s, Take(w));
    WorkerUpdate(s.workers, w, r.workers[w]);
    if s.queue != [] {
      assert Awake(r.workers[w]);
    }
  }

  lemma TakeNodes(s: State, w: nat, x: Entry)
    requires NodesInv(s, x) && Enabled(s, Take(w))
    ensures NodesInv(Apply(s, Take(w)), x)
  {
    var r := Apply(s, Take(w));
    HeldUpdate(x, s.workers, w, r.workers[w]);
    if s.queue != [] {
      var item := s.queue[0];
      assert item.Dir? ==> item.children[0..] == item.children;
      assert Held(x, r.workers[w]) == Times(x, item);
    }
  }

  lemma PushInv(s: State, w: nat, wake: nat)
    requires Inv(s) && Enabled(s, Push(w, wake))
    ensures Inv(Apply(s, Push(w, wake)))
  {
    var r := Apply(s, Push(w, wake));
    SignalTallies(s.workers, wake);
    WorkerUpdate(Signal(s.workers, wake), w, r.workers[w]);
    assert Awake(r.workers[w]);
  }

  lemma PushNodes(s: State, w: nat, wake: nat, x: Entry)
    requires NodesInv(s, x) && Enabled(s, Push(w, wake))
    ensures NodesInv(Apply(s, Push(w, wake)), x)
  {
    var r := Apply(s, Push(w, wake));
    var Processing(item, done) := s.workers[w];
    SignalHeld(x, s.workers, wake);
    HeldUpdate(x, Signal(s.workers, wake), w, r.workers[w]);
    TimesInAppend(x, s.queue, item.children[done]);
    NextChild(x, item, done);
  }

  lemma NextChild(x: Entry, item: Entry, done: nat)
    requires item.Dir? && done < |item.children|
    ensures Held(x, Processing(item, done)) == Held(x, Processing(item, done + 1)) + Times(x, item.children[done])
  {
    assert item.children[done..][1..] == item.children[done + 1..];
  }

  lemma FailOpenInv(s: State, w: nat)
    requires Inv(s) && Enabled(s, FailOpen(w))
    ensures Inv(Apply(s, FailOpen(w)))
  {
    var r := Apply(s, FailOpen(w));
    WorkerUpdate(s.workers, w, r.workers[w]);
    assert Awake(r.workers[w]);
  }

  lemma FailOpenNodes(s: State, w: nat, x: Entry)
    requires ItemsInv(s) && NodesInv(s, x) && Enabled(s, FailOpen(w))
    ensures NodesInv(Apply(s, FailOpen(w)), x)
  {
    var r := Apply(s, FailOpen(w));
    var item := s.workers[w].item;
    HeldUpdate(x, s.workers, w, r.workers[w]);
    TimesInAppend(x, s.abandoned, item);
    assert item.children[0..] == item.children;
  }

  lemma FinishInv(s: State, w: nat)
    requires Inv(s) && Enabled(s, Finish(w))
    ensures Inv(Apply(s, Finish(w)))
  {
    var r := Apply(s, Finish(w));
    WorkerUpdate(s.workers, w, r.workers[w]);
    if r.queue != [] {
      assert Awake(r.workers[w]);
    }
  }

  lemma FinishNodes(s: State, w: nat, x: Entry)
    requires ItemsInv(s) && NodesInv(s, x) && Enabled(s, Finish(w))
    ensures NodesInv(Apply(s, Finish(w)), x)
  {
    var r := Apply(s, Finish(w));
    var item := s.workers[w].item;
    HeldUpdate(x, s.workers, w, r.workers[w]);
    CountAppend(s.processed, item, x);
    assert item.Dir? ==> item.children[|item.children|..] == [];
  }

  lemma RestInv(s: State, e: Event)
    requires Inv(s) && Enabled(s, e) && (e.Arrive? || e.StirWorker?)
    ensures Inv(Apply(s, e))
  {
    var r := Apply(s, e);
    WorkerUpdate(s.workers, e.w, r.workers[e.w]);
    if r.queue != [] {
      assert Awake(r.workers[e.w]);
    }
  }

  lemma StepInv(s: State, r: State, e: Event)
    requires Inv(s) && StepBy(s, r, e)
    ensures Inv(r) && |r.workers| == |s.workers| && |r.clients| == |s.clients|
  {
    if e.Call? {
      SubmitInv(s, e.c, e.tree, e.wake);
    } else if e.Recheck? {
      if s.clients[e.c].AwaitFree? {
        SubmitInv(s, e.c, s.clients[e.c].tree, e.wake);
      }
    } else if e.Take? {
      TakeInv(s, e.w);
    } else if e.Push? {
      PushInv(s, e.w, e.wake);
    } else if e.FailOpen? {
      FailOpenInv(s, e.w);
    } else if e.Finish? {
      FinishInv(s, e.w);
    } else if !e.StirClient? {
      RestInv(s, e);
    }
  }

  lemma StepNodes(s: State, r: State, e: Event, x: Entry)
    requires ItemsInv(s) && NodesInv(s, x) && StepBy(s, r, e)
    ensures NodesInv(r, x)
  {
    if e.Call? {
      SubmitNodes(s, e.c, e.tree, e.wake, x);
    } else if e.Recheck? {
      if s.clients[e.c].AwaitFree? {
        SubmitNodes(s, e.c, s.clients[e.c].tree, e.wake, x);
      }
    } else if e.Take? {
      TakeNodes(s, e.w, x);
    } else if e.Push? {
      PushNodes(s, e.w, e.wake, x);
    } else if e.FailOpen? {
      FailOpenNodes(s, e.w, x);
    } else if e.Finish? {
      FinishNodes(s, e.w, x);
    } else if !e.StirClient? {
      HeldUpdate(x, s.workers, e.w, r.workers[e.w]);
    }
  }

  lemma {:induction false} StartTallies(n: nat, x: Entry)
    ensures var ws := seq(n, _ => Arriving(false));
            HeldByAll(x, ws) == 0 && Busy(ws) == 0 && Gone(ws) == 0
  {
    if n > 0 {
      assert seq(n, _ => Arriving(false))[1..] == seq(n - 1, _ => Arriving(false));
      StartTallies(n - 1, x);
    }
  }

  lemma StartInv(workers: nat, clients: nat, x: Entry)
    ensures Inv(Start(workers, clients)) && NodesInv(Start(workers, clients), x)
  {
    StartTallies(workers, x);
  }

  lemma {:induction false} RunInv(run: seq<State>, workers: nat, clients: nat, k: nat, x: Entry)
    requires IsRun(run, workers, clients) && k < |run|
    ensures Inv(run[k]) && NodesInv(run[k], x)
    ensures |run[k].workers| == workers && |run[k].clients| == clients
  {
    if k == 0 {
      StartInv(workers, clients, x);
    } else {
      RunInv(run, workers, clients, k - 1, x);
      assert Next(run[k - 1], run[k]);
      var e :| StepBy(run[k - 1], run[k], e);
      StepInv(run[k - 1], run[k], e);
      StepNodes(run[k - 1], run[k], e, x);
    }
  }

  // ---------------------------------------------------------------------------------------------
  // Main results.

  /**
   * `work_count` is the items queued, plus those being processed, plus one for every failed open;
   * and every requested entry is processed, queued, held by a worker, or below a failed open.
   */
  lemma CountIsOutstandingWork(run: seq<State>, workers: nat, clients: nat, k: nat, x: Entry)
    requires IsRun(run, workers, clients) && k < |run|
    ensures run[k].count == |run[k].queue| + Busy(run[k].workers) + run[k].lost
    ensures TimesIn(x, run[k].requested) ==
            Count(run[k].processed, x) + TimesIn(x, run[k].queue) + HeldByAll(x, run[k].workers) +
            TimesIn(x, run[k].abandoned)
  {
    RunInv(run, workers, clients, k, x);
  }

  /** The step from s to r lets client c return from crew_start. */
  ghost predicate Returns(s: State, r: State, c: nat) {
    c < |s.clients| == |r.clients| && s.clients[c].AwaitDone? && r.clients[c].Away?
  }

  lemma ReturnsOnlyAtZero(s: State, r: State, e: Event, c: nat)
    requires StepBy(s, r, e) && Returns(s, r, c)
    ensures s.count <= 0 && r == s.(clients := r.clients)
  {
  }

  lemma LossOnlyGrows(s: State, r: State, e: Event)
    requires StepBy(s, r, e)
    ensures s.lost <= r.lost
  {
  }

  lemma {:induction false} LossStays(run: seq<State>, workers: nat, clients: nat, j: nat, k: nat)
    requires IsRun(run, workers, clients) && j <= k < |run|
    ensures run[j].lost <= run[k].lost
  {
    if j < k {
      LossStays(run, workers, clients, j, k - 1);
      assert Next(run[k - 1], run[k]);
      var e :| StepBy(run[k - 1], run[k], e);
      LossOnlyGrows(run[k - 1], run[k], e);
    }
  }

  predicate Unopenable(x: Entry) {
    x.Dir? && !x.opens
  }

  /** Directories that do not open are never processed, and nothing else is abandoned. */
  ghost predicate HistoryInv(s: State) {
    && (forall x | x in s.processed :: !Unopenable(x))
    && (forall x | x in s.abandoned :: Unopenable(x))
    && s.lost == |s.abandoned|
  }

  lemma HistoryStep(s: State, r: State, e: Event)
    requires HistoryInv(s) && StepBy(s, r, e)
    ensures HistoryInv(r)
  {
  }

  lemma {:induction false} RunHistory(run: seq<State>, workers: nat, clients: nat, k: nat)
    requires IsRun(run, workers, clients) && k < |run|
    ensures HistoryInv(run[k])
  {
    if k > 0 {
      RunHistory(run, workers, clients, k - 1);
      assert Next(run[k - 1], run[k]);
      var e :| StepBy(run[k - 1], run[k], e);
      HistoryStep(run[k - 1], run[k], e);
    }
  }

  /**
   * A call returns only when every directory in every requested tree opens, and then every entry x of
   * every requested tree has been processed as often as it occurs: each node exactly once.
   */
  lemma ReturnsWhenAllProcessed(run: seq<State>, workers: nat, clients: nat, k: nat, c: nat, x: Entry)
    requires IsRun(run, workers, clients) && k + 1 < |run| && Returns(run[k], run[k + 1], c)
    ensures Count(run[k + 1].processed, x) == TimesIn(x, run[k + 1].requested)
    ensures Unopenable(x) ==> TimesIn(x, run[k + 1].requested) == 0
    ensures run[k + 1].lost == 0 && run[k + 1].queue == []
  {
    RunInv(run, workers, clients, k, x);
    assert Next(run[k + 1 - 1], run[k + 1]);
    var e :| StepBy(run[k], run[k + 1], e);
    ReturnsOnlyAtZero(run[k], run[k + 1], e, c);
    NothingHeld(x, run[k].workers);
    RunHistory(run, workers, clients, k);
    CountNone(run[k].processed, x);
  }

  /** Once one open has failed, no call returns any more. */
  lemma OneFailedOpenHangsTheCaller(run: seq<State>, workers: nat, clients: nat, j: nat, k: nat, c: nat)
    requires IsRun(run, workers, clients) && j <= k && k + 1 < |run| && run[j].lost > 0
    ensures run[k].count > 0 && !Returns(run[k], run[k + 1], c)
  {
    RunInv(run, workers, clients, k, Leaf(""));
    LossStays(run, workers, clients, j, k);
    assert Next(run[k + 1 - 1], run[k + 1]);
    var e :| StepBy(run[k], run[k + 1], e);
    if Returns(run[k], run[k + 1], c) {
      ReturnsOnlyAtZero(run[k], run[k + 1], e, c);
    }
  }

  /** A failed open shows in the trees: some requested one holds a directory that does not open. */
  lemma LossShowsInTheTrees(run: seq<State>, workers: nat, clients: nat, k: nat)
    requires IsRun(run, workers, clients) && k < |run|
    ensures run[k].lost > 0 ==> exists x :: Unopenable(x) && TimesIn(x, run[k].requested) > 0
  {
    RunHistory(run, workers, clients, k);
    var s := run[k];
    if s.lost > 0 {
      var x := s.abandoned[0];
      RunInv(run, workers, clients, k, x);
      assert x in s.abandoned && Times(x, x) >= 1;
    }
  }

  /** Requests whose directories all open lose no work, so `work_count` is exactly what is left to do. */
  lemma OpenTreesLoseNothing(run: seq<State>, workers: nat, clients: nat, k: nat)
    requires IsRun(run, workers, clients) && k < |run|
    requires forall x | Unopenable(x) :: TimesIn(x, run[k].requested) == 0
    ensures run[k].lost == 0 && run[k].count == |run[k].queue| + Busy(run[k].workers)
  {
    LossShowsInTheTrees(run, workers, clients, k);
    RunInv(run, workers, clients, k, Leaf(""));
  }

  lemma RequestsOnlyGrow(s: State, r: State, e: Event, x: Entry)
    requires StepBy(s, r, e)
    ensures TimesIn(x, s.requested) <= TimesIn(x, r.requested)
  {
    if r.requested != s.requested {
      TimesInAppend(x, s.requested, r.requested[|r.requested| - 1]);
    }
  }

  lemma {:induction false} RequestsStay(run: seq<State>, workers: nat, clients: nat, j: nat, k: nat, x: Entry)
    requires IsRun(run, workers, clients) && j <= k < |run|
    ensures TimesIn(x, run[j].requested) <= TimesIn(x, run[k].requested)
  {
    if j < k {
      RequestsStay(run, workers, clients, j, k - 1, x);
      assert Next(run[k - 1], run[k]);
      var e :| StepBy(run[k - 1], run[k], e);
      RequestsOnlyGrow(run[k - 1], run[k], e, x);
    }
  }

  /**
   * What a caller can tell from the trees alone: from the moment a tree with a directory that does not
   * open has been requested, at any depth, no call returns.
   */
  lemma UnopenableTreeHangsTheCaller(run: seq<State>, workers: nat, clients: nat, j: nat, k: nat, c: nat, x: Entry)
    requires IsRun(run, workers, clients) && j <= k && k + 1 < |run|
    requires Unopenable(x) && TimesIn(x, run[j].requested) > 0
    ensures !Returns(run[k], run[k + 1], c)
  {
    RequestsStay(run, workers, clients, j, k + 1, x);
    if Returns(run[k], run[k + 1], c) {
      ReturnsWhenAllProcessed(run, workers, clients, k, c, x);
    }
  }

  /** A worker event other than going to sleep. */
  predicate Productive(s: State, e: Event) {
    && Enabled(s, e)
    && match e
       case Arrive(_) => s.count != 0
       case Take(_) => s.queue != []
       case Push(_, _) => true
       case FailOpen(_) => true
       case Finish(_) => true
       case _ => false
  }

  lemma SomeSignalTarget(ws: seq<Worker>) returns (wake: nat)
    ensures CanSignal(ws, wake)
  {
    if i: nat :| i < |ws| && Asleep(ws[i]) {
      wake := i;
    } else {
      wake := 0;
    }
  }

  lemma BusyWorkerCanAct(s: State, w: nat)
    requires w < |s.workers| && s.workers[w].Processing?
    ensures exists e :: Productive(s, e)
  {
    if HasMore(s.workers[w]) {
      var wake := SomeSignalTarget(s.workers);
      assert Productive(s, Push(w, wake));
    } else if IsUnopened(s.workers[w]) {
      assert Productive(s, FailOpen(w));
    } else {
      assert Productive(s, Finish(w));
    }
  }

  /** While a worker is left and work is outstanding that no failed open accounts for, one can act. */
  lemma CrewNeverSleepsOnWork(run: seq<State>, workers: nat, clients: nat, k: nat)
    requires IsRun(run, workers, clients) && k < |run|
    requires run[k].count > run[k].lost && run[k].drains < workers
    ensures exists e :: Productive(run[k], e)
  {
    RunInv(run, workers, clients, k, Leaf(""));
    var s := run[k];
    NobodyBusy(s.workers);
    if w: nat :| w < |s.workers| && s.workers[w].Processing? {
      BusyWorkerCanAct(s, w);
    } else {
      var w: nat :| w < |s.workers| && Awake(s.workers[w]);
      if s.workers[w].Arriving? {
        assert Productive(s, Arrive(w));
      } else {
        assert Productive(s, Take(w));
      }
    }
  }

  /** A caller sleeps only while work is outstanding, so no end of work goes unannounced. */
  lemma CallersSleepOnlyWhileBusy(run: seq<State>, workers: nat, clients: nat, k: nat, c: nat)
    requires IsRun(run, workers, clients) && k < |run| && c < clients
    ensures c < |run[k].clients|
    ensures !run[k].clients[c].Away? && run[k].clients[c].asleep ==> run[k].count > 0
  {
    RunInv(run, workers, clients, k, Leaf(""));
  }

  ghost predicate Deserted(s: State) {
    s.count > 0 && forall i | 0 <= i < |s.workers| :: s.workers[i].Exited?
  }

  lemma DesertedForGood(s: State, r: State, e: Event)
    requires Deserted(s) && StepBy(s, r, e)
    ensures Deserted(r)
  {
  }

  lemma {:induction false} StaysDeserted(run: seq<State>, workers: nat, clients: nat, j: nat, k: nat)
    requires IsRun(run, workers, clients) && j <= k < |run| && Deserted(run[j])
    ensures Deserted(run[k])
  {
    if j < k {
      StaysDeserted(run, workers, clients, j, k - 1);
      assert Next(run[k - 1], run[k]);
      var e :| StepBy(run[k - 1], run[k], e);
      DesertedForGood(run[k - 1], run[k], e);
    }
  }

  /**
   * Each time the work runs out one worker leaves for good, and it runs out once for each tree queued,
   * but for the one outstanding. After as many drains as there were workers nobody is left: once more
   * trees have been queued than there were workers, no call returns any more.
   */
  lemma EachDrainCostsAWorker(run: seq<State>, workers: nat, clients: nat, j: nat, k: nat, c: nat)
    requires IsRun(run, workers, clients) && j <= k && k + 1 < |run|
    ensures run[j].drains == Gone(run[j].workers) <= workers
    ensures run[j].drains + (if run[j].count > 0 then 1 else 0) == |run[j].requested|
    ensures run[j].drains == workers && run[j].count > 0 ==> !Returns(run[k], run[k + 1], c)
    ensures |run[j].requested| > workers ==> !Returns(run[k], run[k + 1], c)
  {
    RunInv(run, workers, clients, j, Leaf(""));
    RunRequests(run, workers, clients, j);
    NobodyBusy(run[j].workers);
    if run[j].drains == workers && run[j].count > 0 {
      StaysDeserted(run, workers, clients, j, k);
      assert Next(run[k + 1 - 1], run[k + 1]);
      var e :| StepBy(run[k], run[k + 1], e);
      if Returns(run[k], run[k + 1], c) {
        ReturnsOnlyAtZero(run[k], run[k + 1], e, c);
      }
    }
  }

  // ---------------------------------------------------------------------------------------------
  // How many requests a crew can serve.

  /** Every request so far has been drained, except for the one that is outstanding, if any. */
  ghost predicate RequestTally(s: State) {
    s.drains + (if s.count > 0 then 1 else 0) == |s.requested|
  }

  lemma {:induction false} BusyWorker(ws: seq<Worker>, w: nat)
    requires w < |ws| && ws[w].Processing?
    ensures Busy(ws) > 0
  {
    if w > 0 {
      BusyWorker(ws[1..], w - 1);
    }
  }

  lemma RequestTallyStep(s: State, r: State, e: Event)
    requires CountInv(s) && RequestTally(s) && StepBy(s, r, e)
    ensures RequestTally(r)
  {
    if e.Push? || e.Finish? {
      BusyWorker(s.workers, e.w);
    }
  }

  lemma {:induction false} RunRequests(run: seq<State>, workers: nat, clients: nat, k: nat)
    requires IsRun(run, workers, clients) && k < |run|
    ensures RequestTally(run[k])
  {
    if k > 0 {
      RunRequests(run, workers, clients, k - 1);
      RunInv(run, workers, clients, k - 1, Leaf(""));
      assert Next(run[k - 1], run[k]);
      var e :| StepBy(run[k - 1], run[k], e);
      RequestTallyStep(run[k - 1], run[k], e);
    }
  }

  /**
   * With a request outstanding and only trees whose directories all open, some worker can act if and
   * only if no more trees have been queued than there were workers.
   */
  lemma ServedUpToTheNumberOfWorkers(run: seq<State>, workers: nat, clients: nat, k: nat)
    requires IsRun(run, workers, clients) && k < |run| && run[k].count > 0
    requires forall x | Unopenable(x) :: TimesIn(x, run[k].requested) == 0
    ensures (exists e :: Productive(run[k], e)) <==> |run[k].requested| <= workers
  {
    RunInv(run, workers, clients, k, Leaf(""));
    RunRequests(run, workers, clients, k);
    NobodyBusy(run[k].workers);
    if |run[k].requested| <= workers {
      OpenTreesLoseNothing(run, workers, clients, k);
      CrewNeverSleepsOnWork(run, workers, clients, k);
    }
  }

  function Latest(run: seq<State>): State
    requires run != []
  {
    run[|run| - 1]
  }

  lemma RunExtended(run: seq<State>, workers: nat, clients: nat, e: Event) returns (longer: seq<State>)
    requires IsRun(run, workers, clients) && Enabled(Latest(run), e)
    ensures IsRun(longer, workers, clients) && Latest(longer) == Apply(Latest(run), e)
  {
    longer := run + [Apply(Latest(run), e)];
    assert StepBy(longer[|run| - 1], longer[|run|], e);
    forall i | 0 < i < |longer| ensures Next(longer[i - 1], longer[i]) {
      if i < |run| {
        assert Next(run[i - 1], run[i]);
      }
    }
  }

  /** Workers before `gone` have left, and the others have not yet started; the one caller is away. */
  ghost predicate Drained(s: State, workers: nat, gone: nat) {
    && s.count == 0
    && s.queue == []
    && |s.workers| == workers
    && (forall i | 0 <= i < workers :: s.workers[i] == if i < gone then Exited else Arriving(false))
    && s.clients == [Away]
    && |s.requested| == gone
    && (forall tree | tree in s.requested :: tree.Leaf?)
  }

  lemma {:induction false} NoDirectories(x: Entry, es: seq<Entry>)
    requires x.Dir? && forall e | e in es :: e.Leaf?
    ensures TimesIn(x, es) == 0
  {
    if es != [] {
      assert es[0] in es;
      NoDirectories(x, es[1..]);
    }
  }

  /** One file asked for, and processed by the first worker that is left. */
  lemma OneMoreDrain(run: seq<State>, workers: nat, gone: nat) returns (longer: seq<State>)
    requires IsRun(run, workers, 1) && Drained(Latest(run), workers, gone) && gone < workers
    ensures IsRun(longer, workers, 1) && Drained(Latest(longer), workers, gone + 1)
  {
    var tree := Leaf("");
    longer := RunExtended(run, workers, 1, Call(0, tree, workers));
    longer := RunExtended(longer, workers, 1, Arrive(gone));
    longer := RunExtended(longer, workers, 1, Take(gone));
    longer := RunExtended(longer, workers, 1, Finish(gone));
    longer := RunExtended(longer, workers, 1, Recheck(0, workers));
  }

  /** The case arises for any number of workers: as many files served as there are workers, and one more queued. */
  lemma WorkersRunOut(workers: nat) returns (run: seq<State>)
    ensures IsRun(run, workers, 1) && Latest(run).count == 1 && |Latest(run).requested| == workers + 1
    ensures forall x | Unopenable(x) :: TimesIn(x, Latest(run).requested) == 0
  {
    run := [Start(workers, 1)];
    for gone := 0 to workers
      invariant IsRun(run, workers, 1) && Drained(Latest(run), workers, gone)
    {
      run := OneMoreDrain(run, workers, gone);
    }
    run := RunExtended(run, workers, 1, Call(0, Leaf(""), workers));
    forall x | Unopenable(x) ensures TimesIn(x, Latest(run).requested) == 0 {
      NoDirectories(x, Latest(run).requested);
    }
  }

  /** So does the other: with any worker at all, a directory that does not open is queued, and its open fails. */
  lemma AnOpenMayFail(workers: nat) returns (run: seq<State>)
    requires workers > 0
    ensures IsRun(run, workers, 1) && Latest(run).lost == 1 && Latest(run).count == 1
    ensures exists x :: Unopenable(x) && TimesIn(x, Latest(run).requested) > 0
  {
    var tree := Dir("", false, []);
    run := [Start(workers, 1)];
    run := RunExtended(run, workers, 1, Call(0, tree, workers));
    run := RunExtended(run, workers, 1, Arrive(0));
    run := RunExtended(run, workers, 1, Take(0));
    run := RunExtended(run, workers, 1, FailOpen(0));
    assert Latest(run).requested == [tree] && Times(tree, tree) > 0;
    assert Unopenable(tree) && TimesIn(tree, [tree]) > 0;
  }

  // ---------------------------------------------------------------------------------------------
  // What a caller may rely on.

  /** The events that lead from each state of a run to the next. */
  ghost predicate IsHistory(run: seq<State>, events: seq<Event>, workers: nat, clients: nat) {
    && IsRun(run, workers, clients)
    && |events| == |run| - 1
    && forall i | 0 <= i < |events| :: StepBy(run[i], run[i + 1], events[i])
  }

  /**
   * Client c has called with the tree when x had been processed `before` times: it waits for the crew,
   * or for its tree to be done, or the tree has been processed in full on top of that.
   */
  ghost predicate InCall(s: State, c: nat, tree: Entry, x: Entry, before: nat)
    requires c < |s.clients|
  {
    || Count(s.processed, x) >= before + Times(x, tree)
    || (s.clients[c].AwaitFree? && s.clients[c].tree == tree && Count(s.processed, x) >= before)
    || (s.clients[c].AwaitDone? && TimesIn(x, s.requested) >= before + Times(x, tree))
  }

  lemma ProcessedOnlyGrows(s: State, r: State, e: Event, x: Entry)
    requires StepBy(s, r, e)
    ensures Count(r.processed, x) >= Count(s.processed, x)
  {
    if e.Finish? {
      CountAppend(s.processed, s.workers[e.w].item, x);
    }
  }

  lemma SubmitInCall(s: State, c: nat, tree: Entry, wake: nat, x: Entry, before: nat)
    requires Inv(s) && NodesInv(s, x) && c < |s.clients| && Count(s.processed, x) >= before
    ensures InCall(Submit(s, c, tree, wake), c, tree, x, before)
  {
    TimesInAppend(x, s.requested, tree);
  }

  lemma AllDoneAtZero(s: State, x: Entry)
    requires Inv(s) && NodesInv(s, x) && HistoryInv(s) && s.count <= 0
    ensures Count(s.processed, x) == TimesIn(x, s.requested)
  {
    NothingHeld(x, s.workers);
  }

  lemma InCallStep(s: State, r: State, e: Event, c: nat, tree: Entry, x: Entry, before: nat)
    requires Inv(s) && NodesInv(s, x) && HistoryInv(s) && StepBy(s, r, e)
    requires c < |s.clients| == |r.clients| && InCall(s, c, tree, x, before)
    ensures InCall(r, c, tree, x, before)
  {
    ProcessedOnlyGrows(s, r, e, x);
    RequestsOnlyGrow(s, r, e, x);
    if e.Recheck? && e.c == c {
      if s.clients[c].AwaitFree? {
        SubmitInCall(s, c, s.clients[c].tree, e.wake, x, if s.clients[c].tree == tree then Count(s.processed, x) else 0);
      } else if s.count <= 0 {
        AllDoneAtZero(s, x);
      }
    }
  }

  lemma {:induction false} RunInCall(run: seq<State>, events: seq<Event>, workers: nat, clients: nat,
                                     i: nat, k: nat, c: nat, tree: Entry, wake: nat, x: Entry)
    requires IsHistory(run, events, workers, clients) && i < |events| && events[i] == Call(c, tree, wake) && i < k < |run|
    ensures c < |run[k].clients| && InCall(run[k], c, tree, x, Count(run[i].processed, x))
    decreases k
  {
    RunInv(run, workers, clients, k - 1, x);
    RunInv(run, workers, clients, k, x);
    assert StepBy(run[k - 1], run[k - 1 + 1], events[k - 1]);
    if k == i + 1 {
      SubmitInCall(run[i], c, tree, wake, x, Count(run[i].processed, x));
    } else {
      RunInCall(run, events, workers, clients, i, k - 1, c, tree, wake, x);
      RunHistory(run, workers, clients, k - 1);
      InCallStep(run[k - 1], run[k], events[k - 1], c, tree, x, Count(run[i].processed, x));
    }
  }

  /**
   * Whoever calls with a tree comes back only when every entry of that tree has been processed, on top
   * of all that had been processed before the call.
   */
  lemma CallReturnsItsTree(run: seq<State>, events: seq<Event>, workers: nat, clients: nat,
                           i: nat, k: nat, c: nat, tree: Entry, wake: nat, x: Entry)
    requires IsHistory(run, events, workers, clients) && i < |events| && events[i] == Call(c, tree, wake) && i < k < |run|
    ensures c < |run[k].clients|
    ensures run[k].clients[c].Away? ==> Count(run[k].processed, x) >= Count(run[i].processed, x) + Times(x, tree)
  {
    RunInCall(run, events, workers, clients, i, k, c, tree, wake, x);
  }

  /**
   * When no work is outstanding a waiting caller is awake, and its next look lets it return, or queues
   * the tree it came with; a caller that is away may call with any tree.
   */
  lemma CallersCanGoOn(run: seq<State>, workers: nat, clients: nat, k: nat, c: nat, tree: Entry) returns (e: Event)
    requires IsRun(run, workers, clients) && k < |run| && c < clients && run[k].count <= 0
    ensures c < |run[k].clients| && Enabled(run[k], e)
    ensures var s, r := run[k], Apply(run[k], e);
            match s.clients[c]
            case Away => r.requested == s.requested + [tree] && r.queue == s.queue + [tree] && r.clients[c].AwaitDone?
            case AwaitFree(own, _) => r.requested == s.requested + [own] && r.queue == s.queue + [own] && r.clients[c].AwaitDone?
            case AwaitDone(_) => r == s.(clients := s.clients[c := Away])
  {
    RunInv(run, workers, clients, k, Leaf(""));
    var wake := SomeSignalTarget(run[k].workers);
    e := if run[k].clients[c].Away? then Call(c, tree, wake) else Recheck(c, wake);
  }

  /** A caller that finds the crew busy waits with its tree, and whoever finds nothing to do sleeps. */
  lemma WaitersSleep(s: State, e: Event)
    requires Enabled(s, e)
    ensures match e
            case Call(c, tree, _) => s.count > 0 ==> Apply(s, e) == s.(clients := s.clients[c := AwaitFree(tree, true)])
            case Recheck(c, _) => s.count > 0 ==> Apply(s, e) == s.(clients := s.clients[c := s.clients[c].(asleep := true)])
            case Arrive(w) => s.count == 0 ==> Apply(s, e) == s.(workers := s.workers[w := Arriving(true)])
            case Take(w) => s.queue == [] ==> Apply(s, e) == s.(workers := s.workers[w := Seeking(true)])
            case _ => true
  {
  }

  /** Callers that are away may call with any tree at any time, and whoever is awake may go on. */
  lemma AnyoneMayAct(s: State) returns (wake: nat)
    ensures forall c: nat, tree | c < |s.clients| && s.clients[c].Away? :: Enabled(s, Call(c, tree, wake))
    ensures forall c: nat | c < |s.clients| && !s.clients[c].Away? && !s.clients[c].asleep :: Enabled(s, Recheck(c, wake))
    ensures forall w: nat | w < |s.workers| && s.workers[w] == Arriving(false) :: Enabled(s, Arrive(w))
    ensures forall w: nat | w < |s.workers| && s.workers[w] == Seeking(false) :: Enabled(s, Take(w))
  {
    wake := SomeSignalTarget(s.workers);
  }

  /** Any sleeper may wake without a signal. */
  lemma SleepersMayStir(s: State)
    ensures forall w: nat | w < |s.workers| && Asleep(s.workers[w]) ::
              Enabled(s, StirWorker(w)) && !Asleep(Apply(s, StirWorker(w)).workers[w])
    ensures forall c: nat | c < |s.clients| && !s.clients[c].Away? && s.clients[c].asleep ::
              Enabled(s, StirClient(c)) && Apply(s, StirClient(c)).clients[c] == s.clients[c].(asleep := false)
  {
  }

  // ---------------------------------------------------------------------------------------------
  // Termination: productive events use up a bounded supply of work.

  /** The events still needed to get through an entry once it is queued. */
  function Weight(e: Entry): nat
    decreases e, 1
  {
    2 + if e.Dir? then WeightIn(e.children) + |e.children| else 0
  }

  function WeightIn(es: seq<Entry>): nat
    decreases es, 0
  {
    if es == [] then 0 else Weight(es[0]) + WeightIn(es[1..])
  }

  function Ahead(w: Worker): nat {
    match w
    case Arriving(_) => 1
    case Processing(_, _) => 1 + WeightIn(Unqueued(w)) + |Unqueued(w)|
    case _ => 0
  }

  function AheadOfAll(ws: seq<Worker>): nat {
    if ws == [] then 0 else Ahead(ws[0]) + AheadOfAll(ws[1..])
  }

  function Load(s: State): nat {
    WeightIn(s.queue) + AheadOfAll(s.workers)
  }

  lemma {:induction false} WeightAppend(es: seq<Entry>, e: Entry)
    ensures WeightIn(es + [e]) == WeightIn(es) + Weight(e)
  {
    if es == [] {
      assert [e][1..] == [];
    } else {
      assert (es + [e])[1..] == es[1..] + [e];
      WeightAppend(es[1..], e);
    }
  }

  lemma {:induction false} AheadUpdate(ws: seq<Worker>, i: nat, w: Worker)
    requires i < |ws|
    ensures AheadOfAll(ws[i := w]) + Ahead(ws[i]) == AheadOfAll(ws) + Ahead(w)
  {
    if i == 0 {
      assert ws[i := w][1..] == ws[1..];
    } else {
      assert ws[i := w][1..] == ws[1..][i - 1 := w];
      AheadUpdate(ws[1..], i - 1, w);
    }
  }

  lemma TakeLoad(s: State, w: nat)
    requires Enabled(s, Take(w))
    ensures Load(Apply(s, Take(w))) == Load(s) - if s.queue == [] then 0 else 1
  {
    var r := Apply(s, Take(w));
    AheadUpdate(s.workers, w, r.workers[w]);
    if s.queue != [] {
      var item := s.queue[0];
      assert item.Dir? ==> item.children[0..] == item.children;
      assert Ahead(r.workers[w]) == Weight(item) - 1;
    }
  }

  lemma PushLoad(s: State, w: nat, wake: nat)
    requires Enabled(s, Push(w, wake))
    ensures Load(Apply(s, Push(w, wake))) == Load(s) - 1
  {
    var r := Apply(s, Push(w, wake));
    var Processing(item, done) := s.workers[w];
    if wake < |s.workers| {
      AheadUpdate(s.workers, wake, Woken(s.workers[wake]));
    }
    AheadUpdate(Signal(s.workers, wake), w, r.workers[w]);
    WeightAppend(s.queue, item.children[done]);
    assert item.children[done..][1..] == item.children[done + 1..];
  }

  /**
   * Apart from the calls that queue a tree, every event keeps the load or lowers it, and a
   * productive one lowers it: between calls only so many of them can happen.
   */
  lemma WorkIsUsedUp(s: State, r: State, e: Event)
    requires StepBy(s, r, e) && !e.Call? && r.requested == s.requested
    ensures Load(r) <= Load(s)
    ensures Productive(s, e) ==> Load(r) < Load(s)
  {
    if e.Take? {
      TakeLoad(s, e.w);
    } else if e.Push? {
      PushLoad(s, e.w, e.wake);
    } else if e.Arrive? || e.FailOpen? || e.Finish? || e.StirWorker? {
      AheadUpdate(s.workers, e.w, r.workers[e.w]);
    } else if e.Recheck? && s.clients[e.c].AwaitFree? {
      assert s.count > 0 || |r.requested| == |s.requested| + 1;
    }
  }
}
