/** The barrier of programs/barrier.c: a down-counter and a one-bit cycle flag. */
module Barriers {
  import opened Sequences

  const BARRIER_VALID := 0xdbcafe
  const SERIAL := -1

  /** The fields that change while threads use an initialised barrier. */
  datatype Cell = Cell(threshold: int, counter: int, cycle: int)

  datatype Arrival = Last | MustWait(cycle: int)

  function Initial(count: int): Cell {
    Cell(count, count, 0)
  }

  /** The critical section run on entry, up to the first condition wait. */
  function Arrive(c: Cell): (Cell, Arrival) {
    if c.counter - 1 == 0
    then (Cell(c.threshold, c.threshold, if c.cycle == 0 then 1 else 0), Last)
    else (c.(counter := c.counter - 1), MustWait(c.cycle))
  }

  datatype Status = Ok | Invalid | Busy

  class Barrier {
    var valid: int
    var threshold: int
    var counter: int
    var cycle: int

    ghost function AsCell(): Cell
      reads this
    {
      Cell(threshold, counter, cycle)
    }

    constructor Init(count: int)
      ensures valid == BARRIER_VALID && AsCell() == Initial(count)
    {
      threshold := count;
      counter := count;
      cycle := 0;
      valid := BARRIER_VALID;
    }

    method Destroy() returns (status: Status)
      modifies this`valid
      ensures status == Invalid <==> old(valid) != BARRIER_VALID
      ensures status == Busy <==> old(valid) == BARRIER_VALID && counter != threshold
      ensures valid == if status == Ok then 0 else old(valid)
    {
      if valid != BARRIER_VALID {
        return Invalid;
      }
      if counter != threshold {
        return Busy;
      }
      valid := 0;
      status := Ok;
    }

    /** The part of a wait that runs under the mutex before the thread first sleeps. */
    method Enter() returns (status: Status, arrival: Arrival)
      modifies this`counter, this`cycle
      ensures status == if valid == BARRIER_VALID then Ok else Invalid
      ensures status == Ok ==> (AsCell(), arrival) == Arrive(old(AsCell()))
      ensures status != Ok ==> AsCell() == old(AsCell())
    {
      arrival := Last;
      if valid != BARRIER_VALID {
        return Invalid, arrival;
      }
      status := Ok;
      var saved := cycle;
      counter := counter - 1;
      if counter == 0 {
        cycle := if cycle == 0 then 1 else 0;
        counter := threshold;
      } else {
        arrival := MustWait(saved);
      }
    }

    /** The loop test made each time a sleeper holds the mutex again. */
    method Recheck(saved: int) returns (leave: bool)
      ensures leave <==> saved != cycle
    {
      leave := saved != cycle;
    }
  }

  // ---------------------------------------------------------------------------------------------
  // Any number of threads using one barrier, under an arbitrary scheduler.

  datatype Place = Outside | Inside(saved: int, asleep: bool)

  /**
   * `entered[t]` counts the waits thread t has begun, `results[t]` lists what its finished waits
   * returned, and `wakers[k]` is the thread that completed cycle k.
   */
  datatype State = State(
    cell: Cell, place: seq<Place>, entered: seq<int>, results: seq<seq<int>>, wakers: seq<nat>)

  ghost predicate Shaped(s: State) {
    |s.place| == |s.entered| == |s.results|
  }

  function Start(threads: nat, threshold: int): State {
    State(Initial(threshold), seq(threads, _ => Outside), seq(threads, _ => 0), seq(threads, _ => []), [])
  }

  function Broadcast(place: seq<Place>): (r: seq<Place>)
    ensures |r| == |place|
  {
    seq(|place|, i requires 0 <= i < |place| =>
      if place[i].Inside? then place[i].(asleep := false) else place[i])
  }

  predicate CanEnter(s: State, t: nat) {
    t < |s.place| && s.place[t].Outside?
  }

  function Enter(s: State, t: nat): (r: State)
    requires Shaped(s) && CanEnter(s, t)
    ensures Shaped(r)
  {
    var (cell, arrival) := Arrive(s.cell);
    var entered := s.entered[t := s.entered[t] + 1];
    match arrival
    case Last =>
      State(cell, Broadcast(s.place), entered, s.results[t := s.results[t] + [SERIAL]], s.wakers + [t])
    case MustWait(cycle) =>
      s.(cell := cell, entered := entered, place := s.place[t := Inside(cycle, true)])
  }

  predicate CanRecheck(s: State, t: nat) {
    t < |s.place| && s.place[t].Inside? && !s.place[t].asleep
  }

  function Recheck(s: State, t: nat): (r: State)
    requires Shaped(s) && CanRecheck(s, t)
    ensures Shaped(r)
  {
    if s.place[t].saved == s.cell.cycle
    then s.(place := s.place[t := s.place[t].(asleep := true)])
    else s.(place := s.place[t := Outside], results := s.results[t := s.results[t] + [0]])
  }

  predicate CanStir(s: State, t: nat) {
    t < |s.place| && s.place[t].Inside? && s.place[t].asleep
  }

  /** A spurious wakeup. */
  function Stir(s: State, t: nat): (r: State)
    requires Shaped(s) && CanStir(s, t)
    ensures Shaped(r)
  {
    s.(place := s.place[t := s.place[t].(asleep := false)])
  }

  ghost predicate StepBy(s: State, r: State, t: nat) {
    Shaped(s) &&
    ((CanEnter(s, t) && r == Enter(s, t)) ||
     (CanRecheck(s, t) && r == Recheck(s, t)) ||
     (CanStir(s, t) && r == Stir(s, t)))
  }

  /**
   * A wait begins for whoever was outside and ends for whoever is outside after its step, and for nobody
   * else; any sleeper may wake without a broadcast.
   */
  lemma StepsAreCounted(s: State, r: State, t: nat)
    requires StepBy(s, r, t)
    ensures |r.place| == |s.place| == |r.results| == |s.results| == |s.entered| && t < |s.place|
    ensures r.entered == if s.place[t].Outside? then s.entered[t := s.entered[t] + 1] else s.entered
    ensures forall u | 0 <= u < |s.results| ::
              |r.results[u]| == |s.results[u]| + if u == t && r.place[t].Outside? then 1 else 0
    ensures forall u: nat | u < |s.place| && s.place[u].Inside? && s.place[u].asleep ::
              CanStir(s, u) && Stir(s, u) == s.(place := s.place[u := s.place[u].(asleep := false)])
    ensures forall u: nat | u < |s.place| && s.place[u].Inside? && !s.place[u].asleep && s.place[u].saved == s.cell.cycle ::
              CanRecheck(s, u) && Recheck(s, u) == s.(place := s.place[u := s.place[u].(asleep := true)])
  {
  }

  ghost predicate Next(s: State, r: State) {
    exists t: nat :: StepBy(s, r, t)
  }

  ghost predicate IsRun(run: seq<State>, threads: nat, threshold: int) {
    |run| > 0 && run[0] == Start(threads, threshold) &&
    forall i | 0 < i < |run| :: Next(run[i - 1], run[i])
  }

  function Cycles(s: State): nat {
    |s.wakers|
  }

  ghost predicate ThreadInv(s: State, t: nat)
    requires Shaped(s) && t < |s.place|
  {
    && Cycles(s) <= s.entered[t] <= Cycles(s) + 1
    && (s.place[t].Outside? ==> s.entered[t] == |s.results[t]| == Cycles(s))
    && (s.place[t].Inside? ==>
          && s.entered[t] == |s.results[t]| + 1
          && s.place[t].saved == |s.results[t]| % 2
          && (s.place[t].asleep ==> s.entered[t] == Cycles(s) + 1))
    && (forall k | 0 <= k < |s.results[t]| :: s.results[t][k] == if s.wakers[k] == t then SERIAL else 0)
  }

  ghost predicate Inv(s: State) {
    && Shaped(s)
    && s.cell.threshold == |s.place|
    && s.cell.cycle == Cycles(s) % 2
    && 1 <= s.cell.counter == |s.place| - Count(s.entered, Cycles(s) + 1)
    && (forall t: nat | t < |s.place| :: ThreadInv(s, t))
    && (forall k | 0 <= k < Cycles(s) :: s.wakers[k] < |s.place| && k < |s.results[s.wakers[k]]|)
  }

  lemma StartInv(n: nat)
    requires n >= 1
    ensures Inv(Start(n, n))
  {
    CountConstant(n, 0, 1);
  }

  lemma EnterLastInv(s: State, t: nat)
    requires Inv(s) && CanEnter(s, t) && s.cell.counter == 1
    ensures Inv(Enter(s, t))
  {
    var r := Enter(s, t);
    var g := Cycles(s);
    assert ThreadInv(s, t);
    CountAllButOne(s.entered, g + 1, t);
    assert Cycles(r) == g + 1;
    forall u: nat | u < |r.place|
      ensures ThreadInv(r, u) && r.entered[u] == g + 1
    {
      assert ThreadInv(s, u);
      if u != t {
        assert s.entered[u] == g + 1;
      }
    }
    CountNone(r.entered, g + 2);
    forall k | 0 <= k < Cycles(r)
      ensures r.wakers[k] < |r.place| && k < |r.results[r.wakers[k]]|
    {
      if k < g {
        assert s.wakers[k] == r.wakers[k];
      }
    }
  }

  lemma EnterInv(s: State, t: nat)
    requires Inv(s) && CanEnter(s, t)
    ensures Inv(Enter(s, t))
  {
    if s.cell.counter == 1 {
      EnterLastInv(s, t);
    } else {
      var r := Enter(s, t);
      assert ThreadInv(s, t);
      CountUpdate(s.entered, t, s.entered[t] + 1, Cycles(s) + 1);
      forall u: nat | u < |r.place| ensures ThreadInv(r, u) {
        assert ThreadInv(s, u);
      }
    }
  }

  lemma RecheckInv(s: State, t: nat)
    requires Inv(s) && CanRecheck(s, t)
    ensures Inv(Recheck(s, t))
  {
    var r := Recheck(s, t);
    assert ThreadInv(s, t);
    forall u: nat | u < |r.place| ensures ThreadInv(r, u) {
      assert ThreadInv(s, u);
    }
  }

  lemma StirInv(s: State, t: nat)
    requires Inv(s) && CanStir(s, t)
    ensures Inv(Stir(s, t))
  {
    var r := Stir(s, t);
    forall u: nat | u < |r.place| ensures ThreadInv(r, u) {
      assert ThreadInv(s, u);
    }
  }

  lemma {:induction false} RunInv(run: seq<State>, n: nat, i: nat)
    requires n >= 1 && IsRun(run, n, n) && i < |run|
    ensures Inv(run[i]) && |run[i].place| == n
  {
    if i == 0 {
      StartInv(n);
    } else {
      RunInv(run, n, i - 1);
      assert Next(run[i - 1], run[i]);
      var t: nat :| StepBy(run[i - 1], run[i], t);
      if CanEnter(run[i - 1], t) {
        EnterInv(run[i - 1], t);
      } else if CanRecheck(run[i - 1], t) {
        RecheckInv(run[i - 1], t);
      } else {
        StirInv(run[i - 1], t);
      }
    }
  }

  /** A thread that has returned from k waits shows that every thread has begun k waits. */
  lemma NobodyLeavesEarly(run: seq<State>, n: nat, i: nat, leaver: nat, other: nat)
    requires n >= 1 && IsRun(run, n, n) && i < |run| && leaver < n && other < n
    ensures Shaped(run[i]) && |run[i].place| == n
    ensures |run[i].results[leaver]| <= run[i].entered[other]
  {
    RunInv(run, n, i);
    assert ThreadInv(run[i], leaver) && ThreadInv(run[i], other);
  }

  /** Each completed cycle returned -1 to exactly one thread, and 0 to all others that have left. */
  lemma OneSerialThreadPerCycle(run: seq<State>, n: nat, i: nat, k: nat)
    requires n >= 1 && IsRun(run, n, n) && i < |run| && k < Cycles(run[i])
    ensures Shaped(run[i]) && |run[i].place| == n
    ensures exists t: nat :: t < n && k < |run[i].results[t]| && run[i].results[t][k] == SERIAL &&
              forall u: nat | u < n && u != t && k < |run[i].results[u]| :: run[i].results[u][k] == 0
  {
    RunInv(run, n, i);
    var s := run[i];
    var t := s.wakers[k];
    assert ThreadInv(s, t);
    forall u: nat | u < n && u != t && k < |s.results[u]| ensures s.results[u][k] == 0 {
      assert ThreadInv(s, u);
    }
  }

  /**
   * One bit is enough: the flag differs from the value a waiting thread remembers exactly when
   * every thread has entered the cycle that thread is waiting for.
   */
  lemma OneBitTellsCyclesApart(run: seq<State>, n: nat, i: nat, t: nat)
    requires n >= 1 && IsRun(run, n, n) && i < |run| && t < n
    ensures Shaped(run[i]) && |run[i].place| == n
    ensures run[i].place[t].Inside? ==>
              (run[i].place[t].saved != run[i].cell.cycle <==>
               forall u: nat | u < n :: run[i].entered[t] <= run[i].entered[u])
  {
    RunInv(run, n, i);
    var s := run[i];
    assert ThreadInv(s, t);
    if s.place[t].Inside? {
      if s.entered[t] == Cycles(s) {
        forall u: nat | u < n ensures s.entered[t] <= s.entered[u] {
          assert ThreadInv(s, u);
        }
      } else {
        CountAll(s.entered, Cycles(s) + 1);
        var u :| 0 <= u < n && s.entered[u] != Cycles(s) + 1;
        assert ThreadInv(s, u);
      }
    }
  }

  /** No lost wakeup and no deadlock: some thread is outside, or awake with its cycle complete. */
  lemma SomeThreadCanProceed(run: seq<State>, n: nat, i: nat)
    requires n >= 1 && IsRun(run, n, n) && i < |run|
    ensures Shaped(run[i])
    ensures exists t: nat :: CanEnter(run[i], t) ||
              (CanRecheck(run[i], t) && Recheck(run[i], t).place[t].Outside?)
  {
    RunInv(run, n, i);
    var s := run[i];
    CountAll(s.entered, Cycles(s) + 1);
    var t :| 0 <= t < n && s.entered[t] != Cycles(s) + 1;
    assert ThreadInv(s, t);
    assert CanEnter(s, t) || CanRecheck(s, t);
  }

  /** Destroying the barrier is refused exactly while some thread has entered an unfinished cycle. */
  lemma BusyWhileACycleIsOpen(run: seq<State>, n: nat, i: nat)
    requires n >= 1 && IsRun(run, n, n) && i < |run|
    ensures Shaped(run[i]) && |run[i].place| == n
    ensures run[i].cell.counter != run[i].cell.threshold <==>
              exists t: nat, u: nat :: t < n && u < n && run[i].entered[t] > run[i].entered[u]
  {
    RunInv(run, n, i);
    var s := run[i];
    CountNone(s.entered, Cycles(s) + 1);
    CountAll(s.entered, Cycles(s) + 1);
    forall t: nat | t < n ensures Cycles(s) <= s.entered[t] <= Cycles(s) + 1 {
      assert ThreadInv(s, t);
    }
    if s.cell.counter != s.cell.threshold {
      var t :| 0 <= t < n && s.entered[t] == Cycles(s) + 1;
      var u :| 0 <= u < n && s.entered[u] != Cycles(s) + 1;
      assert s.entered[t] > s.entered[u];
    }
  }

  // ---------------------------------------------------------------------------------------------
  // What the barrier does not promise.

  /**
   * Destroying is not refused while woken threads have yet to leave: it is allowed exactly when every
   * thread still inside has seen its cycle completed, and then each of these is awake and about to
   * leave.
   */
  lemma DestroyIsAllowedWhileLeaving(run: seq<State>, n: nat, i: nat)
    requires n >= 1 && IsRun(run, n, n) && i < |run|
    ensures Shaped(run[i]) && |run[i].place| == n
    ensures run[i].cell.counter == run[i].cell.threshold <==>
              forall t: nat | t < n && run[i].place[t].Inside? :: run[i].place[t].saved != run[i].cell.cycle
    ensures run[i].cell.counter == run[i].cell.threshold ==>
              forall t: nat | t < n && run[i].place[t].Inside? ::
                CanRecheck(run[i], t) && Recheck(run[i], t).place[t].Outside?
  {
    RunInv(run, n, i);
    var s := run[i];
    CountNone(s.entered, Cycles(s) + 1);
    forall t: nat | t < n
      ensures s.entered[t] == Cycles(s) + 1 <==> s.place[t].Inside? && s.place[t].saved == s.cell.cycle
      ensures s.place[t].Inside? && s.place[t].saved != s.cell.cycle ==> !s.place[t].asleep
    {
      assert ThreadInv(s, t);
    }
  }

  /** The case arises: with two threads, after both have arrived the first is still inside. */
  lemma SomeoneMayStillBeInside()
    ensures exists run: seq<State> :: IsRun(run, 2, 2) &&
              var s := run[|run| - 1];
              s.cell.counter == s.cell.threshold && |s.place| == 2 && s.place[0].Inside?
  {
    var s0 := Start(2, 2);
    var s1 := Enter(s0, 0);
    var s2 := Enter(s1, 1);
    assert StepBy(s0, s1, 0) && StepBy(s1, s2, 1);
    var run := [s0, s1, s2];
    assert IsRun(run, 2, 2);
    assert run[|run| - 1] == s2;
  }

  // ---------------------------------------------------------------------------------------------
  // How many threads one bit is enough for.

  /**
   * Thread t stays inside one wait from state i to state j, a cycle completes meanwhile, and at j the
   * flag is the one t remembers, so that t would go on waiting.
   */
  ghost predicate SleepsThrough(run: seq<State>, i: nat, j: nat, t: nat) {
    && i < j < |run|
    && (forall k | i <= k <= j :: t < |run[k].place| && run[k].place[t].Inside?)
    && Cycles(run[i]) < Cycles(run[j])
    && run[j].place[t].saved == run[j].cell.cycle
  }

  /** No thread ever sleeps through a completed cycle. */
  ghost predicate FlagIsEnough(threads: nat, threshold: int) {
    forall run: seq<State>, i: nat, j: nat, t: nat | IsRun(run, threads, threshold) :: !SleepsThrough(run, i, j, t)
  }

  lemma StayingKeepsEntered(s: State, r: State, t: nat)
    requires Next(s, r) && t < |s.place| && s.place[t].Inside? && t < |r.place|
    ensures Shaped(s) && Shaped(r) && r.entered[t] == s.entered[t]
  {
  }

  lemma {:induction false} InsideKeepsEntered(run: seq<State>, n: nat, i: nat, j: nat, t: nat)
    requires n >= 1 && IsRun(run, n, n) && i <= j < |run| && t < n
    requires forall k | i <= k <= j :: t < |run[k].place| && run[k].place[t].Inside?
    ensures Shaped(run[i]) && Shaped(run[j]) && run[i].entered[t] == run[j].entered[t]
    decreases j - i
  {
    if i < j {
      InsideKeepsEntered(run, n, i, j - 1, t);
      assert Next(run[j - 1], run[j]);
      StayingKeepsEntered(run[j - 1], run[j], t);
    } else {
      RunInv(run, n, i);
    }
  }

  lemma WaitsForTheLatest(s: State, t: nat)
    requires Inv(s) && t < |s.place| && s.place[t].Inside?
    ensures s.entered[t] <= Cycles(s) + 1
    ensures s.place[t].saved == s.cell.cycle ==> s.entered[t] == Cycles(s) + 1
  {
    assert ThreadInv(s, t);
  }

  /** With as many threads as the threshold, whoever stays inside past a completed cycle sees the flag changed. */
  lemma EnoughForThreshold(run: seq<State>, n: nat, i: nat, j: nat, t: nat)
    requires n >= 1 && IsRun(run, n, n) && i < j < |run| && t < n
    requires forall k | i <= k <= j :: t < |run[k].place| && run[k].place[t].Inside?
    requires Cycles(run[i]) < Cycles(run[j])
    ensures run[j].place[t].saved != run[j].cell.cycle
  {
    RunInv(run, n, i);
    RunInv(run, n, j);
    InsideKeepsEntered(run, n, i, j, t);
    WaitsForTheLatest(run[i], t);
    WaitsForTheLatest(run[j], t);
  }

  /** Fewer threads than the threshold, or a threshold below 1: no cycle is ever completed. */
  ghost predicate NeverCompletes(s: State, threads: nat, threshold: int) {
    && Shaped(s)
    && |s.place| == threads
    && s.wakers == []
    && (forall t | 0 <= t < threads :: s.entered[t] == if s.place[t].Inside? then 1 else 0)
    && (forall t | 0 <= t < threads && s.place[t].Inside? :: s.place[t].saved == s.cell.cycle)
    && s.cell.counter == threshold - Count(s.entered, 1)
  }

  lemma NeverCompletesStep(s: State, r: State, threads: nat, threshold: int)
    requires NeverCompletes(s, threads, threshold) && Next(s, r) && (threads < threshold || threshold < 1)
    ensures NeverCompletes(r, threads, threshold)
  {
    var t: nat :| StepBy(s, r, t);
    if CanEnter(s, t) {
      CountAll(s.entered, 1);
      CountUpdate(s.entered, t, 1, 1);
    }
  }

  lemma {:induction false} NoCycleCompletes(run: seq<State>, threads: nat, threshold: int, i: nat)
    requires IsRun(run, threads, threshold) && i < |run| && (threads < threshold || threshold < 1)
    ensures NeverCompletes(run[i], threads, threshold)
  {
    if i == 0 {
      CountConstant(threads, 0, 1);
    } else {
      NoCycleCompletes(run, threads, threshold, i - 1);
      assert Next(run[i - 1], run[i]);
      NeverCompletesStep(run[i - 1], run[i], threads, threshold);
    }
  }

  /** With a threshold of 1 no thread ever waits. */
  lemma {:induction false} NobodyWaits(run: seq<State>, threads: nat, i: nat)
    requires IsRun(run, threads, 1) && i < |run|
    ensures run[i].cell.counter == run[i].cell.threshold == 1
    ensures forall t | 0 <= t < |run[i].place| :: run[i].place[t].Outside?
  {
    if i > 0 {
      NobodyWaits(run, threads, i - 1);
      assert Next(run[i - 1], run[i]);
    }
  }

  /** A run in which thread 0 is inside its first wait in every state but the initial one. */
  ghost predicate Waits(run: seq<State>, threads: nat, threshold: int) {
    && IsRun(run, threads, threshold)
    && |run| >= 2
    && Cycles(run[1]) == 0
    && (forall k | 1 <= k < |run| ::
          Shaped(run[k]) && |run[k].place| == threads >= 1 && run[k].place[0].Inside? && run[k].place[0].saved == 0)
  }

  function Latest(run: seq<State>): State
    requires run != []
  {
    run[|run| - 1]
  }

  lemma WaitsOn(run: seq<State>, threads: nat, threshold: int, r: State, t: nat)
    requires Waits(run, threads, threshold) && t != 0
    requires (CanEnter(Latest(run), t) && r == Enter(Latest(run), t)) || (CanRecheck(Latest(run), t) && r == Recheck(Latest(run), t))
    ensures Waits(run + [r], threads, threshold) && Latest(run + [r]) == r
  {
    var longer := run + [r];
    assert StepBy(longer[|run| - 1], longer[|run|], t);
    forall i | 0 < i < |longer| ensures Next(longer[i - 1], longer[i]) {
      if i < |run| {
        assert Next(run[i - 1], run[i]);
      }
    }
  }

  /** The first cycle but for its last arrival: threads 0 to threshold - 2 have entered. */
  lemma FirstArrivals(threads: nat, threshold: nat) returns (run: seq<State>)
    requires 2 <= threshold < threads
    ensures Waits(run, threads, threshold) && Cycles(Latest(run)) == 0
    ensures Latest(run).cell == Cell(threshold, 1, 0)
    ensures forall t | 0 <= t < threshold - 1 :: Latest(run).place[t].Inside? && Latest(run).place[t].saved == 0
    ensures forall t | threshold - 1 <= t < threads :: Latest(run).place[t].Outside?
  {
    var start := Start(threads, threshold);
    assert StepBy(start, Enter(start, 0), 0);
    run := [start, Enter(start, 0)];
    for k := 1 to threshold - 1
      invariant Waits(run, threads, threshold) && Cycles(Latest(run)) == 0
      invariant Latest(run).cell == Cell(threshold, threshold - k, 0)
      invariant forall t | 0 <= t < k :: Latest(run).place[t].Inside? && Latest(run).place[t].saved == 0
      invariant forall t | k <= t < threads :: Latest(run).place[t].Outside?
    {
      var r := Enter(Latest(run), k);
      WaitsOn(run, threads, threshold, r, k);
      run := run + [r];
    }
  }

  /** The first cycle completed, and all who waited in it gone but thread 0. */
  lemma OthersLeave(threads: nat, threshold: nat) returns (run: seq<State>)
    requires 2 <= threshold < threads
    ensures Waits(run, threads, threshold) && Cycles(Latest(run)) == 1
    ensures Latest(run).cell == Cell(threshold, threshold, 1)
    ensures forall t | 1 <= t < threads :: Latest(run).place[t].Outside?
  {
    run := FirstArrivals(threads, threshold);
    var r := Enter(Latest(run), threshold - 1);
    WaitsOn(run, threads, threshold, r, threshold - 1);
    run := run + [r];
    for k := 1 to threshold - 1
      invariant Waits(run, threads, threshold) && Cycles(Latest(run)) == 1
      invariant Latest(run).cell == Cell(threshold, threshold, 1)
      invariant forall t | k <= t < threshold - 1 :: Latest(run).place[t] == Inside(0, false)
      invariant forall t | 1 <= t < k || threshold - 1 <= t < threads :: Latest(run).place[t].Outside?
    {
      r := Recheck(Latest(run), k);
      WaitsOn(run, threads, threshold, r, k);
      run := run + [r];
    }
  }

  /** A second cycle completed without thread 0 brings back the flag it remembers. */
  lemma SecondCycle(threads: nat, threshold: nat) returns (run: seq<State>)
    requires 2 <= threshold < threads
    ensures Waits(run, threads, threshold) && Cycles(Latest(run)) == 2 && Latest(run).cell.cycle == 0
  {
    run := OthersLeave(threads, threshold);
    for k := 1 to threshold
      invariant Waits(run, threads, threshold) && Cycles(Latest(run)) == 1
      invariant Latest(run).cell == Cell(threshold, threshold - k + 1, 1)
      invariant forall t | k <= t < threads :: Latest(run).place[t].Outside?
    {
      var r := Enter(Latest(run), k);
      WaitsOn(run, threads, threshold, r, k);
      run := run + [r];
    }
    var r := Enter(Latest(run), threshold);
    WaitsOn(run, threads, threshold, r, threshold);
    run := run + [r];
  }

  /**
   * One bit is enough exactly when there are no more threads than the threshold, or nobody ever waits
   * for a cycle that completes because the threshold is 1 or less.
   */
  lemma OneBitIsEnoughExactly(threads: nat, threshold: int)
    ensures FlagIsEnough(threads, threshold) <==> threads <= threshold || threshold <= 1
  {
    if threads <= threshold || threshold <= 1 {
      forall run: seq<State>, i: nat, j: nat, t: nat | IsRun(run, threads, threshold)
        ensures !SleepsThrough(run, i, j, t)
      {
        if SleepsThrough(run, i, j, t) {
          if threads < threshold || threshold < 1 {
            NoCycleCompletes(run, threads, threshold, j);
          } else if threshold == 1 {
            NobodyWaits(run, threads, j);
          } else {
            RunInv(run, threads, j);
            EnoughForThreshold(run, threads, i, j, t);
          }
        }
      }
    } else {
      var run := SecondCycle(threads, threshold);
      assert Latest(run) == run[|run| - 1];
      assert SleepsThrough(run, 1, |run| - 1, 0);
    }
  }
}
