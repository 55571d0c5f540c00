/** The main thread of p304.c, which joins each thread once it has announced its end. */
module ThreadReaper {
  import opened Sequences

  datatype TState = Alive | Terminated | Joined

  function Reaped(states: seq<TState>, n: nat): (r: seq<TState>)
    ensures |r| == |states|
  {
    seq(|states|, i requires 0 <= i < |states| => if i < n && states[i].Terminated? then Joined else states[i])
  }

  // ---------------------------------------------------------------------------------------------
  // The shared table and its two critical sections.

  class Table {
    const thread: array<TState>
    var numLive: int
    var numUnjoined: int

    ghost predicate Valid()
      reads this, thread
    {
      && numUnjoined == Count(thread[..], Terminated)
      && numLive == thread.Length - Count(thread[..], Joined)
    }

    constructor (total: nat)
      ensures Valid() && fresh(thread) && thread[..] == seq(total, _ => Alive)
      ensures numLive == total && numUnjoined == 0
    {
      thread := new TState[total](_ => Alive);
      numLive := total;
      numUnjoined := 0;
      new;
      assert thread[..] == seq(total, _ => Alive);
      CountConstant(total, Alive, Terminated);
      CountConstant(total, Alive, Joined);
    }

    /** What a thread does under the mutex before it ends. */
    method Announce(idx: nat)
      requires Valid() && idx < thread.Length && thread[idx] == Alive
      modifies this`numUnjoined, thread
      ensures Valid() && thread[..] == old(thread[..])[idx := Terminated]
      ensures numUnjoined == old(numUnjoined) + 1
    {
      CountUpdate(thread[..], idx, Terminated, Terminated);
      CountUpdate(thread[..], idx, Terminated, Joined);
      numUnjoined := numUnjoined + 1;
      thread[idx] := Terminated;
      assert thread[..] == old(thread[..])[idx := Terminated];
    }

    /** The scan that joins every thread found terminated. */
    method Reap()
      requires Valid()
      modifies this, thread
      ensures Valid() && thread[..] == Reaped(old(thread[..]), thread.Length)
      ensures numUnjoined == 0
    {
      var idx := 0;
      ghost var was := thread[..];
      while idx < thread.Length
        invariant idx <= thread.Length
        invariant Valid() && thread[..] == Reaped(was, idx)
      {
        ghost var now := thread[..];
        if thread[idx] == Terminated {
          CountUpdate(now, idx, Joined, Terminated);
          CountUpdate(now, idx, Joined, Joined);
          thread[idx] := Joined;
          numLive := numLive - 1;
          numUnjoined := numUnjoined - 1;
          assert thread[..] == now[idx := Joined];
        }
        assert thread[..] == Reaped(was, idx + 1);
        idx := idx + 1;
      }
      CountNone(thread[..], Terminated);
    }
  }

  // ---------------------------------------------------------------------------------------------
  // All threads interleaved with main.

  datatype Thread = Running | Signalling | Ended

  /** Main holds the mutex exactly while scanning. */
  datatype Main = Testing | AtLock | Waiting(asleep: bool) | Scanning(idx: nat) | Finished

  /** `joins` lists the threads joined, in order. */
  datatype State = State(
    states: seq<TState>, threads: seq<Thread>, main: Main, numLive: int, numUnjoined: int, joins: seq<int>)

  function Start(n: nat): State {
    State(seq(n, _ => Alive), seq(n, _ => Running), Testing, n, 0, [])
  }

  ghost predicate Shaped(s: State) {
    |s.states| == |s.threads|
  }

  datatype Event =
    | Announce(t: nat)
    | Signal(t: nat)
    | Test
    | Lock
    | Wake
    | Scan
    | Stir

  /** A join returns only once its thread has ended. */
  predicate Enabled(s: State, e: Event)
    requires Shaped(s)
  {
    match e
    case Announce(t) => t < |s.threads| && s.threads[t].Running? && !s.main.Scanning?
    case Signal(t) => t < |s.threads| && s.threads[t].Signalling?
    case Test => s.main.Testing?
    case Lock => s.main.AtLock?
    case Wake => s.main == Waiting(false)
    case Scan =>
      s.main.Scanning? &&
      (s.main.idx < |s.states| && s.states[s.main.idx].Terminated? ==> s.threads[s.main.idx].Ended?)
    case Stir => s.main == Waiting(true)
  }

  function WaitOrScan(numUnjoined: int): Main {
    if numUnjoined == 0 then Waiting(true) else Scanning(0)
  }

  function Apply(s: State, e: Event): (r: State)
    requires Shaped(s) && Enabled(s, e)
    ensures Shaped(r)
  {
    match e
    case Announce(t) =>
      s.(numUnjoined := s.numUnjoined + 1, states := s.states[t := Terminated],
         threads := s.threads[t := Signalling])
    case Signal(t) =>
      s.(threads := s.threads[t := Ended], main := if s.main.Waiting? then Waiting(false) else s.main)
    case Test => s.(main := if s.numLive > 0 then AtLock else Finished)
    case Lock => s.(main := WaitOrScan(s.numUnjoined))
    case Wake => s.(main := WaitOrScan(s.numUnjoined))
    case Scan =>
      var idx := s.main.idx;
      if idx >= |s.states| then s.(main := Testing)
      else if s.states[idx].Terminated? then
        s.(states := s.states[idx := Joined], numLive := s.numLive - 1, numUnjoined := s.numUnjoined - 1,
           main := Scanning(idx + 1), joins := s.joins + [idx])
      else s.(main := Scanning(idx + 1))
    case Stir => s.(main := Waiting(false))
  }

  ghost predicate StepBy(s: State, r: State, e: Event) {
    Shaped(s) && Enabled(s, e) && r == Apply(s, e)
  }

  ghost predicate Next(s: State, r: State) {
    exists e :: StepBy(s, r, e)
  }

  ghost predicate IsRun(run: seq<State>, n: nat) {
    |run| > 0 && run[0] == Start(n) && forall i | 0 < i < |run| :: Next(run[i - 1], run[i])
  }

  ghost predicate CountsInv(s: State) {
    && s.numUnjoined == Count(s.states, Terminated)
    && s.numLive == |s.states| - Count(s.states, Joined)
  }

  ghost predicate ThreadsInv(s: State)
    requires Shaped(s)
  {
    forall t | 0 <= t < |s.states| ::
      (s.threads[t].Running? <==> s.states[t].Alive?) && (s.states[t].Joined? ==> s.threads[t].Ended?)
  }

  ghost predicate JoinsInv(s: State) {
    && (forall t | 0 <= t < |s.states| :: Count(s.joins, t) == if s.states[t].Joined? then 1 else 0)
    && (forall t | t in s.joins :: 0 <= t < |s.states|)
  }

  ghost predicate MainInv(s: State) {
    && (s.main.AtLock? || s.main.Waiting? ==> s.numLive > 0)
    && (s.main.Finished? ==> s.numLive == 0)
    && (s.main.Scanning? ==> s.main.idx <= |s.states|)
    && (s.main == Waiting(true) && s.numUnjoined > 0 ==>
          exists t :: 0 <= t < |s.threads| && s.threads[t].Signalling?)
  }

  ghost predicate Inv(s: State) {
    Shaped(s) && CountsInv(s) && ThreadsInv(s) && JoinsInv(s) && MainInv(s)
  }

  lemma StartInv(n: nat)
    ensures Inv(Start(n))
  {
    CountConstant(n, Alive, Terminated);
    CountConstant(n, Alive, Joined);
  }

  lemma AnnounceInv(s: State, t: nat)
    requires Inv(s) && Enabled(s, Announce(t))
    ensures Inv(Apply(s, Announce(t)))
  {
    var r := Apply(s, Announce(t));
    CountUpdate(s.states, t, Terminated, Terminated);
    CountUpdate(s.states, t, Terminated, Joined);
    assert r.threads[t].Signalling?;
  }

  lemma ScanInv(s: State)
    requires Inv(s) && Enabled(s, Scan)
    ensures Inv(Apply(s, Scan))
  {
    var r := Apply(s, Scan);
    var idx := s.main.idx;
    if idx < |s.states| && s.states[idx].Terminated? {
      CountUpdate(s.states, idx, Joined, Terminated);
      CountUpdate(s.states, idx, Joined, Joined);
      forall t | 0 <= t < |r.states| ensures Count(r.joins, t) == if r.states[t].Joined? then 1 else 0 {
        CountAppend(s.joins, idx, t);
      }
    }
  }

  lemma OtherInv(s: State, e: Event)
    requires Inv(s) && Enabled(s, e) && !e.Announce? && !e.Scan?
    ensures Inv(Apply(s, e))
  {
    CountAll(s.states, Joined);
    if s.main == Waiting(true) && e.Signal? {
      assert Apply(s, e).main == Waiting(false);
    }
  }

  lemma {:induction false} RunInv(run: seq<State>, n: nat, k: nat)
    requires IsRun(run, n) && k < |run|
    ensures Inv(run[k]) && |run[k].states| == n
  {
    if k == 0 {
      StartInv(n);
    } else {
      RunInv(run, n, k - 1);
      assert Next(run[k - 1], run[k]);
      var e :| StepBy(run[k - 1], run[k], e);
      if e.Announce? {
        AnnounceInv(run[k - 1], e.t);
      } else if e.Scan? {
        ScanInv(run[k - 1]);
      } else {
        OtherInv(run[k - 1], e);
      }
    }
  }

  /** The two counters count what their names say, at every step. */
  lemma CountersAreExact(run: seq<State>, n: nat, k: nat)
    requires IsRun(run, n) && k < |run|
    ensures run[k].numUnjoined == Count(run[k].states, Terminated)
    ensures run[k].numLive == n - Count(run[k].states, Joined)
  {
    RunInv(run, n, k);
  }

  /** No thread is joined twice, and when main finishes every thread has been joined once. */
  lemma EachThreadIsJoinedOnce(run: seq<State>, n: nat, k: nat, t: nat)
    requires IsRun(run, n) && k < |run| && t < n
    ensures Count(run[k].joins, t) <= 1
    ensures run[k].main.Finished? ==> Count(run[k].joins, t) == 1 && |run[k].states| == n && run[k].states[t].Joined?
  {
    RunInv(run, n, k);
    CountAll(run[k].states, Joined);
  }

  /** Main sleeps on an unjoined terminated thread only while a signal is still to come. */
  lemma NoLostWakeup(run: seq<State>, n: nat, k: nat)
    requires IsRun(run, n) && k < |run|
    requires run[k].main == Waiting(true) && Terminated in run[k].states
    ensures exists t :: 0 <= t < |run[k].threads| && run[k].threads[t].Signalling?
  {
    RunInv(run, n, k);
    CountNone(run[k].states, Terminated);
  }

  /** An event other than a spurious wakeup and a wakeup that finds nothing to do. */
  predicate Productive(s: State, e: Event)
    requires Shaped(s)
  {
    Enabled(s, e) && !e.Stir? && (e.Wake? ==> s.numUnjoined != 0)
  }

  /** Main may wake without a signal, and a thread may announce its end whenever main is not scanning. */
  lemma AnyoneMayAct(s: State)
    requires Shaped(s)
    ensures s.main == Waiting(true) ==> Enabled(s, Stir) && Apply(s, Stir) == s.(main := Waiting(false))
    ensures s.main == Waiting(false) && s.numUnjoined == 0 ==> Enabled(s, Wake) && Apply(s, Wake) == s.(main := Waiting(true))
    ensures s.main.AtLock? && s.numUnjoined == 0 ==> Enabled(s, Lock) && Apply(s, Lock) == s.(main := Waiting(true))
    ensures forall t: nat | t < |s.threads| && s.threads[t].Running? && !s.main.Scanning? ::
              Enabled(s, Announce(t)) && Apply(s, Announce(t)).states == s.states[t := Terminated]
  {
  }

  /** Until main finishes a productive event is possible. */
  lemma NeverStuck(run: seq<State>, n: nat, k: nat)
    requires IsRun(run, n) && k < |run|
    ensures Shaped(run[k])
    ensures run[k].main.Finished? || exists e :: Productive(run[k], e)
  {
    RunInv(run, n, k);
    var s := run[k];
    if s.main.Waiting? {
      if s.numUnjoined > 0 {
        if s.main.asleep {
          var t: nat :| t < |s.threads| && s.threads[t].Signalling?;
          assert Productive(s, Signal(t));
        } else {
          assert Productive(s, Wake);
        }
      } else {
        CountNone(s.states, Terminated);
        CountAll(s.states, Joined);
        var t: nat :| t < |s.states| && s.states[t] != Joined;
        assert Productive(s, Announce(t));
      }
    } else if s.main.Scanning? {
      var idx := s.main.idx;
      assert Productive(s, Scan) || Productive(s, Signal(idx));
    } else {
      assert s.main.Finished? || Productive(s, Test) || Productive(s, Lock);
    }
  }

  // ---------------------------------------------------------------------------------------------
  // Termination: productive events use up a bounded supply of work.

  function StepsLeft(t: Thread): nat {
    match t
    case Running => 2
    case Signalling => 1
    case Ended => 0
  }

  function ThreadSteps(threads: seq<Thread>): nat {
    if threads == [] then 0 else StepsLeft(threads[0]) + ThreadSteps(threads[1..])
  }

  lemma {:induction false} ThreadStepsUpdate(threads: seq<Thread>, i: nat, t: Thread)
    requires i < |threads|
    ensures ThreadSteps(threads[i := t]) + StepsLeft(threads[i]) == ThreadSteps(threads) + StepsLeft(t)
  {
    if i == 0 {
      assert threads[i := t][1..] == threads[1..];
    } else {
      assert threads[i := t][1..] == threads[1..][i - 1 := t];
      ThreadStepsUpdate(threads[1..], i - 1, t);
    }
  }

  predicate TerminatedFrom(states: seq<TState>, idx: nat) {
    exists i :: idx <= i < |states| && states[i].Terminated?
  }

  /**
   * The steps main can make before it joins a thread, or before it goes round its loop when the scan
   * has none left to join.
   */
  function MainSteps(s: State): int {
    var n := |s.states|;
    match s.main
    case Testing => n + 3
    case AtLock => n + 2
    case Waiting(_) => n + 1
    case Scanning(idx) => if TerminatedFrom(s.states, idx) then n - idx else 2 * n + 4 - idx
    case Finished => 0
  }

  /** Announcements and signals to come, a loop of main for each unjoined thread, and main's position. */
  function Remaining(s: State): int {
    ThreadSteps(s.threads) + (|s.states| + 4) * s.numLive + MainSteps(s)
  }

  lemma RemainingBound(s: State)
    requires Inv(s)
    ensures Remaining(s) >= 0
  {
    CountAll(s.states, Joined);
    assert (|s.states| + 4) * s.numLive >= 0;
  }

  lemma ScanUsesUp(s: State)
    requires Inv(s) && Enabled(s, Scan)
    ensures Remaining(Apply(s, Scan)) < Remaining(s)
  {
    var r := Apply(s, Scan);
    var idx, n := s.main.idx, |s.states|;
    if idx < n && s.states[idx].Terminated? {
      assert (n + 4) * r.numLive == (n + 4) * s.numLive - (n + 4);
      assert TerminatedFrom(s.states, idx);
    } else if idx < n {
      assert TerminatedFrom(s.states, idx) <==> TerminatedFrom(s.states, idx + 1) by {
        if TerminatedFrom(s.states, idx) {
          var i :| idx <= i < n && s.states[i].Terminated?;
          assert idx + 1 <= i;
        }
      }
    }
  }

  lemma LockUsesUp(s: State, e: Event)
    requires Inv(s) && Productive(s, e) && (e.Lock? || e.Wake?)
    ensures Remaining(Apply(s, e)) < Remaining(s)
  {
    CountNone(s.states, Terminated);
    if s.numUnjoined > 0 {
      var i :| 0 <= i < |s.states| && s.states[i] == Terminated;
      assert TerminatedFrom(s.states, 0);
    }
  }

  /**
   * Every productive event lowers a non-negative total, and idle wakeups keep it: with NeverStuck,
   * main finishes.
   */
  lemma WorkIsUsedUp(run: seq<State>, n: nat, k: nat, e: Event)
    requires IsRun(run, n) && k + 1 < |run| && StepBy(run[k], run[k + 1], e)
    ensures 0 <= Remaining(run[k + 1]) <= Remaining(run[k])
    ensures Productive(run[k], e) ==> Remaining(run[k + 1]) < Remaining(run[k])
  {
    RunInv(run, n, k);
    RunInv(run, n, k + 1);
    RemainingBound(run[k + 1]);
    var s := run[k];
    if e.Scan? {
      ScanUsesUp(s);
    } else if e.Announce? {
      ThreadStepsUpdate(s.threads, e.t, Signalling);
    } else if e.Signal? {
      ThreadStepsUpdate(s.threads, e.t, Ended);
    } else if Productive(s, e) && (e.Lock? || e.Wake?) {
      LockUsesUp(s, e);
    }
  }

  // ---------------------------------------------------------------------------------------------
  // The machine's scan and the scan in place.

  lemma ScanStep(s: State, r: State, e: Event, was: seq<TState>)
    requires StepBy(s, r, e) && s.main.Scanning? && |was| == |s.states|
    requires s.states == Reaped(was, if s.main.idx < |was| then s.main.idx else |was|)
    ensures r.main.Scanning? || r.main.Testing?
    ensures r.main.Scanning? ==> r.states == Reaped(was, r.main.idx)
    ensures r.main.Testing? ==> r.states == Reaped(was, |was|)
  {
  }

  /**
   * From the start of a scan to its end, whatever other threads do meanwhile, the machine joins index
   * by index what the scan in place joins, and ends with its result.
   */
  lemma {:induction false} ScanIsReap(run: seq<State>, n: nat, i: nat, j: nat)
    requires IsRun(run, n) && i <= j < |run| && run[i].main == Scanning(0)
    requires forall k | i <= k < j :: run[k].main.Scanning?
    ensures |run[i].states| == n
    ensures run[j].main.Scanning? || run[j].main.Testing?
    ensures run[j].main.Scanning? ==> run[j].states == Reaped(run[i].states, run[j].main.idx)
    ensures run[j].main.Testing? ==> run[j].states == Reaped(run[i].states, n)
    decreases j - i
  {
    RunInv(run, n, i);
    if i < j {
      ScanIsReap(run, n, i, j - 1);
      RunInv(run, n, j - 1);
      assert Next(run[j - 1], run[j]);
      var e :| StepBy(run[j - 1], run[j], e);
      ScanStep(run[j - 1], run[j], e, run[i].states);
    }
  }
}
