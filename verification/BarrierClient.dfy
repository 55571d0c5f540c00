/** The program of programs/barrier_main.c: parallel phases separated by one barrier. */
module BarrierClient {
  import Barriers
  import opened Sequences

  /** THREADS, OUTLOOPS, INLOOPS and ARRAY of the source. */
  datatype Config = Config(threads: nat, outLoops: nat, inLoops: nat, cells: nat)

  class Worker {
    var increment: int
    const cells: array<int>

    constructor (number: int, cellCount: nat)
      ensures fresh(cells) && increment == number
      ensures cells[..] == seq(cellCount, c => c + 1)
    {
      increment := number;
      cells := new int[cellCount](c => c + 1);
    }

    /** The nested loops between the two barriers. */
    method AddIncrement(inLoops: nat)
      modifies cells
      ensures cells[..] == Raised(old(cells[..]), inLoops * increment)
    {
      for inLoop := 0 to inLoops
        invariant forall c | 0 <= c < cells.Length :: cells[c] == old(cells[c]) + inLoop * increment
      {
        for count := 0 to cells.Length
          invariant forall c | 0 <= c < cells.Length ::
                      cells[c] == old(cells[c]) + inLoop * increment + if c < count then increment else 0
        {
          cells[count] := cells[count] + increment;
        }
      }
    }
  }

  /** The region run by the one thread whose second wait returned -1. */
  method SerialRegion(workers: array<Worker>)
    requires forall i, j | 0 <= i < j < workers.Length :: workers[i] != workers[j]
    modifies set i | 0 <= i < workers.Length :: workers[i]`increment
    ensures forall i | 0 <= i < workers.Length :: workers[i].increment == old(workers[i].increment) + 1
  {
    for n := 0 to workers.Length
      invariant forall i | 0 <= i < workers.Length ::
                  workers[i].increment == old(workers[i].increment) + if i < n then 1 else 0
    {
      workers[n].increment := workers[n].increment + 1;
    }
  }

  // ---------------------------------------------------------------------------------------------
  // All threads interleaved, one shared access at a time.

  /** `k` is the outer loop index; First and Second are the two calls to the barrier. */
  datatype Pc =
    | First(k: nat)
    | Work(k: nat, inLoop: nat, count: nat)
    | Second(k: nat)
    | Serial(k: nat, n: nat)
    | Done

  datatype State = State(b: Barriers.State, pc: seq<Pc>, increment: seq<int>, cells: seq<seq<int>>)

  function LoopTop(cfg: Config, k: nat): Pc {
    if k < cfg.outLoops then First(k) else Done
  }

  function Start(cfg: Config): State {
    State(
      Barriers.Start(cfg.threads, cfg.threads),
      seq(cfg.threads, _ => LoopTop(cfg, 0)),
      seq(cfg.threads, t => t),
      seq(cfg.threads, _ => seq(cfg.cells, c => c + 1)))
  }

  ghost predicate Shaped(cfg: Config, s: State) {
    && Barriers.Shaped(s.b)
    && |s.b.place| == |s.pc| == |s.increment| == |s.cells| == cfg.threads
    && forall t | 0 <= t < cfg.threads :: |s.cells[t]| == cfg.cells
  }

  /** Where a thread continues once its wait has returned `status`. */
  function AfterWait(cfg: Config, pc: Pc, status: int): Pc {
    match pc
    case First(k) => Work(k, 0, 0)
    case Second(k) => if status == Barriers.SERIAL then Serial(k, 0) else LoopTop(cfg, k + 1)
    case _ => pc
  }

  ghost predicate AtBarrier(cfg: Config, s: State, t: nat) {
    t < cfg.threads && Shaped(cfg, s) && (s.pc[t].First? || s.pc[t].Second?)
  }

  function AfterBarrierStep(cfg: Config, s: State, b: Barriers.State, t: nat): State
    requires Barriers.Shaped(b) && t < |b.place| && t < |s.pc|
  {
    if b.place[t].Outside? && |b.results[t]| > 0
    then s.(b := b, pc := s.pc[t := AfterWait(cfg, s.pc[t], b.results[t][|b.results[t]| - 1])])
    else s.(b := b)
  }

  function WorkStep(cfg: Config, s: State, t: nat): State
    requires Shaped(cfg, s) && t < cfg.threads && s.pc[t].Work?
  {
    var Work(k, inLoop, count) := s.pc[t];
    if inLoop >= cfg.inLoops then
      s.(pc := s.pc[t := Second(k)])
    else if count >= cfg.cells then
      s.(pc := s.pc[t := Work(k, inLoop + 1, 0)])
    else
      s.(pc := s.pc[t := Work(k, inLoop, count + 1)],
         cells := s.cells[t := s.cells[t][count := s.cells[t][count] + s.increment[t]]])
  }

  function SerialStep(cfg: Config, s: State, t: nat): State
    requires Shaped(cfg, s) && t < cfg.threads && s.pc[t].Serial?
  {
    var Serial(k, n) := s.pc[t];
    if n >= cfg.threads then
      s.(pc := s.pc[t := LoopTop(cfg, k + 1)])
    else
      s.(pc := s.pc[t := Serial(k, n + 1)], increment := s.increment[n := s.increment[n] + 1])
  }

  ghost predicate StepBy(cfg: Config, s: State, r: State, t: nat) {
    && t < cfg.threads
    && Shaped(cfg, s)
    && match s.pc[t]
       case Work(_, _, _) => r == WorkStep(cfg, s, t)
       case Serial(_, _) => r == SerialStep(cfg, s, t)
       case Done => false
       case _ =>
         || (Barriers.CanEnter(s.b, t) && r == AfterBarrierStep(cfg, s, Barriers.Enter(s.b, t), t))
         || (Barriers.CanRecheck(s.b, t) && r == AfterBarrierStep(cfg, s, Barriers.Recheck(s.b, t), t))
         || (Barriers.CanStir(s.b, t) && r == s.(b := Barriers.Stir(s.b, t)))
  }

  ghost predicate Next(cfg: Config, s: State, r: State) {
    exists t: nat :: StepBy(cfg, s, r, t)
  }

  ghost predicate IsRun(cfg: Config, run: seq<State>) {
    |run| > 0 && run[0] == Start(cfg) &&
    forall i | 0 < i < |run| :: Next(cfg, run[i - 1], run[i])
  }

  /** The sum of t + j over the first k passes. */
  function PassSum(t: int, k: nat): int {
    if k == 0 then 0 else PassSum(t, k - 1) + t + (k - 1)
  }

  /** The value `increment` of thread u must have, as a function of the cycle and the serial thread. */
  function Expected(s: State, u: int): int
    requires forall k | 0 <= k < |s.b.wakers| :: s.b.wakers[k] < |s.pc|
  {
    var g := Barriers.Cycles(s.b);
    if g % 2 == 0 && g > 0 && s.pc[s.b.wakers[g - 1]].Serial?
    then u + g / 2 - 1 + if u < s.pc[s.b.wakers[g - 1]].n then 1 else 0
    else u + g / 2
  }

  /** What thread t has added to its cell c so far. */
  function AddedSoFar(cfg: Config, pc: Pc, t: int, c: int): int {
    match pc
    case First(k) => cfg.inLoops * PassSum(t, k)
    case Work(k, inLoop, count) =>
      cfg.inLoops * PassSum(t, k) + (inLoop + if c < count then 1 else 0) * (t + k)
    case Second(k) => cfg.inLoops * PassSum(t, k + 1)
    case Serial(k, _) => cfg.inLoops * PassSum(t, k + 1)
    case Done => cfg.inLoops * PassSum(t, cfg.outLoops)
  }

  ghost predicate PcInv(cfg: Config, s: State, t: nat)
    requires Shaped(cfg, s) && t < cfg.threads
  {
    var returned := |s.b.results[t]|;
    match s.pc[t]
    case First(k) => k < cfg.outLoops && returned == 2 * k
    case Work(k, inLoop, count) =>
      k < cfg.outLoops && returned == 2 * k + 1 && s.b.place[t].Outside? && inLoop <= cfg.inLoops &&
      count <= cfg.cells && (inLoop == cfg.inLoops ==> count == 0)
    case Second(k) => k < cfg.outLoops && returned == 2 * k + 1
    case Serial(k, n) =>
      k < cfg.outLoops && returned == 2 * k + 2 && s.b.place[t].Outside? && n <= cfg.threads &&
      s.b.results[t][2 * k + 1] == Barriers.SERIAL
    case Done => returned == 2 * cfg.outLoops && s.b.place[t].Outside?
  }

  ghost predicate CellsInv(cfg: Config, s: State, t: nat)
    requires Shaped(cfg, s) && t < cfg.threads
  {
    forall c | 0 <= c < cfg.cells :: s.cells[t][c] == c + 1 + AddedSoFar(cfg, s.pc[t], t, c)
  }

  ghost predicate Inv(cfg: Config, s: State) {
    && Shaped(cfg, s)
    && Barriers.Inv(s.b)
    && (forall t: nat | t < cfg.threads :: PcInv(cfg, s, t))
    && (forall t: nat | t < cfg.threads :: CellsInv(cfg, s, t))
    && (forall u: nat | u < cfg.threads :: s.increment[u] == Expected(s, u))
  }

  lemma StartInv(cfg: Config)
    requires cfg.threads >= 1
    ensures Inv(cfg, Start(cfg))
  {
    Barriers.StartInv(cfg.threads);
  }

  /** A thread outside the barrier has returned from every completed cycle. */
  lemma OutsideIsCurrent(s: Barriers.State, t: nat)
    requires Barriers.Inv(s) && t < |s.place|
    ensures s.place[t].Outside? ==> |s.results[t]| == Barriers.Cycles(s)
    ensures Barriers.Cycles(s) - 1 <= |s.results[t]| <= Barriers.Cycles(s)
    ensures forall k | 0 <= k < |s.results[t]| :: s.results[t][k] == Barriers.SERIAL <==> s.wakers[k] == t
  {
    assert Barriers.ThreadInv(s, t);
  }

  /** The thread in the serial region is the one that completed the latest cycle. */
  lemma SerialIsLatestWaker(cfg: Config, s: State, t: nat)
    requires Inv(cfg, s) && t < cfg.threads && s.pc[t].Serial?
    ensures Barriers.Cycles(s.b) == 2 * s.pc[t].k + 2
    ensures s.b.wakers[Barriers.Cycles(s.b) - 1] == t
  {
    assert PcInv(cfg, s, t);
    OutsideIsCurrent(s.b, t);
  }

  /** While some thread is between the two barriers, its own increment is exact. */
  lemma WorkerReadsExact(cfg: Config, s: State, t: nat)
    requires Inv(cfg, s) && t < cfg.threads && s.pc[t].Work?
    ensures s.increment[t] == t + s.pc[t].k
    ensures Barriers.Cycles(s.b) == 2 * s.pc[t].k + 1
  {
    assert PcInv(cfg, s, t);
    OutsideIsCurrent(s.b, t);
  }

  /** One addition moves cell `count` of thread t from one step of the tally to the next. */
  lemma AdditionTally(cfg: Config, k: nat, inLoop: nat, count: nat, t: int, c: int)
    ensures AddedSoFar(cfg, Work(k, inLoop, count + 1), t, c) ==
            AddedSoFar(cfg, Work(k, inLoop, count), t, c) + if c == count then t + k else 0
  {
    var pass := t + k;
    if c == count {
      assert (inLoop + 1) * pass == inLoop * pass + pass;
    }
  }

  /** A finished pass adds the increment once per inner loop. */
  lemma PassTally(cfg: Config, k: nat, t: int, c: int)
    ensures c >= 0 ==> AddedSoFar(cfg, Work(k, cfg.inLoops, 0), t, c) == AddedSoFar(cfg, Second(k), t, c)
  {
    assert cfg.inLoops * PassSum(t, k + 1) == cfg.inLoops * PassSum(t, k) + cfg.inLoops * (t + k);
  }

  lemma WorkCells(cfg: Config, s: State, t: nat)
    requires Inv(cfg, s) && t < cfg.threads && s.pc[t].Work?
    ensures CellsInv(cfg, WorkStep(cfg, s, t), t)
  {
    var Work(k, inLoop, count) := s.pc[t];
    var r := WorkStep(cfg, s, t);
    WorkerReadsExact(cfg, s, t);
    assert PcInv(cfg, s, t) && CellsInv(cfg, s, t);
    forall c | 0 <= c < cfg.cells
      ensures r.cells[t][c] == c + 1 + AddedSoFar(cfg, r.pc[t], t, c)
    {
      assert s.cells[t][c] == c + 1 + AddedSoFar(cfg, s.pc[t], t, c);
      if inLoop >= cfg.inLoops {
        PassTally(cfg, k, t, c);
      } else if count < cfg.cells {
        AdditionTally(cfg, k, inLoop, count, t, c);
      }
    }
  }

  lemma WorkInv(cfg: Config, s: State, t: nat)
    requires Inv(cfg, s) && t < cfg.threads && s.pc[t].Work?
    ensures Inv(cfg, WorkStep(cfg, s, t))
  {
    var r := WorkStep(cfg, s, t);
    WorkCells(cfg, s, t);
    forall u: nat | u < cfg.threads ensures PcInv(cfg, r, u) && CellsInv(cfg, r, u) {
      assert PcInv(cfg, s, u) && CellsInv(cfg, s, u);
      if u != t {
        assert r.cells[u] == s.cells[u] && r.pc[u] == s.pc[u];
      }
    }
  }

  lemma SerialIncrements(cfg: Config, s: State, t: nat, u: nat)
    requires Inv(cfg, s) && t < cfg.threads && s.pc[t].Serial? && u < cfg.threads
    ensures SerialStep(cfg, s, t).increment[u] == Expected(SerialStep(cfg, s, t), u)
  {
    SerialIsLatestWaker(cfg, s, t);
    assert PcInv(cfg, s, t);
    assert s.increment[u] == Expected(s, u);
  }

  lemma SerialInv(cfg: Config, s: State, t: nat)
    requires Inv(cfg, s) && t < cfg.threads && s.pc[t].Serial?
    ensures Inv(cfg, SerialStep(cfg, s, t))
  {
    var r := SerialStep(cfg, s, t);
    forall u: nat | u < cfg.threads ensures PcInv(cfg, r, u) {
      assert PcInv(cfg, s, u) && PcInv(cfg, s, t);
    }
    forall u: nat | u < cfg.threads ensures CellsInv(cfg, r, u) {
      assert CellsInv(cfg, s, u) && PcInv(cfg, s, t);
      assert forall c | 0 <= c < cfg.cells :: AddedSoFar(cfg, r.pc[u], u, c) == AddedSoFar(cfg, s.pc[u], u, c);
    }
    forall u: nat | u < cfg.threads ensures r.increment[u] == Expected(r, u) {
      SerialIncrements(cfg, s, t, u);
    }
  }

  /** The thread that completes a cycle finds every other thread inside the barrier. */
  lemma LastArrivalFindsAllInside(b: Barriers.State, t: nat)
    requires Barriers.Inv(b) && Barriers.CanEnter(b, t) && b.cell.counter == 1
    ensures forall u | 0 <= u < |b.place| && u != t :: b.place[u].Inside?
    ensures Barriers.Cycles(Barriers.Enter(b, t)) == Barriers.Cycles(b) + 1
  {
    assert Barriers.ThreadInv(b, t);
    CountAllButOne(b.entered, Barriers.Cycles(b) + 1, t);
    forall u: nat | u < |b.place| && u != t ensures b.place[u].Inside? {
      assert Barriers.ThreadInv(b, u);
      assert b.entered[u] == Barriers.Cycles(b) + 1;
    }
  }

  lemma BarrierPcs(cfg: Config, s: State, b: Barriers.State, t: nat)
    requires Inv(cfg, s) && AtBarrier(cfg, s, t)
    requires || (Barriers.CanEnter(s.b, t) && b == Barriers.Enter(s.b, t))
             || (Barriers.CanRecheck(s.b, t) && b == Barriers.Recheck(s.b, t))
    ensures Shaped(cfg, AfterBarrierStep(cfg, s, b, t))
    ensures forall u: nat | u < cfg.threads :: PcInv(cfg, AfterBarrierStep(cfg, s, b, t), u)
  {
    var r := AfterBarrierStep(cfg, s, b, t);
    forall u: nat | u < cfg.threads ensures PcInv(cfg, r, u) {
      assert PcInv(cfg, s, u);
      if u != t {
        assert r.pc[u] == s.pc[u] && r.b.results[u] == s.b.results[u];
        assert s.b.place[u].Outside? ==> r.b.place[u].Outside?;
      }
    }
  }

  lemma BarrierCells(cfg: Config, s: State, b: Barriers.State, t: nat)
    requires Inv(cfg, s) && AtBarrier(cfg, s, t) && Barriers.Shaped(b) && |b.place| == cfg.threads
    ensures var r := AfterBarrierStep(cfg, s, b, t);
            Shaped(cfg, r) && forall u: nat | u < cfg.threads :: CellsInv(cfg, r, u)
  {
    var r := AfterBarrierStep(cfg, s, b, t);
    assert PcInv(cfg, s, t);
    forall u: nat | u < cfg.threads ensures CellsInv(cfg, r, u) {
      assert CellsInv(cfg, s, u);
      assert forall c | 0 <= c < cfg.cells :: AddedSoFar(cfg, r.pc[u], u, c) == AddedSoFar(cfg, s.pc[u], u, c);
    }
  }

  lemma BarrierIncrements(cfg: Config, s: State, b: Barriers.State, t: nat, u: nat)
    requires Inv(cfg, s) && AtBarrier(cfg, s, t) && u < cfg.threads
    requires || (Barriers.CanEnter(s.b, t) && b == Barriers.Enter(s.b, t))
             || (Barriers.CanRecheck(s.b, t) && b == Barriers.Recheck(s.b, t))
    requires Barriers.Inv(b)
    ensures AfterBarrierStep(cfg, s, b, t).increment[u] == Expected(AfterBarrierStep(cfg, s, b, t), u)
  {
    var g := Barriers.Cycles(s.b);
    assert PcInv(cfg, s, t);
    OutsideIsCurrent(s.b, t);
    assert s.increment[u] == Expected(s, u);
    if Barriers.CanEnter(s.b, t) && s.b.cell.counter == 1 {
      CompletingIncrements(cfg, s, t, u);
    }
  }

  /** When a cycle completes nobody is in the serial region of the one before. */
  lemma CompletingIncrements(cfg: Config, s: State, t: nat, u: nat)
    requires Inv(cfg, s) && AtBarrier(cfg, s, t) && u < cfg.threads
    requires Barriers.CanEnter(s.b, t) && s.b.cell.counter == 1
    ensures var r := AfterBarrierStep(cfg, s, Barriers.Enter(s.b, t), t);
            r.b.wakers == s.b.wakers + [t] && r.increment[u] == Expected(r, u)
  {
    var g := Barriers.Cycles(s.b);
    LastArrivalFindsAllInside(s.b, t);
    assert PcInv(cfg, s, t);
    OutsideIsCurrent(s.b, t);
    assert s.increment[u] == Expected(s, u);
    if g > 0 {
      assert s.pc[s.b.wakers[g - 1]].Serial? ==> PcInv(cfg, s, s.b.wakers[g - 1]);
      assert Expected(s, u) == u + g / 2;
    }
  }

  lemma BarrierStepInv(cfg: Config, s: State, b: Barriers.State, t: nat)
    requires Inv(cfg, s) && AtBarrier(cfg, s, t)
    requires || (Barriers.CanEnter(s.b, t) && b == Barriers.Enter(s.b, t))
             || (Barriers.CanRecheck(s.b, t) && b == Barriers.Recheck(s.b, t))
    ensures Inv(cfg, AfterBarrierStep(cfg, s, b, t))
  {
    if Barriers.CanEnter(s.b, t) {
      Barriers.EnterInv(s.b, t);
    } else {
      Barriers.RecheckInv(s.b, t);
    }
    BarrierPcs(cfg, s, b, t);
    BarrierCells(cfg, s, b, t);
    forall u: nat | u < cfg.threads
      ensures AfterBarrierStep(cfg, s, b, t).increment[u] == Expected(AfterBarrierStep(cfg, s, b, t), u)
    {
      BarrierIncrements(cfg, s, b, t, u);
    }
  }

  lemma StirInv(cfg: Config, s: State, t: nat)
    requires Inv(cfg, s) && AtBarrier(cfg, s, t) && Barriers.CanStir(s.b, t)
    ensures Inv(cfg, s.(b := Barriers.Stir(s.b, t)))
  {
    Barriers.StirInv(s.b, t);
    var r := s.(b := Barriers.Stir(s.b, t));
    forall u: nat | u < cfg.threads ensures PcInv(cfg, r, u) && CellsInv(cfg, r, u) {
      assert PcInv(cfg, s, u) && CellsInv(cfg, s, u);
    }
    forall u: nat | u < cfg.threads ensures r.increment[u] == Expected(r, u) {
      assert s.increment[u] == Expected(s, u);
    }
  }

  lemma StepInv(cfg: Config, s: State, r: State, t: nat)
    requires Inv(cfg, s) && StepBy(cfg, s, r, t)
    ensures Inv(cfg, r)
  {
    if s.pc[t].Work? {
      WorkInv(cfg, s, t);
    } else if s.pc[t].Serial? {
      SerialInv(cfg, s, t);
    } else if Barriers.CanEnter(s.b, t) {
      BarrierStepInv(cfg, s, Barriers.Enter(s.b, t), t);
    } else if Barriers.CanRecheck(s.b, t) {
      BarrierStepInv(cfg, s, Barriers.Recheck(s.b, t), t);
    } else {
      StirInv(cfg, s, t);
    }
  }

  lemma {:induction false} RunInv(cfg: Config, run: seq<State>, i: nat)
    requires cfg.threads >= 1 && IsRun(cfg, run) && i < |run|
    ensures Inv(cfg, run[i])
  {
    if i == 0 {
      StartInv(cfg);
    } else {
      RunInv(cfg, run, i - 1);
      assert Next(cfg, run[i - 1], run[i]);
      var t: nat :| StepBy(cfg, run[i - 1], run[i], t);
      StepInv(cfg, run[i - 1], run[i], t);
    }
  }

  /**
   * No thread reads its increment between the barriers while another is in the serial region, at
   * most one thread is in that region, and every read sees the value t + k.
   */
  lemma NoRaceOnIncrement(cfg: Config, run: seq<State>, i: nat, t: nat, u: nat)
    requires cfg.threads >= 1 && IsRun(cfg, run) && i < |run| && t < cfg.threads && u < cfg.threads
    ensures Shaped(cfg, run[i])
    ensures !(run[i].pc[t].Work? && run[i].pc[u].Serial?)
    ensures run[i].pc[t].Serial? && run[i].pc[u].Serial? ==> t == u
    ensures run[i].pc[t].Work? ==> run[i].increment[t] == t + run[i].pc[t].k
  {
    RunInv(cfg, run, i);
    var s := run[i];
    if s.pc[t].Work? {
      WorkerReadsExact(cfg, s, t);
    }
    if s.pc[t].Serial? {
      SerialIsLatestWaker(cfg, s, t);
    }
    if s.pc[u].Serial? {
      SerialIsLatestWaker(cfg, s, u);
    }
  }

  ghost predicate Finished(s: State) {
    forall t | 0 <= t < |s.pc| :: s.pc[t].Done?
  }

  /** The values printed at exit do not depend on the schedule, and the barrier can be destroyed. */
  lemma FinalValues(cfg: Config, run: seq<State>, i: nat)
    requires cfg.threads >= 1 && IsRun(cfg, run) && i < |run| && Finished(run[i])
    ensures Shaped(cfg, run[i])
    ensures forall t | 0 <= t < cfg.threads :: run[i].increment[t] == t + cfg.outLoops
    ensures forall t, c | 0 <= t < cfg.threads && 0 <= c < cfg.cells ::
              run[i].cells[t][c] == c + 1 + cfg.inLoops * PassSum(t, cfg.outLoops)
    ensures run[i].b.cell.counter == run[i].b.cell.threshold
  {
    RunInv(cfg, run, i);
    var s := run[i];
    forall t: nat | t < cfg.threads
      ensures s.increment[t] == t + cfg.outLoops
      ensures forall c | 0 <= c < cfg.cells :: s.cells[t][c] == c + 1 + cfg.inLoops * PassSum(t, cfg.outLoops)
      ensures s.b.entered[t] == Barriers.Cycles(s.b) == 2 * cfg.outLoops
    {
      assert PcInv(cfg, s, t) && CellsInv(cfg, s, t) && Barriers.ThreadInv(s.b, t);
      assert s.increment[t] == Expected(s, t);
    }
    CountNone(s.b.entered, Barriers.Cycles(s.b) + 1);
  }

  lemma {:induction false} PassSumClosed(t: int, k: nat)
    ensures 2 * PassSum(t, k) == 2 * t * k + k * (k - 1)
  {
    if k > 0 {
      PassSumClosed(t, k - 1);
    }
  }

  /** A step that is neither a spurious wakeup nor a recheck that finds the cycle still open. */
  ghost predicate Productive(cfg: Config, s: State, t: nat) {
    && t < cfg.threads
    && Shaped(cfg, s)
    && !s.pc[t].Done?
    && (s.pc[t].Work? || s.pc[t].Serial? || Barriers.CanEnter(s.b, t) ||
        (Barriers.CanRecheck(s.b, t) && Barriers.Recheck(s.b, t).place[t].Outside?))
  }

  /** Until every thread is done, some thread can make a productive step. */
  lemma NeverStuck(cfg: Config, run: seq<State>, i: nat)
    requires cfg.threads >= 1 && IsRun(cfg, run) && i < |run|
    ensures Finished(run[i]) || exists t: nat :: Productive(cfg, run[i], t)
  {
    RunInv(cfg, run, i);
    var s := run[i];
    if !Finished(s) {
      var u: nat :| u < |s.pc| && !s.pc[u].Done?;
      assert PcInv(cfg, s, u) && Barriers.ThreadInv(s.b, u);
      if Productive(cfg, s, u) {
        return;
      }
      CountAll(s.b.entered, Barriers.Cycles(s.b) + 1);
      var t: nat :| t < cfg.threads && s.b.entered[t] != Barriers.Cycles(s.b) + 1;
      assert PcInv(cfg, s, t) && Barriers.ThreadInv(s.b, t);
      assert Productive(cfg, s, t) || Productive(cfg, s, u);
    }
  }

  // ---------------------------------------------------------------------------------------------
  // Termination: productive steps use up a bounded supply of work.

  function PassSteps(cfg: Config): nat {
    cfg.inLoops * (cfg.cells + 1) + 1
  }

  function LoopSteps(cfg: Config): nat {
    PassSteps(cfg) + cfg.threads + 5
  }

  /** Steps left from the top of outer loop k. */
  function StepsFrom(cfg: Config, k: nat): nat
    decreases cfg.outLoops - k
  {
    if k >= cfg.outLoops then 0 else LoopSteps(cfg) + StepsFrom(cfg, k + 1)
  }

  /** Productive steps thread t can still make. */
  function Rank(cfg: Config, pc: Pc, inside: bool): int {
    var arrived := if inside then 1 else 0;
    match pc
    case First(k) => StepsFrom(cfg, k) - arrived
    case Work(k, inLoop, count) => StepsFrom(cfg, k) - 2 - (inLoop * (cfg.cells + 1) + count)
    case Second(k) => StepsFrom(cfg, k) - 2 - PassSteps(cfg) - arrived
    case Serial(k, n) => StepsFrom(cfg, k) - 4 - PassSteps(cfg) - n
    case Done => 0
  }

  function RankOf(cfg: Config, s: State, t: nat): int
    requires t < |s.pc| && |s.pc| == |s.b.place|
  {
    Rank(cfg, s.pc[t], s.b.place[t].Inside?)
  }

  function Remaining(cfg: Config, s: State, n: nat): int
    requires n <= |s.pc| == |s.b.place|
  {
    if n == 0 then 0 else Remaining(cfg, s, n - 1) + RankOf(cfg, s, n - 1)
  }

  lemma {:induction false} RemainingBound(cfg: Config, s: State, n: nat)
    requires Inv(cfg, s) && n <= cfg.threads
    ensures Remaining(cfg, s, n) >= 0
  {
    if n > 0 {
      RemainingBound(cfg, s, n - 1);
      RankBound(cfg, s, n - 1);
    }
  }

  lemma PassBound(done: nat, all: nat, each: nat)
    requires done < all
    ensures done * each + each <= all * each
  {
    assert (done + 1) * each <= all * each;
    assert (done + 1) * each == done * each + each;
  }

  lemma RankBound(cfg: Config, s: State, t: nat)
    requires Inv(cfg, s) && t < cfg.threads
    ensures RankOf(cfg, s, t) >= if s.pc[t].Done? then 0 else 1
  {
    assert PcInv(cfg, s, t);
    if s.pc[t].Work? {
      var Work(_, inLoop, count) := s.pc[t];
      if inLoop < cfg.inLoops {
        PassBound(inLoop, cfg.inLoops, cfg.cells + 1);
      }
    }
  }

  lemma {:induction false} RemainingUpdate(cfg: Config, s: State, r: State, t: nat, n: nat)
    requires n <= |s.pc| == |s.b.place| == |r.pc| == |r.b.place| && t < |s.pc|
    requires forall u: nat | u < |s.pc| && u != t :: RankOf(cfg, s, u) == RankOf(cfg, r, u)
    ensures Remaining(cfg, r, n) ==
            Remaining(cfg, s, n) + if t < n then RankOf(cfg, r, t) - RankOf(cfg, s, t) else 0
  {
    if n > 0 {
      RemainingUpdate(cfg, s, r, t, n - 1);
    }
  }

  lemma RankDrops(cfg: Config, s: State, r: State, t: nat)
    requires Inv(cfg, s) && StepBy(cfg, s, r, t)
    ensures Shaped(cfg, r)
    ensures RankOf(cfg, r, t) <= RankOf(cfg, s, t)
    ensures RankOf(cfg, r, t) == RankOf(cfg, s, t) ==>
              s.b.place[t].Inside? && r.b.place[t].Inside? && r.pc == s.pc
    ensures forall u: nat | u < cfg.threads && u != t :: RankOf(cfg, s, u) == RankOf(cfg, r, u)
  {
    assert PcInv(cfg, s, t);
    if s.pc[t].Work? {
      WorkRank(cfg, s, t);
    } else if s.pc[t].Serial? {
      SerialRank(cfg, s, t);
    } else if Barriers.CanEnter(s.b, t) {
      BarrierRank(cfg, s, Barriers.Enter(s.b, t), t);
    } else if Barriers.CanRecheck(s.b, t) {
      BarrierRank(cfg, s, Barriers.Recheck(s.b, t), t);
    }
  }

  lemma WorkRank(cfg: Config, s: State, t: nat)
    requires Inv(cfg, s) && t < cfg.threads && s.pc[t].Work?
    ensures RankOf(cfg, WorkStep(cfg, s, t), t) < RankOf(cfg, s, t)
  {
    assert PcInv(cfg, s, t);
    var Work(_, inLoop, count) := s.pc[t];
    assert (inLoop + 1) * (cfg.cells + 1) == inLoop * (cfg.cells + 1) + cfg.cells + 1;
  }

  lemma SerialRank(cfg: Config, s: State, t: nat)
    requires Inv(cfg, s) && t < cfg.threads && s.pc[t].Serial?
    ensures RankOf(cfg, SerialStep(cfg, s, t), t) < RankOf(cfg, s, t)
  {
    assert PcInv(cfg, s, t);
  }

  lemma BarrierRank(cfg: Config, s: State, b: Barriers.State, t: nat)
    requires Inv(cfg, s) && AtBarrier(cfg, s, t)
    requires || (Barriers.CanEnter(s.b, t) && b == Barriers.Enter(s.b, t))
             || (Barriers.CanRecheck(s.b, t) && b == Barriers.Recheck(s.b, t))
    ensures var r := AfterBarrierStep(cfg, s, b, t);
            && Shaped(cfg, r)
            && RankOf(cfg, r, t) <= RankOf(cfg, s, t)
            && (RankOf(cfg, r, t) == RankOf(cfg, s, t) ==>
                  s.b.place[t].Inside? && r.b.place[t].Inside? && r.pc == s.pc)
  {
    assert PcInv(cfg, s, t);
  }

  /**
   * Every step keeps the supply of work or uses some of it, and only idle wakeups keep it. So a
   * schedule that does not wake threads idly for ever ends, and by NeverStuck it ends with all done.
   */
  lemma WorkIsUsedUp(cfg: Config, run: seq<State>, i: nat, t: nat)
    requires cfg.threads >= 1 && IsRun(cfg, run) && i + 1 < |run| && StepBy(cfg, run[i], run[i + 1], t)
    ensures Shaped(cfg, run[i]) && Shaped(cfg, run[i + 1])
    ensures 0 <= Remaining(cfg, run[i + 1], cfg.threads) <= Remaining(cfg, run[i], cfg.threads)
    ensures Productive(cfg, run[i], t) ==>
              Remaining(cfg, run[i + 1], cfg.threads) < Remaining(cfg, run[i], cfg.threads)
  {
    RunInv(cfg, run, i);
    RunInv(cfg, run, i + 1);
    RemainingBound(cfg, run[i + 1], cfg.threads);
    RankDrops(cfg, run[i], run[i + 1], t);
    RemainingUpdate(cfg, run[i], run[i + 1], t, cfg.threads);
    if Productive(cfg, run[i], t) {
      ProductiveDrops(cfg, run[i], run[i + 1], t);
    }
  }

  lemma ProductiveDrops(cfg: Config, s: State, r: State, t: nat)
    requires Inv(cfg, s) && StepBy(cfg, s, r, t) && Productive(cfg, s, t)
    ensures Shaped(cfg, r) && RankOf(cfg, r, t) < RankOf(cfg, s, t)
  {
    RankDrops(cfg, s, r, t);
    if s.b.place[t].Inside? && r.b.place[t].Inside? {
      assert PcInv(cfg, s, t) && Barriers.ThreadInv(s.b, t);
    }
  }
}
