/** The alarm scheduler of programs/alarm_cond.c: a sorted list and a thread that holds one entry. */
module AlarmClock {
  import opened Sequences

  /** An alarm; `id` stands for the message and the rest that does not matter to scheduling. */
  datatype Entry = Entry(id: nat, time: int)

  function Inserted(list: seq<Entry>, e: Entry): seq<Entry> {
    if list == [] || list[0].time >= e.time then [e] + list
    else [list[0]] + Inserted(list[1..], e)
  }

  ghost predicate Sorted(list: seq<Entry>) {
    forall i, j | 0 <= i < j < |list| :: list[i].time <= list[j].time
  }

  /** An insertion must announce itself when nobody is timing, or when it comes first. */
  predicate MustSignal(current: int, time: int) {
    current == 0 || time < current
  }

  lemma {:induction false} InsertedSorted(list: seq<Entry>, e: Entry)
    requires Sorted(list)
    ensures Sorted(Inserted(list, e))
    ensures forall x :: x in Inserted(list, e) <==> x == e || x in list
  {
    InsertedMembers(list, e);
    if list != [] && list[0].time < e.time {
      InsertedSorted(list[1..], e);
      InsertedMembers(list[1..], e);
      var rest := Inserted(list[1..], e);
      forall j | 0 <= j < |rest| ensures list[0].time <= rest[j].time {
        assert rest[j] in rest;
      }
    }
  }

  lemma {:induction false} InsertedMembers(list: seq<Entry>, e: Entry)
    ensures forall x :: x in Inserted(list, e) <==> x == e || x in list
  {
    if list != [] && list[0].time < e.time {
      InsertedMembers(list[1..], e);
      assert forall x :: x in list <==> x == list[0] || x in list[1..];
    }
  }

  lemma {:induction false} InsertedCount(list: seq<Entry>, e: Entry, x: Entry)
    ensures Count(Inserted(list, e), x) == Count(list, x) + if e == x then 1 else 0
  {
    if list == [] || list[0].time >= e.time {
      assert ([e] + list)[1..] == list;
    } else {
      InsertedCount(list[1..], e, x);
      assert ([list[0]] + Inserted(list[1..], e))[1..] == Inserted(list[1..], e);
    }
  }

  /** Where the insertion lands: after exactly the entries that are earlier. */
  lemma {:induction false} InsertedAt(list: seq<Entry>, e: Entry, k: nat)
    requires k <= |list|
    requires forall i | 0 <= i < k :: list[i].time < e.time
    requires k < |list| ==> list[k].time >= e.time
    ensures Inserted(list, e) == list[..k] + [e] + list[k..]
  {
    if k > 0 {
      InsertedAt(list[1..], e, k - 1);
      assert list[1..][..k - 1] == list[..k][1..] && list[1..][k - 1..] == list[k..];
      assert list[..k] == [list[0]] + list[..k][1..];
    }
  }

  // ---------------------------------------------------------------------------------------------
  // The linked list in the heap.

  class Alarm {
    var link: Alarm?
    const entry: Entry

    constructor (entry: Entry)
      ensures this.entry == entry
    {
      this.entry := entry;
      link := null;
    }
  }

  function Entries(nodes: seq<Alarm>): (r: seq<Entry>)
    ensures |r| == |nodes|
  {
    seq(|nodes|, i requires 0 <= i < |nodes| => nodes[i].entry)
  }

  /** Splicing a node in where the insertion belongs is the insertion. */
  lemma SplicedEntries(nodes: seq<Alarm>, alarm: Alarm, k: nat)
    requires k <= |nodes|
    requires forall i | 0 <= i < k :: nodes[i].entry.time < alarm.entry.time
    requires k < |nodes| ==> nodes[k].entry.time >= alarm.entry.time
    ensures Entries(nodes[..k] + [alarm] + nodes[k..]) == Inserted(Entries(nodes), alarm.entry)
  {
    InsertedAt(Entries(nodes), alarm.entry, k);
    var was := Entries(nodes);
    assert Entries(nodes[..k] + [alarm] + nodes[k..]) == was[..k] + [alarm.entry] + was[k..];
  }

  class Schedule {
    var alarmList: Alarm?
    var currentAlarm: int
    ghost var nodes: seq<Alarm>

    ghost predicate Valid()
      reads this, nodes
    {
      && (nodes == [] ==> alarmList == null)
      && (nodes != [] ==> alarmList == nodes[0] && nodes[|nodes| - 1].link == null)
      && (forall i | 0 <= i < |nodes| - 1 :: nodes[i].link == nodes[i + 1])
      && (forall i, j | 0 <= i < j < |nodes| :: nodes[i] != nodes[j])
    }

    ghost function Listed(): (r: seq<Entry>)
      reads this
      ensures |r| == |nodes|
    {
      Entries(nodes)
    }

    constructor ()
      ensures Valid() && Listed() == [] && currentAlarm == 0
    {
      alarmList := null;
      currentAlarm := 0;
      nodes := [];
    }

    /** Writes `alarm` into the link of node k - 1, or into the header, ahead of node k. */
    method Splice(alarm: Alarm, last: Alarm?, next: Alarm?, ghost k: nat)
      requires Valid() && alarm !in nodes && k <= |nodes|
      requires next == if k < |nodes| then nodes[k] else null
      requires last == if k > 0 then nodes[k - 1] else null
      modifies this`alarmList, this`nodes, nodes, alarm
      ensures Valid() && nodes == old(nodes)[..k] + [alarm] + old(nodes)[k..]
    {
      alarm.link := next;
      if last == null {
        alarmList := alarm;
      } else {
        last.link := alarm;
      }
      nodes := nodes[..k] + [alarm] + nodes[k..];
    }

    /** `last` is the node whose link is examined; null stands for the list header. */
    method Insert(alarm: Alarm) returns (signalled: bool)
      requires Valid() && alarm !in nodes
      modifies this, nodes, alarm
      ensures Valid()
      ensures Listed() == Inserted(old(Listed()), alarm.entry)
      ensures signalled == MustSignal(old(currentAlarm), alarm.entry.time)
      ensures currentAlarm == if signalled then alarm.entry.time else old(currentAlarm)
    {
      var last: Alarm? := null;
      var next := alarmList;
      ghost var k := 0;
      while next != null && next.entry.time < alarm.entry.time
        invariant k <= |nodes|
        invariant next == if k < |nodes| then nodes[k] else null
        invariant last == if k > 0 then nodes[k - 1] else null
        invariant forall i | 0 <= i < k :: nodes[i].entry.time < alarm.entry.time
        decreases |nodes| - k
      {
        last := next;
        next := next.link;
        k := k + 1;
      }
      SplicedEntries(nodes, alarm, k);
      Splice(alarm, last, next, k);
      signalled := false;
      if currentAlarm == 0 || alarm.entry.time < currentAlarm {
        currentAlarm := alarm.entry.time;
        signalled := true;
      }
    }

    /** The alarm thread takes the first alarm off the list. */
    method TakeFirst() returns (alarm: Alarm)
      requires Valid() && Listed() != []
      modifies this`alarmList, this`nodes
      ensures Valid() && alarm == old(nodes)[0] && alarm !in nodes
      ensures old(Listed()) == [alarm.entry] + Listed()
    {
      alarm := alarmList;
      alarmList := alarm.link;
      nodes := nodes[1..];
    }
  }

  // ---------------------------------------------------------------------------------------------
  // The alarm thread and any number of requesters, under an arbitrary scheduler and clock.

  /**
   * `Starting` is before the alarm thread's first lock; `Top` is the head of its loop, with the
   * mutex held. In the other two it waits with the mutex released, `asleep` until signalled.
   */
  datatype Mode = Starting | Top | WaitEmpty(asleep: bool) | WaitTimed(held: Entry, asleep: bool)

  datatype Firing = Firing(entry: Entry, at: int)

  datatype State = State(
    clock: int, list: seq<Entry>, current: int, mode: Mode, requested: seq<Entry>, fired: seq<Firing>)

  function Start(clock: int): State {
    State(clock, [], 0, Starting, [], [])
  }

  function Roused(mode: Mode): Mode {
    match mode
    case WaitEmpty(_) => WaitEmpty(false)
    case WaitTimed(held, _) => WaitTimed(held, false)
    case _ => mode
  }

  /** The list, `current` and the sleeper after an insertion. */
  function Insert(s: State, e: Entry): State {
    var r := s.(list := Inserted(s.list, e));
    if MustSignal(s.current, e.time) then r.(current := e.time, mode := Roused(s.mode)) else r
  }

  /** The alarm thread takes the first alarm, and fires it at once or starts to time it. */
  function TakeFirst(s: State): State
    requires s.list != []
  {
    var e := s.list[0];
    if e.time > s.clock
    then s.(list := s.list[1..], current := e.time, mode := WaitTimed(e, true))
    else s.(list := s.list[1..], mode := Top, fired := s.fired + [Firing(e, s.clock)])
  }

  datatype Event =
    | Tick(amount: nat)
    | Request(id: nat, seconds: int)
    | Lock
    | Loop
    | WakeEmpty
    | WakeTimed
    | TimeOut
    | Stir

  predicate Enabled(s: State, e: Event) {
    match e
    case Tick(_) => true
    case Request(_, _) => !s.mode.Top?
    case Lock => s.mode.Starting?
    case Loop => s.mode.Top?
    case WakeEmpty => s.mode == WaitEmpty(false)
    case WakeTimed => s.mode.WaitTimed? && !s.mode.asleep
    case TimeOut => s.mode.WaitTimed? && s.mode.held.time <= s.clock
    case Stir => (s.mode.WaitEmpty? || s.mode.WaitTimed?) && s.mode.asleep
  }

  function Apply(s: State, e: Event): State
    requires Enabled(s, e)
  {
    match e
    case Tick(amount) => s.(clock := s.clock + amount)
    case Request(id, seconds) =>
      var entry := Entry(id, s.clock + seconds);
      Insert(s, entry).(requested := s.requested + [entry])
    case Lock => s.(mode := Top)
    case Loop =>
      var t := s.(current := 0);
      if t.list == [] then t.(mode := WaitEmpty(true)) else TakeFirst(t)
    case WakeEmpty => if s.list == [] then s.(mode := WaitEmpty(true)) else TakeFirst(s)
    case WakeTimed =>
      if s.current == s.mode.held.time then s.(mode := WaitTimed(s.mode.held, true))
      else Insert(s, s.mode.held).(mode := Top)
    case TimeOut => s.(mode := Top, fired := s.fired + [Firing(s.mode.held, s.clock)])
    case Stir => s.(mode := Roused(s.mode))
  }

  ghost predicate StepBy(s: State, r: State, e: Event) {
    Enabled(s, e) && r == Apply(s, e)
  }

  ghost predicate Next(s: State, r: State) {
    exists e :: StepBy(s, r, e)
  }

  ghost predicate IsRun(run: seq<State>) {
    |run| > 0 && run[0] == Start(run[0].clock) && forall i | 0 < i < |run| :: Next(run[i - 1], run[i])
  }

  function FiredEntries(fired: seq<Firing>): (r: seq<Entry>)
    ensures |r| == |fired|
  {
    seq(|fired|, i requires 0 <= i < |fired| => fired[i].entry)
  }

  function HeldCount(mode: Mode, x: Entry): nat {
    if mode.WaitTimed? && mode.held == x then 1 else 0
  }

  ghost predicate Conserved(s: State, x: Entry) {
    Count(s.requested, x) == Count(s.list, x) + HeldCount(s.mode, x) + Count(FiredEntries(s.fired), x)
  }

  /** `current` is the earliest time among the alarm held and the alarms listed. */
  ghost predicate CurrentIsMin(s: State)
    requires s.mode.WaitTimed?
  {
    && s.current <= s.mode.held.time
    && (forall e | e in s.list :: s.current <= e.time)
    && (s.current == s.mode.held.time || exists e :: e in s.list && s.current == e.time)
  }

  ghost predicate TimingInv(s: State) {
    match s.mode
    case WaitEmpty(asleep) => (asleep ==> s.list == []) && (s.list == [] ==> s.current == 0)
    case WaitTimed(held, asleep) => CurrentIsMin(s) && (asleep ==> s.current == held.time)
    case _ => true
  }

  ghost predicate Inv(s: State) {
    && Sorted(s.list)
    && (forall f | f in s.fired :: f.entry.time <= f.at <= s.clock)
  }

  /** Everything still pending was requested, so it inherits what is assumed of requests. */
  ghost predicate PendingRequested(s: State) {
    && (forall e | e in s.list :: e in s.requested)
    && (s.mode.WaitTimed? ==> s.mode.held in s.requested)
  }

  lemma FiredAppend(fired: seq<Firing>, f: Firing, x: Entry)
    ensures Count(FiredEntries(fired + [f]), x) == Count(FiredEntries(fired), x) + if f.entry == x then 1 else 0
  {
    assert FiredEntries(fired + [f]) == FiredEntries(fired) + [f.entry];
    CountAppend(FiredEntries(fired), f.entry, x);
  }

  lemma RequestConserves(s: State, id: nat, seconds: int, x: Entry)
    requires Conserved(s, x) && Enabled(s, Request(id, seconds))
    ensures Conserved(Apply(s, Request(id, seconds)), x)
  {
    var entry := Entry(id, s.clock + seconds);
    InsertedCount(s.list, entry, x);
    CountAppend(s.requested, entry, x);
  }

  /** Taking the first alarm, from a state that holds none, moves it to be held or fired. */
  lemma TakeConserves(s: State, x: Entry)
    requires Conserved(s, x) && !s.mode.WaitTimed? && s.list != []
    ensures Conserved(TakeFirst(s), x)
  {
    FiredAppend(s.fired, Firing(s.list[0], s.clock), x);
  }

  lemma ConservedStep(s: State, r: State, e: Event, x: Entry)
    requires Conserved(s, x) && StepBy(s, r, e)
    ensures Conserved(r, x)
  {
    if e.Request? {
      RequestConserves(s, e.id, e.seconds, x);
    } else if e.WakeTimed? {
      InsertedCount(s.list, s.mode.held, x);
    } else if e.TimeOut? {
      FiredAppend(s.fired, Firing(s.mode.held, s.clock), x);
    } else if e.Loop? && s.list != [] {
      TakeConserves(s.(current := 0), x);
    } else if e.WakeEmpty? && s.list != [] {
      TakeConserves(s, x);
    }
  }

  lemma InvStep(s: State, r: State, e: Event)
    requires Inv(s) && PendingRequested(s) && StepBy(s, r, e)
    ensures Inv(r) && PendingRequested(r)
  {
    if e.Request? {
      InsertedSorted(s.list, Entry(e.id, s.clock + e.seconds));
    } else if e.WakeTimed? {
      InsertedSorted(s.list, s.mode.held);
    }
  }

  /** Only a request for a later time, made while an epoch alarm is the earliest one, is unsafe. */
  predicate Safe(s: State, e: Event) {
    e.Request? && s.mode.WaitTimed? ==> s.current != 0 || s.clock + e.seconds <= 0
  }

  /** Every request before state k was safe. */
  ghost predicate AllSafe(run: seq<State>, k: nat)
    requires k < |run|
  {
    forall i: nat, e | i < k && StepBy(run[i], run[i + 1], e) :: Safe(run[i], e)
  }

  lemma TimingStep(s: State, r: State, e: Event)
    requires Inv(s) && TimingInv(s) && StepBy(s, r, e) && Safe(s, e)
    ensures TimingInv(r)
  {
    if e.Request? {
      var entry := Entry(e.id, s.clock + e.seconds);
      InsertedSorted(s.list, entry);
      if s.mode.WaitTimed? {
        assert entry in r.list;
      }
    }
  }

  lemma UnsafeStep(s: State, r: State, e: Event)
    requires Inv(s) && TimingInv(s) && StepBy(s, r, e) && !Safe(s, e)
    ensures r.mode.WaitTimed? && !CurrentIsMin(r)
  {
    InsertedSorted(s.list, Entry(e.id, s.clock + e.seconds));
  }

  lemma {:induction false} RunInv(run: seq<State>, k: nat, x: Entry)
    requires IsRun(run) && k < |run|
    ensures Inv(run[k]) && PendingRequested(run[k]) && Conserved(run[k], x)
    ensures AllSafe(run, k) ==> TimingInv(run[k])
  {
    if k > 0 {
      RunInv(run, k - 1, x);
      assert Next(run[k - 1], run[k - 1 + 1]);
      var e :| StepBy(run[k - 1], run[k - 1 + 1], e);
      InvStep(run[k - 1], run[k], e);
      ConservedStep(run[k - 1], run[k], e, x);
      if AllSafe(run, k) {
        assert AllSafe(run, k - 1);
        TimingStep(run[k - 1], run[k], e);
      }
    }
  }

  // ---------------------------------------------------------------------------------------------
  // Main results.

  /** Every request is listed, held or fired, exactly once; the list is sorted; none fires early. */
  lemma AlarmsAreConserved(run: seq<State>, k: nat, x: Entry)
    requires IsRun(run) && k < |run|
    ensures Count(run[k].requested, x) ==
            Count(run[k].list, x) + HeldCount(run[k].mode, x) + Count(FiredEntries(run[k].fired), x)
    ensures Sorted(run[k].list)
    ensures forall f | f in run[k].fired :: f.entry.time <= f.at <= run[k].clock
  {
    RunInv(run, k, x);
  }

  /**
   * In a timed wait `current` is the earliest pending time, and a thread that sleeps on holds an
   * alarm no later than any listed one; in an untimed sleep nothing is listed.
   */
  lemma NeverOversleeps(run: seq<State>, k: nat)
    requires IsRun(run) && k < |run| && AllSafe(run, k)
    ensures run[k].mode.WaitTimed? ==> CurrentIsMin(run[k])
    ensures run[k].mode.WaitTimed? && run[k].mode.asleep ==>
              forall e | e in run[k].list :: run[k].mode.held.time <= e.time
    ensures run[k].mode == WaitEmpty(true) ==> run[k].list == []
  {
    RunInv(run, k, Entry(0, 0));
  }

  ghost predicate TimesTheEarliest(run: seq<State>, k: nat)
    requires k < |run|
  {
    forall i: nat | i <= k && run[i].mode.WaitTimed? :: CurrentIsMin(run[i])
  }

  /** `current` is the earliest pending time throughout a run exactly when every request was safe. */
  lemma {:induction false} EarliestExactlyWhenSafe(run: seq<State>, k: nat)
    requires IsRun(run) && k < |run|
    ensures TimesTheEarliest(run, k) <==> AllSafe(run, k)
  {
    RunInv(run, k, Entry(0, 0));
    if k > 0 {
      EarliestExactlyWhenSafe(run, k - 1);
      RunInv(run, k - 1, Entry(0, 0));
      if AllSafe(run, k - 1) {
        var before, after := run[k - 1], run[k - 1 + 1];
        if e :| StepBy(before, after, e) && !Safe(before, e) {
          UnsafeStep(before, after, e);
        }
      } else {
        assert !TimesTheEarliest(run, k - 1);
      }
    }
  }

  /** No request fell due exactly at the epoch, the time that `current` uses to say "not timing". */
  ghost predicate NoZeroTimes(s: State) {
    forall e | e in s.requested :: e.time != 0
  }

  lemma NoZeroBefore(s: State, r: State, e: Event)
    requires StepBy(s, r, e) && NoZeroTimes(r)
    ensures NoZeroTimes(s)
  {
    assert forall x | x in s.requested :: x in r.requested;
  }

  lemma NonzeroIsSafe(s: State)
    requires PendingRequested(s) && TimingInv(s) && NoZeroTimes(s)
    ensures forall e :: Safe(s, e)
  {
  }

  lemma NonzeroStepIsSafe(run: seq<State>, k: nat)
    requires IsRun(run) && k < |run| && NoZeroTimes(run[k]) && AllSafe(run, k)
    ensures forall e :: Safe(run[k], e)
  {
    RunInv(run, k, Entry(0, 0));
    NonzeroIsSafe(run[k]);
  }

  lemma SafeOneMore(run: seq<State>, k: nat)
    requires k + 1 < |run| && AllSafe(run, k) && forall e :: Safe(run[k], e)
    ensures AllSafe(run, k + 1)
  {
  }

  lemma NoZeroEarlier(run: seq<State>, k: nat)
    requires IsRun(run) && k + 1 < |run| && NoZeroTimes(run[k + 1])
    ensures NoZeroTimes(run[k])
  {
    assert Next(run[k + 1 - 1], run[k + 1]);
    var e :| StepBy(run[k], run[k + 1], e);
    NoZeroBefore(run[k], run[k + 1], e);
  }

  /** When no time is zero, every request is safe. */
  lemma {:induction false} NonzeroTimesAreSafe(run: seq<State>, k: nat)
    requires IsRun(run) && k < |run| && NoZeroTimes(run[k])
    ensures AllSafe(run, k)
  {
    if k > 0 {
      NoZeroEarlier(run, k - 1);
      NonzeroTimesAreSafe(run, k - 1);
      NonzeroStepIsSafe(run, k - 1);
      SafeOneMore(run, k - 1);
    }
  }

  lemma EarlierRequestSignals(s: State, r: State, id: nat, seconds: int)
    requires Sorted(s.list) && s.mode.WaitTimed? && StepBy(s, r, Request(id, seconds)) && TimingInv(r)
    ensures r.mode.WaitTimed?
    ensures s.clock + seconds < s.mode.held.time ==> !r.mode.asleep
  {
    InsertedSorted(s.list, Entry(id, s.clock + seconds));
    assert Entry(id, s.clock + seconds) in r.list;
  }

  /** A request that comes before the alarm being timed always signals the sleeper. */
  lemma EarlierRequestsSignal(run: seq<State>, k: nat, id: nat, seconds: int)
    requires IsRun(run) && k + 1 < |run| && AllSafe(run, k + 1)
    requires StepBy(run[k], run[k + 1], Request(id, seconds)) && run[k].mode.WaitTimed?
    ensures run[k + 1].mode.WaitTimed?
    ensures run[k].clock + seconds < run[k].mode.held.time ==> !run[k + 1].mode.asleep
  {
    RunInv(run, k, Entry(0, 0));
    RunInv(run, k + 1, Entry(0, 0));
    EarlierRequestSignals(run[k], run[k + 1], id, seconds);
  }

  predicate Pending(s: State, x: Entry) {
    x in s.list || (s.mode.WaitTimed? && s.mode.held == x)
  }

  predicate IsThreadEvent(e: Event) {
    e.Lock? || e.Loop? || e.WakeEmpty? || e.WakeTimed? || e.TimeOut?
  }

  /** A step of the alarm thread other than a wakeup that goes back to sleep. */
  predicate Productive(s: State, e: Event) {
    && Enabled(s, e)
    && IsThreadEvent(e)
    && (e.WakeEmpty? ==> s.list != [])
    && (e.WakeTimed? ==> s.current != s.mode.held.time)
  }

  /** When any pending alarm is due, the alarm thread has a productive step to take. */
  lemma DueAlarmsAreNotSleptThrough(run: seq<State>, k: nat, x: Entry)
    requires IsRun(run) && k < |run| && AllSafe(run, k)
    requires Pending(run[k], x) && x.time <= run[k].clock
    ensures exists e :: Productive(run[k], e)
  {
    RunInv(run, k, x);
    var s := run[k];
    if s.mode.WaitTimed? {
      assert Productive(s, TimeOut) || Productive(s, WakeTimed);
    } else {
      assert Productive(s, Lock) || Productive(s, Loop) || Productive(s, WakeEmpty);
    }
  }

  /** How many of the listed alarms are due at time t. */
  function DueBy(list: seq<Entry>, t: int): nat {
    if list == [] then 0 else (if list[0].time <= t then 1 else 0) + DueBy(list[1..], t)
  }

  lemma {:induction false} InsertedDue(list: seq<Entry>, e: Entry, t: int)
    ensures DueBy(Inserted(list, e), t) == DueBy(list, t) + if e.time <= t then 1 else 0
  {
    if list == [] || list[0].time >= e.time {
      assert ([e] + list)[1..] == list;
    } else {
      InsertedDue(list[1..], e, t);
      assert ([list[0]] + Inserted(list[1..], e))[1..] == Inserted(list[1..], e);
    }
  }

  /** Steps the alarm thread has to take at most until nothing pending is due at time t. */
  function StepsUntilFired(s: State, t: int): nat {
    var held := if s.mode.WaitTimed? && s.mode.held.time <= t then 1 else 0;
    2 * (DueBy(s.list, t) + held) + if s.mode.Top? then 0 else 1
  }

  /** With x listed and due, the first alarm of the list is due, and taking it fires it. */
  lemma FirstIsDue(s: State, x: Entry)
    requires Sorted(s.list) && x in s.list
    ensures s.list != [] && s.list[0].time <= x.time
  {
    var i :| 0 <= i < |s.list| && s.list[i] == x;
    assert i > 0 ==> s.list[0].time <= s.list[i].time;
  }

  /** Putting the alarm held back into the list keeps everything pending. */
  lemma WakeBeforeFiring(s: State, r: State, x: Entry)
    requires StepBy(s, r, WakeTimed) && Pending(s, x)
    ensures Pending(r, x) && r.clock == s.clock
    ensures StepsUntilFired(r, x.time) <= StepsUntilFired(s, x.time)
    ensures s.current != s.mode.held.time ==> StepsUntilFired(r, x.time) < StepsUntilFired(s, x.time)
  {
    InsertedDue(s.list, s.mode.held, x.time);
    InsertedMembers(s.list, s.mode.held);
  }

  /**
   * While an alarm x is due and pending, every productive step of the alarm thread lowers the number of
   * steps until x is fired, and nothing else raises it but a request that is no later than x.
   */
  lemma StepsBeforeFiring(s: State, r: State, e: Event, x: Entry)
    requires Sorted(s.list) && StepBy(s, r, e) && Pending(s, x) && x.time <= s.clock
    requires e.Request? ==> s.clock + e.seconds > x.time
    ensures StepsUntilFired(r, x.time) <= StepsUntilFired(s, x.time)
    ensures Productive(s, e) ==> StepsUntilFired(r, x.time) < StepsUntilFired(s, x.time)
    ensures x.time <= r.clock && (Pending(r, x) || Firing(x, s.clock) in r.fired)
  {
    if e.Request? {
      var entry := Entry(e.id, s.clock + e.seconds);
      InsertedDue(s.list, entry, x.time);
      InsertedMembers(s.list, entry);
    } else if e.WakeTimed? {
      WakeBeforeFiring(s, r, x);
    } else if e.Loop? || e.WakeEmpty? {
      FirstIsDue(s, x);
    } else if e.TimeOut? {
      assert Firing(s.mode.held, s.clock) in r.fired;
    }
  }

  /** Some step from state j to state k fires x. */
  ghost predicate FiredBetween(run: seq<State>, j: nat, k: nat, x: Entry)
    requires j <= k < |run|
  {
    exists i :: j <= i < k && Firing(x, run[i].clock) in run[i + 1].fired
  }

  /** How many of the steps from state j to state k are productive. */
  ghost function ProductiveSteps(run: seq<State>, events: seq<Event>, j: nat, k: nat): nat
    requires j <= k < |run| == |events|
    decreases k
  {
    if j == k then 0
    else ProductiveSteps(run, events, j, k - 1) + if Productive(run[k - 1], events[k - 1]) then 1 else 0
  }

  /** From state j to state k the events lead from each state to the next, and no request comes before x. */
  ghost predicate NothingEarlier(run: seq<State>, events: seq<Event>, j: nat, k: nat, x: Entry)
    requires j <= k < |run| == |events|
  {
    forall i: nat | j <= i < k ::
      StepBy(run[i], run[i + 1], events[i]) &&
      (events[i].Request? ==> run[i].clock + events[i].seconds > x.time)
  }

  lemma ListsAreSorted(run: seq<State>, k: nat)
    requires IsRun(run) && k < |run|
    ensures Sorted(run[k].list)
  {
    RunInv(run, k, Entry(0, 0));
  }

  /**
   * A due alarm is fired after boundedly many productive steps of the alarm thread, which by
   * DueAlarmsAreNotSleptThrough never lacks one: on a stretch of a run without requests that come
   * before it, the alarm has been fired or the thread has taken fewer such steps than the bound.
   */
  lemma {:induction false} DueAlarmsAreFired(run: seq<State>, events: seq<Event>, j: nat, k: nat, x: Entry)
    requires IsRun(run) && j <= k < |run| == |events| && NothingEarlier(run, events, j, k, x)
    requires Pending(run[j], x) && x.time <= run[j].clock
    ensures || FiredBetween(run, j, k, x)
            || (&& Pending(run[k], x)
                && x.time <= run[k].clock
                && StepsUntilFired(run[k], x.time) + ProductiveSteps(run, events, j, k) <= StepsUntilFired(run[j], x.time))
    decreases k - j
  {
    if j < k {
      var i := k - 1;
      assert NothingEarlier(run, events, j, i, x);
      DueAlarmsAreFired(run, events, j, i, x);
      if !FiredBetween(run, j, i, x) {
        ListsAreSorted(run, i);
        StepsBeforeFiring(run[i], run[i + 1], events[i], x);
      }
    }
  }

  // ---------------------------------------------------------------------------------------------
  // What is requested is what is timed and fired.

  /** The events that lead from each state of a run to the next. */
  ghost predicate IsHistory(run: seq<State>, events: seq<Event>) {
    && IsRun(run)
    && |events| == |run| - 1
    && forall i | 0 <= i < |events| :: StepBy(run[i], run[i + 1], events[i])
  }

  /** How far the ticks among the events move the clock. */
  function Ticked(events: seq<Event>): nat {
    if events == [] then 0
    else
      var last := events[|events| - 1];
      Ticked(events[..|events| - 1]) + if last.Tick? then last.amount else 0
  }

  /** The alarms asked for among the events, each due so many seconds after the clock at that event. */
  function AskedFor(events: seq<Event>, clock: int): seq<Entry> {
    if events == [] then []
    else
      var before, last := events[..|events| - 1], events[|events| - 1];
      AskedFor(before, clock) +
        if last.Request? then [Entry(last.id, clock + Ticked(before) + last.seconds)] else []
  }

  lemma OneMoreEvent(events: seq<Event>, k: nat, clock: int)
    requires 0 < k <= |events|
    ensures var last := events[k - 1];
            && Ticked(events[..k]) == Ticked(events[..k - 1]) + (if last.Tick? then last.amount else 0)
            && AskedFor(events[..k], clock) == AskedFor(events[..k - 1], clock) +
                 if last.Request? then [Entry(last.id, clock + Ticked(events[..k - 1]) + last.seconds)] else []
  {
    assert events[..k][..k - 1] == events[..k - 1];
  }

  lemma StepsRequest(s: State, r: State, events: seq<Event>, k: nat, clock: int)
    requires 0 < k <= |events| && StepBy(s, r, events[k - 1])
    requires s.clock == clock + Ticked(events[..k - 1]) && s.requested == AskedFor(events[..k - 1], clock)
    ensures r.clock == clock + Ticked(events[..k]) && r.requested == AskedFor(events[..k], clock)
  {
    OneMoreEvent(events, k, clock);
  }

  /** The clock is moved by the ticks alone, and the alarms requested are those asked for, in order. */
  lemma {:induction false} RequestedIsAskedFor(run: seq<State>, events: seq<Event>, k: nat)
    requires IsHistory(run, events) && k < |run|
    ensures run[k].clock == run[0].clock + Ticked(events[..k])
    ensures run[k].requested == AskedFor(events[..k], run[0].clock)
  {
    if k > 0 {
      RequestedIsAskedFor(run, events, k - 1);
      assert StepBy(run[k - 1], run[k - 1 + 1], events[k - 1]);
      StepsRequest(run[k - 1], run[k], events, k, run[0].clock);
    }
  }

  /** Every alarm fired was asked for in an earlier event, and that many seconds before, at least. */
  lemma {:induction false} FiredWasAskedFor(run: seq<State>, events: seq<Event>, k: nat, f: Firing) returns (i: nat)
    requires IsHistory(run, events) && k < |run| && f in run[k].fired
    ensures i < k && events[i].Request? && events[i].id == f.entry.id
    ensures f.entry.time == run[i].clock + events[i].seconds <= f.at
  {
    RunInv(run, k, f.entry);
    FiredIsRequested(run, k, f);
    i := RequestOf(run, events, k, f.entry);
  }

  lemma FiredIsRequested(run: seq<State>, k: nat, f: Firing)
    requires IsRun(run) && k < |run| && f in run[k].fired
    ensures f.entry in run[k].requested && f.entry.time <= f.at
  {
    RunInv(run, k, f.entry);
    var s := run[k];
    var n :| 0 <= n < |s.fired| && s.fired[n] == f;
    assert FiredEntries(s.fired)[n] == f.entry;
    CountNone(FiredEntries(s.fired), f.entry);
    CountNone(s.requested, f.entry);
  }

  lemma {:induction false} RequestOf(run: seq<State>, events: seq<Event>, k: nat, e: Entry) returns (i: nat)
    requires IsHistory(run, events) && k < |run| && e in run[k].requested
    ensures i < k && events[i].Request? && events[i].id == e.id && e.time == run[i].clock + events[i].seconds
  {
    assert k > 0;
    var before := run[k - 1];
    assert StepBy(before, run[k - 1 + 1], events[k - 1]);
    if e in before.requested {
      i := RequestOf(run, events, k - 1, e);
    } else {
      i := k - 1;
    }
  }

  /** The alarm thread sleeps on when it wakes to an empty list, or to find nothing earlier than its alarm. */
  lemma WaiterSleeps(s: State, e: Event)
    requires Enabled(s, e)
    ensures e.WakeEmpty? && s.list == [] ==> Apply(s, e) == s.(mode := WaitEmpty(true))
    ensures e.WakeTimed? && s.current == s.mode.held.time ==> Apply(s, e) == s.(mode := WaitTimed(s.mode.held, true))
    ensures e.Loop? && s.list == [] ==> Apply(s, e) == s.(current := 0, mode := WaitEmpty(true))
    ensures s.mode.Starting? ==> Enabled(s, Lock)
    ensures s.mode.Top? ==> Enabled(s, Loop)
    ensures s.mode == WaitEmpty(false) ==> Enabled(s, WakeEmpty)
    ensures s.mode.WaitTimed? && !s.mode.asleep ==> Enabled(s, WakeTimed)
    ensures s.mode.WaitTimed? && s.mode.held.time <= s.clock ==> Enabled(s, TimeOut)
    ensures forall amount :: Enabled(s, Tick(amount))
  {
  }

  /** Any sleep may end without a signal, and outside the alarm thread's own steps any request may come. */
  lemma SleeperMayStir(s: State)
    ensures (s.mode.WaitEmpty? || s.mode.WaitTimed?) && s.mode.asleep ==>
              Enabled(s, Stir) && Apply(s, Stir) == s.(mode := s.mode.(asleep := false))
    ensures forall id, seconds | !s.mode.Top? ::
              Enabled(s, Request(id, seconds)) &&
              Apply(s, Request(id, seconds)).list == Inserted(s.list, Entry(id, s.clock + seconds))
  {
  }

  function Latest(run: seq<State>): State
    requires run != []
  {
    run[|run| - 1]
  }

  lemma RunExtended(run: seq<State>, e: Event) returns (longer: seq<State>)
    requires IsRun(run) && Enabled(Latest(run), e)
    ensures IsRun(longer) && Latest(longer) == Apply(Latest(run), e)
  {
    longer := run + [Apply(Latest(run), e)];
    assert StepBy(longer[|run| - 1], longer[|run|], e);
    forall i | 0 < i < |longer| ensures Next(longer[i - 1], longer[i]) {
      if i < |run| {
        assert Next(run[i - 1], run[i]);
      }
    }
  }

  /** The alarm thread times an alarm requested at clock 5 for 9. */
  lemma TimingRun() returns (run: seq<State>)
    ensures IsRun(run)
    ensures Latest(run) == State(5, [], 9, WaitTimed(Entry(0, 9), true), [Entry(0, 9)], [])
  {
    var a := Entry(0, 9);
    run := [Start(5)];
    run := RunExtended(run, Request(0, 4));
    assert Latest(run) == State(5, [a], 9, Starting, [a], []);
    run := RunExtended(run, Lock);
    run := RunExtended(run, Loop);
  }

  /**
   * The exception is real: an alarm due exactly at the epoch sets `current` to the value that means
   * "not timing", the next request overwrites it with the very time being waited for, and the
   * thread goes back to sleep although an overdue alarm is listed.
   */
  lemma AnEpochAlarmIsSleptThrough()
    ensures exists run: seq<State> :: IsRun(run) &&
              var s := Latest(run);
              s.mode == WaitTimed(Entry(0, 9), true) && Entry(1, 0) in s.list && s.clock == 5
  {
    var a, b, c := Entry(0, 9), Entry(1, 0), Entry(2, 9);
    var run := TimingRun();
    run := RunExtended(run, Request(1, -5));
    assert Latest(run) == State(5, [b], 0, WaitTimed(a, false), [a, b], []);
    InsertedAt([b], c, 1);
    run := RunExtended(run, Request(2, 4));
    assert Latest(run) == State(5, [b, c], 9, WaitTimed(a, false), [a, b, c], []);
    run := RunExtended(run, WakeTimed);
  }
}
