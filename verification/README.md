# Verified models of a C study collection

The repository collects small C and C++ programs: textbook thread protocols, linked structures and
algorithms. This project models the ones with the hardest correctness arguments and proves what each
is for. There is one module per component.

**Protocols.** Each one is modelled twice. A class has the source's fields and one method for each
critical section, which updates them in place and whose `ensures` gives the whole new state. A state
machine then interleaves any number of threads under an arbitrary scheduler, with spurious wakeups of
condition waits, and the main results hold in every state of every run. A run is a sequence of states
from the initial one, each the result of one step. Class and machine meet in functions that both use
(`Arrive`, `Fill` and `Drain`, `MustSignal` and `Inserted`) or in a lemma that says the machine's steps
do what the methods do (`EventsUseTheCrew`, `ScanIsReap`); the machine of the semaphore ring takes the
two copies apart into single characters.

| file | program | subject |
|---|---|---|
| `Barrier.dfy` | programs/barrier.c | the one-bit cyclic barrier |
| `BarrierClient.dfy` | programs/barrier_main.c | its two-phase client with a serial region, over the barrier's own machine |
| `Pipeline.dfy` | programs/pipe.c | the chain of one-slot stages |
| `Crew.dfy` | programs/crew.c | the work crew that feeds its own queue |
| `Alarm.dfy` | programs/alarm_cond.c | the sorted alarm list and the timing thread |
| `SharedRing.dfy` | p83.c, p84.c, p85.c, shmlocal.h | the semaphore ring, one character at a time |
| `Reaper.dfy` | p304.c | joining threads as they announce their end |

**Linked structures.** Classes whose ghost sequences say what a structure holds.

| file | program | subject |
|---|---|---|
| `ListHead.dfy` | list.h | every `list_head` operation against its sequence operation |
| `WordTable.dfy`, `WordFreq.dfy` | wordfreq.c, wordfreqpref.c | the hash table over malloc, the same over two arenas, and one meaning for both |
| `Josephus.dfy` | josephus.c, josephus2.c, mylist.c | the elimination ring over malloc and over the node pool |
| `SmartPtr.dfy` | SmartPtr.h | counted handles over an explicit memory |

**Algorithms.**

| file | program | subject |
|---|---|---|
| `LongDup.dfy` | longdup.c | the longest repeated string, from a sorted suffix array |
| `Sort.dfy` | sort.c | the quicksorts, selection and insertion sorts |
| `Eval.dfy` | eval.c | the prefix evaluator, for both operand orders |
| `FindMax.dfy` | findmax.c | the divide-and-conquer maximum subarray |

`Sequences.dfy` is shared: how often a value occurs in a sequence, how one update changes that, and
raising all elements by one amount.

Sizes (threads, stages, slots, M, N) are parameters. Integers are unbounded, except in `hash`, which
wraps modulo 2^32.

## Where the code does less than it seems to

- Barrier: `barrier_destroy` is not refused while woken threads have yet to leave; it is refused exactly
  while somebody inside waits for a cycle that is still open (`DestroyIsAllowedWhileLeaving`,
  `BusyWhileACycleIsOpen`). One bit is enough exactly when there are no more threads than the
  threshold, or the threshold is 1 or less and nobody waits for a cycle that completes
  (`OneBitIsEnoughExactly`); otherwise a thread can sleep through two cycles.
- Crew: a failed `opendir` skips the decrement of `work_count`. Once a tree that holds a directory
  that does not open has been queued, no call of `crew_start` returns any more
  (`UnopenableTreeHangsTheCaller`), and without such a tree no work is lost (`OpenTreesLoseNothing`).
  The case arises with any worker (`AnOpenMayFail`). Each tree served also costs one worker for good
  (`EachDrainCostsAWorker`), so a crew serves as many requests as it has workers and no more
  (`ServedUpToTheNumberOfWorkers`, `WorkersRunOut`), and one asked to be smaller than CREW_SIZE still has
  CREW_SIZE workers (`CreateCrew`).
- Alarm: 0 in `current_alarm` means "not timing", so an alarm due exactly at the epoch can be slept
  through (`AnEpochAlarmIsSleptThrough`). `EarliestExactlyWhenSafe` gives the exact condition, which a
  requester can read off before inserting: while an alarm is being timed, `current_alarm` is not 0 or
  the new time is not positive. Runs without a zero time always meet it (`NonzeroTimesAreSafe`).
- Longdup: a text of at most M bytes leaves -1 and no position; a text with zero bytes is handled as the
  strings up to them, and the theorem holds there too.
- SmartPtr: an object is deleted once for every wrap made of it, so exactly once exactly when it was
  wrapped once (`DeletedAsOftenAsWrapped`, `DeletedOnceExactlyWhenWrappedOnce`); a second wrap leaves the
  other handles dangling as soon as one count has gone (`DanglesExactlyWhenACountHasGone`). Assignment
  gives up the target's object before it reads the source, so a source that lives inside that object
  can be destroyed first; `AssignAfterDestroying` says exactly when it survives.
- Eval: a tree is read as it was meant exactly when its numbers are separated and no digit follows
  (`ReadsExactlySeparated`); "+12" is read as one number (`UnseparatedNumbersRunTogether`). The value
  alone can come out right by chance (`ValueAloneIsNotEnough`).
- Sort: `nthmin` returns a value only when a pivot comes to stand at k, and nothing when its range runs
  down to fewer than two elements (`NthMin`, `SmallerOfTwoIsNotReturned`); for a rank inside the range
  x[k] is right all the same.

## Model

| member | source | states |
|---|---|---|
| Barriers.Barrier.Init | cprogramming/programs/barrier.c:30-46 | A new barrier is valid, with a full counter and cycle 0 |
| Barriers.Barrier.Destroy | cprogramming/programs/barrier.c:51-83 | Invalid and busy barriers are refused, each in exactly its case, and only a success clears `valid` |
| Barriers.Barrier.Enter | cprogramming/programs/barrier.c:90-114 | Entering changes counter and cycle as the specification `Arrive` says, which the machine uses; an invalid barrier is untouched |
| Barriers.EnterLastInv | cprogramming/programs/barrier.c:103-113 | The arrival that completes a cycle keeps the invariant: everybody else is inside and has entered that cycle |
| Barriers.EnterInv | cprogramming/programs/barrier.c:97-114 | Every arrival keeps the invariant that ties counter, flag, arrivals and results |
| Barriers.RecheckInv | cprogramming/programs/barrier.c:126-133 | Every recheck, staying or leaving, keeps the invariant |
| Barriers.RunInv | cprogramming/programs/barrier.c:90-144 | The invariant holds in every state of every run with exactly `threshold` threads |
| Barriers.StepsAreCounted | cprogramming/programs/barrier.c:97-144 | A wait begins for whoever enters and ends for whoever gets out, and for nobody else; waiters sleep, and any sleeper may wake without a broadcast |
| Barriers.NobodyLeavesEarly | cprogramming/programs/barrier.c:90-144 | Whoever has returned from k waits, every thread has begun k waits |
| Barriers.OneSerialThreadPerCycle | cprogramming/programs/barrier.c:103-113 | Each completed cycle returned -1 to exactly one thread and 0 to every other that has left |
| Barriers.OneBitTellsCyclesApart | cprogramming/programs/barrier.c:101-130 | The flag differs from the remembered bit exactly when every thread has entered the awaited cycle |
| Barriers.SomeThreadCanProceed | cprogramming/programs/barrier.c:103-130 | In every reachable state some thread can enter, or is awake and can leave: no wakeup is lost |
| Barriers.BusyWhileACycleIsOpen | cprogramming/programs/barrier.c:66-69 | Destroying is refused exactly while some thread has entered a cycle that another has not |
| Barriers.DestroyIsAllowedWhileLeaving | cprogramming/programs/barrier.c:62-71 | Destroying is allowed exactly when every thread still inside has seen its cycle completed, and each of these is then awake and leaves at its next check |
| Barriers.EnoughForThreshold | cprogramming/programs/barrier.c:101-130 | With as many threads as the threshold, whoever stays inside past a completed cycle sees the flag changed |
| Barriers.SecondCycle | cprogramming/programs/barrier.c:101-130 | For any threshold from 2 up and any larger number of threads, a run in which two cycles complete while thread 0 stays inside, with the flag back where it was |
| Barriers.OneBitIsEnoughExactly | cprogramming/programs/barrier.c:101-130 | No thread ever sleeps through a completed cycle, in any run, if and only if there are at most `threshold` threads or the threshold is at most 1 |
| BarrierClient.Worker.constructor | cprogramming/programs/barrier_main.c:83-87 | Thread t starts with increment t and array[c] = c + 1 |
| BarrierClient.Worker.AddIncrement | cprogramming/programs/barrier_main.c:49-51 | The nested loops raise every element by INLOOPS times the increment |
| BarrierClient.SerialRegion | cprogramming/programs/barrier_main.c:62-67 | The serial region raises every increment by one |
| BarrierClient.WorkerReadsExact | cprogramming/programs/barrier_main.c:49-51 | A thread in its loops in pass k has increment t + k, and exactly 2k + 1 cycles are complete |
| BarrierClient.WorkInv | cprogramming/programs/barrier_main.c:49-55 | One addition, or one turn of a loop, keeps the client invariant with its exact tally of every cell |
| BarrierClient.SerialInv | cprogramming/programs/barrier_main.c:62-67 | One increment of the serial region keeps the invariant |
| BarrierClient.LastArrivalFindsAllInside | cprogramming/programs/barrier_main.c:41-55 | The thread that completes a cycle finds all others inside the barrier, so none is in the serial region |
| BarrierClient.BarrierStepInv | cprogramming/programs/barrier_main.c:41-62 | Every step inside the barrier keeps the client invariant |
| BarrierClient.RunInv | cprogramming/programs/barrier_main.c:32-70 | The client invariant holds in every state of every run |
| BarrierClient.NoRaceOnIncrement | cprogramming/programs/barrier_main.c:49-67 | No thread reads its increment while another is in the serial region, at most one is there, and each read sees t + k |
| BarrierClient.FinalValues | cprogramming/programs/barrier_main.c:95-113 | At exit increment = t + OUTLOOPS and array[c] = c + 1 + INLOOPS times the sum of t + k, for every schedule; the barrier can be destroyed |
| BarrierClient.PassSumClosed | cprogramming/programs/barrier_main.c:40-51 | The closed form of that sum |
| BarrierClient.NeverStuck | cprogramming/programs/barrier_main.c:32-70 | Until all threads are done some thread has a productive step |
| BarrierClient.RankDrops | cprogramming/programs/barrier_main.c:40-68 | No step of a thread raises its remaining work, and only an idle wakeup leaves it as it was |
| BarrierClient.WorkIsUsedUp | cprogramming/programs/barrier_main.c:40-68 | Every productive step lowers a non-negative total, so with NeverStuck the client terminates |
| Pipeline.Pipe.Create | cprogramming/programs/pipe.c:119-150 | The links built one by one form a chain of stages + 1 distinct, empty slots from head to tail |
| Pipeline.Pipe.Send | cprogramming/programs/pipe.c:45-76 | A send fills its slot if that is empty, otherwise waits, and changes no other slot |
| Pipeline.Pipe.Forward | cprogramming/programs/pipe.c:99 | A stage sends its datum plus one to the next slot and keeps its own slot full meanwhile |
| Pipeline.Pipe.Clear | cprogramming/programs/pipe.c:100-103 | The end of a round empties the stage's own slot only |
| Pipeline.Pipe.Collect | cprogramming/programs/pipe.c:224-230 | The tail's datum is returned and its slot emptied |
| Pipeline.PlaceContents | cprogramming/programs/pipe.c:67-68 | A datum put into the head joins the pipe's contents behind everything else |
| Pipeline.SendContents | cprogramming/programs/pipe.c:94-103 | Forwarding before clearing neither duplicates nor reorders: the contents stay the same |
| Pipeline.CollectContents | cprogramming/programs/pipe.c:224-230 | What is taken from the tail is the first of the contents |
| Pipeline.ModesStep | cprogramming/programs/pipe.c:93-104 | Every step keeps: sleeping stages have nothing to do, sending stages hold a full slot |
| Pipeline.RunInv | cprogramming/programs/pipe.c:84-112 | The invariant (flow, modes, ledger) holds in every state of every run |
| Pipeline.FirstInFirstOut | cprogramming/programs/pipe.c:203-232 | The n-th value collected is the n-th sent plus the number of stages, and what is in the slots is the rest, in order |
| Pipeline.EventsUseThePipe | cprogramming/programs/pipe.c:184-232 | Every event changes the slots and `active` as the pipe's own methods do |
| Pipeline.SentIsWhatWasBegun | cprogramming/programs/pipe.c:184-197 | Each value has been put into the head, or is held by a sender, exactly as often as a start was called with it |
| Pipeline.ClaimIsGranted | cprogramming/programs/pipe.c:213-222 | In every reachable state any client may claim, and it becomes a collector exactly when more data have been begun than claimed |
| Pipeline.EverythingCanBeCollected | cprogramming/programs/pipe.c:184-232 | For any values and number of stages, a run that sends them all and collects them all, each raised by the number of stages |
| Pipeline.WaitersSleep | cprogramming/programs/pipe.c:56-62 | Whoever finds its slot not as it needs it sleeps, and nothing else changes |
| Pipeline.AnyoneMayAct | cprogramming/programs/pipe.c:84-112 | Values can be begun and claimed at any time, and whoever is awake and finds the mutex free can make its next pass |
| Pipeline.LedgerBalances | cprogramming/programs/pipe.c:184-232 | `active` is started minus claimed; data in and before the pipe are `active` plus the unserved claims, so a claimant always has one coming |
| Pipeline.StagesNeverJam | cprogramming/programs/pipe.c:84-112 | With an empty tail and a datum anywhere, some stage can make progress and is not asleep |
| Pipeline.SendersStep | cprogramming/programs/pipe.c:56-75 | Room made at the head wakes a waiting sender if there is one, and an awake one stays awake until it fills the slot |
| Pipeline.CollectorsStep | cprogramming/programs/pipe.c:224-230 | The same for data at the tail and waiting collectors |
| Pipeline.NoClientIsForgotten | cprogramming/programs/pipe.c:195-230 | Whenever the head is empty and senders wait, or the tail is full and collectors wait, one of them can go on at once |
| Pipeline.CollectorsAreNotStuck | cprogramming/programs/pipe.c:203-232 | While a collector waits some stage can make progress or some client can be served |
| Pipeline.StageUsesPass | cprogramming/programs/pipe.c:93-104 | A stage step never raises the total distance to the tail, nor the passes left, and a productive one lowers both |
| Pipeline.PassIsUsedUp | cprogramming/programs/pipe.c:45-104 | Every step that moves a datum, into the head, on by a stage or out of the tail, uses one of the passes left, and only a new beginning adds any |
| Pipeline.ClaimsAreServed | cprogramming/programs/pipe.c:203-232 | While nothing new is begun, no more steps move a datum than there were passes left, and one is possible as long as a collector waits: every claim is served after boundedly many |
| WorkCrew.Crew.Create | cprogramming/programs/crew.c:335-338 | A new crew has an empty queue and no work |
| WorkCrew.Crew.Enqueue | cprogramming/programs/crew.c:203-210 | The item becomes the last of the queue, `first` and `last` delimit it, and the count goes up |
| WorkCrew.Crew.Take | cprogramming/programs/crew.c:117-132 | The first item is removed and `first` and `last` still delimit the rest; nothing happens on an empty queue |
| WorkCrew.EventsUseTheCrew | cprogramming/programs/crew.c:129-132 | Every event of the machine updates queue and counter by the functions that specify the crew's methods, or not at all |
| WorkCrew.CreateCrew | cprogramming/programs/crew.c:324-365 | More than CREW_SIZE workers are refused; anything else creates CREW_SIZE |
| WorkCrew.TakeNodes | cprogramming/programs/crew.c:129-132 | Taking an item keeps the tally of every entry of the requested trees |
| WorkCrew.PushNodes | cprogramming/programs/crew.c:200-218 | Queueing a directory's entry moves it from the worker to the queue |
| WorkCrew.FinishNodes | cprogramming/programs/crew.c:281-315 | A finished item has been processed once and leaves nothing unqueued |
| WorkCrew.StepInv | cprogramming/programs/crew.c:61-319 | Every event keeps the count, the absence of lost wakeups and the workers' positions |
| WorkCrew.RunInv | cprogramming/programs/crew.c:61-319 | These, and the tally of every entry, hold in every state of every run |
| WorkCrew.CountIsOutstandingWork | cprogramming/programs/crew.c:297-309 | `work_count` is queued plus in processing plus failed opens, and every requested entry is in exactly one place |
| WorkCrew.ReturnsWhenAllProcessed | cprogramming/programs/crew.c:442-450 | When a call returns, no requested tree holds a directory that does not open, the queue is empty, and every entry of every requested tree has been processed exactly as often as it occurs |
| WorkCrew.CallReturnsItsTree | cprogramming/programs/crew.c:386-450 | Whoever calls with a tree is back only when every entry of that tree has been processed as often as it occurs, on top of all that was processed before the call |
| WorkCrew.CallersCanGoOn | cprogramming/programs/crew.c:386-450 | With no work outstanding a waiting caller's next look lets it return, or queues the very tree it came with |
| WorkCrew.WaitersSleep | cprogramming/programs/crew.c:386-392 | A caller that finds the crew busy waits with its tree, and a worker that finds nothing to do sleeps |
| WorkCrew.AnyoneMayAct | cprogramming/programs/crew.c:371-392 | Calls may come at any time with any tree, and whoever is awake can go on |
| WorkCrew.OneFailedOpenHangsTheCaller | cprogramming/programs/crew.c:160-167 | After one failed open `work_count` stays positive and no call returns |
| WorkCrew.UnopenableTreeHangsTheCaller | cprogramming/programs/crew.c:160-167 | Once a tree that holds, at any depth, a directory that does not open has been queued, no call ever returns |
| WorkCrew.LossShowsInTheTrees | cprogramming/programs/crew.c:160-167 | An open has failed only if some requested tree holds such a directory |
| WorkCrew.OpenTreesLoseNothing | cprogramming/programs/crew.c:297-309 | When all directories of the requested trees open, `work_count` is exactly queued plus in processing |
| WorkCrew.CrewNeverSleepsOnWork | cprogramming/programs/crew.c:104-121 | With outstanding work and a worker left, some worker can make progress |
| WorkCrew.CallersSleepOnlyWhileBusy | cprogramming/programs/crew.c:386-392 | A caller sleeps only while work is outstanding |
| WorkCrew.EachDrainCostsAWorker | cprogramming/programs/crew.c:300-309 | As many workers have left as trees have been queued, but for the one outstanding, and once more trees have been queued than there are workers, no call returns any more |
| WorkCrew.ServedUpToTheNumberOfWorkers | cprogramming/programs/crew.c:300-309 | With a request outstanding and all directories opening, some worker can act if and only if no more trees have been queued than there are workers |
| WorkCrew.WorkersRunOut | cprogramming/programs/crew.c:300-309 | For any number of workers, a run that serves as many files and has one more queued |
| WorkCrew.AnOpenMayFail | cprogramming/programs/crew.c:160-167 | For any positive number of workers, a run that queues a directory that does not open and fails on it |
| WorkCrew.WorkIsUsedUp | cprogramming/programs/crew.c:104-315 | Between calls every productive event lowers the load, so the crew gets to the end of any tree |
| AlarmClock.InsertedSorted | cprogramming/programs/alarm_cond.c:50-69 | Insertion keeps the list sorted and adds just the new alarm |
| AlarmClock.InsertedAt | cprogramming/programs/alarm_cond.c:50-69 | It goes behind exactly the alarms that are earlier |
| AlarmClock.Schedule.Insert | cprogramming/programs/alarm_cond.c:39-89 | The walk and the splice realise the insertion, and it signals exactly when nobody is timing or it comes before the current alarm |
| AlarmClock.Schedule.TakeFirst | cprogramming/programs/alarm_cond.c:122-123 | The first alarm leaves the list |
| AlarmClock.ConservedStep | cprogramming/programs/alarm_cond.c:107-152 | Every event keeps inserted = listed + held + fired, for each alarm |
| AlarmClock.TimingStep | cprogramming/programs/alarm_cond.c:83-88 | Safe events keep `current_alarm` the earliest pending time |
| AlarmClock.UnsafeStep | cprogramming/programs/alarm_cond.c:83-88 | Every unsafe request breaks it |
| AlarmClock.RunInv | cprogramming/programs/alarm_cond.c:94-153 | The invariants hold in every state of every run |
| AlarmClock.AlarmsAreConserved | cprogramming/programs/alarm_cond.c:107-152 | Every alarm is listed, held or fired exactly once, the list is sorted, and none fires before its time |
| AlarmClock.RequestedIsAskedFor | cprogramming/programs/alarm_cond.c:179-192 | The alarms of a run are those of its requests, in order, each due so many seconds after the clock at its request |
| AlarmClock.FiredWasAskedFor | cprogramming/programs/alarm_cond.c:148-151 | Every alarm fired was asked for earlier, under its own identity, and no sooner fired than the seconds asked for |
| AlarmClock.WaiterSleeps | cprogramming/programs/alarm_cond.c:117-143 | The timing thread sleeps on when it wakes to an empty list or to its own alarm, and is otherwise free to go on |
| AlarmClock.NeverOversleeps | cprogramming/programs/alarm_cond.c:133-145 | In a timed wait `current_alarm` is the minimum over held and listed alarms; a sleeper holds the earliest; an untimed sleeper has an empty list |
| AlarmClock.EarliestExactlyWhenSafe | cprogramming/programs/alarm_cond.c:83-88 | The minimum is kept throughout a run if and only if every request in it was safe |
| AlarmClock.NonzeroTimesAreSafe | cprogramming/programs/alarm_cond.c:83-88 | Runs in which no alarm is due at time 0 have only safe requests |
| AlarmClock.EarlierRequestsSignal | cprogramming/programs/alarm_cond.c:83-88 | A request before the alarm being timed leaves the timing thread awake |
| AlarmClock.DueAlarmsAreNotSleptThrough | cprogramming/programs/alarm_cond.c:107-152 | While any pending alarm is due the timing thread has a step to take that does not just go back to sleep |
| AlarmClock.StepsBeforeFiring | cprogramming/programs/alarm_cond.c:107-152 | Each such step lowers the number of steps until a due alarm is fired, and only a request no later than it raises that number |
| AlarmClock.DueAlarmsAreFired | cprogramming/programs/alarm_cond.c:107-152 | Without such requests a due alarm is fired within that many steps of the timing thread |
| AlarmClock.AnEpochAlarmIsSleptThrough | cprogramming/programs/alarm_cond.c:83-88 | A run in which an overdue alarm due at the epoch is listed while the thread sleeps on a later one |
| LongestDuplicate.ComLen | cprogramming/longdup.c:13-18 | The two pointers count the common length of the two C strings |
| LongestDuplicate.CommonLengthIsLongest | cprogramming/longdup.c:13-18 | That is the length of their longest common prefix |
| LongestDuplicate.OccursIffPrefix | cprogramming/longdup.c:26-31 | A zero-free string occurs at a position exactly when it is a prefix of the C string there |
| LongestDuplicate.Sandwich | cprogramming/longdup.c:10-11 | Between two strings in the order that share a prefix every string has it |
| LongestDuplicate.NeighboursRepeat | cprogramming/longdup.c:32-36 | What a[i] and a[i+M] share occurs at M + 1 positions or more |
| LongestDuplicate.RepeatHasNeighbours | cprogramming/longdup.c:32-36 | What occurs at M + 1 positions is shared by some a[i] and a[i+M] |
| LongestDuplicate.Scan | cprogramming/longdup.c:32-36 | For n > M the scan yields the greatest length of a string with M + 1 occurrences and an entry to print one from; otherwise -1 |
| ListHeads.InitListHead | cprogramming/list.h:31-35 | The head is a list of its own |
| ListHeads.AddBetween | cprogramming/list.h:44-52 | A node put between two neighbours joins the circle there |
| ListHeads.Add | cprogramming/list.h:67-70 | The node becomes the first entry |
| ListHeads.AddTail | cprogramming/list.h:81-84 | The node becomes the last entry |
| ListHeads.DelBetween | cprogramming/list.h:93-97 | Joining the neighbours leaves the circle without the node |
| ListHeads.Del | cprogramming/list.h:106-111 | The entry is gone from the list, wherever it was, and its links are poisoned |
| ListHeads.WithoutAt | cprogramming/list.h:106-111 | What is left is every other entry, in the old order |
| ListHeads.DelInit | cprogramming/list.h:143-147 | The entry is gone and is a list of its own |
| ListHeads.Replace | cprogramming/list.h:123-130 | The new node takes the old one's place; an empty old head gives an empty new head |
| ListHeads.ReplaceInit | cprogramming/list.h:132-137 | The same, and the old node is a list of its own |
| ListHeads.MoveWithin | cprogramming/list.h:154-158 | An entry moves to the front of its own list |
| ListHeads.MoveAcross | cprogramming/list.h:154-158 | An entry moves to the front of another list, and both are intact |
| ListHeads.MoveTailWithin | cprogramming/list.h:165-170 | An entry moves to the end of its own list |
| ListHeads.MoveTailAcross | cprogramming/list.h:165-170 | An entry moves to the end of another list, and both are intact |
| ListHeads.IsLast | cprogramming/list.h:177-181 | True exactly for the last entry |
| ListHeads.Empty | cprogramming/list.h:187-190 | True exactly for a list without entries |
| ListHeads.EmptyCareful | cprogramming/list.h:205-209 | The same from both links |
| ListHeads.Singular | cprogramming/list.h:229-232 | True exactly for a list of one |
| ListHeads.RotateLeft | cprogramming/list.h:215-223 | Rotation of the sequence by one |
| ListHeads.RotateFully | cprogramming/list.h:215-223 | As many rotations as there are entries restore the list |
| ListHeads.CutBetween | cprogramming/list.h:234-244 | Two circles: the entries up to the given one on the new head, the rest on the old |
| ListHeads.CutPosition | cprogramming/list.h:260-272 | The same with the cases of the source: an empty list, a single other entry and the head itself |
| ListHeads.SpliceBetween | cprogramming/list.h:274-286 | The entries of one circle join another between two neighbours |
| ListHeads.Splice | cprogramming/list.h:293-298 | The added entries come first; the other head keeps its links |
| ListHeads.SpliceTail | cprogramming/list.h:305-310 | The added entries come last; the other head keeps its links |
| ListHeads.SpliceInit | cprogramming/list.h:319-326 | The added entries come first, and their head is empty again |
| ListHeads.SpliceTailInit | cprogramming/list.h:336-343 | The added entries come last, and their head is empty again |
| ListHeads.CutThenSplice | cprogramming/list.h:234-298 | Cutting at any entry into an empty list and splicing it back restores the original |
| ListHeads.DeleteEach | cprogramming/list.h:425-427 | Safe iteration whose body deletes visits each entry once, in order, and empties the list |
| ListHeads.Rotated | cprogramming/list.h:44-52 | A circle may be read from any of its nodes |
| ListHeads.ListLinks | cprogramming/list.h:234-244 | A list is exactly its links: no node twice, neighbours linked both ways, and closed at the head |
| SharedRing.SentencesFit | cprogramming/p84.c:45-49 | Every sentence the producer can compose fits a slot |
| SharedRing.Memory.constructor | cprogramming/p83.c:6-12 | The shared memory starts with head = tail = 0 |
| SharedRing.Memory.Put | cprogramming/p84.c:55-57 | The string stands in the tail slot, the other slots are untouched, and tail advances |
| SharedRing.Memory.Get | cprogramming/p85.c:43-46 | The string in the head slot is returned whole, and head advances |
| SharedRing.SlotsDiffer | cprogramming/p84.c:57 | Items fewer than a round apart have different slots |
| SharedRing.WriteStep | cprogramming/p84.c:55 | Writing one character disturbs no unread item |
| SharedRing.ReadStep | cprogramming/p85.c:44 | Reading one character extends a prefix of the item |
| SharedRing.RunInv | cprogramming/p84.c:50-59 | The invariant holds in every state of every run, for any number of slots |
| SharedRing.SlotsAreConserved | cprogramming/p83.c:6-12 | The two semaphores and the slots in use by either process always add up to the number of slots |
| SharedRing.ConsumedIsPrefix | cprogramming/p85.c:37-48 | The strings consumed are a prefix of those produced, at most N_SLOTS behind |
| SharedRing.ComposedIsReleased | cprogramming/p84.c:45-59 | What the producer has released, and the string it is at work on, are the strings it composed, in order |
| SharedRing.ConsumedIsComposed | cprogramming/p85.c:37-48 | The strings consumed are the first of those composed |
| SharedRing.EveryStepCounts | cprogramming/p84.c:50-59 | Every step but composing takes one off the steps until all that was composed has been consumed |
| SharedRing.EverythingIsDelivered | cprogramming/p85.c:36-52 | Until then such a step is possible, and at none left all that was composed has been consumed |
| SharedRing.ProcessesMayAct | cprogramming/p84.c:43-65 | Any string that fits may be composed next, and a process waits for nothing but its semaphore |
| SharedRing.NoSlotIsShared | cprogramming/p84.c:50-59 | The slot being written is neither being read nor unread, and no copy leaves its slot |
| SharedRing.SomeProcessCanStep | cprogramming/p85.c:37-52 | Producer and consumer are never both blocked |
| ThreadReaper.Table.constructor | cprogramming/p304.c:55-64 | All threads start alive, and the counters agree |
| ThreadReaper.Table.Announce | cprogramming/p304.c:35-36 | A thread's end is recorded and the counters stay exact |
| ThreadReaper.Table.Reap | cprogramming/p304.c:77-89 | The scan joins every terminated thread and no other; none is left unjoined |
| ThreadReaper.ScanInv | cprogramming/p304.c:77-89 | Each join keeps the counters exact and the join history without repetition |
| ThreadReaper.RunInv | cprogramming/p304.c:32-94 | The invariant holds in every state of every run |
| ThreadReaper.CountersAreExact | cprogramming/p304.c:32-94 | `numUnjoined` counts the terminated threads and `numLive` the unjoined ones, always |
| ThreadReaper.EachThreadIsJoinedOnce | cprogramming/p304.c:66-95 | No thread is joined twice, and when main finishes each has been joined once |
| ThreadReaper.NoLostWakeup | cprogramming/p304.c:38-44 | Main sleeps with a terminated thread unjoined only while a signal is still to come |
| ThreadReaper.NeverStuck | cprogramming/p304.c:66-94 | Until main finishes a step is possible that is not an idle wakeup |
| ThreadReaper.AnyoneMayAct | cprogramming/p304.c:71-75 | A thread may announce its end whenever main is not scanning, and main goes back to sleep when it wakes to no announcement |
| ThreadReaper.ScanIsReap | cprogramming/p304.c:77-89 | From the start of a scan to its end, whatever other threads do meanwhile, the machine joins what the in-place scan joins |
| ThreadReaper.WorkIsUsedUp | cprogramming/p304.c:66-95 | Every step but an idle wakeup lowers a non-negative total of announcements, signals, unjoined threads and main's position, so main finishes |
| WordTable.Hash | cprogramming/wordfreq.c:17-23 | The loop computes the polynomial modulo 2^32, then modulo NHASH |
| WordTable.HashIsPolynomial | cprogramming/wordfreq.c:17-23 | The hash of a word is the sum of s[i] * 31^(n - 1 - i), modulo 2^32 and then modulo NHASH |
| WordTable.TableCountsOccurrences | cprogramming/wordfreq.c:41-63 | After any stream each word is in its own chain only, once, with the number of its occurrences |
| WordTable.RaiseCounts | cprogramming/wordfreq.c:45-52 | Raising the count of the node found on the chain is one counting step on the table |
| WordTable.PushCounts | cprogramming/wordfreq.c:53-62 | Putting a new node in front of the chain that lacks the word is one counting step on the table |
| WordTable.SkippedAll | cprogramming/wordfreq.c:45-52 | A search that falls off the end has shown the word is not on the chain |
| WordFrequencies.MallocTable.Find | cprogramming/wordfreq.c:45-52 | The walk stops at the first node for the word, or at the end |
| WordFrequencies.MallocTable.IncWord | cprogramming/wordfreq.c:41-63 | One call is one counting step on the table of chains |
| WordFrequencies.CharArena.SMalloc | cprogramming/wordfreqpref.c:46-56 | A new range, inside its chunk and apart from all live ones, and no earlier content changed |
| WordFrequencies.CharArena.StrCpy | cprogramming/wordfreqpref.c:122 | The word stands in its own range, and no other range changes |
| WordFrequencies.CharArena.SameString | cprogramming/wordfreqpref.c:107 | Comparing against an arena string is comparing against the word stored there |
| WordFrequencies.ArenaTable.NMalloc | cprogramming/wordfreqpref.c:29-40 | Node addresses inside their group, no two alike: the n-th call returns node n |
| WordFrequencies.PushView | cprogramming/wordfreqpref.c:114-124 | A node filled in and linked in front shows as one push, and no other node changes |
| WordFrequencies.RaiseView | cprogramming/wordfreqpref.c:109 | A count raised in place shows as that node's count and nothing else |
| WordFrequencies.ArenaTable.Find | cprogramming/wordfreqpref.c:105-112 | The walk over arena nodes and strings finds what the plain table finds |
| WordFrequencies.ArenaTable.Insert | cprogramming/wordfreqpref.c:114-124 | The arena insertion is the plain one, and all ranges and nodes stay apart |
| WordFrequencies.ArenaTable.IncWord | cprogramming/wordfreqpref.c:101-125 | One call is one counting step on the table of chains |
| WordFrequencies.CountPlain | cprogramming/wordfreq.c:25-38 | After its whole input the plain program's table is the one that counts it |
| WordFrequencies.CountPooled | cprogramming/wordfreqpref.c:85-98 | So is the arena program's |
| WordFrequencies.CountBoth | cprogramming/wordfreqpref.c:85-98 | Fed the same words, both programs show the same chains with the same counts in the same order |
| Sorting.Swap | cprogramming/sort.c:13-18 | Exchanges two elements and touches no other |
| Sorting.ScanUp | cprogramming/sort.c:95 | Stops at the first element not below the pivot, or just behind the range |
| Sorting.ScanDown | cprogramming/sort.c:96 | Stops inside the range, at the latest at the pivot kept at x[l] |
| Sorting.TwoScans | cprogramming/sort.c:92-101 | The range is rearranged and split around the old x[l], which ends at the index returned |
| Sorting.QSort3 | cprogramming/sort.c:85-104 | The range is left sorted and a permutation, everything else as it was |
| Sorting.QSort4 | cprogramming/sort.c:106-126 | The same for any choice of pivot |
| Sorting.NthMin | cprogramming/sort.c:128-153 | For any rank and any draws: the range is permuted; a rank inside it ends with x[k] splitting the range; the trail of partitions is the one the draws lead to, and x[k] is returned exactly when it ends at a pivot placed at k |
| Sorting.TrailRearranges | cprogramming/sort.c:128-153 | Any such trail permutes the range and splits it at a rank inside it |
| Sorting.RankOutside | cprogramming/sort.c:133-134 | A search for a rank outside the range returns nothing |
| Sorting.SmallerOfTwoIsNotReturned | cprogramming/sort.c:133-134 | Draws that return nothing for a rank inside the range |
| Sorting.SplitIsOrderStatistic | cprogramming/sort.c:128-153 | An element that splits its range is the one sorting would put there |
| Sorting.SortedRangeIsSortOf | cprogramming/sort.c:85-126 | A sorted rearrangement of a range is unique |
| Sorting.SplitThenSorted | cprogramming/sort.c:101-103 | Sorting both sides of a split sorts the range |
| Sorting.Partition | cprogramming/sort.c:62-74 | The one-scan partition splits the range around the old x[l] |
| Sorting.QSort1 | cprogramming/sort.c:75-83 | The range is left sorted and a permutation |
| Sorting.ISort1 | cprogramming/sort.c:40-46 | The first n elements are left sorted and a permutation |
| Sorting.ISort3 | cprogramming/sort.c:48-61 | The same for shifting instead of swapping |
| JosephusRing.EliminatesEachOnce | cprogramming/josephus.c:25-36 | Each number of the circle is printed exactly once |
| JosephusRing.LastIsSurvivor | cprogramming/josephus.c:25-36 | The last number printed is the one named by J(1) = 0, J(n) = (J(n-1) + M) mod n |
| JosephusRing.EliminatedAt | cprogramming/josephus.c:25-36 | The i-th number printed, for every i, is the one named by P(n, 0) = (M-1) mod n, P(n, i) = (P(n-1, i-1) + M) mod n |
| JosephusRing.JosephusResult | cprogramming/josephus.c:9-36 | For N, M >= 1: a permutation of 1 to N in the order P, which ends with J(N) + 1 |
| JosephusRing.Build | cprogramming/josephus.c:11-23 | The circle holds 1 to N in order, current node last |
| JosephusRing.Advance | cprogramming/josephus.c:27-28 | Counting to M - 1 rotates the circle |
| JosephusRing.Round | cprogramming/josephus.c:27-31 | A round takes the counted node out and leaves the others a circle |
| JosephusRing.Josephus | cprogramming/josephus.c:7-38 | Prints the elimination sequence |
| JosephusRing.Pool.constructor | cprogramming/mylist.c:6-13 | The header and N unused nodes in a null-terminated chain |
| JosephusRing.Pool.NewNode | cprogramming/mylist.c:15-21 | The first unused node becomes a circle of its own |
| JosephusRing.Pool.FreeNode | cprogramming/mylist.c:23-26 | The node becomes the first unused one |
| JosephusRing.InsertNext | cprogramming/mylist.c:28-32 | The node follows the given one and precedes its old successor |
| JosephusRing.DeleteNext | cprogramming/mylist.c:33-38 | The successor is unlinked and returned |
| JosephusRing.BuildFromPool | cprogramming/josephus2.c:11-14 | The circle holds 1 to N and uses up the pool; header, unused nodes and circle partition the nodes |
| JosephusRing.RoundInPool | cprogramming/josephus2.c:17-19 | A round moves one node from circle to pool and keeps the partition |
| JosephusRing.JosephusFromPool | cprogramming/josephus2.c:5-23 | Prints the same elimination sequence |
| SmartPointers.WrapTally | cprogramming/SmartPtr.h:42-44 | One more wrap of an object, its first or not, is one more count on it |
| SmartPointers.WrapInv | cprogramming/SmartPtr.h:42-44 | Wrapping keeps every count exact and the tally of deletions, counts and wraps of every object |
| SmartPointers.ShareInv | cprogramming/SmartPtr.h:47-56 | So does copying |
| SmartPointers.DropCells | cprogramming/SmartPtr.h:109-114 | A count goes exactly when its last handle goes |
| SmartPointers.DropTally | cprogramming/SmartPtr.h:109-114 | A count that goes is one more deletion of its object |
| SmartPointers.DropInv | cprogramming/SmartPtr.h:109-114 | Destroying keeps the invariant |
| SmartPointers.AssignInv | cprogramming/SmartPtr.h:65-84 | Assigning keeps it, between handles that already share a count too |
| SmartPointers.AssignHandles | cprogramming/SmartPtr.h:65-84 | The target becomes the source, and no other handle changes |
| SmartPointers.CastInv | cprogramming/SmartPtr.h:31-39 | A successful cast shares the count; a null result gets one of its own; both keep the invariant |
| SmartPointers.CastHandles | cprogramming/SmartPtr.h:31-39 | A successful cast of a handle that is not null is that handle again; any other result is null with a count of its own; nothing is wrapped or deleted |
| SmartPointers.AnyOperationMayCome | cprogramming/SmartPtr.h:31-120 | Any object may be wrapped at any time, and any live handle copied, cast, assigned or destroyed |
| SmartPointers.Heap.Construct | cprogramming/SmartPtr.h:42-44 | The new handle has a count of its own at 1, nothing else changes, and the invariant is kept, whether or not the object was wrapped before |
| SmartPointers.Heap.Copy | cprogramming/SmartPtr.h:47-56 | The new handle equals the old, their count is one higher, nothing else changes, and the invariant is kept |
| SmartPointers.Heap.DynamicCast | cprogramming/SmartPtr.h:117-120 | The new handle is the old one again exactly when the cast succeeds on a handle that is not null, and otherwise null with the new count; no other handle changes |
| SmartPointers.Heap.Dispose | cprogramming/SmartPtr.h:109-114 | The handle is gone, and its object is deleted exactly when no other handle uses its count |
| SmartPointers.Heap.Assign | cprogramming/SmartPtr.h:65-84 | The target becomes the source, and the object it gives up is deleted exactly when no other handle uses its count; assigning to itself deletes nothing |
| SmartPointers.DeletedAsOftenAsWrapped | cprogramming/SmartPtr.h:31-120 | After any program, repeated wraps included: every count is its number of live handles, and an object's deletions plus the counts still on it are the wraps made of it |
| SmartPointers.DeletedOnceExactlyWhenWrappedOnce | cprogramming/SmartPtr.h:31-120 | An object no handle holds has been deleted exactly once if and only if it was wrapped exactly once; one wrapped once is not deleted while held |
| SmartPointers.DanglesExactlyWhenACountHasGone | cprogramming/SmartPtr.h:109-114 | A held object has been deleted already if and only if a count made for it has gone |
| SmartPointers.OneObjectsLife | cprogramming/SmartPtr.h:31-120 | A run for any number of copies and casts of one object, which is deleted once, by the last handle destroyed |
| SmartPointers.Destroy | cprogramming/SmartPtr.h:109-114 | When handles live inside objects, destroying one destroys the least set of handles that holds it and, with all handles on a count, those inside the object they delete, in whatever order this happens |
| SmartPointers.AssignAfterDestroying | cprogramming/SmartPtr.h:65-84 | Assigning gives up the target's object before it reads the source; the source is still there if and only if some set closed in that way holds the target without it |
| SmartPointers.SourceInsideItsTarget | cprogramming/SmartPtr.h:65-84 | A source inside the object whose only handle is the target has been destroyed before it is read |
| SmartPointers.SourceOutsideObjects | cprogramming/SmartPtr.h:65-84 | A source that lives in no object is always still there |
| PrefixEvaluator.Evaluator.Eval | cprogramming/eval.c:5-15 | Whichever operand call runs first, value and index are those of the specification, on every string; it terminates |
| PrefixEvaluator.EvaluatesPrefixForm | cprogramming/eval.c:5-15 | Every expression tree in prefix form with separated numbers is evaluated to its value, with + adding and * multiplying, and the index stops just after it |
| PrefixEvaluator.ReadsDigits | cprogramming/eval.c:12-14 | A run of digits is read to its decimal value |
| PrefixEvaluator.WrittenIsRead | cprogramming/eval.c:12-14 | The decimal text of every number, spelled with 0123456789, is all digits and has that value |
| PrefixEvaluator.OnlyDigitsAreDigits | cprogramming/eval.c:12-14 | Nothing but those ten characters is read as part of a number |
| PrefixEvaluator.ExampleIsEvaluated | cprogramming/eval.c:2 | The program's own string is evaluated to 2075 and read to its end |
| PrefixEvaluator.StopsBeforeNoDigit | cprogramming/eval.c:5-15 | On any string, no call stops in front of a digit |
| PrefixEvaluator.ReadsExactlySeparated | cprogramming/eval.c:5-15 | Every call an expression takes reads its own part, value and extent, if and only if the numbers are separated and no digit follows |
| MaximumSubarray.ScanLeft | cprogramming/findmax.c:12-19 | The greatest sum of a segment that ends at the middle |
| MaximumSubarray.ScanRight | cprogramming/findmax.c:21-26 | The greatest sum of a segment that starts behind the middle |
| MaximumSubarray.Combine | cprogramming/findmax.c:28 | The best of both halves and of the crossing segments is the best of the whole |
| MaximumSubarray.MaxSum3 | cprogramming/findmax.c:5-29 | The maximum over all segments of x[l..u], the empty one included; 0 for an empty range |
| MaximumSubarray.FindMax | cprogramming/findmax.c:30-33 | The same for the whole array |

## Left out

- pthread, malloc, semop and file errors, cancellation state, `SEM_UNDO` at process exit, printing, sleeping and the parsing of command lines: the models assume success. Clock readings, pivots, the outcome of a dynamic cast and the directory tree are parameters or free choices.
- Barriers: one model step is one critical section under the mutex; a data race on the unlocked read of `valid` is not modelled.
- BarrierClient: all threads are initialised before the first one runs. In the source a thread is initialised before it is created, and none gets past the first barrier before all exist.
- Pipeline: a client's pass through its mutex section is one step, and which of several waiting clients goes on is left to the scheduler, so fairness among them is not promised.
- WorkCrew: reading files and searching them is one step, a directory's entries are read in a fixed order, read errors in the middle of a directory are not modelled, and whether a directory opens is fixed in advance.
- AlarmClock: the requester's parsing and the message text are an identifier, and the clock is monotone.
- SharedRing: the producer's sentences may be any strings that fit a slot, and it may go on for ever; `memset` of the local buffers and the processes' ends are not modelled.
- LongestDuplicate.Scan: takes the array as sorted by `qsort` with `pstrcmp`, a library call; the MAXN limit is not modelled.
- ListHeads: the `hlist` part, `container_of` address arithmetic and the entry-typed iteration macros; each operation is told in ghost parameters which list it works on, and lists of different heads share no node.
- WordFrequencies.MallocTable: its nodes are numbered in order of allocation and hold their words as values; separately allocated memory is apart by definition.
- WordFrequencies: the 50-byte input buffer, and the printing of the chains.
- Sorting: 32-bit overflow in `intcomp` and in the arithmetic of `randint`, which is modelled as any index of the range; the element count is at most the array's length.
- Sorting.RandInt: the index drawn for a range is a parameter, because the source draws it at random; no range is drawn from twice.
- JosephusRing.JosephusFromPool: N below 1, where the source takes a node from an empty pool, is outside its precondition.
- JosephusRing: `free` of a malloc'd node, after which nothing refers to it.
- SmartPointers: handles have addresses in an explicit memory instead of being objects; of an object's destructor only the destruction of the handles inside it is modelled, and the runs are of programs whose handles live outside objects.
- PrefixEvaluator: integer overflow of the value.
- backoff.c, the earlier alarm programs, rwlock.h, generated code, library demonstrations and language exercises: nothing of these is modelled.
