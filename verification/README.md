# usfstl, modelled in Dafny

usfstl simulates several processes on one virtual clock of which only one runs at a time.
This project models the parts of it that keep that promise, and a few self-contained
algorithms of the library, and proves what they guarantee over whole runs.

| module | what it models |
|---|---|
| `CyclicTime`, `JobList`, `SchedulerRuns`, `IntrusiveList` | 64-bit wrap-around time, the ordered job list, runs of a scheduler, the linked list under it |
| `TimeTravel`, `TimeTravelSafety`, `TimeTravelHistory`, `TimeTravelLateJob`, `TimeTravelController` | the protocol between the controller and its clients over shared memory and messages |
| `ExternalSync`, `ExternalSyncOrder`, `ExternalSyncRefinement`, `ExternalSyncExact`, `LinkedClocks` | trees of schedulers that take their time from a parent: skipping requests below a bound, tick ratios |
| `GroupBlocking`, `GroupBlockingSpec`, `BlockingScheduler`, `BlockingWalk` | blocking and restoring groups of jobs |
| `SharedMem`, `SharedMemRefinement`, `SharedMemQuiet`, `SharedMemProcess`, `Postponed` | multi-process simulation: lazily sent shared memory, postponed scheduling requests |
| `Semaphore`, `SemaphoreHistory`, `SemaphoreTasks` | tasks, semaphores with priorities, timeouts and blocked waiters |
| `Allocator`, `AllocatorBytes`, `PcLookup`, `QuickSort` | the backtrace library's allocator, address lookup and sort |
| `Virtqueue`, `VirtqueueDevice` | virtqueue service (sections 2.6.5, 2.6.6 and 2.6.8 of VIRTIO 1.1) |
| `StubHash`, `Restore`, `Rand` | the stub cache, saving and restoring globals, the random generator |
| `Wrappers`, `Division` | options and outcomes, division with remainder |

State machines are written on values, with a function per operation of the code and
`Aborted` for an assertion of the code that fails. Where the code updates structures in
place there is also a class, or a method on an array, whose methods are proved equal to
those functions; what holds over runs is proved about the functions. What each operation does
is stated a second time without reference to its definition, as a relation between the states
before and after it (`Does` in `SchedulerRuns`, `TimeTravelHistory`, `ExternalSyncOrder` and
`SemaphoreHistory`) or as a simpler structure that it keeps up to date (the plan of ready and
held jobs in `GroupBlockingSpec`, a queue in `Virtqueue`, a map of stubs in `StubHash`, sets of
bytes in `AllocatorBytes`). `dafny verify dfyconfig.toml` checks everything.

What the code relies on, and the model therefore assumes:

- Time travel: the set of clients is fixed once scheduling has started, and no client
  disconnects during a shared-memory turn, because the bound is recomputed from the job list
  alone (control/main.c:605). A job that the controller itself adds during such a turn is due
  at once (the net server has no interrupt latency, control/net.c:129-135); lemma
  `LateJobSafeIff` says exactly when a later one would be safe.
- Time travel: clients ask for and report only times at or after the current one, and a client
  that runs ahead of the shared clock sends UPDATE before it makes another party act.
- A scheduler whose time is external does not check that time moves forward (src/sched.c:142-150).
- A job adds and removes jobs only on its own scheduler, which is the one that runs; the
  request made when a job is added (src/sched.c:115) is replaced by the one made before waiting.
- Shared memory: only the process that holds the run token writes, and a section is written only
  after it was announced once; a section that is not zero when first announced fails an
  assertion (src/multi-shared-mem.c:114-122). Sections of one name have one size wherever they
  are declared, otherwise other assertions fail (src/multi-shared-mem.c:69, 146, 236).
- Tasks: the priority of a task does not change while it waits, and a waiting task is not
  scheduled by hand.
- Backtrace allocator: the system returns fresh page-aligned ranges or fails, and fails for
  length 0.
- Saving globals: the entries to be restored describe objects in the program's memory.
- Virtqueue: the driver has no more heads outstanding than the ring has slots, its chains have
  no cycle and stay inside the table, and it does not change them while they are available.

Properties that turned out to hold only under a condition have the exact condition and a
counterexample: `AddKeepsInvUnlessAntipodal`, `LateJobSafeIff`, `SkipIsAskingIff`,
`ParkedAddReturnsNowIff`, `DivRoundUpIff`, `LinkKeepsTimeIff`, `LinkedJobIff`,
`RepeatKeepsPlaceIff`, `EveryAddressFoundIff`, `WrapKeepsSlotIff` and `RunIsFifoIff`.

## Model

| member | source | states |
|---|---|---|
| CyclicTime.WindowOrder | include/usfstl/sched.h:174-176 | seen from a base at or before both times, every comparison of the macro is the comparison of distances from the base |
| CyclicTime.StrictTotalOrderOnWindow | include/usfstl/sched.h:174-176 | on a window narrower than 2^63 the comparison is a strict total order |
| CyclicTime.ComparableUnlessAntipodal | include/usfstl/sched.h:174-176 | without a window, two times are ordered exactly when they are not 2^63 apart; then each is "greater" than the other |
| CyclicTime.AheadUnlessAntipodal | include/usfstl/sched.h:174-176 | a time that passes the `>=` check lies ahead unless it is exactly 2^63 away |
| CyclicTime.PlainBelowHalf | include/usfstl/sched.h:174-176 | below 2^63 the comparison is the plain one |
| JobList.Position | src/sched.c:93-99 | the scan stops at the first job that starts later, or at the same time with lower priority |
| JobList.Insert | src/sched.c:93-105 | the new list holds the old jobs and the new one, each once |
| JobList.Delete | src/sched.c:126-132 | exactly the job asked for is gone |
| JobList.InsertSorted | src/sched.c:70-119 | insertion keeps the list sorted by start, then descending priority, then insertion order |
| JobList.DeleteSorted | src/sched.c:126-132 | deletion keeps the list sorted |
| JobList.SortedAdvances | src/sched.c:203-266 | the order does not change while time moves forward and passes no job |
| JobList.HeadIsFirst | src/sched.c:291-296 | time can move to the first job without passing any job |
| SchedulerRuns.AddKeepsInvUnlessAntipodal | src/sched.c:70-119 | an accepted job keeps list and history in order if and only if it does not start exactly 2^63 from now |
| SchedulerRuns.AntipodalJobOvertakes | src/sched.c:74-105 | a job 2^63 ahead passes the assertion and is put in front of one that is due now |
| SchedulerRuns.NextKeepsInv | src/sched.c:203-266 | running the next job keeps the invariant and does not move time back |
| SchedulerRuns.StepKeepsInv | src/sched.c:70-266 | so does every operation |
| SchedulerRuns.RunExecutesInOrder | src/sched.c:203-266 | the invariant (jobs ran exactly on time, in order) over every run |
| SchedulerRuns.RunFromEmpty | src/sched.c:203-266 | in every run jobs execute at their start, time never decreases, and of two jobs queued together the one that sorts first runs first |
| SchedulerRuns.StepDoes | src/sched.c:70-266 | adding queues exactly that job; deleting takes exactly that one; next executes, at its time, a job that sorts before all others, and leaves the rest; an operation is refused exactly if the time is past, the job is already queued or the list is empty |
| SchedulerRuns.RunAccounts | src/sched.c:70-266 | in every run a job that was queued or added is, unless it was deleted, queued or executed exactly as often as it was added, and no other job appears |
| IntrusiveList.List.constructor | include/usfstl/list.h:33-37 | an initialised list is empty and well linked |
| IntrusiveList.List.InsertBefore | include/usfstl/list.h:39-46 | the four pointer writes insert the entry at that position of the ring and leave it well linked |
| IntrusiveList.List.Append | include/usfstl/list.h:48-52 | the entry becomes the last one |
| IntrusiveList.List.Remove | include/usfstl/list.h:89-95 | the entry leaves the ring, its pointers are cleared, the rest stays linked |
| IntrusiveList.List.Length | include/usfstl/list.h:97-106 | the count is the number of items |
| IntrusiveList.List.Scan | src/sched.c:93-99 | the walk over the pointers finds `JobList.Position` |
| IntrusiveList.List.AddJob | src/sched.c:93-105 | the linked list afterwards is `JobList.Insert` of the one before |
| IntrusiveList.List.RemoveFirst | src/sched.c:126-132 | the first job leaves, the rest stays in order |
| IntrusiveList.List.TakeFirst | src/sched.c:203-266 | taking the first job fails exactly on an empty list and otherwise leaves the rest |
| TimeTravelSafety.RequestGood | src/schedctrl.c:316-357 | a request through shared memory keeps the protocol invariant and fails no assertion |
| TimeTravelSafety.MessageGood | control/main.c:377-410 | so does a REQUEST message, with or without a shared-memory client running |
| TimeTravelSafety.ForwardGood | src/schedctrl.c:294-314 | a shared-memory client that moves the clock passes neither the bound nor any pending request |
| TimeTravelSafety.LocalGood | src/sched.c:178-194 | a message client that stays below its FREE_UNTIL bound passes nothing pending |
| TimeTravelSafety.UpdateGood | control/main.c:476-481 | UPDATE moves the controller's clock forward and passes no job |
| TimeTravelSafety.WakeGood | src/schedctrl.c:228-246 | a resumed shared-memory client clears its own request only |
| TimeTravelSafety.WaitGood | control/main.c:450-459 | WAIT gives the run token back; every request still pending is at or after the time the client reached; no request, client or job changes |
| TimeTravelSafety.EndCallbackGood | src/sched.c:203-266 | so does the end of a job of the controller |
| TimeTravelSafety.AddGood | control/main.c:592-630 | a job of the controller that is due at once during a turn keeps the bound safe |
| TimeTravelSafety.TransferGood | control/main.c:314-332 | after the transfer every client's pending request is on the job list at its requested time and nowhere else; the controller's own jobs and everything but the list, its stamps and the bound are unchanged |
| TimeTravelSafety.NextGood | control/main.c:682-700 | the next client is told to run at its most recent request, with a bound that covers everything pending |
| TimeTravelSafety.StepGood | control/main.c:865-871 | every step keeps the invariant, fails no assertion, moves time only forward and past no pending request |
| TimeTravelSafety.InvNothingOverrun | control/main.c:592-630 | while a shared-memory client runs, current_time <= free_until, and free_until is at or before every job and every flagged request of another client |
| TimeTravelSafety.InitialInv | control/main.c:847-851 | the invariant holds when scheduling starts |
| TimeTravelSafety.RunSafe | control/main.c:865-871 | over every run: no assertion fails, no request is overrun, time has not moved back |
| TimeTravelSafety.RunGrants | control/main.c:682-700 | over every run: each RUN is at exactly the client's most recent request, only while nobody else runs, in non-decreasing time order across clients |
| TimeTravelHistory.HeadIsNext | control/main.c:865-871 | when the controller is ready, the first job on its list is the next of all pending requests and own jobs: the earliest, of highest priority among equals |
| TimeTravelHistory.StepDoes | control/main.c:377-481 | each event of the protocol, in terms of which requests and own jobs are pending: a request makes exactly itself pending and the bound as tight as that needs, a run takes exactly the next one off and publishes the latest admissible bound, WAIT, wake-up and transfer keep all of them, adding and cancelling change only that job |
| TimeTravelHistory.RunLosesNoRequest | control/main.c:314-332 | over every run: a client has a request pending exactly if it has asked since it was last told to run, for the time it asked for last; whenever the controller is ready, exactly those clients are on the job list, each at that time |
| TimeTravelSafety.LateJobSafeIff | control/main.c:592-630 | a job added during a shared-memory turn keeps every request covered if and only if each is covered by that job, by the first job, or lies 2^62 away |
| TimeTravelLateJob.TwoClientsReached | control/main.c:865-871 | a run of the protocol from its start to a state with one client running and another one's request in shared memory |
| TimeTravelLateJob.LateJobOverrunsRequest | control/main.c:605 | in that reachable state a later job of the controller lets the running client pass the other one's request |
| TimeTravelController.Controller.constructor | control/main.c:847-851 | the object starts in an initial state of the protocol |
| TimeTravelController.Controller.UpdateSync | control/main.c:592-630 | publishes the bound, and tells a running message client unless it already knows |
| TimeTravelController.Controller.HandleRequest | control/main.c:377-410 | is the protocol's REQUEST step |
| TimeTravelController.Controller.RequestShm | src/schedctrl.c:316-357 | is the protocol's shared-memory request |
| TimeTravelController.Controller.SetTime | src/schedctrl.c:294-314 | is the protocol's clock movement; its assertions hold |
| TimeTravelController.Controller.ClientWakes | src/schedctrl.c:238-245 | is the protocol's wake-up |
| TimeTravelController.Controller.HandleUpdate | control/main.c:476-481 | is the protocol's UPDATE step |
| TimeTravelController.Controller.HandleWait | control/main.c:450-459 | is the protocol's WAIT step: the token is free, nobody is recorded as running, and no client's request and no job changes |
| TimeTravelController.Controller.RunClient | control/main.c:682-700 | the client holds the run token, the published bound is at or before every job on the list, and a message client has been told it |
| TimeTravelController.Controller.RunNext | src/sched.c:203-266 | is the protocol's next-job step |
| TimeTravelController.Controller.TransferOne | control/main.c:314-332 | moves one request to the job list unless it is already there |
| TimeTravelController.Controller.TransferRequests | control/main.c:869-870 | the loop over all clients is the protocol's transfer step |
| ExternalSync.SyncCovers | src/sched.c:390-408 | the bound handed down is not before now and not after the first job of any scheduler above |
| ExternalSyncOrder.SyncIsLatest | src/sched.c:390-408 | a time may be handed down, being at or before the first job, the own bound if that is ahead, and 2^62 from now, exactly if it is not after the one that is handed down |
| ExternalSyncOrder.PerformCounts | src/sched.c:70-132 | what a job does to the list of its scheduler: each entry is there afterwards as often as before, plus its additions, and not at all after a deletion |
| ExternalSyncOrder.TickDoes | src/sched.c:161-266 | one step of a tree: a scheduler waits exactly if it has nothing to do or its first job is not due and the bound does not cover it, then its request is in the list above; otherwise its first entry is executed once, at its time, or granted with the latest bound; nothing else changes |
| ExternalSyncOrder.RunInOrder | src/sched.c:161-266 | in every tree, whoever skips requests and whatever the jobs do: jobs of all schedulers are executed in the order of time |
| ExternalSync.TickNeverFails | src/sched.c:161-266 | every step of a tree of schedulers keeps the bounds and requests valid, and no time assertion fails |
| ExternalSyncRefinement.ClimbAndReturn | src/sched.c:437-459 | asking for a time before everything above climbs to the root and comes back with that time, executing nothing |
| ExternalSyncRefinement.Simulate | src/sched.c:25-56 | one step that may skip a request is matched by one or more steps that always ask |
| ExternalSyncRefinement.FreeRunningIsAsking | src/sched.c:25-56 | for every tree, every behaviour of its jobs and every choice of who skips: the jobs executed, their times and their order are those of always asking, in both directions, and no assertion fails |
| ExternalSyncExact.SkipIsAskingIff | src/sched.c:25-56 | whatever the bounds: always asking executes next the job that skipping executes at once if and only if its request comes first in the list of every scheduler above |
| ExternalSyncExact.SkippingExecutes | src/sched.c:41-44 | skipping executes that job at once |
| ExternalSyncExact.MissingBoundOvertakes | src/sched.c:390-408 | if a scheduler in the middle has no bound of its own, the one below overtakes the root's job, which always asking never does: a concrete case |
| LinkedClocks.Galois | src/sched.c:417-435 | child(p) <= t if and only if p <= ratio * t + offset |
| LinkedClocks.RoundTrips | src/sched.c:417-459 | the child shows exactly the time its parent was asked for, is never behind the parent, and does not run backwards |
| LinkedClocks.ComposedChild | src/sched.c:417-425 | two links in a row are one |
| LinkedClocks.ChainIsOneLink | src/sched.c:417-459 | along every chain the connection holds and the chain is a single link |
| LinkedClocks.DivRoundUpIff | src/internal.h:30-34 | the macro rounds up correctly if and only if its sum fits 64 bits |
| LinkedClocks.DivRoundUpOverflows | src/internal.h:30-34 | a concrete overflow |
| LinkedClocks.LinkKeepsTimeIff | src/sched.c:489-491 | linking leaves the shown time unchanged if and only if the clock in parent ticks fits 64 bits |
| LinkedClocks.LinkedJobIff | src/sched.c:447-459 | a linked job runs at exactly its start if and only if that time in parent ticks fits 64 bits |
| LinkedClocks.IdealClocks | src/sched.c:417-459 | wherever the offset lies, the 64-bit clocks are the ideal ones of the distance from it, unless that overflows |
| LinkedClocks.FreeStaysBelow | src/schedctrl.c:122-126 | the ticks a client may run freely are exactly those that end by the bound, and at each of them at least one tick of distance to the bound remains, also across the wrap of the clock |
| LinkedClocks.RunNotBehind | src/schedctrl.c:118-120 | after RUN the client is not behind the controller and less than a tick ahead, also where the division overflows |
| LinkedClocks.Scheduler.GetTime | src/sched.c:18-23 | the time of a linked scheduler follows from the root's clock |
| LinkedClocks.Scheduler.SetTime | src/sched.c:134-176 | every assertion on the way to the root holds if and only if the time passes no scheduler's first job, does not go back at the root and overflows nowhere; then the scheduler shows it, and only the root's clock was written |
| LinkedClocks.Scheduler.LinkTo | src/sched.c:461-497 | linking keeps the shown time, and the time requested for a job already queued is shown as that job's start, each if and only if nothing overflows |
| LinkedClocks.Scheduler.Unlink | src/sched.c:499-513 | unlinking keeps the shown time |
| GroupBlocking.BlockGood | src/sched.c:332-351 | blocking parks what may not run, loses no job, keeps the order and the invariant |
| GroupBlocking.RestoreGood | src/sched.c:353-361 | restoring lists every job that may run under the restored mask, loses no job, and sets mask and allowed job |
| GroupBlocking.StepGood | src/sched.c:70-266 | operations in between keep the invariant, the mask and every job they do not execute or delete (what they do is in `GroupBlockingSpec.StepRefines`) |
| GroupBlocking.NestGood | src/sched.c:332-361 | a block, anything good, and the matching restore bring back every job that was listed |
| GroupBlocking.ExecGood | src/sched.c:332-361 | every program with properly nested blocking ends with the mask and allowed job it began with, and with every job it did not execute or delete |
| GroupBlocking.ListedAgain | src/sched.c:311-361 | a job that was listed before such a program is listed exactly once after it, at max(old start, now) |
| GroupBlocking.ParkedAddReturnsNowIff | src/sched.c:80-91 | in whatever state its group is restored, a job added while the group was blocked comes back at the current time if and only if the clock is below 2^63 |
| GroupBlocking.ParkedAddLosesItsTurn | src/sched.c:80-91 | beyond that it comes back at time 0: a concrete case |
| GroupBlockingSpec.AddEffect | src/sched.c:80-105 | an added job is on the job list as given, in addition to what was there, if its group is not blocked or it is the allowed job; otherwise it is the last on the pending list, without a start time |
| GroupBlockingSpec.BlockRefines | src/sched.c:332-351 | blocking moves exactly the jobs of the blocked groups, but for the allowed one, from the ready to the held ones |
| GroupBlockingSpec.RestoreRefines | src/sched.c:353-361 | restoring moves exactly the held jobs that may run under the restored mask to the ready ones, not before now |
| GroupBlockingSpec.StepRefines | src/sched.c:70-266 | add, delete, next and advance do to the lists what they do to the sets of ready and held jobs, and are refused exactly when those say so |
| GroupBlockingSpec.ExecRefines | src/sched.c:332-361 | so does every program with nested blocking: each job it adds is ready at its time or held, each job it executes is the next that is ready, and nothing else changes |
| BlockingScheduler.Scheduler.Add | src/sched.c:70-105 | the job is on the job list as given, with everything that was there, or the last on the pending list without a start time; the other list is unchanged |
| BlockingScheduler.Scheduler.RemoveBlockedJobs | src/sched.c:298-309 | the loop over the job list parks exactly what may not run |
| BlockingScheduler.Scheduler.RestoreBlockedJobs | src/sched.c:320-330 | the loop over the pending list brings back exactly what may run |
| BlockingScheduler.Scheduler.BlockGroups | src/sched.c:332-351 | saves mask and allowed job and blocks |
| BlockingScheduler.Scheduler.RestoreGroups | src/sched.c:353-361 | is the restore of the model |
| BlockingScheduler.Scheduler.Del | src/sched.c:126-132 | the job is on neither list, every other job is kept, and the invariant holds |
| BlockingWalk.ParkItem | src/sched.c:284-289 | on the linked lists: the item leaves its list and becomes the last of the other; both stay well linked and share no entry |
| BlockingWalk.BringItem | src/sched.c:311-318 | the item leaves its list and is inserted into the other at the right place, not before now |
| BlockingWalk.VisitItem | include/usfstl/list.h:74-79 | one turn of the safe walk: the item after this one is taken before this one may leave the list, so the walk goes on at the right place |
| BlockingWalk.Walk | include/usfstl/list.h:74-79 | the walk meets every item once although items leave the list during it; what stays keeps its order, and what leaves is given to the other list in order |
| BlockingWalk.RemoveBlockedJobs | src/sched.c:298-309 | on pointers, parking leaves the two lists of `GroupBlocking.RemoveBlocked` |
| BlockingWalk.RestoreBlockedJobs | src/sched.c:320-330 | on pointers, restoring leaves the two lists of `GroupBlocking.RestoreBlocked` |
| SharedMem.PrepareEffect | src/multi-shared-mem.c:261-277 | preparing fails no assertion; the message then announces the local view, and everyone is marked outdated if it changed |
| SharedMem.HandleEffect | src/multi-shared-mem.c:184-215 | no size assertion fails; a received message becomes the view of the sections the process declares; waiting participants are marked |
| SharedMem.DeliverEffect | src/multi-shared-mem.c:184-245 | after delivery and refresh the receiver sees what the sender announced |
| SharedMem.GrantGood | src/multi-ctl.c:188-213 | granting run time keeps coherence, fails no assertion, and the resumed process sees the controller's memory |
| SharedMem.ReturnGood | src/multi-ptc.c:82-114 | waiting keeps coherence, and the controller then sees the participant's memory |
| SharedMem.WriteGood | src/multi-shared-mem.c:103-129 | a write by the holder changes the one memory and nothing else |
| SharedMem.RunSeesOneMemory | src/multi-shared-mem.c:165-277 | over every run in every tree, the running process reads for each common section the last value any process wrote |
| SharedMem.InitialInv | src/multi-shared-mem.c:114-122 | zeroed sections are coherent |
| SharedMemRefinement.LazyRefinesEager | src/multi-shared-mem.c:52-56 | every run in which buffers are sent only to outdated peers is also a run when they are always sent, and the running process sees the same memory in both |
| SharedMemQuiet.GrantSends | src/multi-ctl.c:188-213 | granting run time sends the sections exactly if the participant is flagged or the controller has changed one since it announced them; the participant is then not flagged, a change leaves the controller dirty and the others flagged, and a receiver flags its own waiting participants |
| SharedMemQuiet.ReturnSends | src/multi-ptc.c:82-114 | returning the token sends them exactly if the process is dirty or has changed one; it is then clean, and its controller dirty if it got them |
| SharedMemQuiet.RunQuiet | src/multi-shared-mem.c:52-56 | however the token travels, while nobody writes nobody becomes dirty or flagged and no memory changes, so no section is sent |
| SharedMemProcess.Process.Find | src/multi-shared-mem.c:59-75 | finds the section of that name, if the message has one; its assertion fails if and only if that section has another size |
| SharedMemProcess.Process.MergeLocal | src/multi-shared-mem.c:103-129 | announces one local section and reports whether it changed; its assertions hold if and only if the sizes agree or the new section is zero |
| SharedMemProcess.Process.UpdateMsg | src/multi-shared-mem.c:249-258 | the loop announces all local sections and reports whether any changed |
| SharedMemProcess.Process.PrepareMsg | src/multi-shared-mem.c:261-277 | is `SharedMem.Prepare`, and fails an assertion exactly when that does |
| SharedMemProcess.Process.MergeNext | src/multi-shared-mem.c:249-258 | one iteration: one more local section is announced |
| SharedMemProcess.Process.MergeRemote | src/multi-shared-mem.c:132-162 | takes one received section over if the process declares it; fails exactly if a size does not fit |
| SharedMemProcess.Process.MergeMsg | src/multi-shared-mem.c:165-179 | is `SharedMem.Merge`; fails exactly if a size does not fit |
| SharedMemProcess.FitsIsMergeFits | src/multi-shared-mem.c:146 | on a message without repeated names these are the size assertions of `SharedMem.MergeFits` |
| SharedMemProcess.Process.HandleMsg | src/multi-shared-mem.c:184-215 | is `SharedMem.Handle`; fails exactly if a size does not fit |
| SharedMemProcess.Process.UpdateLocalView | src/multi-shared-mem.c:218-245 | is `SharedMem.UpdateLocal`; fails exactly if a size does not fit |
| Postponed.StepRefines | src/multi-ptc.c:67-114 | every event keeps the relation to a controller that gets each request at once |
| Postponed.RunRefines | src/multi-ptc.c:67-114 | so does every run |
| Postponed.WakeTimeIsExact | src/multi-ptc.c:82-114 | in every run, at every wait and until it is continued, the controller holds the wake time it would hold had every request been sent at once |
| Postponed.TurnPostpones | src/multi-ptc.c:67-80 | during a turn nothing is sent, the wake time at the controller stays, and the last request is the pending one |
| Postponed.TurnSendsOnce | src/multi-ptc.c:82-107 | a turn with requests sends exactly one message, at its end, with the time of the last; a turn without sends none |
| Postponed.WaitingSendsChanges | src/multi-ptc.c:67-80 | while it waits, a participant sends exactly those requests that are for another time than the one before |
| Postponed.RepeatKeepsPlaceIff | src/multi-ctl.c:218-231 | only the wake time is the same: a repeated request keeps the controller's list as it is if and only if the next job is not due at the same time with the same priority |
| Postponed.Participant.ExternalRequest | src/multi-ptc.c:67-80 | with both suppressions, still what a controller would know that is told at once: the last time asked for |
| Postponed.Participant.ExternalWait | src/multi-ptc.c:82-107 | when it waits, the controller holds exactly that time |
| Postponed.Participant.ScheduledContinue | src/multi-ptc.c:250-259 | it is continued at exactly that time, and no request is left |
| Semaphore.FirstActive | src/task.c:446-451 | the scan skips blocked waiters only |
| Semaphore.Place | src/task.c:388-392 | the scan stops at the first waiter of lower priority |
| Semaphore.WakeupTasks | src/task.c:441-472 | a wakeup marks the blocked waiters in front, schedules the first other one now, and changes no other task |
| Semaphore.WakesAtZero | src/task.c:441-472 | a wakeup succeeds only on a zero counter |
| Semaphore.WakeupMarksAll | src/task.c:441-472 | if it fails, all waiters are blocked and marked |
| Semaphore.WakeupMarks | src/task.c:441-472 | a wakeup leaves no positive counter with a waiter that is not blocked and marked |
| Semaphore.PostGood | src/task.c:474-485 | posting keeps the invariant |
| Semaphore.PostServesBest | src/task.c:441-485 | a post serves the unblocked waiter of highest priority, the longest waiting among equals, and no other |
| Semaphore.TryWaitGood | src/task.c:429-439 | taking from the counter keeps the invariant (what it takes is in `SemTryWait` and `SemaphoreHistory.StepDoes`) |
| Semaphore.PlaceKeeps | src/task.c:388-397 | waiters stay sorted by priority, then by arrival |
| Semaphore.WaitGood | src/task.c:358-399 | waiting, with or without a timeout, keeps the invariant (what it does is in `SemaphoreHistory.WaitDoes`) |
| Semaphore.ResumeGood | src/task.c:399-415 | when a waiter resumes, woken or timed out, no assertion fails and the invariant holds |
| Semaphore.BlockGood | src/task.c:487-490 | blocking a task keeps the invariant |
| Semaphore.UnblockWakesExactly | src/task.c:492-513 | unblocking a marked waiter of a positive semaphore wakes exactly that task and takes one from the counter |
| Semaphore.UnblockGood | src/task.c:492-513 | unblocking keeps the invariant, and the assertion that a task is woken never fails |
| Semaphore.StepGood | src/task.c:262-513 | every event keeps the invariant and fails no assertion |
| Semaphore.RunSafe | src/task.c:358-513 | over every run no assertion fails, and a positive counter has only blocked, marked waiters |
| Semaphore.InitialInv | src/task.c:350-354 | fresh semaphores satisfy the invariant |
| SemaphoreHistory.PostDoes | src/task.c:441-485 | a post takes the best unblocked waiter off the list and schedules it now, woken, with the counter unchanged; without one it counts one up and marks every waiter; nothing else changes |
| SemaphoreHistory.WaitDoes | src/task.c:358-399 | a wait on a zero counter puts the running task on the list and, with a timeout, its job at the current time plus the timeout; nothing else changes |
| SemaphoreHistory.ResumeDoes | src/task.c:399-415 | a task that resumes is not listed and not waiting any more; if it timed out it alone leaves the list of its semaphore |
| SemaphoreHistory.UnblockDoes | src/task.c:492-513 | unblocking takes exactly one from a positive counter for which the task was marked and serves that task; otherwise only its job is due again, not before now |
| SemaphoreHistory.StepDoes | src/task.c:262-513 | each event succeeds and does exactly that; a successful wait takes one from the counter and changes nothing else, an unsuccessful try nothing at all |
| SemaphoreHistory.DoesBalances | src/task.c:358-513 | each event changes counter plus successful waits by what was posted |
| SemaphoreHistory.RunBalances | src/task.c:358-513 | over every run: counter at the start + posts = counter at the end + waits that succeeded, where the waits are counted from the events and from the tasks that were woken |
| SemaphoreTasks.Tasks.constructor | src/task.c:350-354 | the object starts in an initial state |
| SemaphoreTasks.Tasks.MarkBlocked | src/task.c:446-451 | the loop marks exactly the blocked waiters in front |
| SemaphoreTasks.Tasks.ProcessWakeup | src/task.c:441-472 | is the model's wakeup and reports whether it woke a task |
| SemaphoreTasks.Tasks.SemPost | src/task.c:474-485 | is the model's post, and does what `SemaphoreHistory.Does` says of it |
| SemaphoreTasks.Tasks.SemTryWait | src/task.c:429-439 | succeeds exactly on a positive counter; success takes one from it and changes nothing else, failure changes nothing |
| SemaphoreTasks.Tasks.FindPlace | src/task.c:388-392 | the loop finds the insertion place |
| SemaphoreTasks.Tasks.SemTimedWait | src/task.c:358-420 | on a positive counter takes one and changes nothing else; otherwise the task is on the list of waiters and suspended, with its job due at the current time plus the timeout if there is one |
| SemaphoreTasks.Tasks.TaskBlock | src/sched.c:363-375 | parks a scheduled job |
| SemaphoreTasks.Tasks.UnblockOne | src/sched.c:377-388 | schedules a parked job again, not before now |
| SemaphoreTasks.Tasks.TaskUnblock | src/task.c:492-513 | is the model's unblock, including its assertion, and does what `SemaphoreHistory.Does` says of it |
| Allocator.Smallest | src/dwarf/mmap.c:88-95 | the first of the smallest blocks |
| Allocator.FirstFit | src/dwarf/mmap.c:139-142 | the first block that is large enough |
| Allocator.TooLargeAsksNothing | src/dwarf/mmap.c:170 | a size whose page rounding overflows asks for no bytes, so mapping fails |
| Allocator.FreeLockedInv | src/dwarf/mmap.c:73-108 | adding to the free list keeps it to 16 disjoint mapped blocks (which block joins it is in `FreeLockedHolds`) |
| Allocator.FreeLockedHolds | src/dwarf/mmap.c:73-108 | a freed block of at least the header size is the first on the list, before all that was there; a full list goes without one block that is no larger than any other; a smaller block changes nothing |
| Allocator.KeepsLargest | src/dwarf/mmap.c:76-101 | what a full list drops is never larger than what it keeps |
| Allocator.FreeInv | src/dwarf/mmap.c:194-238 | freeing what a caller holds keeps the invariant, however the lock and munmap turn out |
| Allocator.AllocInv | src/dwarf/mmap.c:113-190 | the returned block holds at least the requested size, belonged to nobody and is all the caller gets; it fails only if the system does |
| Allocator.AllocAligned | src/dwarf/mmap.c:148-153 | if the free list is at multiples of 8, so are the allocation and the free list afterwards |
| Allocator.StepInv | src/dwarf/mmap.c:73-238 | an allocation or a free of part of one keeps allocations, free list and mapped memory apart and accounted for |
| Allocator.RunInv | src/dwarf/mmap.c:73-238 | after every sequence of allocations and frees: no two allocations overlap, none overlaps the free list, all lie in mapped memory, each was as large as asked for; at most 16 blocks are free, pairwise disjoint; and if callers free at multiples of 8, every allocation is at one |
| AllocatorBytes.AllocFrom | src/dwarf/mmap.c:113-190 | an allocation begins at the first large enough block of the free list, and then maps nothing; only without one are new pages mapped, and it begins there; it is less than 8 bytes larger than asked for |
| AllocatorBytes.FreeTakes | src/dwarf/mmap.c:194-238 | freeing takes exactly these bytes from the caller; they are unmapped exactly if they are 64 KiB or more of whole pages and munmap succeeds |
| AllocatorBytes.StepLoses | src/dwarf/mmap.c:73-238 | exactly which mapped bytes a call leaves with neither a caller nor the free list: those of a block below the header size, freed without the lock, or dropped from a full list |
| AllocatorBytes.RunLoses | src/dwarf/mmap.c:73-238 | after every sequence of allocations and frees, every mapped byte that no caller holds is on the free list, unless one of the calls has lost it |
| Allocator.Allocator.PutFree | src/dwarf/mmap.c:73-108 | the block becomes the first of the list, before all that was there; of a full list and the block, exactly one of the smallest is dropped |
| Allocator.Allocator.Release | src/dwarf/mmap.c:194-238 | is the model's free, of which `AllocatorBytes` says where the bytes go |
| Allocator.Allocator.FindFit | src/dwarf/mmap.c:139-142 | the loop is first fit |
| Allocator.Allocator.Allocate | src/dwarf/mmap.c:113-190 | is the model's allocation |
| PcLookup.BinarySearch | src/dwarf/dwarf.c:1702-1722 | finds some entry that compares equal, exactly if there is one |
| PcLookup.Lookup | src/dwarf/dwarf.c:4459-4498 | whatever entry the search found: the entry with the smallest end above pc among those that start last at or before pc, or nothing if there is none |
| PcLookup.DisjointIsScan | src/dwarf/dwarf.c:4573-4601 | on ranges that do not overlap the lookup is a linear scan |
| PcLookup.EveryAddressFoundIff | src/dwarf/dwarf.c:4478-4498 | every covered address is found if and only if each range that starts inside another reaches to its end or to the next start |
| PcLookup.OuterRangeMissed | src/dwarf/dwarf.c:4478-4498 | otherwise an address of the outer range is missed: a concrete case |
| QuickSort.Classify | src/dwarf/sort.c:79-87 | one iteration keeps smaller elements in front |
| QuickSort.Partition | src/dwarf/sort.c:76-90 | a permutation with everything smaller before the pivot and nothing smaller after it |
| QuickSort.SortSmaller | src/dwarf/sort.c:94-107 | recursion into the smaller part, at most half, leaves everything outside the other part in place |
| QuickSort.Sort | src/dwarf/sort.c:60-108 | for every total preorder a sorted permutation, touching nothing else, with recursion depth at most log2 of the count |
| Virtqueue.WrapKeepsSlotIff | src/vhost.c:98-99 | 16-bit indices fall on the right slot for every count if and only if the ring size divides 2^16 |
| Virtqueue.PublishInv | src/vhost.c:79-101 | the driver's publishing keeps the rings in step |
| Virtqueue.ServeInv | src/vhost.c:79-101 | serving keeps the rings in step, fails no assertion, and does nothing exactly when nothing is available |
| Virtqueue.RunInv | src/vhost.c:333-353 | over every run: heads are answered in order, none twice, and heads taken = answered + lost |
| Virtqueue.RunIsFifoIff | src/vhost.c:79-127 | over every run the k-th used entry is for the k-th available head if and only if no allocation failed |
| Virtqueue.StepIsFifo | src/vhost.c:79-127 | publishing appends to a queue of heads, serving takes its first and answers it with the length written, or loses it without memory |
| Virtqueue.RunIsQueue | src/vhost.c:333-353 | over every run the two rings with their 16-bit indices are that queue |
| Virtqueue.FailedAllocationDrops | src/vhost.c:114-122 | after a failed allocation the next answer is for the head after the lost one |
| VirtqueueDevice.Count | src/vhost.c:103-112 | the first pass counts readable and writable descriptors of the chain |
| VirtqueueDevice.Buf.Append | src/vhost.c:140-152 | a descriptor is appended to the array for its direction, inside it, and the other one is unchanged |
| VirtqueueDevice.Fill | src/vhost.c:130-155 | the second pass stores them split and in order, inside the buffer |
| VirtqueueDevice.Device.constructor | src/vhost.c:79-101 | an empty queue satisfies the invariant |
| VirtqueueDevice.Device.GetBuf | src/vhost.c:79-158 | takes the next head and returns its chain, in the fixed buffer or a new one |
| VirtqueueDevice.Device.SendBuf | src/vhost.c:274-297 | returns the head through the used ring |
| VirtqueueDevice.Device.ServeOne | src/vhost.c:349-352 | the next head is answered with its index and what the handler wrote for the readable and writable parts of its chain; without memory it is taken and not answered |
| VirtqueueDevice.Device.HandleQueue | src/vhost.c:333-353 | with memory, every available head is answered, in order, each with what the handler wrote for its chain |
| StubHash.ProbeFinds | src/override.c:186-189 | without gaps the probe finds every stored function |
| StubHash.LookupTransparent | src/override.c:170-233 | a cached lookup returns what the search would (which is what `UncachedIsAnswer` says), and the table stays free of gaps, duplicates and wrong entries |
| StubHash.InstallEffect | src/override.c:102-127 | installing a stub changes the answer for its name only, and names stay unique |
| StubHash.CacheIsTransparent | src/override.c:59-233 | for every sequence of installs and lookups in a test the answers are those without a cache |
| StubHash.UncachedIsAnswer | src/override.c:195-219 | the search gives the replacement installed for the name, otherwise the function itself if it may be called, otherwise it stops the test |
| StubHash.InstallIs | src/override.c:102-127 | installing is refused exactly if it is a new stub too many, and otherwise changes the map from names to replacements at that name only |
| StubHash.AnswersAreRight | src/override.c:59-233 | for every sequence of installs and lookups, cached or not, every answer is the replacement last installed for the name, or what a function without one gets |
| StubHash.InstalledIsFound | src/override.c:195-200 | after a stub is installed, and until one is installed for the same name, every lookup of that name gives it |
| StubHash.LookupStores | src/override.c:224-230 | a result that cannot change during the test is in the table afterwards, if there is room |
| StubHash.Stubs.constructor | src/override.c:22-43 | empty tables |
| StubHash.Stubs.FindOverride | src/override.c:195-200 | the loop finds the stub of that name |
| StubHash.Stubs.ProbeFor | src/override.c:186-189 | the loop is the model's probe |
| StubHash.Stubs.Keep | src/override.c:224-230 | the loop stores in the first free slot, if there is one |
| StubHash.Stubs.InstallStub | src/override.c:69-127 | empties the table and installs the replacement for that name and no other; refuses, and changes no stub, exactly if the types do not agree or a new stub does not fit |
| StubHash.Stubs.Search | src/override.c:195-219 | gives the replacement installed for the name, otherwise the function itself if it may be called, otherwise stops the test; says whether the result is stored |
| StubHash.Stubs.FindReplacement | src/override.c:170-233 | with the cache, still the replacement installed for the name, or what a function without one gets |
| Restore.Compact | src/restore.c:68-97 | the in-place pass succeeds exactly if addresses ascend, and then leaves the compacted list and an end mark |
| Restore.Place | src/restore.c:75-88 | an entry is skipped, joined or written, never over an entry still to be read |
| Restore.CompactedCovers | src/restore.c:78-88 | joining changes no covered byte |
| Restore.CompactedJoins | src/restore.c:78-88 | after compaction no entry begins where the one before it ends |
| Restore.KeptCovers | src/restore.c:68-97 | with 64-bit sums: the result covers a byte if and only if an entry to be restored does, and no entry of it looks like the end of the list |
| Restore.CompactedList | src/restore.c:68-148 | the list that compaction leaves ends, for saving and restoring, where compaction ended it, lies in memory, and covers exactly what is to be restored |
| Restore.Save | src/restore.c:104-132 | the buffer is the covered bytes in order, of the computed total size |
| Restore.WriteBack | src/restore.c:134-148 | after saving and arbitrary changes, every covered byte has its saved value and no other byte is touched |
| Restore.Globals.SaveGlobals | src/restore.c:104-132 | reading, compacting and saving succeed exactly if the addresses in the file ascend; every byte to be restored is then saved |
| Restore.Globals.RestoreGlobals | src/restore.c:134-148 | whatever happened in between, a byte has its saved value if an entry of the file to be restored covers it, and otherwise the value it had |
| Rand.Schrage | src/rand.c:61-63 | the difference is the product modulo 2^31 - 1, and nothing overflows 32 bits |
| Rand.DifferenceNotZero | src/rand.c:63 | it is never 0 |
| Rand.Next | src/rand.c:61-66 | a step is 16807 * seed mod (2^31 - 1), in [1, 2^31 - 2] |
| Rand.RunIsPower | src/rand.c:48-69 | after n steps the seed is 16807^n * seed mod (2^31 - 1) |
| Rand.Generator.Draw | src/rand.c:48-69 | updates the seed that way and returns it less 1 |

## Left out

- TimeTravelSafety.RunSafe: clients are not added or removed during a run, and FREE_UNTIL messages are delivered at once (the case of an unacknowledged one, control/main.c:620-629, is not modelled).
- TimeTravelController.Controller.RunNext: waiting for messages inside a turn is a sequence of steps, not a nested loop.
- ExternalSyncRefinement.FreeRunningIsAsking: times are plain integers inside one window, and no job acts on a scheduler other than its own.
- ExternalSync.TickNeverFails: the tree of schedulers is a state machine on values; the scheduler's fields are not a class here.
- GroupBlocking.ExecGood: programs name only times below 2^63, which ParkedAddReturnsNowIff shows to be needed; jobs blocked one by one are in Semaphore.
- GroupBlockingSpec.ExecRefines: the same restriction on times, and StepRefines has it for one operation.
- LinkedClocks.Scheduler.LinkTo: queueing the request with the parent is returned as a value, and schedulers already linked below are not followed.
- Semaphore.RunSafe: which listed task resumes next is left to the scheduler (SchedulerRuns); the check that a delay is below 2^63 is part of adding a job there.
- Postponed.WakeTimeIsExact: the bound that the controller sends to the running participant on each request is not modelled.
- SharedMem.RunSeesOneMemory: sections that only some processes declare are kept by those but need not agree.
- Allocator.RunInv: the vectors built on the allocator (src/dwarf/mmap.c:240-340) are not modelled; locking is an input, not a protocol.
- PcLookup.Lookup: skipping units without line information (src/dwarf/dwarf.c:4511-4530), line search and inlined functions are not modelled.
- QuickSort.Sort: elements are values; the byte-wise swap and the overflow of 2 * mid are not modelled.
- VirtqueueDevice.Device.GetBuf: translation of guest addresses and byte order are not modelled; a new buffer has two arrays where the code uses one allocation.
- StubHash.Stubs.Search: which files a test may call (same_filename) is a parameter; looking up the types of a function is an input of InstallStub.
- Restore.Compact: reading the file and the addresses of the excluded section are inputs.
- Sockets, the event loop, file descriptors, mapping of shared memory: replaced by steps or inputs.
- Context switching, watchdogs, longjmp: a task switch is one step.
- The RPC transport: calls are synchronous under the rule that one process runs.
- Reading DWARF and PE/COFF, type strings, logging, options, the test runner, fuzzing, PCI messages, the Python tools: mostly easy per-case facts.
