# Verified models of four coursework components

This project models the stateful parts of the repository in Dafny and proves properties of
them over all inputs, all runs and all interleavings.

* **Software timers** (`Ticks`, `TimerModel`, `TimerInvariant`, `TimerRuns`, `TimerDrain`,
  `TimerRoom`, `TimerStop`, `TimerCatchUp`, `TimerSettings`, `TimerDaemon`). The FreeRTOS timer daemon with its two sorted lists, command queue and
  remembered tick. `TimerModel` states each step on an unbounded clock; the class
  `TimerService` computes the same steps in place with 32-bit tick arithmetic and comparisons,
  and every method is proved to carry out its step. The main results are about whole runs: an
  auto-reload timer fires at exactly C+P, C+2P, and so on, across any number of rollovers of the
  counter, for as long as the daemon's queue has room for its restart. Two promises do not hold in
  every run, and the model says exactly when they do: an auto-reload timer is lost if its START is
  refused by the full queue of ten, and a STOP does not last if the daemon's own START is queued behind it.
* **Kernel `sys.c`** (`Sessions`, `Credentials`, `Subreaper`, `SysInfo`, `MergeSort`,
  `ResourceLimits`). Process groups and sessions, the set-id calls with their reference
  counts, the pruned subreaper walk, the sysinfo scaling loops, the added merge sort, and
  resource limits.
* **Shared-memory handoff** (`SharedMemory`). Two processes and two semaphores over one segment,
  for any number of messages in each direction and every interleaving. The program's promise to
  deliver everything does not hold in every run: the parent, done with writing, can win its last
  token back before the child has taken the last message. The model keeps the program as it is,
  shows that this is the only race, and that runs deliver everything if and only if the child wins it.
* **Kernel linked list** (`AnimalList`). Sorted insertion with counting into an intrusive
  circular list that is mutated while it is traversed, for any seeds.

## Hypotheses

Timers: every period is above 0 and below 2^32; when a START is received its command time is not in the
future and less than 2^32 ticks old; while any timer is active, successive samples of the
time are less than 2^32 ticks apart; time does not run backwards. Callbacks do not touch the
lists. A send the daemon makes to its own queue may be refused: the source only asserts that it is not, the
configuration defines no assert, and the model goes on as the code then does, without the message. `vListInsert`, `uxListRemove` and the queue operations are not part of the repository's
file and are modelled by what they promise.

`sys.c`: capability checks, LSM hooks, memory allocation, the id map of the user namespace and pid lookup are
parameters of each call. fork, execve, thread creation and exit are steps of the surroundings:
a new pid is not in use as a process, thread, group or session; no process becomes its own parent; an orphan goes to an ancestor with no
child reaper in between, or has none to go to. `POSIX_TIMERS` is taken as configured.

Shared memory: named semaphores are fresh, with values 0 and 1; messages are bytes, or strings
that fit the program's buffers.

Linked list: `kmalloc` succeeds, and addresses have 64 bits (32 bytes per node).

Where a comment in the source and its code differ, the model follows the code: the comment above
do_sysinfo's test speaks of a 32-bit unsigned long, the code uses the machine's, here 64 bits;
the comment in propagate_has_child_subreaper speaks of all descendants of a flagged process,
the code leaves out those behind a child reaper.

## Model

| member | source | states |
|---|---|---|
| Ticks.WrapArithmetic | HW5/CCS_Homework5/utils/timers.c:561-578 | Unsigned 32-bit sums and differences of counter readings are the readings of the absolute sums and differences |
| Ticks.RolloverSeen | HW5/CCS_Homework5/utils/timers.c:536-546 | For samples less than 2^32 ticks apart, the counter going backwards means exactly that one rollover lies between them |
| Ticks.TickTestsSeeAgeModuloRange | HW5/CCS_Homework5/utils/timers.c:561-589 | For a command of any age, the 32-bit tests say "process now" exactly when its age modulo 2^32 has reached the period |
| Ticks.TickTestsExact | HW5/CCS_Homework5/utils/timers.c:554-592 | For a command less than 2^32 ticks old the tests say "process now" exactly when start + period has passed, and otherwise choose the list of the wrap epoch in which it falls |
| Ticks.TickTestsRightIff | HW5/CCS_Homework5/utils/timers.c:561-589 | Without that bound on the age: the tests recognise an expired timer if and only if the command is younger than 2^32 ticks or its age modulo 2^32 is still at least the period |
| Ticks.LapLateMissed | HW5/CCS_Homework5/utils/timers.c:561-589 | A command received exactly 2^32 ticks late is such an input: its timer has expired and is not recognised |
| TimerModel.DrainOneProgress | HW5/CCS_Homework5/utils/timers.c:732-772 | Every round of the switch loop lowers the sum of ticks left before the rollover over the current list, so the loop ends |
| TimerInvariant.InsertExactly | HW5/CCS_Homework5/utils/timers.c:573-587 | Sorted insertion puts an entry behind all that expire no later, equal ones included, and in front of the rest |
| TimerInvariant.ActivateKeeps | HW5/CCS_Homework5/utils/timers.c:554-592 | Activating an unlisted timer keeps both lists sorted, each in its own wrap epoch, and every timer in at most one place |
| TimerInvariant.ActivateWaiting | HW5/CCS_Homework5/utils/timers.c:554-592 | Afterwards the timer waits exactly for start + period, or nowhere if that has passed; no other timer is affected |
| TimerInvariant.DrainKeeps | HW5/CCS_Homework5/utils/timers.c:721-777 | Emptying the current list at a rollover keeps lists sorted, in their epochs, and free of duplicates |
| TimerInvariant.SampleKeeps | HW5/CCS_Homework5/utils/timers.c:531-551 | Sampling the time keeps the invariant for the new sample: the swapped lists are the right ones, and with both lists empty even a missed rollover is harmless |
| TimerInvariant.ProcessExpiredKeeps | HW5/CCS_Homework5/utils/timers.c:381-418 | Processing an expired timer keeps the invariant |
| TimerInvariant.TimerOrBlockKeeps | HW5/CCS_Homework5/utils/timers.c:445-502 | One pass of the first daemon stage keeps the invariant and has sampled the time |
| TimerInvariant.BlockNeverLate | HW5/CCS_Homework5/utils/timers.c:445-529 | The requested block never reaches past any waiting expiry or the next rollover, ends exactly at the earliest expiry of the current list or at the rollover, and is indefinite if and only if no timer is active |
| TimerInvariant.ObeyKeeps | HW5/CCS_Homework5/utils/timers.c:654-715 | Obeying a received command keeps the invariant; STOP and DELETE leave the timer in neither list |
| TimerInvariant.SampleLeavesAbsent | HW5/CCS_Homework5/utils/timers.c:721-777 | A timer in neither list is not inserted, called or restarted by a sample, rollover included |
| TimerInvariant.ReceiveKeeps | HW5/CCS_Homework5/utils/timers.c:602-717 | Receiving any command keeps the invariant; after STOP or DELETE the timer is in neither list although the same step may roll over, fire and re-insert other timers and swap the lists |
| TimerInvariant.DrainOneSeen | HW5/CCS_Homework5/utils/timers.c:732-772 | A round of the switch loop, seen from any timer: the head fires at its expiry and is then either waiting one period later or has one START sent, carrying that expiry, if the queue has room |
| TimerInvariant.ProcessExpiredSeen | HW5/CCS_Homework5/utils/timers.c:381-418 | The same for an expired timer: it fires at its expiry and waits one period later, or has one START sent if it is late already |
| TimerInvariant.ObeySeen | HW5/CCS_Homework5/utils/timers.c:654-715 | A command touches no other timer; a START makes its timer wait for start + period, or fire at it and, if auto-reload, send itself on if the queue has room |
| TimerRuns.StepKeeps | HW5/CCS_Homework5/utils/timers.c:421-442 | Every step of a run (daemon stages, commands posted and timers created in between) keeps the invariant |
| TimerRuns.After | HW5/CCS_Homework5/utils/timers.c:421-442 | The invariant holds after every run, and time has not gone back |
| TimerRuns.StepTracked | HW5/CCS_Homework5/utils/timers.c:381-777 | Every step on which nobody else commands it makes an auto-reload timer fire only as planned: at exactly the first k multiples of its period; it is then in one list for the next one, or has one START pending that carries the last, never both, or (only by firing) is lost |
| TimerRuns.RunTracked | HW5/CCS_Homework5/utils/timers.c:381-777 | The same over every run in which nobody else posts commands for it: no gap, duplicate, drift or early call across any number of rollovers; all that a full queue can do is end the sequence |
| TimerRuns.StepUntouched | HW5/CCS_Homework5/utils/timers.c:421-442 | No step makes a timer that is in neither list wait, fire or be sent for, unless it receives a command for it |
| TimerRuns.StartedOnSchedule | HW5/CCS_Homework5/utils/timers.c:656-684 | A timer of which one START carrying C is all there is, is on schedule from C |
| TimerRuns.RunNoneEarly | HW5/CCS_Homework5/utils/timers.c:381-777 | No callback of any run is made before the time it was due |
| TimerRuns.CaughtUpIsIdeal | HW5/CCS_Homework5/utils/timers.c:445-529 | Whenever no command is pending and the head is not due, the timer has fired exactly as often, and at the same times, as an ideal timer on an unbounded clock |
| TimerDrain.ReloadsExact | HW5/CCS_Homework5/utils/timers.c:754-766 | An auto-reload timer at v has exactly ceil((boundary - v) / period) expiries before the rollover, at v, v + period, and so on |
| TimerDrain.DrainInOrder | HW5/CCS_Homework5/utils/timers.c:732-772 | The callbacks of a rollover are made in non-decreasing order of expiry, none before the head's expiry or at or after the rollover, and earlier ones stay recorded |
| TimerDrain.ReceiveReducesWork | HW5/CCS_Homework5/utils/timers.c:602-717 | With the clock standing still, receiving a command either samples the rollover, which cannot recur, or lowers the sum over queued commands of one plus lateness, although it may send a START back |
| TimerDrain.ReceivePrompt | HW5/CCS_Homework5/utils/timers.c:602-717 | With the clock standing still, STARTs sent by the daemon itself never become too old: timeliness of the queue is kept by every received command |
| TimerDrain.DrainFires | HW5/CCS_Homework5/utils/timers.c:721-777 | At a rollover a one-shot timer of the current list fires once; an auto-reload timer fires at each of those expiries, and one START is sent with the last of them, never refused if the queue has room for all the rollover's STARTs |
| TimerDrain.DrainSends | HW5/CCS_Homework5/utils/timers.c:746-764 | A rollover sends one START for each auto-reload timer of the current list; the queue ends at their number more, or full at ten |
| TimerDrain.StepFiresNow | HW5/CCS_Homework5/utils/timers.c:381-777 | Every step makes its callbacks at the time it samples, and the record of earlier ones stays |
| TimerDrain.DrainQueue | HW5/CCS_Homework5/utils/timers.c:763-764 | The rollover only appends STARTs to the queue, each from before the rollover |
| TimerDrain.CommandLoopEnds | HW5/CCS_Homework5/utils/timers.c:602-717 | With the clock standing still at a time already sampled, the command loop receives no more commands than one plus lateness, summed over the queue |
| TimerRoom.RoomExactly | HW5/CCS_Homework5/utils/timers.c:381-777 | A step of the daemon loses no timer (fires an auto-reload timer and leaves it unlisted and unsent) if and only if the state before it has room: queued messages, plus at a rollover the auto-reload timers of the current list, plus one for a late reload, are ten at most |
| TimerRoom.StaysExactly | HW5/CCS_Homework5/utils/timers.c:381-777 | A timer on schedule leaves it at a step if and only if the step loses it |
| TimerRoom.RunStaysExactly | HW5/CCS_Homework5/utils/timers.c:381-777 | A timer on schedule is on schedule after a run if and only if no step of the run loses it |
| TimerRoom.StaysLost | HW5/CCS_Homework5/utils/timers.c:746-767 | A lost timer never waits or fires again unless somebody commands it |
| TimerRoom.RunOnSchedule | HW5/CCS_Homework5/utils/timers.c:381-777 | With room at every step, an auto-reload timer fires at exactly C+P, C+2P, ..., C+kP for as long as the run goes on, and is then in one list for the next or has one START pending, never both |
| TimerRoom.ElevenAreTooMany | HW5/CCS_Homework5/utils/timers.c:763-764 | Reached from the empty service: of eleven or more auto-reload timers due before one rollover, that rollover loses one that was on schedule |
| TimerStop.StoppedForGood | HW5/CCS_Homework5/utils/timers.c:686-710 | A timer in neither list for which only STOP, DELETE or unknown commands are queued neither waits nor fires for the rest of any run in which nobody posts a command for it |
| TimerStop.WokenUp | HW5/CCS_Homework5/utils/timers.c:602-717 | Otherwise receiving the queued commands up to the first START or CHANGE_PERIOD for it makes it wait or fire |
| TimerStop.StaysStoppedExactly | HW5/CCS_Homework5/utils/timers.c:602-717 | So a timer in neither list stays stopped over every run left alone, if and only if every command queued for it is a STOP, a DELETE or unknown |
| TimerStop.StopLastsExactly | HW5/CCS_Homework5/utils/timers.c:686-710 | The same for a STOP or DELETE about to be received, in terms of what is queued behind it |
| TimerStop.StopOvertaken | HW5/CCS_Homework5/utils/timers.c:686-763 | Reached from the empty service: a rollover queues the daemon's own START behind a user's STOP, and after the STOP has been received the timer fires again |
| TimerCatchUp.BusyReducesBacklog | HW5/CCS_Homework5/utils/timers.c:421-442 | With the clock standing still every daemon step that does something lowers the lateness summed over both lists and the queue, or samples the rollover, which cannot recur |
| TimerCatchUp.BusyRunEnds | HW5/CCS_Homework5/utils/timers.c:421-442 | So the daemon makes no more such steps than that sum, and one for a rollover |
| TimerCatchUp.LoopEmpties | HW5/CCS_Homework5/utils/timers.c:602-717 | With the clock standing still the command loop ends with an empty queue, although it sends STARTs back to it |
| TimerCatchUp.PassAt | HW5/CCS_Homework5/utils/timers.c:429-441 | A pass of the loop at a time standing still either lowers that sum or leaves the daemon caught up: queue empty, nothing due |
| TimerCatchUp.CaughtUpRunIsIdeal | HW5/CCS_Homework5/utils/timers.c:421-442 | A run with room that ends caught up has fired every timer on schedule exactly as often, and at the same times, as an ideal timer |
| TimerSettings.SettingsExactly | HW5/CCS_Homework5/utils/timers.c:602-717 | No step changes a timer's settings, START, STOP and DELETE included, but a received CHANGE_PERIOD its period; a created timer has those it was created with |
| TimerSettings.PeriodChanged | HW5/CCS_Homework5/utils/timers.c:692-704 | CHANGE_PERIOD P received at T puts an auto-reload timer with nothing else pending on schedule for T+P, T+2P, and so on, and makes any other one fire once at T+P |
| TimerSettings.CreatedAndStarted | HW5/CCS_Homework5/utils/timers.c:275-313 | A timer created with some settings and started from C is on schedule from C with its period if it is auto-reload, and is otherwise to fire once at C + period |
| TimerSettings.RunOnce | HW5/CCS_Homework5/utils/timers.c:381-777 | Over every run left alone a one-shot timer fires once at most, and only at C + period; a full queue cannot lose it |
| TimerSettings.CaughtUpFiresOnce | HW5/CCS_Homework5/utils/timers.c:421-442 | Once the daemon has caught up a one-shot timer has fired exactly if C + period has come |
| TimerDaemon.InsertNamed | HW5/CCS_Homework5/utils/timers.c:573-587 | Within one wrap epoch, sorted insertion by 32-bit value is sorted insertion by absolute expiry, behind equal keys |
| TimerDaemon.TickList.InsertItem | HW5/CCS_Homework5/utils/timers.c:573-587 | vListInsert: the item ends up in this list, in order, behind equal values |
| TimerDaemon.Timer.RemoveFromList | HW5/CCS_Homework5/utils/timers.c:634-642 | uxListRemove: the timer is in no list and the others keep their order |
| TimerDaemon.TimerService.constructor | HW5/CCS_Homework5/utils/timers.c:780-815 | Two empty lists, an empty queue and last time 0 represent the empty service and satisfy the invariant |
| TimerDaemon.TimerService.Unlink | HW5/CCS_Homework5/utils/timers.c:634-642 | The timer leaves whichever list holds it, and only it |
| TimerDaemon.TimerService.GenericCommand | HW5/CCS_Homework5/utils/timers.c:316-356 | The command is appended unless the queue of ten is full; then it is refused and nothing changes |
| TimerDaemon.TimerService.ReloadTest | HW5/CCS_Homework5/utils/timers.c:754-755 | The 32-bit comparison of the reload time says exactly whether it comes before the rollover |
| TimerDaemon.TimerService.ReloadBeforeSwitch | HW5/CCS_Homework5/utils/timers.c:746-767 | Reloads into the current list if the next expiry comes before the rollover, and otherwise sends a START with the last expiry, which a full queue refuses |
| TimerDaemon.TimerService.DrainRound | HW5/CCS_Homework5/utils/timers.c:732-772 | One round on the 32-bit fields is the round on absolute times |
| TimerDaemon.TimerService.SwitchTimerLists | HW5/CCS_Homework5/utils/timers.c:721-777 | The whole loop and the swap on the 32-bit fields carry out the drain and swap on absolute times; terminates |
| TimerDaemon.TimerService.SampleTimeNow | HW5/CCS_Homework5/utils/timers.c:531-551 | Carries out the sample on absolute times; reports a switch exactly when it happened |
| TimerDaemon.TimerService.InsertTimerInActiveList | HW5/CCS_Homework5/utils/timers.c:554-592 | Chooses list and answer as the unbounded clock does, by 32-bit comparisons, and keeps the invariant |
| TimerDaemon.TimerService.ReloadExpired | HW5/CCS_Homework5/utils/timers.c:393-410 | Reloads relative to the expiry, not to now; sends a START carrying it if that is late |
| TimerDaemon.TimerService.ProcessExpiredTimer | HW5/CCS_Homework5/utils/timers.c:381-418 | Carries out the step on absolute times |
| TimerDaemon.TimerService.GetNextExpireTime | HW5/CCS_Homework5/utils/timers.c:505-528 | The head's expiry as the counter shows it, or 0 for an empty list, and which of the two |
| TimerDaemon.TimerService.HeadOrder | HW5/CCS_Homework5/utils/timers.c:461-481 | With no rollover the 32-bit comparison and difference for the head are the absolute ones |
| TimerDaemon.TimerService.ProcessTimerOrBlockTask | HW5/CCS_Homework5/utils/timers.c:445-502 | Carries out the first stage; blocks exactly when there was no rollover and nothing due, and then asks for what BlockNeverLate is about |
| TimerDaemon.TimerService.StartTimer | HW5/CCS_Homework5/utils/timers.c:656-684 | The START case carries out the step on absolute times |
| TimerDaemon.TimerService.ChangeTimerPeriod | HW5/CCS_Homework5/utils/timers.c:692-704 | The CHANGE_PERIOD case leaves the timer with the new period, waiting one such period from now: its ignored answer is always "not now" |
| TimerDaemon.TimerService.ObeyCommand | HW5/CCS_Homework5/utils/timers.c:654-715 | Every command case carries out the step on absolute times |
| TimerDaemon.TimerService.ProcessReceivedCommand | HW5/CCS_Homework5/utils/timers.c:602-717 | One iteration of the command loop carries out one Accept step and keeps the invariant |
| TimerDaemon.TimerService.ProcessReceivedCommands | HW5/CCS_Homework5/utils/timers.c:595-718 | The loop carries out one Accept step at each time it samples, the clock moving as it may, until the queue is empty; nobody posts while it runs |
| TimerDaemon.TimerService.TimerTaskPass | HW5/CCS_Homework5/utils/timers.c:421-442 | A pass of the endless loop is one Serve step and then one Accept step for each command, at the times sampled; it asks to be blocked exactly when the Serve step had nothing to do. Posts within a pass fall between its steps, each of which ProcessTimerOrBlockTask, ProcessReceivedCommand and PostCommand carry out from any state with the invariant |
| TimerDaemon.TimerService.TimerTaskUntilBlocked | HW5/CCS_Homework5/utils/timers.c:429-441 | With the clock standing still and nobody posting the loop asks to be blocked after finitely many passes, has then caught up, and has carried out a run |
| TimerDaemon.TimerService.PostCommand | HW5/CCS_Homework5/utils/timers.c:316-356 | A command from elsewhere is one Post step, which a full queue refuses with nothing changed |
| TimerDaemon.TimerService.CreateTimer | HW5/CCS_Homework5/utils/timers.c:275-313 | Refuses exactly a period of 0; otherwise one Create step |
| Sessions.SetpgidKeeps | HW2/Ques5/sys.c:1111-1130 | Moving a process to a group that setpgid admits keeps every group within one session, the group named by the process's own pid included |
| Sessions.StepKeeps | HW2/Ques5/sys.c:1069-1138 | Each of setpgid, setsid, fork, thread creation, execve and exit keeps: groups within sessions, leaders at pid = pgid = sid, every process in the session of the group its pid names, and a live process whose pid names a session leading it |
| Sessions.RunKeeps | HW2/Ques5/sys.c:1069-1247 | So does every run |
| Sessions.GroupsWithinSessions | HW2/Ques5/sys.c:1069-1247 | In every state reached from boot all members of a process group are in one session and every session leader has pid = pgid = sid |
| Sessions.SetsidCreatesAlone | HW2/Ques5/sys.c:1216-1247 | setsid succeeds exactly if the caller's pid names no process group, and then the new session and group contain the caller and nobody else |
| Sessions.AnyMemberWillDo | HW2/Ques5/sys.c:1119-1122 | setpgid's answer does not depend on which member of the group the kernel happens to look at |
| Sessions.SessionsChangeBySetsid | HW2/Ques5/sys.c:1216-1247 | No step but a process's own setsid changes its session, and only to its own pid; leaders never move |
| Sessions.LeaderForLife | HW2/Ques5/sys.c:1111-1113 | Over every run a session leader stays at pid = pgid = sid until it exits |
| Sessions.ProcessTable.constructor | HW2/Ques5/sys.c:1069-1247 | The first process alone satisfies the invariant |
| Sessions.SetsidChanges | HW2/Ques5/sys.c:1216-1247 | setsid changes the caller's session, group and leadership, or nothing if it fails |
| Sessions.SetpgidSucceedsExactly | HW2/Ques5/sys.c:1069-1138 | setpgid succeeds if and only if the target is the caller, or its child in its session that has not called execve; the target leads no session; the group is named by the target, or has a member in the caller's session; and the LSM consents |
| Sessions.SetpgidFailsExactly | HW2/Ques5/sys.c:1080-1123 | Each error code, with its exact cause |
| Sessions.SetpgidMoves | HW2/Ques5/sys.c:1129-1132 | A successful setpgid puts the target into the group and changes nothing else; a failed one changes nothing |
| Sessions.SetpgidZeroes | HW2/Ques5/sys.c:1076-1079 | A target of 0 is the caller, and a group of 0 the one named by the target |
| Sessions.ChildMovableUntilExecve | HW2/Ques5/sys.c:1098-1104 | A forked child can be put into a group of its own by its parent until it calls execve, and no longer |
| Sessions.ProcessTable.CheckSetpgid | HW2/Ques5/sys.c:1080-1127 | The checks, made in the source's order, answer as SetpgidSucceedsExactly and SetpgidFailsExactly say |
| Sessions.ProcessTable.SetpgidCall | HW2/Ques5/sys.c:1069-1138 | Carries out the step and keeps the invariant; returns 0 exactly when target and group, zeroes defaulted, are as SetpgidSucceedsExactly says |
| Sessions.ProcessTable.ChangeGroup | HW2/Ques5/sys.c:1129-1130 | Only the target's group changes |
| Sessions.ProcessTable.SetSpecialPids | HW2/Ques5/sys.c:1205-1214 | Session and group become the caller's pid, nothing else changes |
| Sessions.ProcessTable.SetsidCall | HW2/Ques5/sys.c:1216-1247 | Returns the pid or -EPERM, carries out the step and keeps the invariant |
| Sessions.ProcessTable.BecomeLeader | HW2/Ques5/sys.c:1234-1235 | The caller alone becomes leader of a session and group with its pid |
| Credentials.NothingGained | HW2/Ques5/sys.c:337-826 | Over any sequence of set*uid (or set*gid) calls without the capability, {real, effective, saved} gains no id, and the filesystem id stays among the four at the start |
| Credentials.ReachableExactly | HW2/Ques5/sys.c:588-651 | Exactly the ids held can be made effective by some sequence of calls |
| Credentials.DroppedForGood | HW2/Ques5/sys.c:470-528 | A successful setreuid(x, x) leaves all four at x, for the rest of any run without the capability |
| Credentials.SetReExactly | HW2/Ques5/sys.c:491-517 | set*re: exactly which ids may be set, and exactly what becomes of each of the four |
| Credentials.ExchangedAndBack | HW2/Ques5/sys.c:455-469 | Real and effective id can be exchanged without the capability, and exchanged back |
| Credentials.SetOneExactly | HW2/Ques5/sys.c:566-570 | set*id without the capability takes exactly the real or saved id, and changes only the effective and filesystem id |
| Credentials.SetForGood | HW2/Ques5/sys.c:559-570 | With the capability it leaves all four ids at the one asked for, and they stay there over any run without it |
| Credentials.SetFsExactly | HW2/Ques5/sys.c:766-779 | setfs* takes exactly the four ids at hand without the capability, and changes only the filesystem id |
| Credentials.UserOutcomeExactly | HW2/Ques5/sys.c:478-527 | A user call succeeds if and only if its ids are valid and permitted, memory is found and the LSM consents; each error code with its exact cause; a failure changes nothing |
| Credentials.GroupOutcomeExactly | HW2/Ques5/sys.c:345-386 | The same for a group call |
| Credentials.FsOutcomeExactly | HW2/Ques5/sys.c:754-826 | A setfs* call sets the id if and only if it is valid and permitted and nobody refuses |
| Credentials.ArgExactly | HW2/Ques5/sys.c:478-484 | -1 asks for nothing, any other argument for the id it maps to, if any |
| Credentials.OutcomesAreAttempts | HW2/Ques5/sys.c:470-651 | Whatever a call returns, its new ids are those of one attempt in such a run; a failure changes nothing |
| Credentials.FsOutcomesAreAttempts | HW2/Ques5/sys.c:754-826 | So is a setfs* call without the capability: it changes only the filesystem id, to one of the four |
| Credentials.ForeignRefused | HW2/Ques5/sys.c:616-640 | The three refusals of set*res are together the rule "only ids already held" |
| Credentials.Task.PrepareCreds | HW2/Ques5/sys.c:486-489 | The copy has the old ids and one reference to the user struct of its own |
| Credentials.Task.AbortCreds | HW2/Ques5/sys.c:525-527 | Giving up the new credential restores the reference counts to what others and the old credential hold |
| Credentials.Task.CommitCreds | HW2/Ques5/sys.c:523-523 | The new credential takes over and the old one's reference is dropped |
| Credentials.Task.SetUser | HW2/Ques5/sys.c:429-453 | Exchanges the reference for one to the user struct of the new uid, or fails with -EAGAIN and changes nothing |
| Credentials.Task.FollowUid | HW2/Ques5/sys.c:509-513 | After it either references are conserved and the user struct is the one of the new uid, or the new credential is gone |
| Credentials.Task.FixAndCommit | HW2/Ques5/sys.c:519-527 | Commits, or gives up when the LSM refuses; references conserved either way |
| Credentials.Task.Setreuid | HW2/Ques5/sys.c:470-528 | On every path references are conserved and the credential's user struct is the one of its uid; return value and ids as the order of checks demands; group ids untouched; the old credential object is never written |
| Credentials.Task.AssignRe | HW2/Ques5/sys.c:491-507 | Permitted exactly when the shared rule permits it |
| Credentials.Task.Setuid | HW2/Ques5/sys.c:541-581 | As Setreuid, for setuid; with the capability a success leaves all four ids at the one asked for |
| Credentials.Task.Setresuid | HW2/Ques5/sys.c:588-651 | As Setreuid, for setresuid |
| Credentials.Task.Setfsuid | HW2/Ques5/sys.c:754-788 | Returns the old filesystem uid whatever happens; its new ids are those FsOutcomesAreAttempts is about; references conserved |
| Credentials.Task.Setregid | HW2/Ques5/sys.c:337-387 | As Setreuid, for the group ids; user ids untouched |
| Credentials.Task.Setgid | HW2/Ques5/sys.c:394-424 | As Setuid, for the group ids |
| Credentials.Task.Setresgid | HW2/Ques5/sys.c:675-725 | As Setresuid, for the group ids |
| Credentials.Task.Setfsgid | HW2/Ques5/sys.c:793-826 | As Setfsuid, for the group ids |
| Subreaper.CoveredAllTheWay | HW2/Ques5/sys.c:2287-2297 | If the children of every task of a set are in the set (child reapers apart), so is everything reached on a path without child reapers |
| Subreaper.PrunedIsFull | HW2/Ques5/sys.c:2285-2301 | If what is skipped is closed below, the pruned walk marks exactly what a walk that skips nothing would |
| Subreaper.PruningNeedsClosure | HW2/Ques5/sys.c:2287-2297 | Without closure it does not: a three-task tree where the pruned walk misses one |
| Subreaper.ExposedFlagged | HW2/Ques5/sys.c:2287-2293 | Under the invariant every descendant of a flagged task or subreaper that is not behind a child reaper is flagged |
| Subreaper.FullWalkCloses | HW2/Ques5/sys.c:2285-2301 | The walk re-establishes the closure it relies on |
| Subreaper.ForkKeeps | HW2/Ques5/sys.c:2287-2293 | Inheritance on fork keeps it |
| Subreaper.ExitKeeps | HW2/Ques5/sys.c:2287-2293 | Re-parenting orphans to an exposed ancestor keeps it |
| Subreaper.StepKeeps | HW2/Ques5/sys.c:2452-2458 | Setting, clearing, fork and exit all keep it |
| Subreaper.RunKeeps | HW2/Ques5/sys.c:2452-2458 | In every state of every run all descendants of every subreaper that are not behind a child reaper are flagged |
| Subreaper.NothingFlagged | HW2/Ques5/sys.c:2287-2293 | Any process tree with nothing flagged and no subreaper satisfies the invariant |
| Subreaper.RunFromBoot | HW2/Ques5/sys.c:2452-2458 | So what RunKeeps says holds in every state reached from boot |
| Subreaper.PrctlExactly | HW2/Ques5/sys.c:2452-2458 | Setting makes the caller a subreaper and flags exactly its descendants not behind a child reaper besides; clearing ends that and flags nobody; the tree stays |
| Subreaper.ForkExactly | HW2/Ques5/sys.c:2287-2293 | A new process is flagged exactly below a flagged process or a subreaper |
| Subreaper.Kernel.PropagateHasChildSubreaper | HW2/Ques5/sys.c:2285-2301 | Marks the visited process and asks to descend, or leaves it and asks to skip, as it was flagged or a child reaper |
| Subreaper.Kernel.WalkProcessTree | HW2/Ques5/sys.c:2457-2457 | Marks exactly the descendants reached on a path on which nothing was flagged before or is a child reaper |
| Subreaper.Kernel.SetChildSubreaper | HW2/Ques5/sys.c:2452-2458 | The call does what PrctlExactly says, by the pruned walk, and keeps the invariant |
| SysInfo.FitsExactly | HW2/Ques5/sys.c:2556-2569 | For a power-of-two unit the overflow test says exactly whether total memory in bytes fits an unsigned long |
| SysInfo.ScalingPreservesBytes | HW2/Ques5/sys.c:2571-2585 | Scaling keeps every figure times its unit, and sub-totals within their totals |
| SysInfo.OtherUnitsLose | HW2/Ques5/sys.c:2556-2585 | For any other unit a scaled figure is right if and only if it is 0 |
| SysInfo.ScalesExactly | HW2/Ques5/sys.c:2556-2571 | Figures are given in bytes if total memory in bytes fits an unsigned long, and are left alone otherwise |
| SysInfo.SysinfoStruct.CountShifts | HW2/Ques5/sys.c:2556-2569 | The shift-and-compare loop on 64-bit values detects overflow exactly and counts the shifts |
| SysInfo.SysinfoStruct.DoSysinfo | HW2/Ques5/sys.c:2556-2588 | All eight fields and the unit are scaled together, or none |
| SysInfo.SysinfoStruct.RaiseUnit | HW2/Ques5/sys.c:2630-2636 | The unit is doubled until it reaches a page, and the doublings are counted |
| SysInfo.SysinfoStruct.ScaleDown | HW2/Ques5/sys.c:2630-2646 | All eight fields and the unit are rescaled together, exactly when a total needs more than 32 bits |
| SysInfo.StepsReachPage | HW2/Ques5/sys.c:2633-2636 | A power-of-two unit reaches exactly a page, or is one or more pages and stays |
| SysInfo.RescalesExactly | HW2/Ques5/sys.c:2630-2646 | With both totals below 2^32 nothing is rescaled; otherwise the unit becomes a page, or stays if it is more |
| SysInfo.ScalingDownLoses | HW2/Ques5/sys.c:2630-2646 | The compat rescale never raises a figure in bytes and loses less than PAGE_SIZE bytes of it |
| SysInfo.ReportedBytes | HW2/Ques5/sys.c:2556-2646 | Both scalings in sequence lose less than PAGE_SIZE bytes per figure, and nothing when the original unit was a multiple of PAGE_SIZE |
| SysInfo.RescaledSeenExactly | HW2/Ques5/sys.c:2630-2662 | The compat rescale alone: a figure survives the 32-bit field if and only if its bytes are less than 2^32 pages, or 2^32 units if these are larger than a page |
| SysInfo.FiguresSeenExactly | HW2/Ques5/sys.c:2556-2662 | Both scalings in sequence: a 32-bit caller sees a figure exactly if and only if its bytes are less than 2^32 pages, or, where total memory in bytes did not fit 64 bits, less than 2^32 of the larger of page and original unit |
| SysInfo.WideTotalReadsZero | HW2/Ques5/sys.c:2630-2662 | 2^44 bytes of memory in pages of 4096 read 0 |
| MergeSort.MergeSorts | HW2/Ques5/sys.c:940-975 | Merging two sorted runs is sorted |
| MergeSort.MergeCounts | HW2/Ques5/sys.c:940-975 | Merging keeps every element as often as the two runs have it |
| MergeSort.SortsExactly | HW2/Ques5/sys.c:917-977 | The result is sorted and a permutation |
| MergeSort.SortedUnique | HW2/Ques5/sys.c:917-977 | Two sorted arrays with equal counts are equal, so this is the only correct result |
| MergeSort.MidpointInRange | HW2/Ques5/sys.c:921-929 | The midpoint lies in the range, and neither it nor the sizes overflow an int |
| MergeSort.MergeHeads | HW2/Ques5/sys.c:944-957 | The loop over both halves writes a prefix of the merge and touches nothing else |
| MergeSort.CopyRest | HW2/Ques5/sys.c:961-975 | The remaining elements of a half follow, and nothing else changes |
| MergeSort.MergeBack | HW2/Ques5/sys.c:940-975 | The three loops leave the merge of the two halves in arr[l..r] |
| MergeSort.Sort | HW2/Ques5/sys.c:917-977 | For every array and range, terminates with arr[l..r] the sorted copy of what it was and everything outside unchanged |
| ResourceLimits.SucceedsExactly | HW2/Ques5/sys.c:1588-1614 | A request succeeds if and only if the resource exists, soft is not above hard, a file limit is within the system's, the process has its signal handlers, a hard limit rises only with the capability, and the LSM consents |
| ResourceLimits.FailsExactly | HW2/Ques5/sys.c:1588-1614 | Each error code, with its exact cause |
| ResourceLimits.ReadsExactly | HW2/Ques5/sys.c:1588-1630 | Reading needs only the resource and the signal handlers, and changes nothing |
| ResourceLimits.StoresExactly | HW2/Ques5/sys.c:1615-1630 | What is stored is what was asked for, but for a CPU limit of 0; no other limit changes |
| ResourceLimits.RunInOrder | HW2/Ques5/sys.c:1582-1646 | Over any run every stored limit has soft <= hard, except that RLIMIT_CPU may hold exactly (1, 0) |
| ResourceLimits.OutOfOrderExactly | HW2/Ques5/sys.c:1615-1623 | A successful call stores soft > hard if and only if it asks for (0, 0) on RLIMIT_CPU |
| ResourceLimits.HardNeverRises | HW2/Ques5/sys.c:1610-1612 | Over any run without the resource capability no hard limit rises |
| ResourceLimits.NativeRoundTrip | HW2/Ques5/sys.c:1557-1579 | Native to 64-bit and back is the identity, for 32- and 64-bit longs |
| ResourceLimits.WideRoundTrip | HW2/Ques5/sys.c:1548-1579 | 64-bit to native and back is the identity exactly for values a native long can tell from infinity |
| ResourceLimits.CompatRoundTrip | HW2/Ques5/sys.c:1463-1490 | A compat limit reads back as it was set |
| ResourceLimits.CompatSeenExactly | HW2/Ques5/sys.c:1483-1490 | A compat reader sees limits up to the 32-bit infinity exactly, and infinity for larger ones |
| ResourceLimits.CompatStoredExactly | HW2/Ques5/sys.c:1463-1470 | A compat writer's limit is stored as it is, and its infinity as the native one |
| ResourceLimits.DoPrlimit | HW2/Ques5/sys.c:1582-1646 | Error order, stored table, old limit reported, rewriting of the caller's request even when refused, and the CPU limit handed on |
| SharedMemory.LoadedIsStored | HW4/Ques2/Shared Memory/sharedMem.c:130-214 | What a reader takes in the format of the message stored last is that message, whatever the segment held before |
| SharedMemory.StoredKeepsRest | HW4/Ques2/Shared Memory/sharedMem.c:130-143 | Storing a message leaves the bytes beyond it as they were |
| SharedMemory.After | HW4/Ques2/Shared Memory/sharedMem.c:128-244 | Every schedule, from any state with the invariant, keeps it: one token, one message under way, alternating log, messages received in order |
| SharedMemory.StepKeeps | HW4/Ques2/Shared Memory/sharedMem.c:128-244 | Every wait, access and post keeps it |
| SharedMemory.EveryInterleaving | HW4/Ques2/Shared Memory/sharedMem.c:128-244 | In every interleaving semaphore values plus processes inside a section total 1, stores and loads strictly alternate, the k-th load takes what the k-th store left, and the child has exactly a first part of the messages sent to it |
| SharedMemory.MovesCounted | HW4/Ques2/Shared Memory/sharedMem.c:128-244 | The progress measure counts the moves made |
| SharedMemory.OneRace | HW4/Ques2/Shared Memory/sharedMem.c:157-158 | Both processes can move in one state only: the child's last message is stored and the parent is about to load its first |
| SharedMemory.EndsAt | HW4/Ques2/Shared Memory/sharedMem.c:128-244 | Nobody can move exactly when both are through, or the parent has taken its own last message; at most 6 moves per message are made |
| SharedMemory.StealStep | HW4/Ques2/Shared Memory/sharedMem.c:141-158 | The token is stolen by that one move of the parent and no other |
| SharedMemory.StolenExactly | HW4/Ques2/Shared Memory/sharedMem.c:141-158 | In every run the token is stolen if and only if move number 6K - 3 (K messages to the child) is the parent's |
| SharedMemory.HowRunsEnd | HW4/Ques2/Shared Memory/sharedMem.c:128-244 | Every maximal run delivers all messages in order both ways, or stops in the one stuck state, according to who made that move; in the stuck state the parent has taken the message the child still waits for, in the format of the child's first |
| SharedMemory.OnlyTheRaceIsOpen | HW4/Ques2/Shared Memory/sharedMem.c:128-244 | Runs of equal length that agree on that move are the same run |
| SharedMemory.RunsReachAnEnd | HW4/Ques2/Shared Memory/sharedMem.c:128-244 | Every run can be carried on to an end, whoever wins the race if it is still open |
| SharedMemory.BothEndsHappen | HW4/Ques2/Shared Memory/sharedMem.c:128-244 | Both ends are reached by some schedule; delivery in both directions exactly when the child wins |
| SharedMemory.Handoff.constructor | HW4/Ques2/Shared Memory/sharedMem.c:50-66 | A zeroed segment and semaphores at 0 and 1 are the initial state |
| SharedMemory.Handoff.StoreText | HW4/Ques2/Shared Memory/sharedMem.c:143-143 | The characters and a NUL are written, the rest of the segment is kept |
| SharedMemory.Handoff.LoadText | HW4/Ques2/Shared Memory/sharedMem.c:213-214 | Reads up to the first NUL, within the length of the message buffers |
| SharedMemory.Handoff.Section | HW4/Ques2/Shared Memory/sharedMem.c:128-173 | The access of a section is the specified one for the process and round |
| SharedMemory.Handoff.Advance | HW4/Ques2/Shared Memory/sharedMem.c:128-244 | A process moves exactly if the protocol lets it; the in-place state then is the next state, and keeps the invariant |
| AnimalList.FirstDifference | HW3/Ques4/linkedListModule.c:101-106 | The comparison is decided by the first difference: the smaller character, or the end of a string, comes first |
| AnimalList.StrcmpIsOrder | HW3/Ques4/linkedListModule.c:101-106 | So it decides the order of strings, defined without it |
| AnimalList.InsertedAscending | HW3/Ques4/linkedListModule.c:99-122 | One round keeps the species in strictly ascending order |
| AnimalList.InsertedHolds | HW3/Ques4/linkedListModule.c:99-122 | One round counts its species once more, adds it with count 1 if it is new, and leaves all others |
| AnimalList.BuiltExactly | HW3/Ques4/linkedListModule.c:97-123 | For any seeds: strictly ascending, a species is in the list exactly if it is among the seeds, and its count is its number of occurrences (modulo 2^32) |
| AnimalList.BuiltIsTable | HW3/Ques4/linkedListModule.c:97-123 | Said without the comparison: each species of the seeds has one entry, in the order of strings, with its multiplicity among the seeds (modulo 2^32), and there is no other entry |
| AnimalList.SeedOrderIrrelevant | HW3/Ques4/linkedListModule.c:97-123 | The list does not depend on the order of the seeds |
| AnimalList.AscendingUnique | HW3/Ques4/linkedListModule.c:97-123 | An ascending list is determined by its species and counts |
| AnimalList.NothingAfterMatch | HW3/Ques4/linkedListModule.c:51-58 | In an ascending list nothing after the first match of a species can pass a filter on it |
| AnimalList.SelectExactly | HW3/Ques4/linkedListModule.c:62-70 | A full scan prints exactly the entries that pass, as often as they are in the list |
| AnimalList.ListingsExactly | HW3/Ques4/linkedListModule.c:50-83 | What each of the three listings prints: the entries of that species, with at least that count, or both, in the list's order |
| AnimalList.TotalsExactly | HW3/Ques4/linkedListModule.c:54-85 | The totals are the number of printed entries and 32 bytes for each, as unsigned ints |
| AnimalList.AnimalRing.ListAddTail | HW3/Ques4/linkedListModule.c:110-121 | The node is linked in before the given one and the ring stays well-formed in both directions |
| AnimalList.AnimalRing.AddBefore | HW3/Ques4/linkedListModule.c:106-122 | A new animal in front of the first greater species, or at the end, is the sorted insertion |
| AnimalList.AnimalRing.CountOnceMore | HW3/Ques4/linkedListModule.c:101-105 | Counting in place is the insertion of a species already there |
| AnimalList.AnimalRing.InsertSeed | HW3/Ques4/linkedListModule.c:99-122 | One round, mutating the ring it traverses, is the insertion; the ring stays well-formed and the sentinel is never replaced |
| AnimalList.AnimalRing.ListInitialize | HW3/Ques4/linkedListModule.c:93-123 | For any seeds the loop leaves a well-formed ring holding the table that BuiltIsTable describes |
| AnimalList.AnimalRing.WithSpecies | HW3/Ques4/linkedListModule.c:51-60 | The scan that stops at the first match reports the nodes and totals of a full scan |
| AnimalList.AnimalRing.WithCount | HW3/Ques4/linkedListModule.c:62-72 | Reports the entries with at least the given count, and their totals as unsigned ints |
| AnimalList.AnimalRing.WithBoth | HW3/Ques4/linkedListModule.c:74-85 | The scan that stops at the first match of both filters reports the nodes and totals of a full scan |

## Left out

- Timers: the daemon's endless loop is modelled pass by pass; that it goes round for ever is not a claim of the model.
- TimerDaemon.TimerService.ProcessReceivedCommands: nobody posts while the method runs, because a method has no interleaving; commands posted between two of its iterations are covered by the runs, whose single steps the methods carry out from any state with the invariant.
- Timers: DELETE frees the timer; the model keeps its record, so that a START queued behind a DELETE, which would touch freed memory, is not shown as a fault.
- Timers: commands sent from interrupts, waiting for room in the queue, pended function calls, critical sections, scheduler suspension, trace and assert macros, names, identifiers and the active test.
- Timers: xTimerCreate when memory runs out, which returns NULL like a period of 0 and changes nothing.
- Sessions: zombies, threads as callers in their own right, pid namespaces below the first, controlling terminals and the connector and scheduler notifications of setsid.
- Credentials.Task.SetUser: does not model the flag that records an exceeded process limit, because no call of the file reads it.
- Credentials: capability recomputation, keyrings and the commit of security state, which happen in services outside the file.
- Subreaper: walk_process_tree, fork and exit are not part of the file; the walk is modelled as the recursive descent that its visitor's answers ask for.
- SysInfo: uptime, load averages, process counts and the copy to the caller; a compat unit of 0, for which the rescaling loop would not end.
- MergeSort: the system call around it (buffers, copies to and from the caller) and the stack its temporary arrays need.
- ResourceLimits: prlimit64's permission check and reference counting, the old getrlimit calls that clip at 31 bits, locking.
- SharedMemory: signals, the log file and its time stamps, the pause between writing and reading (it makes the race unlikely but does not decide it), left-over semaphores of an earlier run, and unlinking at exit.
- AnimalList: freeing the list, failing allocation, kernel log output, and a filter parameter that was never set.
- Everything else in the repository (pipes, sockets, files, cron and syscall test programs, threads, drivers, startup code): I/O and hardware access, or members whose contracts would be one branch each.
