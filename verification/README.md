# Verification of the sylar scheduler, log patterns and configuration

A Dafny model of three parts of sylar, a C++ coroutine server framework, with proofs about them:

* the N:M fiber scheduler: worker threads that share one locked task list and run fibers from it;
* the log pattern compiler, an index scanner with error recovery;
* the configuration engine: YAML flattening, typed conversions, change listeners, and the listener
  that keeps the loggers in step with the configured definitions.

`dafny verify dfyconfig.toml` checks everything.

## How the code is modelled

| file | models | form |
|---|---|---|
| `TaskQueue.dfy` | task list, `scheduleNoLock`, choice of the pick loop | values |
| `Protocol.dfy` | `run`, `stop`, `stopping`, `idle`, the fiber states, over any number of workers | step relation |
| `Shutdown.dfy`, `Exclusion.dfy`, `Runs.dfy`, `Discipline.dfy`, `Assertions.dfy`, `PickLoop.dfy`, `Fairness.dfy`, `Requests.dfy` | invariants and results about `Protocol` | lemmas |
| `Workload.dfy`, `SingleWorker.dfy` | what tasks do; `schedule`, `run`, `stop` with the caller's thread as the only worker | specification; classes, loops |
| `FiberSwitch.dfy`, `FiberMigration.dfy` | `swapIn`, `swapOut`, `call`, `back`, `YieldToReady`, the ends of the main functions, in any series, on one and on several threads | specification; classes |
| `ThreadStart.dfy` | `Scheduler::start` against `Thread::run` | step relation |
| `LogPattern.dfy` | `LogFormatter::init` | grammar; class with loops |
| `Yaml.dfy`, `ConfigLoad.dfy`, `ConfigPaths.dfy` | `ListAllMember`, `Config::LoadFromYaml` | specification; class with loops |
| `ConfigCast.dfy` | the four container casts | specification; methods with loops |
| `ConfigVar.dfy` | `setValue`, `fromString`, the listener calls | specification; class |
| `LogDefine.dfy` | the two `LogDefine` casts, level names | specification; methods with loops |
| `LoggerRegistry.dfy` | the "logs" listener, `getLogger`, `eraseLogger` | specification; classes with loops |

In `Protocol` the function `Step` is one memory-atomic piece of the code, and the lemmas quantify
over every interleaving of such pieces (`Possible`, `Reachable`). The pick loop advances one entry
at a time while it holds the mutex, so other workers change fiber states under it. A fiber that
stops running first writes READY, TERM or EXCEPT and leaves its stack in a later step. `Config`
names the circumstances on which a result can depend; `atomicOut = false` is the code.

### Assumptions of the scheduler model

* Memory is sequentially consistent, also for `m_state`, which the code does not make atomic.
* Handles are queued as meant: a fiber is queued once when it is new, only the running fiber itself
  queues its handle again, once, and it yields only after doing so (the duty stated at
  sylar/scheduler.cpp:241). With `loose` set none of this is assumed: anybody may queue any fiber's
  handle, new, queued, running or finished, at any time and any number of times, and a fiber may yield
  without having queued itself.
* `schedule` calls from outside end before `stop` is called. Running tasks may schedule at any time.
  A pin may name any thread, also one that does not exist.
* `reset` with a new callback and the `swapIn` after it are one step; no other worker holds, runs or
  keeps the fiber in between (`Discipline.KeptFiberIsPrivate`), though one may still be leaving its stack
  (`Discipline.KeptStacksFreeIffGuarded`). `m_cb = nullptr` and the TERM write are one step, since only
  the fiber's own thread reads `m_cb`.
* Worker k is thread id k. A batch `schedule` is a series of single ones with the default thread.
  `active` is an integer; it never falls below zero (`Shutdown.Counted`).

Of the configuration, the results assume serial calls, and those about the registry also that nothing
but the listener sets a logger's level or appenders once the run starts (`Logger::setLevel`,
`addAppender`, `delAppender` and `clearAppenders` are public).

### Where the code does less than it means to

| place | effect | exact condition |
|---|---|---|
| sylar/fiber.cpp:212-213, 226-247 | state written before the stack is left: another worker can enter a fiber whose stack is still in use | `Discipline.ExclusiveIffGuarded`, `Discipline.KeptStacksFreeIffGuarded` |
| sylar/scheduler.cpp:236-289 | a dequeued finished fiber is dropped without the decrement, and no worker ever leaves `run` | `Discipline.DroppedIff`, `Discipline.CounterExactIffNotLoose`, `Shutdown.LeakBlocksShutdown` |
| sylar/fiber.cpp:117, 134 | a fiber queued twice, or again after it finished, can be entered or reset while it runs: the assertions fail | `Assertions.AssertionsHoldIff` |
| sylar/config.h:346 | a value that compares equal is not stored, so the last value loaded need not be the one held | `ConfigLoad.LastAlwaysWinsIff` |
| sylar/config.h:340-389 | once the listener is removed, loggers no longer follow the definitions | `LoggerRegistry.AgreementIffListenerKept` |
| sylar/config.cpp:38 | the characters have no `9`, those of `Lookup` do | `ConfigLoad.LoadableIffNoNine` |
| sylar/log.cpp:708 | appenders are compared with themselves | `LoggerRegistry.CodedRunMatchesIff`, `LoggerRegistry.CodedMatchesIff`, `LoggerRegistry.UpdateIgnoredIff` |
| sylar/log.cpp:754, 805 | `file` is written, `fileName` is read | `LogDefine.DefRoundTripIff` |
| sylar/log.cpp:889-897 | dropped names are erased inside the loop over new entries | `LoggerRegistry.DroppedIsErasedIff` |
| sylar/config.h:384-388 | ids start again after `clearListener` | `ConfigVar.NextIdIsReusedIff` |

## Model

| member | source | states |
|---|---|---|
| `Shutdown.GracefulExit` | sylar/scheduler.cpp:277-312 | in every reachable state of any interleaving in which some worker has left `run`: list empty, no worker holds or runs a task, nothing was dropped, and the multiset of accepted entries is the multiset switched to |
| `Shutdown.ShutDownStable` | sylar/scheduler.cpp:299-303 | no action of any thread makes a true shutdown predicate false, because nothing but the loops can still act |
| `Shutdown.ShutDownForever` | sylar/scheduler.cpp:299-303 | the same over whole runs |
| `Shutdown.StepKeeps` | sylar/scheduler.cpp:200-289 | each action keeps the mutex owner, the absence of empty entries, the counter law (workers between pick and decrement plus finished fibers dequeued) and the conservation of every entry |
| `Shutdown.SoundReachable` | sylar/scheduler.cpp:178-312 | these hold in every reachable state, whatever the configuration |
| `Shutdown.OrderlyStep` | sylar/scheduler.cpp:305-312 | an idle fiber is EXEC exactly while its worker is in it, and TERM only when the shutdown predicate holds |
| `Shutdown.LeakBlocksShutdown` | sylar/scheduler.cpp:277-289 | one dequeued finished fiber keeps the shutdown predicate false and every worker in `run` for ever |
| `Shutdown.BoundedExit` | sylar/scheduler.cpp:305-312 | once the predicate holds, at most 11 further actions for each worker are possible |
| `Shutdown.ExitNeverStuck` | sylar/scheduler.cpp:305-312 | and some worker can always move until all have left |
| `Shutdown.CallerRunsIff` | sylar/scheduler.cpp:151-158 | the thread that calls `stop` enters the loop exactly when something is left to do, and changes nothing else |
| `Shutdown.EveryoneCanLeave` | sylar/scheduler.cpp:277-312 | so from any such state a run lets all workers leave |
| `Shutdown.ExitReachable` | sylar/scheduler.cpp:117-172 | and in every configuration a run that stops the scheduler gets there |
| `Discipline.EveryWorkerLeaves` | sylar/scheduler.cpp:161-171 | the last two over every run from a reachable state: the joins of `stop` return |
| `Discipline.ExclusiveIffGuarded` | sylar/fiber.cpp:209-214 | a fiber's stack is never used by two workers in any reachable state if and only if there is one worker, or leaving is one step, or fibers requeue themselves for their own thread |
| `Discipline.RaceReachable` | sylar/fiber.cpp:212-213 | for any unguarded configuration, a run in which two workers stand on one stack |
| `Discipline.ConsistentReachable` | sylar/scheduler.cpp:215-239 | an assignment of every fiber to list, hand, worker and keeper that agrees with its state exists in every reachable state |
| `Exclusion.StepPlaced` | sylar/scheduler.cpp:200-275 | each action keeps that assignment: running exactly when EXEC, READY only if queued or in hand, finished never queued, one place for each handle |
| `Exclusion.StepHomed` | sylar/scheduler.cpp:203-208 | with self-pinned requeues, a fiber that ran is only ever named by the worker it first ran on |
| `Discipline.KeptFiberIsPrivate` | sylar/scheduler.cpp:249-275 | a `cbFiber` kept for the next callback, whoever finished it, is INIT with an empty callback, not queued, neither held nor run by any worker, and kept by no other |
| `Discipline.KeptStacksFreeIffGuarded` | sylar/scheduler.cpp:268-275 | nobody still stands on the stack of such a fiber, in all reachable states, if and only if there is one worker, or leaving is one step, or fibers requeue themselves for their own thread |
| `Discipline.KeptStackInUse` | sylar/scheduler.cpp:268-275 | for any other configuration, a run in which a worker resets and keeps a fiber that another is still leaving |
| `Discipline.AssertionsNeverFail` | sylar/scheduler.cpp:214 | with handles queued as meant, in no reachable state does an assertion of the pick loop, `swapIn`, `reset` or `YieldToReady` fail, even with the race |
| `Assertions.AssertionsHoldIff` | sylar/fiber.cpp:113-134 | these assertions hold in every reachable state if and only if there is one worker or handles are not queued loosely |
| `Assertions.AloneHolds` | sylar/scheduler.cpp:248-275 | one worker never meets one of them failing, whoever queues which handle, when and how often |
| `Assertions.ResetWhileRunning` | sylar/fiber.cpp:117 | a run of two workers in which `reset` meets a fiber that is EXEC, after a finished fiber was queued |
| `Assertions.SwitchToRunning` | sylar/fiber.cpp:134 | a run of two workers in which `swapIn` meets EXEC although no fiber has finished: a new fiber was queued twice |
| `Discipline.UnfinishedIsReferenced` | sylar/fiber.cpp:92-98 | a READY fiber is queued or in a hand and an EXEC one is being run, so the destructor meets only INIT, TERM and EXCEPT |
| `Discipline.ExitLeavesNoFiber` | sylar/fiber.cpp:92-98 | after an exit every fiber is INIT or finished |
| `Discipline.CounterExactIffNotLoose` | sylar/scheduler.cpp:221-225 | the active counter is the number of busy workers in all reachable states if and only if handles are not queued loosely |
| `Discipline.DroppedIff` | sylar/scheduler.cpp:236-289 | in every configuration: a step drops an entry exactly when its worker holds a finished fiber, and the counter is exact in a reachable state exactly when none has been dropped |
| `Discipline.LeakReachable` | sylar/scheduler.cpp:236-289 | with handles queued loosely, a run that drops one |
| `Discipline.DropBlocksExit` | sylar/scheduler.cpp:277-289 | in every continuation of such a run no worker has left |
| `PickLoop.PassTakesFirst` | sylar/scheduler.cpp:200-228 | in every reachable state of every configuration, one locked pass, entry by entry among running workers, takes the first entry that is neither pinned elsewhere nor was seen running, and keeps the others in order |
| `PickLoop.PassIsPick` | sylar/scheduler.cpp:200-228 | with each handle in the list at most once, that is the abstract pick with the set of fibers seen running |
| `PickLoop.ReachableHandlesOnce` | sylar/scheduler.cpp:241 | which is so in every reachable state when handles are queued as meant |
| `PickLoop.GoneBy` | sylar/scheduler.cpp:203-219 | at every moment of a pass, the entries gone by are foreign or were seen running, and the list is unchanged |
| `Fairness.BoundedBypass` | sylar/scheduler.cpp:200-228 | over every run of the workers from a reachable state: an entry at index i, a callback or a fiber that does not run, is passed over at most i times by workers that may run it, once more only if a pass in progress had gone by it; appends make no difference |
| `Fairness.WaitingIsBounded` | sylar/scheduler.cpp:200-228 | the same for any entry whose fiber does not run meanwhile, in every configuration |
| `Fairness.WaitsUntilTaken` | sylar/scheduler.cpp:215-226 | a queued fiber that does not run is not run by anybody until its entry is taken |
| `Fairness.PinnedRunsAtHome` | sylar/scheduler.cpp:205-210 | in every reachable state of every configuration, a worker holds only entries whose pin lets it, and an entry is only ever switched to by the worker that holds it |
| `Requests.AcceptedIsAsked` | sylar/scheduler.h:66-77 | over every run: the entries accepted are the `schedule` calls of the run, from inside or outside, each with the handle, callback and thread it passed |
| `Requests.ExitRanWhatWasAsked` | sylar/scheduler.cpp:277-312 | when a worker has left, what was run is exactly that |
| `Requests.HeldWasAsked` | sylar/scheduler.cpp:203-227 | whatever a worker holds, some call of the run passed that handle and callback, and asked for that worker or for any |
| `Requests.HeldByItsThread` | sylar/scheduler.cpp:203-227 | a fiber all of whose calls so far name one thread is held by no other worker |
| `Requests.SubmittedForThread` | sylar/scheduler.h:136-147 | a new fiber submitted for a thread is held by no other worker until it is asked for again |
| `Requests.StateTellsTheEnd` | sylar/fiber.cpp:220-241 | over every run: a fiber in EXCEPT threw when it last ended, one in TERM returned |
| `Runs.FinishesCallback` | sylar/scheduler.cpp:268-271 | a worker whose callback fiber finished, by return or throw, resets it to INIT without callback and keeps it |
| `Runs.CallbackReuses` | sylar/scheduler.cpp:248-259 | a callback runs on the fiber the worker keeps, or on a new one that it then keeps |
| `Runs.GivesUpCallback` | sylar/scheduler.cpp:272-275 | one whose callback fiber has not finished gives it up untouched |
| `TaskQueue.BoundedBypass` | sylar/scheduler.cpp:203-227 | the bound for any history of appends and picks on the list alone |
| `TaskQueue.Follow` | sylar/scheduler.cpp:216-226 | an operation moves an entry only towards the head, or takes it, and then its thread was allowed to |
| `TaskQueue.FirstEligible` | sylar/scheduler.cpp:203-220 | least eligible index, or the length when there is none |
| `TaskQueue.Scheduled` | sylar/scheduler.h:136-147 | no entry without fiber and callback gets into the list |
| `SingleWorker.Scheduler.constructor` | sylar/scheduler.cpp:20-62 | initial state with one thread and `use_caller` |
| `SingleWorker.Scheduler.Schedule` | sylar/scheduler.h:136-147 | append of a non-empty entry; tickle exactly when the list was empty |
| `SingleWorker.Scheduler.Pick` | sylar/scheduler.cpp:198-230 | the loop removes the least eligible entry and counts it; `tickle_me` exactly when a foreign entry was skipped or the entry taken was not last |
| `SingleWorker.Scheduler.SwapIn` | sylar/fiber.cpp:131-152 | one slice of a fiber: its appends in order, itself last when it yields; READY, TERM or EXCEPT as the slice ends in a yield, a return or a throw |
| `SingleWorker.Scheduler.Spawn` | sylar/scheduler.h:136-147 | `schedule` from running code appends one entry, fiber or callback as asked, for this thread or any as asked |
| `SingleWorker.Scheduler.Advance` | sylar/scheduler.h:66-77 | one `schedule` call of running code appends its task and moves the code on |
| `SingleWorker.Scheduler.SwapOut` | sylar/fiber.cpp:209-247 | a yield queues the fiber for the thread asked for and leaves it READY, a return leaves it TERM without callback, a throw EXCEPT; the last two queue nothing |
| `SingleWorker.Scheduler.RunFiber` | sylar/scheduler.cpp:236-247 | fiber branch: work and order advance by one slice, counter back |
| `SingleWorker.Scheduler.RunCallback` | sylar/scheduler.cpp:248-276 | callback branch: same, reusing the fiber kept before; the fiber is kept exactly when the slice ends in a return or a throw, and is then INIT without callback and not queued |
| `SingleWorker.Fiber.Reset` | sylar/fiber.cpp:113-129 | INIT with the given callback |
| `SingleWorker.Scheduler.Run` | sylar/scheduler.cpp:178-293 | terminates; runs all work, scheduled before or on the way, exactly in first-in-first-out order; enters idle once; ends with empty list, zero counters, no READY or EXEC fiber |
| `SingleWorker.Scheduler.Stop` | sylar/scheduler.cpp:117-159 | drains everything in that order and leaves the root fiber TERM, or leaves it alone when there was nothing to do |
| `Workload.TakesTurns` | sylar/scheduler.cpp:200-230 | the order is fair: a whole list runs before anything it produces |
| `Workload.RunsEachSliceOnce` | sylar/scheduler.cpp:200-289 | every slice of all the work, scheduled now or later, is run exactly as often as it occurs |
| `Workload.StepShrinks` | sylar/scheduler.cpp:232-276 | each slice lowers the remaining work, yields and spawned tasks included |
| `Workload.EndStateIs` | sylar/fiber.cpp:220-241 | a return ends in TERM, a throw in EXCEPT, a yield in READY, whatever is scheduled before |
| `FiberSwitch.ThreadLocals.constructor` | sylar/fiber.cpp:177-196 | the main fiber of a thread is EXEC, current and its own scheduling fiber |
| `FiberSwitch.ThreadLocals.NewFiber` | sylar/fiber.cpp:60-90 | a new fiber is INIT at its entry point and leaves the chain alone; it becomes the scheduling fiber when made as root |
| `FiberSwitch.MatchingSwitchResumes` | sylar/fiber.cpp:131-169 | over any legal series of switches, with fibers coming from and going to other threads: the switch that brings the chain back to its depth before a switch in goes on just after that switch in |
| `FiberSwitch.SwitchedOutResumes` | sylar/fiber.cpp:131-169 | and a fiber that switches out goes on right there when the thread next switches to it |
| `FiberMigration.ResumesOnAnyThread` | sylar/fiber.cpp:131-152 | over any series of moves of any number of threads: a fiber that switches out on one goes on right there on whichever thread next switches to it, however it was passed on |
| `FiberMigration.Perform` | sylar/scheduler.cpp:215-225 | no fiber is ever in two places: on two threads, or on one and in the pool |
| `FiberSwitch.Parts` | sylar/fiber.cpp:131-169 | a series may be cut anywhere: its parts are series from where the part before ended |
| `FiberSwitch.ThreadLocals.PerformAll` | sylar/fiber.cpp:131-169 | any legal series keeps the chain main, root, task with exactly its fibers EXEC, and with saved contexts only, every switch goes where that series says |
| `FiberSwitch.ThreadLocals.Perform` | sylar/fiber.cpp:131-169 | the same for one operation |
| `FiberSwitch.ThreadLocals.Adopt` | sylar/scheduler.cpp:215-225 | a fiber that other threads left, not running, in some state and place may now be switched to here |
| `FiberSwitch.ThreadLocals.Lend` | sylar/scheduler.h:136-147 | a fiber off the chain may go to another thread |
| `FiberSwitch.ThreadLocals.SwapIn` | sylar/fiber.cpp:131-143 | from the scheduling fiber: pushes the task on the chain, goes on where the task left off |
| `FiberSwitch.ThreadLocals.SwapOut` | sylar/fiber.cpp:145-152 | pops the chain and goes on just after the matching `swapIn` |
| `FiberSwitch.ThreadLocals.YieldToReady` | sylar/fiber.cpp:209-214 | same, with the fiber READY and its own place saved |
| `FiberSwitch.ThreadLocals.End` | sylar/fiber.cpp:220-247 | same, with the fiber TERM or EXCEPT |
| `FiberSwitch.ThreadLocals.Call` | sylar/fiber.cpp:154-161 | from the main fiber: chain main, root |
| `FiberSwitch.ThreadLocals.EndRoot` | sylar/fiber.cpp:257-285 | back to the main fiber, just after the `call` |
| `FiberSwitch.ThreadLocals.SwapInOnRoot` | sylar/fiber.cpp:131-143 | why the root fiber must not be entered with `swapIn`: control does not move and the invariant is lost |
| `ThreadStart.StartCompletes` | sylar/scheduler.cpp:78-95 | no interleaving deadlocks before `start` releases the mutex, none takes more than six steps a thread, the recorded ids are the real ones in order, and no thread passes its first lock before |
| `ThreadStart.InvStep` | sylar/thread.cpp:102-124 | each action keeps: ids written before posting, one post matching one wait |
| `ThreadStart.StartNeverStuck` | sylar/thread.cpp:49-74 | while `start` holds the mutex, it or the thread it waits for can move |
| `LogPattern.LogFormatter.constructor` | sylar/log.cpp:257-261 | a formatter's items and error flag are those of its pattern |
| `LogPattern.LogFormatter.Init` | sylar/log.cpp:273-415 | the items are the grammar's pieces one by one, and `m_error` holds exactly when some brace is unclosed or some name is not in the table |
| `LogPattern.LogFormatter.Scan` | sylar/log.cpp:281-368 | the outer loop ends on every string with what the grammar says |
| `LogPattern.LogFormatter.Directive` | sylar/log.cpp:298-346 | the inner loop: longest name, format up to the first closing brace, end of the directive, or unclosed |
| `LogPattern.RoundTrip` | sylar/log.cpp:273-368 | scanning a printed list of non-empty, non-adjacent literals and placeholders gives that list |
| `LogPattern.ParsedIsGood` | sylar/log.cpp:273-368 | what the scanner makes of any pattern without unclosed brace is such a list |
| `LogPattern.PrintedMeansTheSame` | sylar/log.cpp:273-368 | printing it gives a pattern that is scanned the same way |
| `LogPattern.UnclosedRecovery` | sylar/log.cpp:359-363 | after an unclosed brace, whatever follows: error literal first, pending text kept, name and brace become text, and everything after them, further directives included, is scanned as usual |
| `LogPattern.UnclosedAtEnd` | sylar/log.cpp:359-368 | with no further percent sign the rest is one literal |
| `LogPattern.PlainHole` | sylar/log.cpp:308-346 | a placeholder without braces: the longest name, an empty format, the rest from there; also a percent sign at the end |
| `LogPattern.PrintedCompiles` | sylar/log.cpp:371-414 | from pattern text to items: for every printed list, literals give their text, placeholders the item of their name with their own format, or `<<error_format %name>>`; `m_error` exactly when some name is none of the twelve |
| `LogPattern.UnclosedCompiles` | sylar/log.cpp:359-363 | an unclosed brace gives `<<pattern_error>>` as an item before what was pending, and `m_error` |
| `ConfigLoad.Config.ListAllMember` | sylar/config.cpp:35-54 | the pre-order list of paths and nodes is appended |
| `ConfigLoad.ListedIffKeysValid` | sylar/config.cpp:38-52 | a node is listed if and only if the keys to it are all valid: an invalid key hides its own subtree and nothing else |
| `ConfigPaths.ListedIffDotted` | sylar/config.cpp:38-52 | a node is listed exactly under its keys with dots between them, when they are all valid |
| `ConfigPaths.ListableIff` | sylar/config.cpp:38-43 | which paths can be listed at all, character by character |
| `ConfigPaths.KeysComeBack` | sylar/config.cpp:50-51 | splitting a listed path at its dots gives back the keys that lead to the node |
| `ConfigPaths.DocumentOrder` | sylar/config.cpp:43-53 | the list is the document from the top: all places with valid keys, each once, a node before everything below it, branches in order |
| `ConfigPaths.NestedLeafSets` | sylar/config.cpp:61-89 | a leaf `a: {b: x}` sets the variable `a.b` |
| `ConfigLoad.LoadableIffNoNine` | sylar/config.cpp:38-70 | a variable whose name `Lookup` accepts is looked up for some entry of some tree if and only if the name is not empty and has no `9` |
| `ConfigLoad.Config.LoadFromYaml` | sylar/config.cpp:61-89 | every registered variable takes the entries of its name that convert, one after the other, keeping its value when the new one compares equal; none is created |
| `ConfigLoad.Config.Assign` | sylar/config.h:322-357 | one entry changes exactly the variable it names, if it converts and does not compare equal |
| `ConfigLoad.LastDecides` | sylar/config.cpp:65-88 | the last entry that converts decides, unless it compares equal to what the entries before it left |
| `ConfigLoad.HeldStartsLastRun` | sylar/config.h:346-348 | when `operator==` is an equivalence, for one tree: of the old value and the converted ones, the value held is the first of the last run that compare equal, so the last one is held exactly when it is identical to that |
| `ConfigLoad.LastAlwaysWinsIff` | sylar/config.h:346-348 | for all trees and old values: if and only if no loadable value compares equal to a different one |
| `ConfigCast.RoundTrip` | sylar/config.h:121-202 | for every nesting of integers, sequences, sets and maps, any YAML of a value, in whatever container order, reads back as the value |
| `ConfigCast.FromString` | sylar/config.h:121-184 | the loops compute the structural decoding: order kept, first of equal keys kept, one bad element fails all |
| `ConfigCast.ToYaml` | sylar/config.h:148-202 | the loops produce an encoding of the value, for every type |
| `ConfigCast.SetToYaml` | sylar/config.h:148-161 | same for unordered members |
| `ConfigCast.MapToYaml` | sylar/config.h:186-202 | same for entries: each key once |
| `ConfigCast.IntRead` | sylar/config.h:122-139 | the text of every 32-bit integer reads back as that integer |
| `ConfigCast.ParsesIff` | sylar/config.h:122-139 | which texts convert to which integer: optional sign, at least one digit, a value of 32 bits; all others are refused |
| `ConfigCast.IntTextIff` | sylar/config.h:148-161 | what is written is the one shortest text that converts back |
| `ConfigCast.AllOrNothing` | sylar/config.h:124-145 | a sequence converts exactly when all elements do, each to its place |
| `ConfigCast.AllPairsOrNothing` | sylar/config.h:166-183 | a map converts exactly when all its values do |
| `ConfigCast.FirstKeyIsKept` | sylar/config.h:173-181 | of several equal keys the first is kept |
| `ConfigCast.OtherShapes` | sylar/config.h:124-183 | a scalar is an empty container; sequences are no maps, maps no sequences, and neither is an integer |
| `ConfigVar.ChangesLinkAndAreTold` | sylar/config.h:340-357 | over any series of calls, the listeners are told exactly the real changes, each to all present, with old and new value, and the changes link from the first value to the last |
| `ConfigVar.ToldInIdOrder` | sylar/config.h:350-352 | in ascending id order, nobody twice |
| `ConfigVar.IdsStayGood` | sylar/config.h:361-389 | live ids are unique and bounded by the counter over any series of calls |
| `ConfigVar.CounterCountsAdds` | sylar/config.h:361-389 | over any series of calls the counter is the number of listeners added since the last `clearListener` |
| `ConfigVar.HandedOutIffReached` | sylar/config.h:365-369 | an id was handed out if and only if the counter once reached it |
| `ConfigVar.NextIdIsReusedIff` | sylar/config.h:361-389 | the next id was handed out before if and only if at some earlier moment more listeners had been added since the `clearListener` before it |
| `ConfigVar.DelTakesOut` | sylar/config.h:372-376 | `delListener` takes out exactly that id and leaves the others in order |
| `ConfigVar.DeletedIsSilent` | sylar/config.h:372-376 | from then on, over any series of calls, nothing is told to that id until it is handed out again |
| `ConfigVar.UnlistedIsSilent` | sylar/config.h:350-352 | the same for any id that is not listed |
| `ConfigVar.ConfigVar.SetValue` | sylar/config.h:340-357 | the loop tells every listener, in order, before the value changes; an equal value does nothing |
| `ConfigVar.ConfigVar.FromString` | sylar/config.h:322-334 | a text that does not convert is refused and changes nothing |
| `ConfigVar.ConfigVar.AddListener` | sylar/config.h:361-370 | a fresh id, last in order |
| `ConfigVar.ConfigVar.DelListener` | sylar/config.h:372-376 | exactly that id goes |
| `ConfigVar.ConfigVar.ClearListener` | sylar/config.h:384-389 | no ids, counter at zero |
| `LogDefine.DefRead` | sylar/log.cpp:723-825 | writing a definition and reading it back gives it without its file appenders; order, levels, formatters and name are kept |
| `LogDefine.DefRoundTripIff` | sylar/log.cpp:723-825 | it is the identity exactly on definitions with console appenders only |
| `LogDefine.MeantDefRoundTrip` | sylar/log.cpp:754-805 | if the writer wrote `fileName`, the round trip would be the identity on every definition the reader can produce |
| `LogDefine.AppenderRead` | sylar/log.cpp:801-820 | the same for one appender, of any kind |
| `LogDefine.FileIsRead` | sylar/log.cpp:752-766 | a node with the keys of a file appender, in any order, is read as type 1 with its own file name, level and formatter |
| `LogDefine.ConsoleIsRead` | sylar/log.cpp:767-775 | and one of the console as type 2 |
| `LogDefine.OtherAppenders` | sylar/log.cpp:744-780 | what is skipped and what throws |
| `LogDefine.AppendersThrowIff` | sylar/log.cpp:741-784 | one element that throws makes the definition throw, and nothing else in the list does |
| `LogDefine.NamelessIsRefused` | sylar/log.cpp:729-733 | no map, or no name: refused |
| `LogDefine.LevelNames` | sylar/log.cpp:58-103 | level names in either case, and the names written |
| `LogDefine.LevelIff` | sylar/log.cpp:78-103 | only the first character counts |
| `LogDefine.GetLevel` | sylar/log.cpp:58-103 | the level comes back through its name, UNKNOW through its absence |
| `LogDefine.DefsRead` | sylar/config.h:121-161 | through the set casts: every definition comes back under its name, and nothing else |
| `LogDefine.ToDefs` | sylar/config.h:124-145 | the set cast's loop over definitions, with `insert`, agrees with the specification, also where it throws |
| `LogDefine.DefsThrowIff` | sylar/config.h:124-145 | the set is read exactly when each of its definitions is |
| `LogDefine.FirstIsKept` | sylar/config.h:131-143 | of all definitions of one name, wherever they stand, the first is kept |
| `LogDefine.KeptIsFirst` | sylar/config.h:131-143 | and everything kept is such a first one, under its own name |
| `LogDefine.ToDef` | sylar/log.cpp:726-787 | the reader agrees with the specification on every tree, also where it throws |
| `LogDefine.ToAppenders` | sylar/log.cpp:741-784 | its loop: faulty elements skipped, order kept, or thrown |
| `LogDefine.ToNode` | sylar/log.cpp:793-824 | the writer's loop |
| `LoggerRegistry.LevelsAlwaysAgree` | sylar/log.cpp:835-901 | over any series of calls on the variable, as long as the listener has not been removed, every stored definition has its logger at its level, as coded |
| `LoggerRegistry.AgreementIffListenerKept` | sylar/config.h:372-389 | that is guaranteed for whatever set comes next if and only if neither `clearListener` nor `delListener` of this id was called |
| `LoggerRegistry.RegistryFollowsCalls` | sylar/config.h:340-357 | the loggers are what the calls the listener really got make of them |
| `LoggerRegistry.RunIs` | sylar/config.h:340-389 | the variable does not depend on the loggers, and without the listener no logger changes |
| `LoggerRegistry.HeardIffListed` | sylar/config.h:361-389 | the listener is there exactly as long as its id is listed, unless the id is handed out again |
| `LoggerRegistry.ReconcileMeans` | sylar/log.cpp:840-897 | one run of the listener, logger by logger and field by field: realized, soft-deleted, or left alone |
| `LoggerRegistry.MatchesIffRealized` | sylar/log.cpp:860-887 | matching means the level and, appender by appender, type, level, file name, and the formatter exactly when it is not empty, has every brace closed and only known names, else the default |
| `LoggerRegistry.DeepAlwaysMatches` | sylar/log.cpp:705-709 | with the comparison as meant, while the listener is there, loggers also have exactly the defined appenders, field by field |
| `LoggerRegistry.CodedRunMatchesIff` | sylar/log.cpp:705-709 | as coded, loggers and definitions match after every call of a series if and only if no call stores a set with an entry that compares equal while its appenders come out different |
| `LoggerRegistry.CodedMatchesIff` | sylar/log.cpp:705-709 | the same for one call: the update is not stored, or has no such entry |
| `LoggerRegistry.UpdateIgnoredIff` | sylar/config.h:346-348 | an update that says something new is ignored altogether exactly when it differs in appenders only |
| `LoggerRegistry.AppendersComeFromOrigin` | sylar/log.cpp:840-887 | as coded, over any series that keeps the listener, a logger has the appenders of its definition as of when it was last new or changed level |
| `LoggerRegistry.CodedComparisonMisses` | sylar/log.cpp:705-709 | a concrete run, with the listener registered, after which a logger lacks the appender its definition lists |
| `LoggerRegistry.DroppedIsErasedIff` | sylar/log.cpp:889-897 | over any series: a name stored once and no longer stored was last dropped by some call, and its logger stays soft-deleted from then on if that call had a new or changed entry, and otherwise stays alive as it was |
| `LoggerRegistry.UnnamedIsUntouched` | sylar/log.cpp:833-903 | a logger no set names is never touched |
| `LoggerRegistry.LoggerManager.constructor` | sylar/log.cpp:640-649 | the root logger only |
| `LoggerRegistry.LoggerManager.GetLogger` | sylar/log.cpp:651-661 | the object of a known name, else a new one filed under the name; all others unchanged |
| `LoggerRegistry.LoggerManager.EraseLogger` | sylar/log.cpp:663-672 | that logger goes to level UNKNOW without appenders, no other changes |
| `LoggerRegistry.LoggerManager.AddAppenders` | sylar/log.cpp:862-887 | the appenders of the definition, in order and field by field, a faulty or empty formatter replaced by the default |
| `LoggerRegistry.LoggerManager.Install` | sylar/log.cpp:844-887 | one new or changed entry: that logger as defined, field by field, every other as it was |
| `LoggerRegistry.LoggerManager.EraseDropped` | sylar/log.cpp:889-897 | all names missing in the new set are soft-deleted, nothing else |
| `LoggerRegistry.LoggerManager.OnChange` | sylar/log.cpp:835-901 | the listener's nested loops: new and changed definitions are realized field by field, dropped ones lose level and appenders if anything was new or changed, the state is the one the lemmas above speak of, and no logger changes identity |

## Left out

- Context internals (`ucontext`, stacks, shared-pointer counts): a context is the place where its fiber goes on. What two workers on one stack do to it is not modelled; that they never get there, or can, is.
- `ThreadStart.StartCompletes`: threads and `start` run at once, so they are values in a step relation, like the workers of `Protocol`; update in place and aliasing of the C++ objects are modelled in `SingleWorker` and `FiberSwitch` only.
- Weak memory and torn reads of `m_state`: steps are sequentially consistent.
- `m_idleThreadCount` and tickling with several workers: nothing reads the counter, and `tickle` only logs.
- `Fairness.BoundedBypass`: counts passes, not time; that workers get scheduled at all is not part of this model.
- `SingleWorker.Scheduler.Stop`: leaves out a second `stop` after new tasks, where `call` would enter a finished root fiber; entries are unpinned or pinned to the one thread.
- `SingleWorker.Scheduler.Run`: switching to a fiber is a call, so the nesting of contexts is the subject of `FiberSwitch` instead; the code of a task is finite, as an endless task never lets `stop` return.
- `Discipline.ConsistentReachable`: holds when handles are queued as meant, as do all results that need the assignment of fibers to places; with loose handles `GracefulExit`, `LeakBlocksShutdown`, `PassTakesFirst` and `PinnedRunsAtHome` still hold, and `AssertionsHoldIff` says what fails.
- `Assertions.AssertionsHoldIff`: leaves out the "never reach" of `MainFunc` (sylar/fiber.cpp:254), since `Protocol` has no contexts. It can fail with handles queued as meant: in the state of `Discipline.KeptStackInUse` the worker that is still leaving can overwrite the context just made for the next callback. `Discipline.KeptStacksFreeIffGuarded` is the exact condition for that state.
- `FiberMigration.ResumesOnAnyThread`: `reset`, which starts a fiber afresh, is not one of its moves.
- `Thread::join`, detaching, thread names, semaphores, mutexes and lock guards: taken as correct primitives.
- `ThreadStart.StartCompletes`: `pthread_create` does not fail.
- YAML text: loading and emitting are taken as exact on trees; null nodes and duplicate keys other than by order are not told apart. An integer subscript of a map node is taken to fail the conversion, and "appenders" that is not a sequence is taken as having no elements.
- `ConfigCast.RoundTrip`: leaves are 32-bit integers; floating-point and free string leaves are not modelled.
- Concurrent `setValue`, `Lookup` and `LoadFromYaml`, listeners that throw or call back, and the type check of `Lookup`: calls are serial.
- Wrap-around of the 64-bit listener ids and of the active counter.
- Formatting a log event, single format items, files and the console, time formats: output only.
- `LoggerRegistry.LoggerManager.AddAppenders`: definitions come from the reader, so an appender's type is file or console; another type would be a null dereference in the code.
- Getters, ids, `toYamlString`, `Visit`: they would only add easy members.
