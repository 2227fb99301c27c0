# Verified models of the load generator's stateful engines

This project models the engines inside the load generator that keep state between calls and
decide something from it: the batch driver, the circuit breaker and the backpressure throttle
over their shared ring, the schema walk of the contract checker, the fairness gate, the
coordinator and its workers, the chaos scheduler, the lifecycle agent and its resume timers,
provider assignment, manifest partitioning, usage merging, the CSV upload driver and the bursty
pacer's rate integral.

Each engine has the same layers. A pure step function describes one critical section (or one
message, or one callback), and the theorems are about every run, that is every sequence of such
steps. Beside it, a class or a loop has the program's own shape, with fields updated in place, and
its contract ties every method to the step function. The step function itself is held to what the
source does by lemmas that do not mention it: each compares the states before and after one more
step of a run field by field, and states every deciding test in counts, times and plain arithmetic.
So neither a method that leaves its step function nor a step function that skips a step, takes the
wrong branch or tests the wrong quantity gets through.

How the source is read:

- Code guarded by a mutex is one atomic step per critical section. Runs interleave steps freely.
- Clocks are integers passed in; `float64` is `real`; the fnv hash is an arbitrary function.
- HTTP, the platform, the executor and random draws are arbitrary replies chosen at each step.
- A buffer, timer or loop that the source reaches by pointer is an index into a list of all of them
  wherever the theorem must speak about ones that are no longer reachable.

Places where the code does not do what its documentation says, or where a natural claim is false:

- `internal/driver/circuit_breaker.go:185-209`: the ring is exact only for windows under a second or
  of whole seconds. `RollingWindow.WindowExactIff` gives the exact condition and
  `RollingWindow.FractionalWindowLoses` a lost outcome for every other window.
- `internal/driver/fairness.go:229-231` promises convergence in fewer than eight iterations for any
  input under one. `NewtonSqrt.EightStepsMiss` and `NewtonSqrt.SixteenStepsMiss` name inputs that
  are not close after eight and after all sixteen, and `NewtonSqrt.SomeInputMisses` one for every
  number of steps and accuracy. `NewtonSqrt.AccurateExactlyWhen` says exactly when k steps suffice.
- `internal/runner/distributed.go:167` gives (1, 4) as [1, 0, 0, 0]. The code gives [1, 1, 1, 1], and
  `Partition.SplitTPS` follows the code.
- `internal/chaos/chaos.go:128-131` says that by default any target whose name begins with "perf-" is
  allowed. The code allows exactly two names, and `Chaos.NewScheduler` follows it.
- `internal/chaos/chaos.go:359-367` patches the latest open row of a type and start time.
  `Chaos.PatchesOwnRowIff` says exactly when that keeps the rows truthful, and
  `Chaos.SameTickTimelineLies` is a run in which it does not.
- `internal/lifecycle/pause_resume.go:71-81` drains what was scheduled before it returned, for good.
  Nothing is armed or running afterwards if and only if nothing is scheduled afterwards
  (`ResumeScheduler.QuietAfterCancelIff`); `ResumeScheduler.LateScheduleSurvives` is a run in which
  Cancel has returned and a later Schedule leaves a timer armed.
- `internal/lifecycle/dunning_walker.go:56-103` escalates at attempt MaxRetries + 1 exactly when no
  escalation row failed to be logged before (`Lifecycle.EscalatesRightAfterRetries`).
- `internal/generator/timing.go:304-337` keeps the mean only while a burst shorter than its cycle
  does not overshoot it, and a burst at least as long as its cycle (lines 319-321) only at
  multiplier one (`Bursty.MeanExactIff`).
- `internal/coord/protocol.go:58-61` says dropped tenants are redistributed. The code does not, and
  nothing here claims it.
- `internal/coord/protocol.go:45-47` says replies of another run are dropped. The code does not
  look: in the run of `Coord.ForeignEndingCounts` every worker is recorded as done although no loop
  of this run was ever started. A recorded ending is this run's if and only if the heartbeat that
  reported it carried this run's id (`Coord.EndingIsOursIff`), and
  `Coord.AllTerminalMeansDriven` holds under that guard.
- `internal/coord/coordinator.go:106-119` accepts one address for two workers, whose process takes
  only one of the two assignments. `Coord.ShareDrivenIff` says exactly for which workers a recorded
  ending can still be trusted.

## Model

| member | source | states |
|---|---|---|
| RollingWindow.TallyExact | internal/driver/backpressure.go:132-155 | For every history in clock order the ring's tally is the exact number of successes and failures in the window, provided the window spans at most one turn of the ring |
| RollingWindow.WindowExactIff | internal/driver/circuit_breaker.go:185-209 | The ring agrees with the full history at every moment of every ordered run if and only if the window is under a second or a whole number of seconds |
| RollingWindow.InWindowMeans | internal/driver/circuit_breaker.go:199-209 | In nanoseconds: the window takes the outcomes whose second lies after that of now - window; for k seconds, those of the last k seconds begun |
| RollingWindow.FractionalWindowLoses | internal/driver/circuit_breaker.go:73-106 | For every other window, a two-record history that the ring miscounts |
| RollingWindow.ReplayFaithful | internal/driver/circuit_breaker.go:185-196 | Every bucket is empty or holds the latest second of its residue class with exact counts |
| RollingWindow.Ring.TouchBucket | internal/driver/circuit_breaker.go:185-196 | The in-place update resets a bucket of another second, adds one outcome, and touches nothing else |
| RollingWindow.Ring.TallyWindow | internal/driver/circuit_breaker.go:199-209 | The loop's two sums are the specification's tally |
| CircuitBreaker.TripsExactlyWhen | internal/driver/circuit_breaker.go:139-181 | A record opens a closed breaker exactly when good + bad >= MinSamples and bad >= threshold * (good + bad), where good and bad count, over the whole history, the successes and failures in the window since the breaker last became closed; otherwise it stays closed |
| CircuitBreaker.RingHoldsSinceClosed | internal/driver/circuit_breaker.go:139-181 | The ring holds exactly the outcomes recorded since the breaker last closed |
| CircuitBreaker.OpenHoldsOff | internal/driver/circuit_breaker.go:115-132 | After any opening, forced or not, nothing is admitted for OpenDuration |
| CircuitBreaker.OpenedAtLatest | internal/driver/circuit_breaker.go:115-132 | An open breaker admits exactly once OpenDuration has passed since its latest opening |
| CircuitBreaker.HalfOpenEntry | internal/driver/circuit_breaker.go:139-181 | While half-open, every record since entry was a success, all were counted, and they are fewer than the probes |
| CircuitBreaker.ClosesOnlyAfterProbes | internal/driver/circuit_breaker.go:139-181 | The breaker closes only after exactly HalfOpenProbes successes with no failure and no forced opening since it went half-open |
| CircuitBreaker.HalfOpenRecord | internal/driver/circuit_breaker.go:139-168 | A half-open breaker reopens now on a failure, closes on the success that makes up HalfOpenProbes since it went half-open, and waits on an earlier one |
| CircuitBreaker.OtherMoves | internal/driver/circuit_breaker.go:115-181 | An open breaker ignores records, a forced opening opens it now, and asking moves it only from open to half-open and only once OpenDuration is over |
| CircuitBreaker.CircuitBreaker.AllowCall | internal/driver/circuit_breaker.go:115-132 | One Allow: the admitted flag and the whole new state |
| CircuitBreaker.CircuitBreaker.RecordCall | internal/driver/circuit_breaker.go:139-181 | One Record: the whole new state, ring included; closed, it opens now exactly when the ring's counts have good + bad >= MinSamples and bad >= threshold * (good + bad); half-open, a failure reopens it now and the success that completes the probes closes it; open, it stays as it is |
| CircuitBreaker.CircuitBreaker.ForceOpenCall | internal/driver/circuit_breaker.go:213-216 | One ForceOpen: opened now, nothing else changed |
| Backpressure.JudgedByHistory | internal/driver/backpressure.go:97-155 | The verdict read off the ring at each record is the verdict of the whole history |
| Backpressure.MultiplierFollowsActive | internal/driver/backpressure.go:97-130 | The multiplier is SlowMultiplier exactly while active and 1.0 otherwise |
| Backpressure.EngagesExactlyWhen | internal/driver/backpressure.go:97-130 | Engaged by, and only by, a record after which the counts of the whole history in the window have good + bad >= MinSamples and bad >= threshold * (good + bad) |
| Backpressure.ReleasesExactlyWhen | internal/driver/backpressure.go:97-130 | Released exactly at a record that those counts put below the threshold, at least RecoverDelay after another such record with none at or over the threshold between them |
| Backpressure.RemembersCalm | internal/driver/backpressure.go:97-130 | belowSince is the time of the earliest record of the current calm, or unset when there is none |
| Backpressure.BackpressureController.Record | internal/driver/backpressure.go:97-130 | One Record: the whole new state |
| Contract.Walk.MergeProperties | internal/contract/contract.go:176-200 | The walk over any table, cyclic ones included, terminates, collects only names its node offers through allOf, and finishes every name it marks |
| Contract.DoneCollectsAll | internal/contract/contract.go:176-200 | Once nothing marked is left unfinished, the collected names include everything reachable through inline members and references |
| Contract.PathStaysDone | internal/contract/contract.go:176-200 | Finishing a root finishes every schema along any path of allOf members from it |
| Contract.ResolveSchema | internal/contract/contract.go:159-171 | Not found exactly when the bucket or the name is missing; otherwise exactly the union of property names over all schemas reachable through allOf, where a reference reaches the schema whose path under #/components/schemas/ it spells |
| Contract.OffersIff | internal/contract/contract.go:176-200 | A schema offers exactly its own properties, those its inline members offer, and those offered by the schemas it refers to, by name or by the path under #/components/schemas/ |
| Contract.TrimFindsName | internal/contract/contract.go:181-186 | Trimming a reference gives the one name that the reference names |
| NewtonSqrt.Sqrt | internal/driver/fairness.go:232-241 | The loop computes the sixteenth iterate, never divides by zero, and for x = s * s ends between s and s + (s - 1)^2 / 2^16, never below (1 + x) / 2^16; zero for x <= 0 |
| NewtonSqrt.ImproveError | internal/runner/distributed.go:351-360 | One step overshoots the root by exactly the squared error over twice the iterate |
| NewtonSqrt.ImproveHalves | internal/driver/fairness.go:232-241 | From above the root a step at least halves the error |
| NewtonSqrt.RatioAfter | internal/driver/fairness.go:232-241 | After k steps from z = x the ratio (z - s) / (z + s) is ((s - 1) / (s + 1)) to the power 2^k |
| NewtonSqrt.AccurateExactlyWhen | internal/driver/fairness.go:229-241 | k steps reach relative accuracy eps if and only if that starting ratio to the power 2^k is at most eps / (2 + eps) |
| NewtonSqrt.SomeInputMisses | internal/driver/fairness.go:229-241 | For every number of steps and every accuracy, an input under one that is still too far from its root |
| NewtonSqrt.EightStepsMiss | internal/driver/fairness.go:229-231 | At x = 2^-20 eight steps end at more than twice the root |
| NewtonSqrt.SixteenStepsMiss | internal/runner/distributed.go:351-360 | At x = 2^-40 all sixteen steps end at sixteen times the root or more |
| Fairness.RunKeepsAccountAndCap | internal/driver/fairness.go:89-149 | Over every run with n tenants the counters sum to the total up to one per tenant seen, and every counter is at most 32 or has count * (n * MinShare) <= 2 * total + n * MinShare, across admissions and halvings |
| Fairness.DeferredExactlyWhen | internal/driver/fairness.go:89-129 | A call is deferred exactly when n > 1 and, after the roll, total >= 32 and count * (n * MinShare) > 2 * total |
| Fairness.RolledMeans | internal/driver/fairness.go:133-149 | From Window after its start on, and not before, the window rolls: total and every counter halved, zero counters dropped, a new window from now |
| Fairness.CallMeans | internal/driver/fairness.go:89-129 | One more call of a run: a deferred one only rolls the gate, an admitted one also counts once for its tenant and once in the total, and with one tenant nothing is counted |
| Fairness.TotalWithinSeen | internal/driver/fairness.go:89-149 | Sum of counters <= totalEvents <= that sum plus the number of tenants seen |
| Fairness.FewerThanHalfDeferred | internal/driver/fairness.go:89-129 | In every reachable state at any time, strictly fewer than half of the tenants would be deferred |
| Fairness.FairnessGate.MaybeRollWindow | internal/driver/fairness.go:133-149 | The in-place halving loop drops counters that reach zero, halves the total and restarts the window, and does so only when the window is over |
| Fairness.FairnessGate.Allow | internal/driver/fairness.go:89-129 | One Allow: the answer and the whole new state; a refusal means n > 1, total >= 32 and count * (n * MinShare) > 2 * total in the rolled gate, an admission by a gate that counts means not so before it was counted |
| Fairness.FairnessGate.Filter | internal/driver/fairness.go:270-284 | The admitted and the deferred events are, in order, exactly those the gate's own run over the earlier events admits and defers |
| Fairness.SideGrows | internal/driver/fairness.go:270-284 | One more event goes to the end of the side that the gate's answer names, and the other side stays |
| Fairness.SidesShareInput | internal/driver/fairness.go:270-284 | Every event is on one of the two sides, as often as it came in |
| Coord.OneActiveLoop | internal/coord/worker_handler.go:65-210 | No process ever has two active run loops; an active one is its latest |
| Coord.DrivenDisjoint | internal/coord/coordinator.go:170-222 | Different active loops of this run never drive the same tenant, and each drives only dispatched tenants of the manifest |
| Coord.TerminalRecordsStay | internal/coord/coordinator.go:264-293 | A recorded terminal state is never changed by anything that happens later |
| Coord.RecordedEndingHappened | internal/coord/coordinator.go:264-293 | A recorded done, aborted or failed is the ending of the loop that the last answer spoke for, at that worker's address |
| Coord.EndingIsOursIff | internal/coord/coordinator.go:288-290 | A recorded ending is that of a loop which drove an assignment of this run if and only if the heartbeat that reported it carried this run's id |
| Coord.ForeignEndingCounts | internal/coord/coordinator.go:264-293 | A run that ends with every worker recorded as done and no loop of this run ever started |
| Coord.ShareDrivenIff | internal/coord/coordinator.go:106-119 | Over every run, an ending recorded under this run's id means the worker's tenants were driven, if and only if no worker with other tenants shares its process |
| Coord.SharedAddressMisses | internal/coord/worker_handler.go:65-74 | A run in which two workers share a process and the ending of one is recorded for the other |
| Coord.DroppedExactlyAfterSilence | internal/coord/coordinator.go:264-293 | A worker is on record as dropped if and only if some poll failed more than DropoutTimeout after its last good heartbeat or acceptance |
| Coord.LastHeartbeatIsLastContact | internal/coord/coordinator.go:170-293 | lastHeartbeat is the time of the latest acceptance or answered heartbeat in the whole history |
| Coord.AllTerminalMeansDriven | internal/coord/coordinator.go:371-380 | If all workers are terminal and none dropped, each ending was reported under this run's id, and workers with tenants to drive do not share a process, every dispatched manifest tenant was driven by a loop of this run that ended |
| Coord.FilterIsIntersection | internal/coord/worker_handler.go:283-296 | The sub-manifest holds exactly the manifest's tenants that were listed |
| Coord.FilterConcat | internal/coord/worker_handler.go:283-296 | The filter distributes over concatenation and keeps a single tenant exactly when listed, so it keeps the manifest's order and occurrences |
| Coord.DeliverMeans | internal/coord/worker_handler.go:65-161 | A delivered assignment starts a loop on its process exactly when no loop there is ramping or running, the assignment is valid, some of its tenants are in the manifest and the runner can be built; a runner that cannot be built leaves no current run; any other assignment, and every other process, stays; the worker counts as accepted when a loop has started |
| Coord.ForeignMeans | internal/coord/worker_handler.go:65-161 | The same for another coordinator's order, which touches no record of this one |
| Coord.LoopsComeFromGoodOrders | internal/coord/worker_handler.go:65-161 | A step that adds a loop anywhere is the arrival at that process of a valid order whose runner could be built |
| Coord.AcceptedIff | internal/coord/coordinator.go:196-209 | A worker counts as accepted if and only if some valid assignment, with a tenant in the manifest and a runner that could be built, reached its process at rest |
| Coord.LoopMoves | internal/coord/worker_handler.go:163-178 | A ramping loop starts to run, a running one ends as given, and nothing else changes |
| Coord.AckAndAsk | internal/coord/coordinator.go:196-267 | An accepted worker is recorded as running, heard from now, before polling; a worker is asked only while polling, once at a time, and not when recorded as done, aborted, failed or dropped |
| Coord.MessagesLeaveLoops | internal/coord/coordinator.go:170-293 | No message of the coordinator but an assignment moves a process's loops, and polling starts only when dispatching is over |
| Coord.ReplyMeans | internal/coord/worker_handler.go:213-232 | The answer is the current run's id and state, which is the latest loop's, or idle under no run id |
| Coord.HearAndMiss | internal/coord/coordinator.go:268-293 | An answer becomes the record, heard from now; a failed poll only drops a worker last heard from more than DropoutTimeout ago |
| CoordState.PartitionTenants | internal/coord/coordinator.go:476-492 | Errors exactly for n <= 0 or no ids; otherwise n sorted chunks, chunk k holding every occurrence of the ids hashed to k and nothing else |
| CoordState.FilterManifest | internal/coord/worker_handler.go:283-296 | The set-building and filtering loops produce the listed tenants in manifest order |
| CoordState.WorkerHandler.Accept | internal/coord/worker_handler.go:65-161 | Accepted only if valid, not busy, with a tenant in the manifest and a runner: then one loop on the filtered manifest is added; an invalid assignment changes nothing; a runner that cannot be built forgets the current run; earlier loops always stay |
| CoordState.WorkerHandler.LoopBegins | internal/coord/worker_handler.go:163-167 | Only the loop's own state becomes running |
| CoordState.WorkerHandler.LoopEnds | internal/coord/worker_handler.go:169-178 | The loop's own state becomes done, aborted or failed by the kind of error, and no other loop changes |
| CoordState.WorkerHandler.Heartbeat | internal/coord/worker_handler.go:213-232 | Idle under no run id without a current run, otherwise the current run's id and state |
| CoordState.Coordinator.RecordAcceptance | internal/coord/coordinator.go:203-209 | One worker's record becomes running, heard from now; no other record changes |
| CoordState.Coordinator.HeartbeatOne | internal/coord/coordinator.go:264-293 | A terminal worker is not asked and nothing changes; any other is asked once, and the answer or the silence decides its record and the one dropout line, other records staying as they were |
| CoordState.Coordinator.FinishHeartbeat | internal/coord/coordinator.go:272-293 | The whole new table after an answer or a failure, the drop condition included; the dropout line is logged exactly when this failure drops the worker |
| CoordState.Coordinator.AllWorkersTerminal | internal/coord/coordinator.go:371-380 | True exactly when every record is terminal |
| Chaos.FiresAreAPrefix | internal/chaos/chaos.go:237-340 | The Inject calls of any run are exactly events 0, 1, 2, ... of the At-sorted list, each once and never before At - JitterTolerance |
| Chaos.TickLeavesNothingDue | internal/chaos/chaos.go:237-269 | After a live tick every event with now - start >= At - JitterTolerance has fired, and every successful fault with now >= its time + Duration has been recovered |
| Chaos.StepAdds | internal/chaos/chaos.go:221-290 | Start sets the start time and Close closes; only a tick of a started, open run injects, only it or the closing call recovers, all at the time of the call and with the results the faults gave; what was done before stays |
| Chaos.RowsRecordFires | internal/chaos/chaos.go:303-340 | Row k tells the type, duration, notes, start time and injection failure of injection k |
| Chaos.RecoveredAtMostOnce | internal/chaos/chaos.go:343-370 | Each successful injection is recovered at most once, and not before its duration is over unless Close cut it short |
| Chaos.ClosedIsFinal | internal/chaos/chaos.go:275-290 | After Close nothing is injected or recovered again |
| Chaos.CloseRecoversAll | internal/chaos/chaos.go:275-290 | Once closed, every successful injection has been recovered |
| Chaos.PatchesOwnRowIff | internal/chaos/chaos.go:343-370 | From a truthful state, a recovery keeps all rows truthful if and only if no later row of its type and start time is still open |
| Chaos.TimelineTells | internal/chaos/chaos.go:303-370 | When same-type faults fire at distinct times, each row shows a recovery exactly when its own fault was recovered, with that time and result |
| Chaos.SameTickTimelineLies | internal/chaos/chaos.go:359-367 | A run with two same-type faults fired in one tick, in which a recovery is written on the other fault's row |
| Chaos.SortByAtSorts | internal/chaos/chaos.go:196-199 | The sort by At yields a sorted permutation |
| Chaos.NewScheduler | internal/chaos/chaos.go:172-206 | Refused exactly when the target is not allowed; otherwise the events sorted by At, none lost, and a positive jitter tolerance kept or the default of 500 ms |
| Chaos.Scheduler.TickAt | internal/chaos/chaos.go:237-269 | One tick: fires in list order, then recoveries, as the whole new state |
| Chaos.Scheduler.FireEntry | internal/chaos/chaos.go:303-340 | One injection with its row, its deadline, and the immediate recovery of a zero-duration fault |
| Chaos.Scheduler.RecoverEntry | internal/chaos/chaos.go:343-370 | One recovery: the entry is rolled out and the latest open matching row patched |
| Chaos.Scheduler.CloseAt | internal/chaos/chaos.go:275-290 | Closing recovers every active fault and refuses later work |
| Lifecycle.ExpectedPostIsLegal | internal/lifecycle/statemachine.go:59-141 | The three tables agree: whatever CanFireFrom allows is expected to land in a state IsLegalTransition allows |
| Lifecycle.TablesTransposed | internal/lifecycle/statemachine.go:59-141 | CanFireFrom read by state and IsLegalTransition read by target state, as independent tables |
| Lifecycle.LandsAsExpected | internal/lifecycle/statemachine.go:92-122 | A pause, trial end, plan change or escalation that takes effect without a reported status lands in the state ExpectedPostState names |
| Lifecycle.ArmedIsHeldAndPaused | internal/lifecycle/pause_resume.go:94-146 | In every run an armed resume means the subscription is suspended in the picker and PAUSED |
| Lifecycle.OwnMovesAreLegal | internal/lifecycle/statemachine.go:92-141 | Every state change the agent makes on its own account is a legal transition |
| Lifecycle.TerminalNeverPicked | internal/lifecycle/picker.go:132-186 | Once CANCELLED or EXPIRED a subscription keeps its state and is never eligible again |
| Lifecycle.AttemptsNumberedWithoutGaps | internal/lifecycle/dunning_walker.go:56-103 | A subscription's dunning attempts are numbered 1, 2, 3, ... without gaps |
| Lifecycle.EscalatesAtMostOnce | internal/lifecycle/dunning_walker.go:56-103 | At most one escalation per subscription, after MaxRetries, and no attempt follows it |
| Lifecycle.EscalatesRightAfterRetries | internal/lifecycle/dunning_walker.go:56-103 | The escalation is attempt MaxRetries + 1 if and only if no earlier escalation row failed to be logged |
| Lifecycle.EscalatedNeverPicked | internal/lifecycle/dunning_walker.go:91-103 | Once its escalation is logged a subscription is SUSPENDED, has no armed resume, and is never eligible again for any kind |
| Lifecycle.Agent.PickFor | internal/lifecycle/picker.go:132-154 | None exactly when no subject is eligible; otherwise an eligible one |
| Lifecycle.EligibleMeans | internal/lifecycle/picker.go:132-154 | Eligible means not held out, known, and in a state that the table by state admits |
| Lifecycle.FireMeans | internal/lifecycle/trial_cancel.go:25-60 | What one more transition other than a retry leaves: the subscription's state, hold and armed resume by kind, and nothing at all when it had no effect |
| Lifecycle.RetryMeans | internal/lifecycle/dunning_walker.go:56-103 | What one more retry leaves: the attempt's number and outcome, and up to MaxRetries only a reported status, past them suspension and hold unless the log refused the row |
| Lifecycle.ResumeMeans | internal/lifecycle/pause_resume.go:150-187 | A due resume is spent; it releases the hold unless its log row failed, and makes the subscription ACTIVE exactly when the platform resumed it |
| Lifecycle.Agent.DunningWalkerStep | internal/lifecycle/dunning_walker.go:56-103 | One walker step: counter, attempt row and, past MaxRetries, suspension |
| Lifecycle.Agent.FirePauseAndScheduleResume | internal/lifecycle/pause_resume.go:94-146 | A successful pause marks PAUSED, suspends and arms; anything else changes nothing |
| Lifecycle.Agent.FireResume | internal/lifecycle/pause_resume.go:150-187 | The resume callback's three outcomes and the whole new state |
| Lifecycle.Agent.FireTrial | internal/lifecycle/trial_cancel.go:25-60 | A trial conversion or cancellation changes the live state only on success; a cancellation also suspends |
| Lifecycle.Agent.FirePlanChange | internal/lifecycle/upgrade.go:33-78 | Upgrades and downgrades adopt a reported status; a migration changes nothing the picker sees |
| ResumeScheduler.WaitCounterExact | internal/lifecycle/pause_resume.go:49-81 | In every interleaving the wait counter is the armed plus the running callbacks and never negative |
| ResumeScheduler.OneArmedEach | internal/lifecycle/pause_resume.go:49-67 | A subscription has at most one armed timer |
| ResumeScheduler.RunsOnceOrStopped | internal/lifecycle/pause_resume.go:49-81 | A scheduled callback starts at most once and ends, or is stopped before it starts, for good |
| ResumeScheduler.ScheduleMeans | internal/lifecycle/pause_resume.go:49-67 | A Schedule adds one armed timer in its subscription's slot and stops that subscription's earlier timer if it was armed; no other timer moves |
| ResumeScheduler.CallbackMoves | internal/lifecycle/pause_resume.go:60-64 | An armed timer that expires runs, a running callback finishes and is discounted, and nothing else changes |
| ResumeScheduler.SweepMeans | internal/lifecycle/pause_resume.go:71-81 | The sweep stops every armed timer, no other, and empties the slots |
| ResumeScheduler.CancelWaitsForRunning | internal/lifecycle/pause_resume.go:71-81 | After the sweep and with nothing scheduled since, nothing is armed and the wait counter is the number of running callbacks |
| ResumeScheduler.CancelDrains | internal/lifecycle/pause_resume.go:71-81 | Once Cancel has returned, every callback scheduled by then has finished or was stopped, and stays so whatever follows, later Schedules included |
| ResumeScheduler.QuietAfterCancelIff | internal/lifecycle/pause_resume.go:71-81 | After Cancel has returned, no callback is ever armed or running again if and only if nothing is scheduled any more |
| ResumeScheduler.LateScheduleSurvives | internal/lifecycle/pause_resume.go:49-81 | A run in which Cancel has returned and a later Schedule leaves a timer armed |
| ResumeScheduler.Scheduler.ScheduleResume | internal/lifecycle/pause_resume.go:49-67 | Stops and discounts an earlier armed timer of the subscription, then arms a new one in its slot |
| ResumeScheduler.Scheduler.CancelAll | internal/lifecycle/pause_resume.go:71-81 | The sweep stops and discounts every armed timer and empties the map, whatever the map's order |
| RestBatch.NothingLostOrReordered | internal/driver/rest_batch.go:125-173 | In every interleaving a tenant's accepted events in order are its handed-off batches followed by its pending buffer |
| RestBatch.BatchShape | internal/driver/rest_batch.go:125-173 | Every handed-off batch is non-empty, of at most Size events of one tenant, none on the negative path, and has exactly one sender |
| RestBatch.TimerHandsOff | internal/driver/rest_batch.go:164-173 | After its timer a buffer has exactly one sender and is no longer pending; a timer whose buffer is still pending becomes that sender and changes nothing else, a stale one changes nothing |
| RestBatch.SubmitWaitsOrSends | internal/driver/rest_batch.go:125-160 | An event is accepted exactly when it is neither negative nor raw and the driver is open; it joins its tenant's waiting items at the end, and its caller takes them all exactly when they are Size |
| RestBatch.CloseTakesAll | internal/driver/rest_batch.go:287-299 | Close leaves nothing pending, becomes the one sender of every buffer that had none, and the driver is closed |
| RestBatch.RespondMeans | internal/driver/rest_batch.go:192-230 | A sender keeps the first response it gets, and that alone delivers nothing |
| RestBatch.DeliveryMeans | internal/driver/rest_batch.go:230-260 | Once it has a response, a sender's next delivery puts the next item's own outcome on that item's empty channel and moves on by one |
| RestBatch.HandedOffIsFrozen | internal/driver/rest_batch.go:164-192 | A handed-off batch keeps its items and its one taker for ever |
| RestBatch.OneResultEach | internal/driver/rest_batch.go:192-260 | At most one result per accepted event, carrying its own event; exactly one, decided by its own index, once a taker of its batch has finished |
| RestBatch.SecondSenderRepeats | internal/driver/rest_batch.go:192-260 | Two takers of one buffer would put two results on a channel: what rules it out is that a buffer has one taker |
| RestBatch.OutcomeStatus | internal/driver/rest_batch.go:192-252 | The status is 422 exactly when the reply is a parsed 2xx that lists the item's own index as failed, otherwise the reply's own status, or 0 when nothing was sent; always the item's own event |
| RestBatch.OutcomeExcerpt | internal/driver/rest_batch.go:230-285 | A reply outside 2xx is quoted by its body, a listed item by the last message for its index; up to 2048 characters, cut and marked beyond |
| RestBatch.LastMessageIsLast | internal/driver/rest_batch.go:237-243 | The message for an index is that of the last listed entry for it |
| RestBatch.SlotFreeAtDelivery | internal/driver/rest_batch.go:254-260 | Any taker about to deliver finds the one-slot channel empty |
| RestBatch.CloseStrandsNothing | internal/driver/rest_batch.go:287-299 | After Close every accepted event is in a batch that has a sender |
| RestBatch.ConfiguredSize | internal/driver/rest_batch.go:89-119 | 100 when no positive size is given, the size itself up to the maximum, refused above it |
| RestBatch.RESTBatch.SubmitSection | internal/driver/rest_batch.go:125-160 | The locked part of Submit: routing, the whole new state, and which caller sends |
| RestBatch.RESTBatch.FlushSection | internal/driver/rest_batch.go:164-173 | The timer callback takes the buffer exactly if it is still the pending one it was armed for: then the entry is gone and the callback is the buffer's only sender; otherwise nothing changes |
| RestBatch.RESTBatch.CloseSection | internal/driver/rest_batch.go:287-299 | Close takes the whole pending map at once, becomes the only sender of each buffer in it, and leaves the driver closed with nothing pending |
| RestBatch.RESTBatch.Send | internal/driver/rest_batch.go:192-252 | One taker's send: one response, then every waiting item of the batch has exactly its own result on its channel |
| RestBatch.CollectFailed | internal/driver/rest_batch.go:192-252 | The index map holds exactly the listed indices, the last message winning |
| RestBatch.ResultFor | internal/driver/rest_batch.go:192-252 | The branches of the result construction give the specified outcome for every reply |
| Providers.CountWithinOne | internal/cli/payments.go:541-582 | The number of tenants mapped to a provider differs from N * w / W by less than one; weight zero means nobody |
| Providers.MappedIffInRun | internal/cli/payments.go:541-582 | With distinct tenants and non-negative weights, a tenant is mapped to a provider exactly when it lies in the provider's contiguous run of the sorted list |
| Providers.ZeroWeights | internal/cli/payments.go:541-582 | With all weights zero the last provider gets everyone |
| Providers.AssignProviders | internal/cli/payments.go:541-582 | For any tenants and weights: empty for an empty input, otherwise exactly the sorted tenants are mapped, each by its last occurrence, to the first provider from the previous stop on whose cumulative share exceeds the tenant's |
| Providers.OrderIrrelevant | internal/cli/payments.go:541-582 | Permuting the tenants, or the order in which the map yields providers, changes nothing, whatever the weights |
| Providers.AssignmentUnique | internal/cli/payments.go:541-582 | The two sorted lists determine the assignment |
| Providers.CutEnds | internal/cli/payments.go:541-591 | The first run starts at the first tenant and, for a positive total, the last ends at the last |
| Providers.UniqueTenants | internal/cli/payments.go:518-535 | The distinct ids, sorted |
| Providers.CumWeight | internal/cli/payments.go:585-591 | The loop adds up the first n weights |
| StringOrder.InsertionSort | internal/cli/payments.go:541-561 | The in-place insertion sort yields a sorted permutation |
| StringOrder.SortedUnique | internal/cli/payments.go:541-561 | Sorted lists with the same elements are equal |
| Partition.PartitionManifest | internal/runner/distributed.go:108-134 | Errors exactly unless 0 < n <= tenants; otherwise the tenants' multiset is kept, no partition is empty, a filled partition keeps a prefix of what the hash sent it, an empty one gets exactly one moved tenant, and moves are as many as the hash's empty partitions |
| Partition.RedistributeOneTenant | internal/runner/distributed.go:139-157 | Moves one tenant from the first largest to the first empty chunk exactly when there is an empty chunk and one to spare; keeps all tenants |
| Partition.FindEmptyAndLargest | internal/runner/distributed.go:139-149 | The scan finds the first empty and the first largest chunk |
| Partition.HashTenants | internal/runner/distributed.go:116-123 | Each chunk holds, in manifest order, exactly the tenants its hash value selects |
| Partition.HashChunkMeans | internal/runner/distributed.go:116-123 | A chunk holds a tenant as often as it is listed when its hash is the chunk's index modulo n and never otherwise, and follows the manifest's order |
| Partition.RoomToMove | internal/runner/distributed.go:124-134 | Pigeonhole: with at least as many tenants as chunks, an empty chunk means another holds at least two |
| Partition.SplitTPS | internal/runner/distributed.go:171-194 | For a positive total, shares of at least 1 that differ by at most 1, never increase, and sum to max(total, n); otherwise all zero |
| MetricUsage.AnySplitAnyOrder | internal/runner/result.go:104-211 | However a stream is split over partitions and in whatever order the parts are merged, the merged usage is that of one store recording the whole stream |
| MetricUsage.SplitMerges | internal/runner/result.go:191-211 | Two parts recorded apart and merged are the concatenation recorded |
| MetricUsage.OrderIrrelevant | internal/runner/result.go:149-166 | What is recorded depends only on which events arrived |
| MetricUsage.UsagesAreMonoid | internal/runner/result.go:120-135 | Merging usages is associative and commutative with the empty usage as identity |
| MetricUsage.AddIsMerge | internal/runner/result.go:104-135 | Adding an event is merging the usage of that one event |
| MetricUsage.RecordedTells | internal/runner/result.go:104-166 | A metric has an entry exactly when an event was attributed to it, and the entry counts, sums and maximises exactly those events |
| MetricUsage.StatusTells | internal/runner/result.go:104-166 | A metric's row for a status is there exactly when an event with that status was attributed to it, and counts and sums exactly those events |
| MetricUsage.NamelessIgnored | internal/runner/result.go:149-152 | Nothing is recorded under an empty tenant or metric name |
| MetricUsage.MergeSums | internal/runner/result.go:120-135 | Merged status rows sum to the two sums together |
| MetricUsage.StatusRowsSum | internal/runner/result.go:104-211 | In any merged result each metric's status rows sum to its events and quantity |
| UsageStore.UsageCell.Add | internal/runner/result.go:104-117 | The in-place add, allocating the status map at first use |
| UsageStore.UsageCell.MergeFrom | internal/runner/result.go:120-135 | The in-place merge; the receiver keeps or freshly allocates its own status map and leaves the source's alone |
| UsageStore.MetricUsageStore.Record | internal/runner/result.go:149-166 | One event recorded in place, every other entry kept |
| UsageStore.MetricUsageStore.Snapshot | internal/runner/result.go:170-187 | A copy with the same usage whose usage objects and status maps are all new |
| UsageStore.MetricUsageStore.MergeFrom | internal/runner/result.go:191-211 | The destination becomes the merge, the source stays unchanged, and the two share no object |
| UsageStore.MergeRowsInto | internal/runner/result.go:130-134 | The loop over status rows, in any order, adds row by row |
| Csv.ParseLines | internal/driver/csv_upload.go:88-136 | An RFC 4180 section 2 reader with LF row ends reads back any written rows exactly |
| Csv.ReadField | internal/driver/csv_upload.go:209-234 | One escaped field followed by a separator is read back as that field, whatever characters it holds |
| Csv.LinesInjective | internal/driver/csv_upload.go:209-234 | Different rows are never written as the same text |
| Csv.CsvEscape | internal/driver/csv_upload.go:209-234 | The scan and the byte-building loop quote exactly the fields that need it, doubling their quotes |
| CsvUpload.BodyReadsBack | internal/driver/csv_upload.go:88-136 | An uploaded body reads back as the header and each event's eight fields in order |
| CsvUpload.TimeIsPlain | internal/driver/csv_upload.go:121-136 | A formatted timestamp never needs escaping |
| CsvUpload.TimeReadsBack | internal/driver/csv_upload.go:121-136 | For a year of four digits, year, month, day, hour, minute, second and zone stand at their places in the timestamp and read back |
| CsvUpload.ColumnsMatch | internal/driver/csv_upload.go:100-136 | Under each column name of the header stands the value of that name |
| CsvUpload.AppendRow | internal/driver/csv_upload.go:121-136 | Appends exactly the line of the event's eight fields |
| CsvUpload.NothingLost | internal/driver/csv_upload.go:88-157 | In every interleaving of Submit and Flush a tenant's events in order are its uploads followed by its open buffer |
| CsvUpload.BatchesAreGood | internal/driver/csv_upload.go:88-157 | Every upload holds one tenant's events, at least one and at most BatchSize |
| CsvUpload.SubmitMeans | internal/driver/csv_upload.go:88-118 | A submission waits with its tenant's others until they are BatchSize, and then all of them go at once; other tenants' buffers stay |
| CsvUpload.PlatformReadsAll | internal/driver/csv_upload.go:88-157 | After a final flush, the rows read from a tenant's files are exactly the fields of everything it submitted, in order |
| CsvUpload.CSVUpload.Submit | internal/driver/csv_upload.go:88-118 | Buffers the row or hands off the full buffer; the upload carries exactly its batch and row count |
| CsvUpload.CSVUpload.Flush | internal/driver/csv_upload.go:141-157 | Takes every open buffer once, in any order, and uploads exactly their contents |
| Bursty.CountNeverFalls | internal/generator/timing.go:312-337 | The count never decreases, whatever the configuration, clamping included |
| Bursty.BurstRate | internal/generator/timing.go:312-337 | After any number of whole cycles comes a burst at the multiple of the target rate |
| Bursty.RestRate | internal/generator/timing.go:323-337 | After the burst comes one steady rate: the one that brings the cycle's mean back to the target, or none when the burst alone exceeds the cycle's share |
| Bursty.MeanExactIff | internal/generator/timing.go:304-337 | For every configuration, the count at whole cycles is the target rate times the time if and only if a burst shorter than its cycle does not overshoot it, or an endless burst is at multiplier one |
| Bursty.MeanOfBursts | internal/generator/timing.go:304-337 | With bursts shorter than their cycle the count at whole cycles is never short, clamped or not |
| Bursty.AheadByAtMostOneBurst | internal/generator/timing.go:304-337 | At every time the count is ahead of a steady pace by between zero and one burst's surplus |
| Bursty.TicksNeverDrift | internal/generator/timing.go:290-302 | The ideal time of the k-th event lies within (multiplier - 1) bursts before k / tps and never after it |

## Left out

- Floating-point rounding: every `float64` is a `real`; a 32-bit counter is an unbounded integer.
- Data races outside the stated critical sections: the breaker's Allow and Record are atomic steps, and truly concurrent lifecycle kinds, which can write stale live states, are serialized.
- HTTP, TLS, multipart framing, JSON and YAML codecs, the command line, printing and files: replies and parsed values are parameters of the steps.
- Timer cancellation in the batch driver, its latency and byte counts, and a caller that gives up waiting: none affects which batch an event is in or what its channel receives.
- RestBatch.OutcomeExcerpt: the excerpt's limit of 2048 counts characters, where the source counts bytes.
- RestBatch.NothingLostOrReordered: batch buffers are entries of a list, so Go's pointer comparison in the timer callback is equality of indices.
- Fairness.FairnessGate.Filter: nil events and the diagnostic tenant order are not modelled, and the totals Stats reports are not derived.
- Sampling: weights, random draws and field generators; PickFor takes its draw as an argument.
- Chaos.Scheduler.TickAt: Plan and the executor are absent; a successful Inject returns a recovery, as every scenario does, and an injected failure is chosen per step.
- Chaos.NewScheduler: the source's sort is not stable, so events at the same At may come in either order; its contract promises no order among them, and the run theorems hold for any sorted list.
- Lifecycle.Agent.PickFor: the per-kind probabilities and the choice of a migration target are not modelled.
- Lifecycle.AttemptsNumberedWithoutGaps: DunningWalker.Reset, which nothing but tests calls, is not a step, so numbering runs on across recoveries.
- Merged reports of the coordinator and merged results of in-process partitions: sums, maxima and unions, which add only easy members.
- The timestamps, counters and error texts a heartbeat carries beside its run id and state.
- Coord.DrivenDisjoint: workers' abort calls only cancel a loop, which the arbitrary end of a loop covers.
- Coord.AllTerminalMeansDriven: polling need not end, since a worker that rejected its assignment never reaches done, and the theorem does not say that it does.
- UsageStore.MetricUsageStore.Snapshot: the two levels of tenant and metric maps are one map by key, so sharing of the inner maps as such is not expressed; usage objects and status maps are.
- MetricUsage.AnySplitAnyOrder: a nil result and an empty one are not told apart.
- CsvUpload.BodyReadsBack: fields are sequences of Unicode characters; the replacement of invalid UTF-8 that escaping performs is outside the model, and the second field reads back as the formatted timestamp.
- CsvUpload.TimeReadsBack: years outside 0 to 9999 and offsets of a hundred hours or more, whose numbers are wider, are only shown to be free of special characters.
- The sine pacer and the two Newton inverse solvers: their convergence is not something the code guarantees.
- Partition.PartitionManifest: a manifest's summary, recomputed by Finalize, is not modelled; a tenant is its id and one value for the rest of its row.
- Providers.CountWithinOne: a claim about distinct tenants, as uniqueTenants makes them, and non-negative weights; the assignment itself is specified for any.
