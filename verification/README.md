# Verification of the AI services GPU gateway

This project models the parts of the system that decide who may use the one GPU
and who may call the gateway, and proves what they are for.

**The lease dispatcher** (`Leases`, `Protocol`, `Invariant`, `Runs`, `Endings`,
`Answers`, `QueueRoom`, `QueueOrder`, `RetentionBound`, `WaitTimeouts`,
`Dispatcher`). Clients submit, look up, release and cancel leases while one worker
thread grants the GPU, runs slow engine operations without holding the lock, and
takes the GPU back. `Protocol` is the state machine of these steps: every block
under the condition variable is one step, taken at one clock value, and client
steps fall anywhere between the release of the lock and the block that ends an
engine operation. `Dispatcher.GPUDispatcher` is the dispatcher as an object that
updates its records, queue and owner in place; each of its methods is proved equal
to the step of the machine. `Invariant` gives the inductive invariant; `Runs`,
`QueueRoom`, `QueueOrder` and `RetentionBound` hold the theorems about all runs;
`Endings` says which step decides how a lease ends, and `Answers` what every
answer depends on. Time is a whole number of microseconds, because the worker's
sleep is rounded up to a millisecond; `WaitTimeouts` looks at the one wait timeout
that is accepted and is no number.

**The engine manager and the containers** (`Docker`, `Engines`, `EngineProofs`,
`EngineStories`, `GpuExclusion`, `HistoryRuns`, `LoneService`, `PendingStarts`,
`IdleReports`). The environment is an oracle that decides how long a command takes
(at most its timeout), whether it works, fails or times out, and which containers
die. A `docker start` that timed out may take effect at any later time; one that
failed has no later effect. Nobody else starts managed containers, and a successful
inspection tells the truth. `Engines` has the start, health, stop and reconcile
loops as methods that change this world through a runner. The world keeps a log of
all commands; `EngineStories` tells the operations by that log alone, without
regard to how they are written. `GpuExclusion` composes the manager with the
dispatcher: an engine operation is entered when the worker takes the lock again,
together with a record of every `docker start` it issued and of all that ran at that
moment. `HistoryRuns` carries the theorems about runs over to these histories.

**The gateway's lease client** (`Gateway`, `Acquisition`, `GatewayLease`,
`GraceBound`): the acquire, poll and cancel loop against a network that may delay,
lose or corrupt any answer, its messages and what each answer leads to, and its
budgets against those of the dispatcher.

**The client registry** (`Json`, `Registry`, `RegistryReading`, `Admin`,
`AdminProofs`, `AdminRecords`, `RegistryHistory`, `RegistryLock`, `TokenStore`):
validation of the registry file, the administrator's commands, processes that run
them at the same time under the lock, and the hot-reloading token store. A *policy*
maps client ids to their key, scopes and status; it is the reference that the
validated rows are compared with. `RegistryReading` compares validation and
authentication with the file as it was parsed, and `AdminRecords` what a command
writes, field by field. `ts`, the set of strings accepted as administrative
timestamps, is a parameter; of it only `!ts("")` is used, which holds of ISO
timestamps.

**The buffered event stream** (`ChatStream`, `EventStream`, `StreamClient`): the
encoder of a finished completion, a reader that follows section 9.2.6 of the WHATWG
HTML Standard, and a streaming client that folds the deltas. JSON printing and
parsing are parameters that must read back, print no raw line break, and not accept
the text `[DONE]`.

## What turned out to be exact

* Order of service (`RetentionBound.RetentionIsExact`): no id stands in the queue
  twice and requests are served in order of admission, in every run, if and only if
  there is no service at all or `terminal_retention` is enough (`QueueRoom.Retains`).
  It is enough if it is at least `max_queue_wait` plus the longest possible hold. It is also enough, for a small
  table, if it exceeds `max_records - 2` of the longest holds; exceeds the lesser of
  those holds and the queue wait by the time in which a turn of the worker can still
  meet a granted owner; and, where the table has two records, exceeds half a hold.
  The deployed budgets satisfy the first condition.
* GPU exclusion: no `docker start` finds another service running, in every history,
  if and only if nobody submits anything or no `docker start` of an earlier
  dispatcher process is still pending when the dispatcher boots beside another
  service that can be started (`PendingStarts.ExclusionIsExact`). Nothing runs
  without an owner, in every history, if and only if no start at all is pending at
  boot (`PendingStarts.NothingUnownedIsExact`). Orphan containers are harmless; a
  pending start is not, because reconciliation cannot see it.
* Idle reports (`IdleReports.IdleIsExact`): a report of ready and idle means that
  nothing runs, in every history, if and only if no start of an earlier process is
  pending at boot, and either no request has the empty id or no service can be
  brought up at all. The dispatcher tests the current id for truth
  (dispatcher/dispatcher.py:101), and nothing refuses an empty id: its owner uses the
  GPU while the report is idle.
* Served requests (`GraceBound.AcquisitionIsExact`): the client acquires whatever a
  dispatcher serves, in every run and over every network, if and only if its last
  look in vain brings it back before its deadline. With polls no rarer than round
  trips that is to say that a round trip and a poll interval fit into the 5 s of
  grace (`GraceBound.GraceIsOneRound`). The deployed client allows 10 s for a round
  trip, and may time out on a request that is being served
  (`GraceBound.DeployedComesLate`).
* Wait timeouts (`WaitTimeouts.LateGrantIsExact`, `ExpiryIsExact`, `WakeUpIsExact`):
  the admission check accepts NaN, because every comparison with it is false. An
  accepted wait expires, is recognised when the request is repeated, and bars late
  grants, if and only if it is a number.
* Starting (`EngineStories.StartIsTold`): a start reports success if and only if
  the log shows every component, one after the other, found running or started, and
  then answering its own health check. Otherwise the log shows why the attempt was
  given up, and every container of the service was tried to be stopped.
* Stopping (`EngineStories.StopIsTold`, `StopReaches`): every container is tried,
  whatever came of the others, and success means that each is certainly down. In
  time left over, every container whose own commands work goes down.
* How leases end (`Endings.EveryEndHasACause`): released or cancelled only for an
  accepted release or cancel, expired only for time that was up, failed only for an
  engine that did not come up. The first stop that finds a lease active decides, the
  last one that finds it starting does (`FirstStopDecides`, `LastStopDecides`).
* The acquire message (`Acquisition.AcquireOpens`): it goes out if and only if the
  dispatcher speaks this protocol, is ready and names its epoch.
* Reading the registry (`RegistryReading.RegistryReads`, `ReadingGrants`): a file
  is read if and only if it is in order, and a key then grants what the file says.
* Cut-off keys (`RegistryHistory.StepOpens`, `TokenStore.CutOffTokenIsDenied`): a
  disabled, revoked or rotated key comes back only by a command that gives it to a
  client that is on, or switches its client on. For a revoked client there is none.
* The health window (`EngineProofs.PatienceIsExact`): a running container is never
  abandoned before the deadline if and only if attempts times interval covers
  the time that is left.
* The stream (`StreamClient.StreamRecovers`): the client recovers the completion
  if and only if the choice indices are distinct.

## Model

| member | source | states |
|---|---|---|
| Leases.PopSplits | dispatcher/dispatcher.py:348-358 | After the expiry sweep at the same instant, the pop loop changes no record, drops only entries that are not live, and hands out the first live one: its own expiry test never fires |
| Invariant.StepInv | dispatcher/dispatcher.py:117-161 | Every step of every participant keeps the ownership invariant: a starting, active or stopping record is the owner; the owner's record is never pruned and is the one the worker carries; a terminal owner only when degraded; queued records are in the queue; stopping has a target |
| Invariant.RunInv | dispatcher/dispatcher.py:237-346 | The invariant holds in every state of every run |
| Invariant.StepKeepsCapacity | dispatcher/dispatcher.py:146-149 | No step takes the record table past `max_records` |
| Invariant.RunKeepsCapacity | dispatcher/dispatcher.py:146-149 | Nor does any run |
| Invariant.NextWaitBounds | dispatcher/dispatcher.py:370-382 | The computed sleep lies in (0, 50 ms] and overshoots no live queue or active deadline by a millisecond |
| Invariant.TurnOwnedIs | dispatcher/dispatcher.py:262-272 | A turn with an owner stops it exactly when it is stopping or its active deadline is reached, and otherwise only sleeps |
| Invariant.TurnIdleIs | dispatcher/dispatcher.py:273-286 | A turn with a free GPU starts the first live entry of the queue, or empties the queue if there is none |
| WaitTimeouts.AcceptedIs | dispatcher/dispatcher.py:124-128 | The waits that admission accepts are the numbers within the limit, and NaN |
| WaitTimeouts.LateGrantIsExact | dispatcher/dispatcher.py:348-368 | An accepted wait bars every grant after the longest wait, whatever the table and the queue, if and only if it is a number |
| WaitTimeouts.ExpiryIsExact | dispatcher/dispatcher.py:139-143 | An accepted entry expires at some time, and the repeated submission is recognised, if and only if its wait is a number |
| WaitTimeouts.WakeUpIsExact | dispatcher/dispatcher.py:370-382 | The computed sleep overshoots no deadline ahead by a millisecond, unless the first of the deadlines is no number: then it is the longest sleep |
| Runs.GrantIs | dispatcher/dispatcher.py:257-282 | No late grant: only a worker turn on a free GPU grants, and it starts a live request strictly before its queue deadline |
| Runs.BoundedOwnership | dispatcher/dispatcher.py:266-346 | A lease granted at g has given up the GPU, or the dispatcher is degraded, once g + startup + max(active + 1 ms + cleanup, engine cleanup) has passed, whatever clients do |
| Runs.StepClimbs | dispatcher/dispatcher.py:223-235 | Every step only moves records upwards, never changes a terminal one, never extends a deadline, and never loses an accepted stop |
| Runs.RunClimbs | dispatcher/dispatcher.py:299-346 | The same over whole runs |
| Runs.AtMostOneStart | dispatcher/dispatcher.py:273-282 | While its record stays in the table, a request is handed the GPU at most once |
| Runs.StopIsFinal | dispatcher/dispatcher.py:192-235 | Once a release or cancel is accepted in any state, also for an id not yet known, the request is never active until its record is pruned |
| Runs.ResubmitChangesNothing | dispatcher/dispatcher.py:130-145 | Submitting a known id changes nothing and answers with the record as it is |
| Runs.CallsAreIsolated | dispatcher/dispatcher.py:117-235 | A call about one id leaves all other records alone except pruned ones; a stale epoch or a wrong service changes nothing |
| Runs.DegradedForever | dispatcher/dispatcher.py:251-291 | A degraded dispatcher stays degraded and never starts an engine |
| Runs.WakeUpBound | dispatcher/dispatcher.py:257-286 | When a turn ends in a sleep every live deadline lies ahead, and the sleep overshoots none by a millisecond |
| Runs.NoNeedlessWakeUp | dispatcher/dispatcher.py:370-382 | A sleep lasts 50 ms, or ends at the deadline of a request that waits or is active, but lasts at least a millisecond |
| Runs.RemainingFalls | dispatcher/dispatcher.py:299-346 | Without admissions the remaining ranks never rise and fall with every step that moves a record |
| Runs.EffectiveStepsBounded | dispatcher/dispatcher.py:299-346 | The number of steps that move a record is bounded by the ranks that remained at the start |
| Runs.Drains | dispatcher/dispatcher.py:251-291 | Without admissions, once max_queue_wait plus the longest hold has passed, the dispatcher is idle with every record terminal, or degraded |
| Runs.ClockCanAdvance | dispatcher/dispatcher.py:237-291 | From every reachable state at most two steps of the worker alone let time advance, so the time bounds are never met by standing still |
| Endings.StepMoves | dispatcher/dispatcher.py:223-346 | Every step does to a record one of ten things, each with its condition, or nothing |
| Endings.EngineReportsAct | dispatcher/dispatcher.py:293-346 | What the report of an engine operation does to its lease, its error, the GPU and the dispatcher |
| Endings.FirstStopDecides | dispatcher/dispatcher.py:228-233 | Over every run, the first release or cancel accepted for an active lease is how it ends |
| Endings.DeadlineDecides | dispatcher/dispatcher.py:262-274 | Over every run, a lease that the worker takes down by itself had reached its active deadline and ends as expired, whatever is asked for it afterwards |
| Endings.LastStopDecides | dispatcher/dispatcher.py:225-227 | Over every run, the last release or cancel accepted while a lease is starting is how it ends, unless its engine does not come up; it never becomes active |
| Endings.EveryEndHasACause | dispatcher/dispatcher.py:326-346 | Over every run, a record is released or cancelled only for an accepted call, expired only for time that was up, failed only for an engine that did not come up |
| Endings.EndIsDated | dispatcher/dispatcher.py:384-387 | A record that ends is dated by the step that ends it, and loses its active deadline |
| Endings.EndedStaysKnown | dispatcher/dispatcher.py:389-402 | For the whole retention after its end a lease can be looked up, as it ended |
| Answers.SubmitAnswers | dispatcher/dispatcher.py:117-161 | For each answer of a submission, exactly when it is given |
| Answers.SubmitFiles | dispatcher/dispatcher.py:146-161 | A new submission that is accepted stands last in the queue, with its whole wait ahead, and nothing but old tombstones has gone |
| Answers.StopAnswers | dispatcher/dispatcher.py:192-222 | For each answer of a release or cancel, exactly when it is given |
| Answers.AnswersAreCurrent | dispatcher/dispatcher.py:163-169 | What an accepted call tells its client is what a lookup tells right after it |
| Answers.LookupAnswers | dispatcher/dispatcher.py:163-169 | For each answer of a lookup, exactly when it is given |
| Answers.ReportIsKept | dispatcher/dispatcher.py:98-115 | A dispatcher that reports ready turns no proper new submission away unless it is full; one that does not turns every submission away |
| Answers.DegradedSaysWhy | dispatcher/dispatcher.py:237-250 | Over every run, a dispatcher reports itself degraded, and not ready, exactly from the first uncertain operation on, and names it |
| Answers.ReportTellsOwner | dispatcher/dispatcher.py:98-115 | Busy exactly while some lease with a non-empty id is starting, active or stopping; idle otherwise while ready |
| Answers.TurnForgets | dispatcher/dispatcher.py:389-402 | A turn of the worker removes exactly the tombstones whose retention is over, the owner's apart |
| QueueRoom.StepTidy | dispatcher/dispatcher.py:389-402 | With enough retention every step keeps the queue free of duplicates, and in the order of admission behind the owner unless the whole table is taken by the young |
| QueueRoom.StaleMeansFull | dispatcher/dispatcher.py:146-149 | In a small table a queue entry whose tombstone can be pruned means a full table: beside it and the owner there is nothing but what has ended since its admission |
| QueueRoom.JamStarts | dispatcher/dispatcher.py:146-161 | If a call then prunes that tombstone, its own record fills the table, and no other id can be admitted until the GPU changes hands |
| QueueRoom.JamStep | dispatcher/dispatcher.py:348-358 | Such a full table stays full, and the turn that frees it pops the whole queue, so that no id ever stands in it twice |
| QueueRoom.GrantIsNormal | dispatcher/dispatcher.py:273-282 | After every grant the queue is in the order of admission again, with all its records on file |
| QueueOrder.GrantsAreInOrder | dispatcher/dispatcher.py:273-282 | With enough retention a grant goes to the earliest admission among all that still wait |
| QueueOrder.NoOvertaking | dispatcher/dispatcher.py:348-358 | A request that waited when another was admitted is never overtaken by it |
| RetentionBound.RetentionIsExact | dispatcher/dispatcher.py:389-402 | For every configuration: the queue is free of duplicates and service is in order of admission over all runs if and only if there are no services or the retention is enough, by the queue wait or by the room of the table |
| RetentionBound.RetentionSuffices | dispatcher/dispatcher.py:389-402 | The sufficient half: either reason is enough by itself |
| RetentionBound.ProductionServesInOrder | dispatcher/app.py:30-41 | The deployed budgets satisfy it |
| RetentionBound.TooLittleRetention | dispatcher/dispatcher.py:348-402 | The necessary half: whichever condition fails, some run makes the queue hold an id twice |
| RetentionBound.TwiceInQueue | dispatcher/dispatcher.py:146-161 | A chain of owners up to any time the queue wait and the table allow, and a longest hold: another submission prunes the tombstone of a cancelled request whose entry is still queued |
| RetentionBound.PrunedByTurn | dispatcher/dispatcher.py:251-272 | With one record less, the turn that meets the last owner's deadline prunes it |
| RetentionBound.PlaceTakenTwice | dispatcher/dispatcher.py:146-161 | With two records, within one hold of the owner, another request takes the place of the tombstone, is cancelled, and gives it back when it is stale itself |
| RetentionBound.Overtaken | dispatcher/dispatcher.py:348-402 | With room for three records beside the owners there is a run in which the stale entry lets the re-submitted id jump ahead of an earlier admission |
| Dispatcher.GPUDispatcher.Create | dispatcher/dispatcher.py:50-97 | A dispatcher is made exactly when all budgets are positive, and then starts empty and reconciling |
| Dispatcher.GPUDispatcher.Ready | dispatcher/dispatcher.py:98-115 | The report is that of the ledger, with the epoch and the protocol version |
| Dispatcher.GPUDispatcher.Submit | dispatcher/dispatcher.py:117-161 | The in-place method does to the records and the queue exactly what the protocol's submit does, refusals included, and keeps every record object that stays |
| Dispatcher.GPUDispatcher.GetLease | dispatcher/dispatcher.py:163-169 | Answers as the protocol does, and changes nothing |
| Dispatcher.GPUDispatcher.Release | dispatcher/dispatcher.py:171-177 | Equals the protocol's stop request for `released` |
| Dispatcher.GPUDispatcher.Cancel | dispatcher/dispatcher.py:179-185 | Equals the protocol's stop request for `cancelled` |
| Dispatcher.GPUDispatcher.RequestStop | dispatcher/dispatcher.py:192-235 | Equals the protocol's stop request, and the owner's record object, which the worker may be carrying, stays in place |
| Dispatcher.GPUDispatcher.WorkerTurn | dispatcher/dispatcher.py:251-291 | Sweep, pruning, expiry, pop and grant in place equal the protocol's turn; the worker never looks up a missing owner; the record it carries away is the owner's |
| Dispatcher.GPUDispatcher.FinishStart | dispatcher/dispatcher.py:293-324 | The block after a start equals the protocol's step for success, failure and uncertain cleanup |
| Dispatcher.GPUDispatcher.FinishStop | dispatcher/dispatcher.py:326-346 | The block after a stop equals the protocol's step, which `Endings` says the meaning of |
| Dispatcher.GPUDispatcher.FinishReconcile | dispatcher/dispatcher.py:237-250 | The block after reconciliation equals the protocol's step |
| Dispatcher.GPUDispatcher.NextQueued | dispatcher/dispatcher.py:348-358 | The pop loop equals the recursive pop |
| Dispatcher.GPUDispatcher.ExpireQueued | dispatcher/dispatcher.py:360-368 | The expiry loop equals the sweep |
| Dispatcher.GPUDispatcher.NextWait | dispatcher/dispatcher.py:370-382 | The loop over the deadlines computes the sleep |
| Dispatcher.GPUDispatcher.MarkTerminal | dispatcher/dispatcher.py:384-387 | Ends a record in place |
| Dispatcher.GPUDispatcher.PruneTerminal | dispatcher/dispatcher.py:389-402 | The two pruning loops remove exactly the stale records other than the owner's |
| Engines.EngineManager.Run | dispatcher/engine_manager.py:52-59 | One command bounded by the deadline, on the world in place |
| Engines.EngineManager.Inspect | dispatcher/engine_manager.py:61-89 | Running, stopped, missing, or an error |
| Engines.EngineManager.WaitUntilHealthy | dispatcher/engine_manager.py:91-119 | The health loop equals the recursive wait |
| Engines.EngineManager.Start | dispatcher/engine_manager.py:121-156 | Start with its cleanup equals the specification, outcome and world, whose commands `EngineStories.StartIsTold` tells |
| Engines.EngineManager.Stop | dispatcher/engine_manager.py:158-164 | Stop equals the specification |
| Engines.EngineManager.CollectManaged | dispatcher/engine_manager.py:166-173 | The two loops over the service table collect every managed container once |
| Engines.EngineManager.Reconcile | dispatcher/engine_manager.py:166-173 | Reconciliation equals the specification |
| Engines.EngineManager.StopComponents | dispatcher/engine_manager.py:175-211 | The stop loop visits every component and collects the errors as specified; `EngineStories.StopIsTold` tells its commands |
| EngineProofs.StopDeadline | dispatcher/engine_manager.py:158-211 | Stop and reconcile end by their timeout, however the commands behave |
| EngineProofs.StartDeadline | dispatcher/engine_manager.py:121-156 | Start succeeds only by its timeout and fails by its timeout plus the cleanup budget |
| EngineProofs.StopEffect | dispatcher/engine_manager.py:175-211 | A stop that reports success leaves the service down if it had the GPU for itself and nothing was pending |
| EngineProofs.StartEffect | dispatcher/engine_manager.py:121-156 | A start touches only its own containers; after success nothing is pending; after a clean failure nothing runs or is pending |
| EngineProofs.ManagedIsEveryScope | dispatcher/engine_manager.py:166-173 | The managed containers are those of the services, no more and no less |
| EngineProofs.ReconcileEffect | dispatcher/engine_manager.py:166-173 | A reconciliation that reports success leaves nothing running, whatever ran before |
| EngineProofs.Patience | dispatcher/engine_manager.py:91-119 | A container that stays running and inspectable is not abandoned before the deadline when attempts * interval covers it |
| EngineProofs.PatienceIsExact | dispatcher/engine_manager.py:91-119 | That condition is necessary and sufficient |
| EngineStories.StartIsTold | dispatcher/engine_manager.py:121-156 | A start reports success exactly if its commands brought up every component in turn and saw it answer its own health check; otherwise they show why not, then every container is tried to be stopped, last one first, and the outcome is uncertain exactly if one is not certainly down or a start timed out |
| EngineStories.StopIsTold | dispatcher/engine_manager.py:158-211 | A stop tries every container, last one first, whatever came of the others, each command within its limit; it succeeds exactly if all are certainly down |
| EngineStories.ReconcileIsTold | dispatcher/engine_manager.py:166-211 | A reconciliation tries the seven containers in reverse order of the table in the same way |
| EngineStories.StartedIsServed | dispatcher/engine_manager.py:91-138 | During a start that reports success every component ran and answered its own health check; if nobody ever answers at one of the addresses, no start succeeds |
| EngineStories.ObligingStarts | dispatcher/engine_manager.py:121-138 | A service whose containers exist and whose commands work is started, or its time runs out |
| EngineStories.StopReaches | dispatcher/engine_manager.py:175-207 | If a stop or reconciliation ends before its deadline, every container whose own inspections and stops work, with no start pending for it, is down, whatever happened to the others |
| EngineStories.FailedStartReaches | dispatcher/engine_manager.py:139-156 | The cleanup of a failed start reaches every container in the same way |
| GpuExclusion.HistoryGpu | dispatcher/dispatcher.py:237-346 | The joint invariant of dispatcher and containers holds along every history |
| GpuExclusion.GpuIsExclusive | dispatcher/engine_manager.py:121-211 | If the dispatcher boots with no start pending from an earlier process: no `docker start` is issued while a container of another service runs; while ready, nothing runs without an owner and only the owner's service runs with one |
| GpuExclusion.EngineKeepsProtocolBounds | dispatcher/dispatcher.py:293-346 | Engine operations end within the worker's time limits, with a report the protocol accepts |
| GpuExclusion.MovesRefineProtocol | dispatcher/dispatcher.py:237-346 | Without the containers, every move is a step of the protocol, or none if it is a drift of the containers |
| HistoryRuns.HistoryIsRun | dispatcher/dispatcher.py:237-346 | Every history, with the containers forgotten, is a run of the protocol, each of its states in its place |
| HistoryRuns.BoundedOwnership | dispatcher/dispatcher.py:266-346 | Bounded ownership in every history of dispatcher and containers |
| HistoryRuns.StopIsFinal | dispatcher/dispatcher.py:192-235 | An accepted stop is final in every history of dispatcher and containers |
| LoneService.LateStartsStayAlone | dispatcher/engine_manager.py:121-211 | If every container pending at boot belongs to each service that can be started at all, then in every history no `docker start` finds a container of another service running; what runs without an owner it does not say |
| PendingStarts.ExclusionIsExact | dispatcher/engine_manager.py:166-211 | In all histories from a boot no `docker start` finds a container of another service running, if and only if nothing is ever submitted or no start is pending then beside another service that can be started |
| PendingStarts.NothingUnownedIsExact | dispatcher/engine_manager.py:166-211 | In all histories from a boot nothing runs without an owner while the dispatcher is ready, if and only if no start is pending then |
| PendingStarts.SharedGpu | dispatcher/engine_manager.py:166-211 | The history in which a late start shares the GPU |
| IdleReports.IdleIsTrue | dispatcher/dispatcher.py:98-115 | Where nothing is pending at boot and no request has the empty id, a report of ready and idle means that nothing runs |
| IdleReports.IdleWhileRunning | dispatcher/dispatcher.py:98-115 | A history with the empty id, of a service that can be brought up, in which the report is idle while its engine runs |
| IdleReports.IdleIsExact | dispatcher/dispatcher.py:98-115 | For every boot: idle reports are true in all histories if and only if no start is pending then, and the empty id is not in use or no service can be brought up |
| Gateway.DispatcherClient.AcquireLease | gateway/app/dispatcher_client.py:90-168 | The polling loop with its exception handler equals the specified attempt, messages and times included, which `Acquisition` says the meaning of |
| Gateway.PollMessages | gateway/app/dispatcher_client.py:142-168 | Polling sends only polls and at most one final cancel, and succeeds only on an answer that says `active` |
| Gateway.PollTimes | gateway/app/dispatcher_client.py:142-162 | Two looks in a row are at most a round trip and a poll interval apart, and the loop ends by its deadline plus two round trips and a poll interval |
| Gateway.PollCount | gateway/app/dispatcher_client.py:142-162 | The number of polls is bounded by the budget over the poll interval |
| Gateway.AcquireIsSound | gateway/app/dispatcher_client.py:90-168 | Acquire returns only after `active`; every failure after the acquire message ends in a cancel with the same identity; it terminates within a computable time and number of polls |
| Acquisition.AcquireOpens | gateway/app/dispatcher_client.py:90-127 | The acquire message goes out exactly if the answer has this protocol, is ready and names an epoch; it carries that epoch, the service, the identity and the queue wait |
| Acquisition.AdmissionLooks | gateway/app/dispatcher_client.py:117-168 | What the answer to the acquire message leads to; if it is to wait, the client looks until queue wait, startup and five seconds have passed |
| Acquisition.PollLooks | gateway/app/dispatcher_client.py:142-168 | When each look is made, and which answer, interruption or deadline ends the attempt in which outcome, with one cancel at once if it failed |
| Acquisition.AsksTheReady | gateway/app/dispatcher_client.py:98-110 | Against the report of a dispatcher: the client posts exactly if that dispatcher is ready, and for its epoch |
| GatewayLease.BecomesActive | dispatcher/dispatcher.py:316-324 | A lease becomes active only when its start ends, with a full active budget ahead |
| GatewayLease.StaysActive | dispatcher/dispatcher.py:262-272 | It stays active with the same deadline until a stop is accepted for it or the deadline is reached |
| GatewayLease.ActiveDeadlineAfter | dispatcher/dispatcher.py:322-323 | If a lease was seen inactive at one time, its deadline once active is at least the active budget after that time |
| GatewayLease.InferenceInsideLease | gateway/app/main.py:197-216 | A gateway that saw `active`, by a poll or in the answer to a fresh id, and infers within its budget finishes while the lease is active and the worker cannot be stopping it, if two round trips, a poll interval and the inference are less than the active budget; the deployed numbers meet this (`DeployedBudgetsFit`) |
| GatewayLease.ServedRequestIsAcquired | gateway/app/dispatcher_client.py:135-162 | If its last look in vain brings the client back before its deadline, it never times out on a request that the dispatcher starts within its budgets; the deployed client does not meet this |
| Acquisition.ServedFromTheStart | gateway/app/dispatcher_client.py:90-162 | The same from the first question on: a client that asks a ready dispatcher, and is served by it, ends up with the lease |
| GraceBound.AcquisitionIsExact | gateway/app/dispatcher_client.py:135-162 | That condition is necessary and sufficient, over all dispatchers with the client's startup budget, all their runs and all networks |
| GraceBound.TimesOutWhileServed | gateway/app/dispatcher_client.py:142-162 | The run, as long as the attempt, in which a client that can come late times out while its lease is active |
| GraceBound.GraceIsOneRound | gateway/app/dispatcher_client.py:135-162 | For polls no rarer than round trips the condition is that a round trip and a poll interval fit into the 5 s of grace |
| GraceBound.DeployedComesLate | gateway/app/dispatcher_client.py:34-58 | The deployed client may time out on a request that is served |
| Registry.ScopesStable | client_access/registry.py:32-41 | Validated scopes are the given ones, allowed, and validate to themselves |
| Registry.RowStable | client_access/registry.py:65-89 | A row in order validates to itself under either version |
| Registry.CheckRows | client_access/registry.py:63-89 | The loop that fills the seen ids and digests equals the recursive validation, which `RegistryReading.RowsRead` compares with the raw rows |
| Registry.RegistryValidated | client_access/registry.py:53-96 | What validation returns has unique ids and digests, lower-case digests, sorted scopes, and no enabled revoked client |
| Registry.ValidationIsIdempotent | client_access/registry.py:53-96 | What validation returns reads back as itself |
| Registry.AuthenticateFinds | client_access/registry.py:175-183 | The scan answers for the one row with the presented digest, wherever it stands |
| RegistryReading.RowReads | client_access/registry.py:65-89 | Exactly the rows that are in order are read; a row is taken as it says, with the digest in small letters, the scopes in alphabetical order and `enabled` written out: true where a version 1 row names none |
| RegistryReading.SmallLetters | client_access/registry.py:73-75 | A digest is kept in small letters and stays the same number; two texts are one key exactly if they differ in case at most |
| RegistryReading.RowsRead | client_access/registry.py:63-89 | All rows are read exactly if each is in order and no id and no digest occurs twice |
| RegistryReading.RegistryReads | client_access/registry.py:53-96 | Exactly the registries that are in order are read, and taken row by row and field by field |
| RegistryReading.ReadingGrants | client_access/registry.py:167-183 | Authentication over a registry that was read grants exactly what the file says |
| RegistryReading.UncachedGrants | client_access/registry.py:125-183 | Reading for one call is unavailable exactly if the file is not in order, and grants exactly what it says |
| RegistryReading.CallGrantsWhatTheFileSays | client_access/registry.py:147-183 | What a call on the store grants, some version of the file that was current during the call says |
| Admin.RegistryFile.MigrateEach | client_access/admin.py:111-116 | The migration loop changes every row as specified |
| Admin.RegistryFile.Load | client_access/admin.py:104-119 | What a command starts from, or its refusal |
| Admin.RegistryFile.Run | client_access/admin.py:100-154 | The command on the file in place equals the specification: the file is replaced on commit and untouched otherwise |
| AdminProofs.AuthenticationIsPolicy | client_access/registry.py:167-183 | Authentication depends on nothing but the policy: a key stands for a client exactly when the policy says so |
| AdminProofs.EditRowsSteps | client_access/admin.py:123-146 | Editing the rows and stepping the policy allow the same commands, with the same outcome |
| AdminProofs.CommitWritesWhatItBuilt | client_access/admin.py:54-74 | The validation before the write changes nothing: the file holds exactly the edited registry, in order |
| AdminProofs.CommandIsStep | client_access/admin.py:100-154 | A command commits if and only if the policy allows it and the outside cooperates; a commit raises the revision by one, leaves the registry in order, and steps the policy |
| RegistryHistory.BirthCommits | client_access/admin.py:104-116 | A new registry is committed at revision 1, in order |
| RegistryHistory.MigrationCommits | client_access/admin.py:104-116 | Migration commits exactly when the outside cooperates, and gives every client its old entry, with all capabilities if it named none |
| RegistryHistory.MigrationPreservesAccess | client_access/admin.py:109-116 | Every key stands for the same client after migration; explicit capability sets are untouched |
| RegistryReading.MigrationKeepsAccess | client_access/admin.py:104-116 | From the version 1 file as it was: migration commits exactly if it is in order and the outside cooperates, and then every key grants what the file granted it, widened where it named no capability |
| AdminRecords.MigrationRecords | client_access/admin.py:108-116 | Migration writes the rows one by one, everything but the scopes and a missing date of creation as it was |
| AdminRecords.NoOverwriting | client_access/admin.py:104-106 | Neither an empty nor a migrated registry is written over a file |
| AdminRecords.InitMakesAnEmptyRegistry | client_access/admin.py:104-107 | `init` writes an empty registry of version 2 and revision 1, exactly if there is none and the outside cooperates |
| AdminRecords.CommandRecords | client_access/admin.py:123-150 | A committed command dates the head and raises its revision, appends or edits the one record it names, in the fields it names, and leaves everything else |
| AdminRecords.OnlyVersionTwo | client_access/admin.py:117-119 | Every other command works only on a file that is in order and of version 2 |
| AdminRecords.ListAnswers | client_access/admin.py:120-122 | Listing changes nothing and is refused exactly where there is nothing to administer |
| RegistryHistory.DoKeeps | client_access/admin.py:100-154 | Every command keeps the registry in order, and every commit adds one to the revision |
| RegistryHistory.RevocationIsPermanent | client_access/admin.py:134-142 | Over every history of commands no client is removed, and a revoked one keeps its key, scopes and status |
| RegistryHistory.RevokedKeyStaysDead | client_access/admin.py:134-142 | The key of a revoked client is refused in every later registry and can never be given to another client |
| RegistryHistory.CommandCutsOff | client_access/admin.py:123-146 | Disable, revoke and rotate cut off the client's key at once; keys the command does not name open exactly what they opened before |
| RegistryHistory.StepOpens | client_access/admin.py:123-146 | A command opens a closed key if and only if it gives the key to a client that is on, or switches the key's client on |
| RegistryHistory.ClosedUntilReopened | client_access/admin.py:123-146 | A key that a committed command cut off stays closed until a committed command reopens it |
| RegistryLock.InterleavingIsSerial | client_access/admin.py:38-51 | Any interleaving of processes under the lock, deaths included, equals the commits in their order, none lost, with one revision each |
| TokenStore.Store.Open | client_access/registry.py:136-141 | There is a store exactly when the first reading succeeds, and it then holds what was read |
| TokenStore.Store.Refresh | client_access/registry.py:147-162 | The cache in place follows the specification, and is emptied on every failure |
| TokenStore.Store.Scan | client_access/registry.py:175-183 | The scan equals the specified authentication |
| TokenStore.Store.Check | client_access/registry.py:167-183 | One call: refresh, then answer from the cached clients |
| TokenStore.CacheRefinesReading | client_access/registry.py:147-183 | Over any history of the file and any calls, each call is unavailable or answers exactly as an uncached reading of a version current during the call |
| TokenStore.SteadyFileAnswersExactly | client_access/registry.py:147-183 | While the file does not change a call answers exactly as an uncached reading, unavailability included |
| TokenStore.CutOffTokenIsDenied | client_access/registry.py:130-134 | After a committed disable, revoke or rotate of the client that held a key, a later call grants something for the key only if a command that reopens it was committed in between |
| TokenStore.RevokedTokenIsDenied | client_access/admin.py:62-74 | Once the file shows a client revoked, no later call grants its key anything, whatever commands, calls and unreadable moments follow |
| ChatStream.Encoder.NumberCalls | gateway/app/chat_stream.py:37-43 | The loop over the calls numbers all of them or fails at a bad one |
| ChatStream.Encoder.EmitTexts | gateway/app/chat_stream.py:29-34 | The loop over the two text fields appends the specified events |
| ChatStream.Encoder.EmitChoice | gateway/app/chat_stream.py:23-47 | One choice appends exactly its frames, in order, or fails |
| ChatStream.BufferedSse | gateway/app/chat_stream.py:12-53 | The encoder's text is the event stream of the specified chunks, ended by the marker; nothing is sent when a choice is malformed |
| EventStream.StreamReadsBack | gateway/app/chat_stream.py:19-21 | A reader that follows the HTML standard receives exactly the payloads, in order |
| StreamClient.ChoiceHeard | gateway/app/chat_stream.py:23-47 | Folding the frames of a choice gives its role, its text, its reasoning, its calls by position and its finish reason: the given one, or else that it calls tools, or stopped |
| StreamClient.StreamRecovers | gateway/app/chat_stream.py:12-53 | Reading and folding the whole stream recovers every choice and the usage asked for, with one final marker, if and only if the choice indices are distinct |
| StreamClient.EncodesExactlyWhen | gateway/app/chat_stream.py:23-43 | A body is encoded if and only if every choice is well formed |
| StreamClient.FramesInOrder | gateway/app/chat_stream.py:23-47 | The frames of a choice: the opening with the role, at most one each of reasoning, content and calls in this order, and the end, which alone has a finish reason; all with the index of the choice |
| StreamClient.EveryChunkIsStamped | gateway/app/chat_stream.py:13-21 | Every chunk carries the id of the completion, or the fallback for a blank one, its time and model, or the fallbacks where the body has none, and the type of a chunk |

## Left out

- `close()` of the dispatcher and of its thread: only the test suite calls it.
- Wait timeouts in the state machine are whole microseconds. NaN, the only other one that is accepted, is modelled beside it: `WaitTimeouts` has the admission check, the sweep, the pop loop and the sleep over such numbers, not whole runs.
- Thread wake-up and lock hand-over take no time; each locked block reads the clock once.
- The real Docker, curl and subprocess calls: replaced by the container world described above.
- TokenStore.Look: the file that is read is given by versions of the path, not by the descriptor that stays with a replaced file; either way a replacement during the read fails it.
- HTTP routes, status codes, request limits, uploads and the MCP server: plumbing around the modelled calls.
- Bearer header parsing, SHA-256 and constant-time comparison: a call presents a digest or nothing.
- File modes, links, fsync and the bytes of the registry file: a version of the file is its fingerprint and its parsed content, and equal fingerprints stand for equal content.
- JSON text and numbers with fractions: values are parsed JSON with whole numbers.
- `sorted` on scopes: stated through the alphabetical list of all scopes, from which every valid list is drawn.
- The text that `list` prints: the command is a reading that changes nothing.
- Delivery of a minted key and size of the encoding: parameters of a command that succeed or fail.
- Wording of errors and log lines: an error is its kind.
- Event ids and reconnection times of an event stream: they do not change which events are dispatched.
