# WeeWoo verification

A Dafny model of the parts of WeeWoo whose correctness is hard to see from reading them one
function at a time, with proofs. `dafny verify dfyconfig.toml` checks all of it.

WeeWoo collects Prometheus metrics in windows, builds reference distributions (joint ECDFs) from
the chunks that were judged normal, tests new chunks against them, and raises alerts. The project
follows that path.

**Collection.** `SchedulerModel` is the interval scheduler as a transition system, with a history
of every window tried for every registration of a callback. `SchedulerEffects` says what each step
does to a callback field by field, and when a window must start. `IntervalScheduler` is the
scheduler's own map of callback states, updated in place by the handlers and the dispatch loop;
each handler is proved to take the step of the model. `RecoveryModel` puts the collection callback
and any number of backlog workers on top, interleaved database statement by database statement.
`RecoveryQueue` is one worker undisturbed, which is a run of that model. `WindowProcessor` and
`HistoricalImport` are one attempt at a window and the import loop. `Backoff` is the retry delay,
and `Retries` puts it into the runs of the scheduler.

**Reference distributions.** `EcdfTable` is one publication and the choice of a version by a
reader, `PublicationFence` any number of publishers, service updates and evidence readers on
PostgreSQL, interleaved under READ COMMITTED. `FenceHistory` tells the fence without generation
numbers, by the updates that have committed, and has the undisturbed runs. `ServiceUpdates` is the
update of a service undisturbed, which is a run of that model, and `ReferenceBuilder` the loop
over the indicators. `ChunkStore` is the pair of chunk and verdict tables.

**Alerts.** `AlertModel` has the alerts with their occurrences and outbox rows, one function for
each transaction, and `AlertEffects` what each transaction does to the columns of the rows.
`AlertInvariants` and `AlertHistory` prove what every run keeps, `AlertSpans` when an alert comes
to span a Good result, and `AlertHandoff` what the receiver shows, which depends on the order in
which the rows are handed off; `AlertHandoffRuns` has runs that leave it with the wrong picture.
`AlertManager` carries out the statements of the transactions one after the other and is proved to
take exactly those steps.

**Kernels.** `Funcs` and `MonotoneInterpolation` draw the distribution function of an alert;
`KolmogorovSmirnov` and `LinearInterpolation` test a sample against a reference; `TimeChunkCodec`,
`Samples` and `HistogramDifference` read, count, merge and write samples; `RenderCache` is the
cache of rendered ECDFs. `Sorting` stands for the library sort, `Options` for optional values.

Conventions: instants and durations are integers (nanoseconds), floating-point numbers are reals,
64-bit wrap-around, saturation and truncating division are written out where the code has them, a
database transaction or a single statement outside one is one atomic step, and what comes from
outside (clocks, query results, the outcome of a collection, the receiver's answer, hash values)
is a parameter. A step that cannot happen in a state leaves the state as it is, so that every
sequence of steps is a run and a theorem on runs speaks of every interleaving.

## What was found on the way

- A re-add that arrives while a removal waits for its running invocation is accepted and then
  dropped with the callback, and so is one that a removal follows (`RemovedThenReadded`);
  `AddInFlightSurvives` says, for whatever happens before the report, when an update survives.
- The receiver can be left with a warning of a critical alert. `NeverStuckExactly` says from which
  states, and `WarningsEndWithdrawnExactly` after which escalations, whatever the settings were
  before: where the count equals the threshold, those with a warning waiting beside a delivered
  one, which its own withdrawal can pass (`CrowdedEscalationHappens`); where the count is above
  it, those with any warning not yet withdrawn. The second kind comes from a threshold of one,
  which makes the second occurrence critical (`ThresholdOneLeavesWarning`,
  `AnomalyThresholdOneLeavesWarningsOpen`, `MonitoringThresholdOneLeavesWarningsOpen`), and from
  lowering the threshold below the count (`LoweredThresholdLeavesWarning`).
- A reopened alert can be handed off before its old resolution, so that it fires while the
  receiver shows it resolved (`ReopenedCanShowResolved`). This can happen exactly if a resolution
  was still waiting when it was reopened (`ReopenedEndsInViewExactly`), and the next refresh ends
  it (`RefreshShowsAgain`).
- An alert that was reopened by taking back a review can count two anomalies as consecutive with a
  Good result between them (`ReopenedAlertsSpanGoods`). It does exactly if it is counted on after
  a Good that came after its last occurrence (`SpansExactly`, `SpanningRunsExactly`).
- A review of a chunk that has been replaced acts on the newer chunk
  (`LateReviewActsOnNewerChunk`).
- The Kolmogorov-Smirnov statistic bounds the difference to every reference exactly if no value
  was observed more than once (`DominatesExactly`).
- The reference is the continuous function that its comment promises exactly if its proportions
  lead from zero to one (`ContinuousFromZeroToOne`).
- The drawn density jumps at the last interior knot when the last segment is flat and the one
  before rises steeply enough (`DensityIsContinuous`), and nowhere else. Falling data is drawn
  with slopes in range only if the slopes of the first pass meet the rises exactly
  (`FallingFitsExactly`, `FallingNeedNotFit`).
- The percentage of an import overflows when a hundred times the range does not fit into 64 bits,
  and ends at 100 exactly when it does fit (`PercentEndsAtHundred`).
- The codec's safety limit rejects nothing that could have been decoded (`LimitIsHarmless`).
- The documentation gives one minute as the longest retry delay of the scheduler; the code has one
  hour (internal/collection/intervals.go:58), and the model follows the code. It also speaks of
  splitting a transition window, which the code's cap never does because no interval exceeds it
  (`PlanReachesFirstBoundary`).

## Model

| member | source | states |
|---|---|---|
| SchedulerModel.PlanReachesFirstBoundary | internal/collection/intervals.go:505-525 | from any lastEnd the next window ends on the first boundary of the active interval after it, in one step; from a boundary it lasts exactly one interval |
| SchedulerModel.StepKeepsInv | internal/collection/intervals.go:289-492 | adding, updating, removing, dispatching, completing and stopping keep every callback planned from its lastEnd, its history in step with it, and exactly one running invocation for each in-flight callback |
| SchedulerModel.ChainCoversOnce | internal/collection/intervals.go:436-525 | in a chain of windows each instant between its two ends lies in exactly one window |
| SchedulerModel.SuccessfulWindowsFormChain | internal/collection/intervals.go:379-525 | in every run, for every registration, live or ended, the successful windows form a chain without gap or overlap from the first lastEnd to the current one |
| SchedulerModel.EveryTryIsInOrder | internal/collection/intervals.go:436-551 | no window is dispatched before its end; a retry repeats exactly the failed window, no earlier than its delay allows; a permanent failure is followed by nothing until an update; after an update every later window lasts exactly the new interval and stays aligned |
| SchedulerModel.AtMostOneInvocation | internal/collection/intervals.go:379-551 | no run, through removals, re-adds, updates and retries, has two invocations of one callback ID at a time |
| SchedulerModel.IdleExactlyWhenNothingRuns | internal/collection/intervals.go:305-331 | the test for returning, no callback in flight, holds exactly when no invocation is left |
| SchedulerModel.StopDrains | internal/collection/intervals.go:305-376 | once stopping began nothing is started in any continuation, and the invocations left plus those that reported are those that were running |
| SchedulerModel.AddInFlightSurvives | internal/collection/intervals.go:404-458 | whatever happens between the start of an invocation and its report, the callback is dropped at the report exactly if a removal was asked for, before or after any update; otherwise the last update accepted takes effect, planned from where the reported window leaves lastEnd |
| SchedulerModel.RemovedThenReadded | internal/collection/intervals.go:404-446 | a run in which an accepted re-add is dropped with the callback |
| SchedulerEffects.DispatchStartsExactly | internal/collection/intervals.go:289-334 | a dispatch before the stop puts exactly the callbacks that are enabled and idle, with their window ended and their delay passed, in flight with an invocation of that window, and leaves all others as they are |
| SchedulerEffects.PlannedWindowStartsExactly | internal/collection/intervals.go:289-376 | a callback left alone keeps its plan over any other events, and a dispatch starts the planned window exactly if the window has ended and the delay has passed |
| SchedulerEffects.RetryStartsExactly | internal/collection/intervals.go:447-492 | after a retryable failure reported at t with delay d, without an update or a removal, a dispatch starts exactly the failed window again exactly from t + d on |
| SchedulerEffects.NextWindowStartsExactly | internal/collection/intervals.go:447-525 | after a success the window from there to the next boundary starts exactly from its end on |
| SchedulerEffects.ReportEffects | internal/collection/intervals.go:436-492 | a report ends its invocation; what each outcome leaves of lastEnd, plan, attempt, delay and enabling, with and without an update waiting; the callback goes exactly if a removal waits, and no other is touched |
| SchedulerEffects.NewCallbackStarts | internal/collection/intervals.go:379-402 | a new callback is idle and enabled and starts at the lastEnd given, or at the last boundary before now, with the first boundary after it as its end |
| SchedulerEffects.IdleCallbackIsUpdated | internal/collection/intervals.go:404-417 | adding an idle callback again enables it with the new interval and function from its lastEnd on, and clears its failures and its delay |
| SchedulerEffects.RunningCallbackKeepsUpdate | internal/collection/intervals.go:404-411 | adding one in flight only stores the update |
| SchedulerEffects.RemovalEndsIdle | internal/collection/intervals.go:420-434 | removing ends an idle callback at once and only marks a running one; no other is touched and nothing running is forgotten |
| SchedulerEffects.StopEndsDispatch | internal/collection/intervals.go:305-331 | once stopping began a dispatch changes nothing |
| Retries.RetriesFollowPolicy | internal/collection/intervals.go:470-483 | in every run that takes its delays from the policy, the attempt is the number of retryable failures in a row since the last success or update, and a failed window is dispatched again no earlier than the delay of the policy for that number |
| IntervalScheduler.CallbackState.Plan | internal/collection/intervals.go:505-525 | replans the next window as the model does |
| IntervalScheduler.CallbackState.Apply | internal/collection/intervals.go:494-503 | an update replaces interval, function and cap, enables the callback and replans |
| IntervalScheduler.CallbackState.Complete | internal/collection/intervals.go:447-492 | success advances lastEnd, a pending update is applied, a retryable failure keeps the window, a permanent one disables |
| IntervalScheduler.Scheduler.AddCallback | internal/collection/intervals.go:234-266 | refuses a non-positive interval, a nil function and a stopped scheduler; otherwise enters or updates the callback, the model's Add step |
| IntervalScheduler.Scheduler.RemoveCallback | internal/collection/intervals.go:420-434 | removes an idle callback at once and marks one in flight, the model's Remove step |
| IntervalScheduler.Scheduler.HandleReport | internal/collection/intervals.go:436-492 | the model's completion step, including a removal that waited |
| IntervalScheduler.Scheduler.Dispatch | internal/collection/intervals.go:289-334 | one pass over the map in any order puts exactly the callbacks in flight that are enabled and idle with window end and next attempt not after now, each with an invocation of its planned window, and leaves all others as they are |
| IntervalScheduler.Scheduler.NextReadyAt | internal/collection/intervals.go:553-570 | the least of the later of window end and next attempt over the enabled idle callbacks, or none exactly if there is no such callback |
| IntervalScheduler.Scheduler.NoInFlight | internal/collection/intervals.go:572-579 | true exactly if no callback is in flight |
| IntervalScheduler.Scheduler.Turn | internal/collection/intervals.go:305-376 | a turn of the loop returns exactly when stopping and idle; otherwise it dispatches, and sets the timer to the least instant at which an enabled idle callback can start, which lies ahead, or to none exactly if there is no such callback |
| RecoveryModel.NoWindowIsLost | internal/collection/collector.go:133-159 | in every interleaving of live collection and workers, every window the scheduler moved past was collected, waits in the backlog, or expired no earlier than its deadline |
| RecoveryModel.EveryInstantIsAccountedFor | internal/collection/recovery.go:94-164 | every instant up to the current lastEnd lies in exactly one such window |
| RecoveryModel.RowsAreEarned | internal/collection/recovery.go:214-338 | a backlog row is recovered only if its window was collected, and expired only at or after expires_at |
| RecoveryModel.RetryWaits | internal/collection/recovery.go:313-338 | once a failed attempt has been written down, in every later run no worker collects the window with a clock before now plus the delay, unless its live collection fails anew |
| RecoveryModel.ReadTakesTheOldest | internal/collection/recovery.go:225-232 | a worker takes up a row exactly if it is pending or was left in collection and no such row of the service begins before it |
| RecoveryModel.LiveSuccessCompletes | internal/collection/collector.go:133-159 | a live collection that succeeds keeps its window and may report success at once |
| RecoveryModel.LiveFailureIsQueued | internal/collection/recovery.go:94-164 | one that fails reports success only after its window is a pending row, ready at the time given and with one attempt more |
| RecoveryQueue.Queue.EnqueueFailedWindow | internal/collection/recovery.go:148-164 | leaves the row of the window pending at its retry time with one attempt more, the deadline of a new row set and that of an existing one not moved, and every other row as it was |
| RecoveryQueue.Queue.ProcessOne | internal/collection/recovery.go:214-338 | one attempt at the oldest open window, in the columns of its row: a failed one leaves it pending with one attempt more and ready at now plus the recovery delay of that number, and waits that long; cancellation, a row not ready, a missed deadline, success and failing statements each with the row and the wait they leave; the next attempt follows at once exactly after a gap or a recorded recovery |
| RecoveryQueue.AttemptIsARun | internal/collection/recovery.go:214-338 | that attempt is a run of a worker's statements in the interleaved model, which leaves the row as said above and every other row alone, and notes the window as collected exactly if it was |
| WindowProcessor.RecoveryDelaysGrow | internal/collection/recovery.go:359-369 | until probing begins the delays start at a second, never shrink and never exceed a minute |
| WindowProcessor.RecoveryDelayByAttempt | internal/collection/recovery.go:359-369 | until then the delay is a second, doubles from attempt to attempt up to 32 seconds at the sixth, and is a minute after that; from then on it is the probe interval |
| WindowProcessor.AttemptResults | internal/collection/window_processor.go:62-79 | a deadline is tested before the retry time, both against the zero time; the policy is asked only for what was neither cancelled nor too early |
| WindowProcessor.ImportResultsByError | internal/collection/collector.go:38-47 | an import counts a window as a gap exactly for the two errors of missing data, fails for any other, and retries nothing |
| HistoricalImport.Import | internal/collection/collector.go:163-193 | the windows counted tile the range from the start in order, each collected or without data; on success they end at its end and are as many as the ceiling of range over interval; the first window that is cancelled or fails otherwise stops the import, with that result |
| HistoricalImport.TilesPartition | internal/collection/collector.go:169-191 | each instant that the windows reach is in exactly one of them |
| HistoricalImport.AnnouncedIsDone | internal/collection/collector.go:195-205 | a finished import has counted as many windows as it announced |
| HistoricalImport.PercentsNeverFall | internal/collection/collector.go:186-189 | the reported percentages stay in 0..100 and never fall while a hundred times the range fits into 64 bits |
| HistoricalImport.PercentEndsAtHundred | internal/collection/collector.go:187 | the last percentage is 100 exactly if it does |
| Backoff.DelayIsBounded | internal/collection/intervals.go:84-111 | no delay is negative or exceeds an hour, the configured maximum or the interval |
| Backoff.DelaysMultiply | internal/collection/intervals.go:84-111 | the first delay is the initial one, a second by default, and each further one is multiplied, by two by default |
| Backoff.DelayIsLeast | internal/collection/intervals.go:84-111 | what is used is cut at the least of an hour, a positive maximum and a positive interval |
| Backoff.DelaysGrow | internal/collection/intervals.go:84-111 | with a multiplier of at least one the delays never shrink |
| Backoff.DelaysReachCap | internal/collection/intervals.go:84-111 | with a multiplier above one they reach the cap and stay there |
| EcdfTable.PublicationKeepsFiveNewest | internal/ecdf/joint_database.go:123-150 | a publication appends a version above all others of its slot, leaves the five newest there and touches no other slot |
| EcdfTable.JointStore.Publish | internal/ecdf/joint_database.go:32-155 | when a publication is stored, skipped or refused, and what the table then holds; the lock is given back in every case |
| EcdfTable.ReadCurrent | internal/ecdf/joint_database.go:157-203 | the newest version whose size and checksum match, if any does |
| EcdfTable.ReadAfterPublish | internal/ecdf/joint_database.go:123-203 | a reader right after a publication gets what was published |
| PublicationFence.EveryRowIsOfTheCurrentGeneration | internal/collection/builder.go:158-191 | in every interleaving every committed ECDF of a service was built from its committed generation |
| PublicationFence.AcceptedEvidenceMatchesItsChunk | internal/alerting/manager.go:864-952 | evidence that passes the second generation check shows a reference built from the generation of its chunk |
| PublicationFence.PublicationIsExclusive | internal/ecdf/joint_database.go:49-73 | two publishers never work on one slot, nor does one while an update has deleted the rows of its service |
| PublicationFence.SlotsStayInOrder | internal/ecdf/joint_database.go:95-154 | each slot keeps at most five versions in strictly rising order and at most one for an interval |
| PublicationFence.NextKeepsSafe | internal/config/database.go:162-241 | every step of a publisher, an update, a reader, or the creation and deletion of a service keeps the fence |
| FenceHistory.NumbersCountUpdates | internal/config/database.go:162-241 | after any run the generation of a service is one more than the number of its committed material updates, and its revision one more than that of all its committed updates |
| FenceHistory.RowsFollowTheLastUpdate | internal/collection/builder.go:158-191 | in every interleaving a publisher that commits a row prepared after the last committed material update of its service, counted without generation numbers |
| FenceHistory.MaterialUpdateClears | internal/config/database.go:199-241 | committing an update raises the revision by one and, exactly if it is material, the generation by one, and then leaves no row of the service; no other service and no other row changes |
| FenceHistory.StaleUpdateWaits | internal/config/database.go:176-197 | an update under a revision that is not the current one, or of a service locked or gone, gets no lock |
| FenceHistory.LocksAreThoseAtWork | internal/ecdf/joint_database.go:49-94 | after any run, failures and rollbacks included, the advisory locks and row locks held are exactly those of the publishers and updates at work, so none is left behind |
| FenceHistory.RollbackUndoes | internal/config/database.go:162-241 | an update that is given up at any point changes no service and no row, and gives back exactly its locks |
| FenceHistory.UnlockUndoes | internal/ecdf/joint_database.go:49-94 | a publisher that gives up at any point changes no row and gives back exactly its lock |
| FenceHistory.PublicationIsARun | internal/ecdf/joint_database.go:32-155 | a publisher that nobody disturbs gets its row into the interleaved table, of the generation it read, exactly if the interval has none and the body is not empty, and gives the lock back in every case |
| FenceHistory.EvidenceIsARun | internal/alerting/manager.go:864-952 | a reader that nobody disturbs is shown the row it asked for, as one of the current generation |
| ServiceUpdates.ServiceStore.UpdateService | internal/config/database.go:162-241 | an unknown service and a stale revision are refused and change nothing; otherwise the revision is one higher, the generation one higher exactly for a material change, which leaves no row of the service and every other row; no other service changes |
| ServiceUpdates.UpdateIsARun | internal/config/database.go:162-241 | that update is a run of the updater's statements in the interleaved model with the same numbers and rows, and gives back every lock |
| ReferenceBuilder.PublishIndicator | internal/collection/builder.go:158-191 | stores a row exactly if the lock is free, the interval new, the generation unchanged under the lock and the body not empty; a superseded generation and a held lock are no failure |
| ReferenceBuilder.BuildService | internal/collection/builder.go:119-156 | every row added is of the generation read at the start; it fails exactly if the interval is zero or some indicator cannot be measured, or is ready and free and its generation cannot be read again or nothing is built; otherwise each indicator that was ready, current and free has its row for the interval, also after one that was not ready |
| ReferenceBuilder.PublishedIsThere | internal/ecdf/joint_database.go:123-150 | retention never removes the row just published or a row of another slot |
| ChunkStore.CountMatchesScan | internal/ecdf/database.go:98-155 | after any writes the chunks counted as eligible are those that the scan streams, and those judged good or as baseline, or bad and accepted, of that generation |
| ChunkStore.ScannedByHistory | internal/ecdf/database.go:98-155 | after any writes a chunk is scanned for exactly the generation of its last accepted write, with that write's body: judged good or as baseline since then whatever the reviews say, judged bad exactly if the last review since then accepted it, and never while pending or failed |
| ChunkStore.RowsAreHistory | internal/ecdf/database.go:22-96 | after any writes both rows of a chunk hold its last accepted write, and the last judgement and the last review since its generation was new |
| ChunkStore.TablesAgree | internal/ecdf/database.go:22-63 | chunk and verdict rows exist together, with equal generations |
| ChunkStore.GenerationsNeverFall | internal/ecdf/database.go:22-63 | the generation of a stored chunk never decreases |
| ChunkStore.LateWritesChangeNothing | internal/ecdf/database.go:22-96 | a late write for an older generation changes nothing |
| ChunkStore.LateReviewActsOnNewerChunk | internal/alerting/manager.go:724-730 | a review of a chunk that has been replaced acts on the newer one: accepting makes it count, in its own generation, exactly if it has been judged |
| ChunkStore.Store.WriteChunk | internal/ecdf/database.go:22-63 | an older generation changes nothing; otherwise the body and the generation are stored, and the verdict becomes pending without a review exactly if the generation is newer; all other rows stay as they are |
| ChunkStore.Store.WriteVerdict | internal/ecdf/database.go:84-96 | the analysis of the verdict changes exactly if the generations agree; its generation and review, every other verdict and all chunks stay as they are |
| AlertInvariants.NextKeepsSafe | internal/alerting/manager.go:90-791 | every transaction keeps the index of firing alerts, the outbox, the reviews, the counts and the occurrence keys consistent |
| AlertInvariants.OneAlertFiresPerCondition | internal/migrations/postgresql/000001_initial_schema.sql:121 | after any run at most one alert of a condition fires |
| AlertInvariants.ReviewDecidesFiring | internal/alerting/manager.go:687-791 | after any run a firing anomaly has a chunk that nobody accepted, and one resolved as accepted has only accepted ones |
| AlertInvariants.ResolvedAlertsAreSettled | internal/alerting/manager.go:650-685 | after any run a resolved alert has no pending firing row, and a later resolved row for each severity it was handed off with |
| AlertInvariants.ResolutionsAnswerFirings | internal/alerting/manager.go:1181-1247 | after any run each resolved row has an earlier delivered firing row of the same alert and severity |
| AlertInvariants.ChunksCountOnce | internal/alerting/manager.go:157-209 | after any run the count of an anomaly is its number of occurrence rows, and no chunk is in two occurrences |
| AlertInvariants.GoodClosesItsConditions | internal/alerting/manager.go:90-128 | after any run a live Good ends the anomaly of its service and indicator and the impairment of its analysis, and changes no alert of another condition |
| AlertInvariants.AnomalyIsRecorded | internal/alerting/manager.go:130-242 | after any run an anomaly's chunk is an occurrence of some retained alert; a new one is the last of the firing alert of its condition, with a firing row queued |
| AlertHistory.CriticalExactlyAtTheFloor | internal/alerting/manager.go:244-275 | however the settings change during a run, an alert is critical exactly when its count has reached the threshold that its last occurrence read, or two where the first occurrence is always a warning |
| AlertHandoff.NeverStuckExactly | internal/alerting/outbox.go:171-270 | from any state of any run, with a threshold settled from then on that keeps the alert critical: the receiver never ends up with a warning of it and nothing queued to withdraw it, exactly if no warning waits and a shown one has its withdrawal queued, or the alert is a historical anomaly |
| AlertHandoff.WarningsEndWithdrawnExactly | internal/alerting/manager.go:1221-1247 | after a run under any settings and an occurrence that makes its alert critical, with the threshold settled from then on at no more than one above the count: the receiver never ends up with a warning of the alert and nothing queued to withdraw it, exactly if the occurrence found no warning waiting beside one handed off, where its count equals the threshold, and otherwise no warning waiting and a shown one with its withdrawal queued; or the alert is a historical anomaly |
| AlertHandoffRuns.CrowdedEscalationHappens | internal/alerting/outbox.go:178-190 | a run with a threshold of three that leaves the receiver with a warning of a critical alert |
| AlertHandoffRuns.LoweredThresholdLeavesWarning | internal/alerting/manager.go:229-233 | a run with a lowered threshold that does; the condition is in the rows above |
| AlertHandoffRuns.ThresholdOneLeavesWarning | internal/alerting/manager.go:213-235 | a run with a threshold of one that does; the condition is in the rows above |
| AlertHandoffRuns.ReopenedCanShowResolved | internal/alerting/manager.go:760-785 | a run after which a reopened alert fires with nothing queued and the receiver shows it resolved |
| AlertHandoff.EndsInViewExactly | internal/alerting/outbox.go:171-270 | if a firing row of a severity is shown or waiting, every sequence of deliveries that leaves nothing queued ends with it shown, exactly if no resolved row of it is waiting |
| AlertHandoff.ReopenedEndsInViewExactly | internal/alerting/manager.go:760-785 | after any run: deliveries that follow a reopening end with the alert shown exactly if no resolved row of its severity was waiting when it was reopened |
| AlertHandoff.RefreshShowsAgain | internal/alerting/outbox.go:299-320 | after any run the refresh of a firing alert with nothing queued makes the receiver show it with its severity |
| AlertHistory.AnomalyThresholdOneLeavesWarningsOpen | internal/alerting/manager.go:213-235 | with a threshold of one a critical anomaly can have a warning queued that nothing withdraws |
| AlertHistory.MonitoringThresholdOneLeavesWarningsOpen | internal/alerting/manager.go:441-506 | with a threshold of one a critical impairment can have a warning queued that nothing withdraws |
| AlertHistory.NoGoodBetweenOccurrences | internal/alerting/manager.go:90-209 | no live Good result lies between two occurrences of a live anomaly that was never reopened |
| AlertHistory.ReopenedAlertsSpanGoods | internal/alerting/manager.go:760-785 | a run in which a reopened one has one between them |
| AlertSpans.SpansExactly | internal/alerting/manager.go:130-242 | after a transaction an alert spans a Good exactly if it did before, or is counted on while some Good of its condition came after its last occurrence |
| AlertSpans.SpanningRunsExactly | internal/alerting/manager.go:90-242 | after any run an alert spans a Good exactly if at some point of the run it was so counted on |
| AlertSpans.OnlyReopenedBridge | internal/alerting/manager.go:760-785 | only a firing alert that had been reopened can be |
| AlertEffects.ReviewEffect | internal/alerting/manager.go:687-791 | a review goes through exactly if it would change the decision, names the current revision and does not reopen an alert whose condition fires anew; it raises that occurrence's revision by one, sets the decision, and resolves, reopens or leaves the alert as the other occurrences and the reason say; otherwise nothing changes |
| AlertEffects.OneReviewPerRevision | internal/alerting/manager.go:713-715 | over all runs, of any reviews of one occurrence that expect the same revision at most one takes effect |
| AlertEffects.RevisionsNeverFall | internal/alerting/manager.go:716-722 | no transaction takes a revision back, drops an occurrence of an alert it keeps, or gives an id out again |
| AlertEffects.GoodEnds | internal/alerting/manager.go:90-128 | a live Good ends the impairment of analysis and the anomaly of its indicator, with their reasons and one resolution queued for each severity handed off, and changes no other alert |
| AlertEffects.NewAnomalyRaises | internal/alerting/manager.go:130-275 | a new anomaly ends the impairment, opens a warning or raises the count, the severity and the occurrences of the firing alert by one, and queues a firing row; at the threshold a warning handed off is withdrawn first and a waiting one missed |
| AlertEffects.RepeatedAnomalyOnlyRecovers | internal/alerting/manager.go:158-166 | a chunk that is an occurrence already only ends the impairment |
| AlertEffects.CollectionFailureRaises | internal/alerting/manager.go:341-418 | a failed collection opens or raises the alert of its service with the severity of its count in a row; a repeated attempt is counted without a second occurrence |
| AlertEffects.MonitoringFailureRaises | internal/alerting/manager.go:441-506 | a monitoring failure opens a warning whatever the threshold and raises it from then on |
| AlertEffects.RecoveriesEnd | internal/alerting/manager.go:420-513 | a recovery ends the alert of its condition and changes no other |
| AlertEffects.DeliveryEffect | internal/alerting/outbox.go:171-270 | an accepted row becomes delivered and dates the hand-off; a firing row of an ended alert is missed, one of a historical anomaly ends it; nothing else changes |
| AlertEffects.RefreshesRequeue | internal/alerting/outbox.go:302-320 | exactly the firing alerts handed off before the given time, or never, with nothing pending get their latest firing row queued again |
| AlertEffects.DeletionRemoves | internal/alerting/manager.go:1113-1123 | exactly the resolved alerts whose retention began before the given time go |
| AlertManager.InsertDeliveredResolutions | internal/alerting/manager.go:1181-1219 | one resolved row for each severity with a delivered firing row |
| AlertManager.Manager.ResolveAlert | internal/alerting/manager.go:650-685 | the alert ends with its reason and time, pending firing rows are missed and one resolution is queued for each severity handed off; no other alert changes |
| AlertManager.Manager.ResolveByKey | internal/alerting/manager.go:638-648 | ends the firing alert of a condition, if there is one, and changes no other |
| AlertManager.Manager.RecordGoodAnalysis | internal/alerting/manager.go:90-128 | ends the impairment of analysis and the anomaly of the indicator and changes no other alert; the model's step for a live Good |
| AlertManager.Manager.EnsureAnomalyAlert | internal/alerting/manager.go:244-275 | the firing alert of the condition with its next count, or a new one with a warning |
| AlertManager.Manager.RecordAnomalyOutcome | internal/alerting/manager.go:130-242 | a new chunk opens a warning or raises the firing alert by one, a known one only ends the impairment of analysis; the model's step for an anomaly |
| AlertManager.Manager.RecordCollectionFailureTx | internal/alerting/manager.go:341-418 | opens or raises the alert of the service with the severity of its count in a row and changes no other; the model's step |
| AlertManager.Manager.RecordMonitoringFailureTx | internal/alerting/manager.go:441-506 | opens a warning of the service and operation or raises it and changes no other alert; the model's step |
| AlertManager.Manager.RetireDeliveredSeverity | internal/alerting/manager.go:1221-1247 | if a warning was handed off, its withdrawal is queued at the end and nothing else changes; otherwise no warning waits afterwards and no row is added; delivered rows and other alerts stay as they are |
| AlertManager.Manager.CloseServiceAlerts | internal/alerting/manager.go:558-595 | exactly the firing alerts of the service end, with the reason given, whatever the order of the query's rows; every other alert stays as it is |
| AlertManager.Manager.InterruptServiceAnomalies | internal/alerting/manager.go:515-556 | exactly the firing live anomalies of the service end; every other alert stays as it is |
| AlertManager.ResolveEachIsResolveAll | internal/alerting/manager.go:515-595 | one by one in any order is all at once |
| AlertManager.Manager.ReviewOccurrence | internal/alerting/manager.go:687-791 | unchanged exactly if the decision is the requested one, conflict exactly if it differs and the revision is not the expected one, turned away exactly if it would reopen a condition that fires anew; these change nothing, and any other review raises the revision by one and resolves, reopens or leaves the alert as stated |
| AlertManager.Manager.DeliverOne | internal/alerting/outbox.go:171-270 | one whole delivery: missed, ended, delivered with the time of the hand-off, or left pending, and no other alert changed |
| Funcs.EvalPoly | ui/src/func.ts:35-43 | Horner's rule gives the sum of the terms |
| Funcs.DerivPoly | ui/src/func.ts:45-55 | the derivative's coefficients |
| Funcs.TangentIsDerivative | ui/src/func.ts:45-55 | those coefficients are the limit of the secant, for every polynomial |
| Funcs.SecantSpansDifference | ui/src/func.ts:35-55 | the secant polynomial times the distance is the difference of two values |
| Funcs.QuintSlope | ui/src/func.ts:198-204 | the derivative of the drawn quintic as a blend of terms that are not negative |
| Funcs.QuintRises | ui/src/func.ts:198-204 | with end slopes that are not negative and sum to at most two the quintic never falls |
| MonotoneInterpolation.InterpolateMonotonic | ui/src/func.ts:126-207 | the special cases and, for any data without upright segments, each segment with the slopes that the two passes give its knots; for ascending knots and data that never falls these are the slopes of the specification |
| MonotoneInterpolation.DrawnIsSlope | ui/src/func.ts:146-188 | for data that never falls the slopes after both passes have the closed form of the specification |
| MonotoneInterpolation.FallingFitsExactly | ui/src/func.ts:169-188 | data that never rises has all normalised slopes in range exactly if, at each knot between two falling segments, the slope with which the first pass arrives satisfies an equation or inequality with the rises around it |
| MonotoneInterpolation.FallingNeedNotFit | ui/src/func.ts:182-187 | three falling knots with a normalised slope of 18 |
| MonotoneInterpolation.EndsFit | ui/src/func.ts:146-188 | after both passes every segment that is not flat has normalised slopes that are not negative and sum to at most two |
| MonotoneInterpolation.SlopesFit | ui/src/func.ts:146-188 | the same for the slopes themselves, and a flat segment that is not the last has slope zero at both ends |
| MonotoneInterpolation.DensityNotNegative | ui/src/func.ts:190-207 | the drawn density is nowhere negative |
| MonotoneInterpolation.SegmentRises | ui/src/func.ts:190-207 | within a segment the curve never falls |
| MonotoneInterpolation.CurveRises | ui/src/func.ts:126-207 | nor across segments, and it stays between its first and last value |
| MonotoneInterpolation.SegmentMeetsKnots | ui/src/func.ts:190-207 | the curve passes through its knots |
| MonotoneInterpolation.DensityAtKnots | ui/src/func.ts:108-119 | the density at the ends of a segment is the slope of its knots |
| MonotoneInterpolation.DensityIsContinuous | ui/src/func.ts:146-188 | the density is continuous at an interior knot exactly if the last segment is not flat there, or the segment before rises at most half of the slope with which the first pass enters it |
| MonotoneInterpolation.DensityDropsBeforeFlatEnd | ui/src/func.ts:169-174 | three knots with a flat end show the jump |
| MonotoneInterpolation.DensityJumpsAfterSteepening | ui/src/func.ts:169-174 | it always jumps there if the segment before the flat one is steeper than the one before it |
| KolmogorovSmirnov.OneSample | internal/kstests/ks.go:80-114 | sorts if needed and returns what the loop computes with sums that wrap around, or nothing where it divides by zero |
| KolmogorovSmirnov.OutcomeIsStatistic | internal/kstests/ks.go:100-114 | as long as the counts sum to less than 2^64 that is the largest of the differences at and just below each sample |
| KolmogorovSmirnov.StatisticDominates | internal/kstests/ks.go:102-114 | for single observations and a distribution function the statistic bounds the difference to the empirical distribution at every real number |
| KolmogorovSmirnov.StatisticBoundsLead | internal/kstests/ks.go:102-114 | for any counts the sample nowhere runs ahead by more than the statistic |
| KolmogorovSmirnov.StatisticBoundsLag | internal/kstests/ks.go:102-114 | nor lags by more than it and the share of all but one count |
| KolmogorovSmirnov.LargeCountsEscape | internal/kstests/ks.go:110-113 | for different values, any count of two or more lets the difference to some distribution function exceed the statistic just below its sample |
| KolmogorovSmirnov.DominatesExactly | internal/kstests/ks.go:102-114 | for different values the statistic bounds the difference to every distribution function everywhere exactly if no count exceeds one |
| KolmogorovSmirnov.StatisticIsADifference | internal/kstests/ks.go:102-114 | the statistic is one of the differences |
| KolmogorovSmirnov.StatisticIsTight | internal/kstests/ks.go:77-79 | for distinct single observations it is the least bound |
| LinearInterpolation.Eval | internal/ecdf/interpolation.go:13-22 | Horner's rule, and zero for no coefficients |
| LinearInterpolation.Interpolate | internal/ecdf/interpolation.go:33-49 | fails exactly for fewer than two points, and builds the lines between them, whatever the order of the knots |
| LinearInterpolation.Interpolant.At | internal/ecdf/interpolation.go:52-62 | zero before the first knot, one past the end, and the line of the first segment that ends at or after the point, unless its knots coincide |
| LinearInterpolation.EvaluatedIsCdf | internal/ecdf/interpolation.go:52-62 | for strictly ascending knots there is always a value, that of the distribution function |
| LinearInterpolation.TiedKnotsFailAtTheStart | internal/ecdf/interpolation.go:24-62 | knots that never fall have no value at one point only, the first knot if the second coincides with it |
| LinearInterpolation.InterpolationIsCdf | internal/ecdf/interpolation.go:30-62 | for ascending knots and ordered proportions it never falls and stays between zero and one |
| LinearInterpolation.CdfMeetsKnots | internal/ecdf/interpolation.go:30-62 | it passes through its knots |
| LinearInterpolation.InterpolationIsLeftContinuous | internal/ecdf/interpolation.go:30-62 | it is continuous from the left away from a first knot with a positive proportion |
| LinearInterpolation.LeftContinuousExactly | internal/ecdf/interpolation.go:30-62 | it is continuous from the left at a point exactly if that is not such a knot |
| LinearInterpolation.ContinuousExactly | internal/ecdf/interpolation.go:30-62 | it is continuous at a point exactly if that is neither a first knot with a positive proportion nor a last one with a proportion below one |
| LinearInterpolation.ContinuousFromZeroToOne | internal/ecdf/interpolation.go:30-31 | it is the continuous function promised exactly if its proportions lead from zero to one |
| LinearInterpolation.StatisticIsLeastBound | internal/collection/analyze.go:84 | against an interpolated reference, for different values observed once each, none of them on a first knot with a positive proportion, the statistic is the least upper bound of all differences |
| TimeChunkCodec.DecodeInvertsEncode | internal/ecdf/timechunk.go:52-100 | an encoded chunk followed by any bytes decodes to the same seconds and lists, for all 64-bit counts; the limit never stands in the way |
| TimeChunkCodec.LimitIsHarmless | internal/ecdf/timechunk.go:81-88 | any bytes decode under the limit exactly if they decode without one, and to the same |
| TimeChunkCodec.EncodingIsPrefixFree | internal/ecdf/timechunk.go:52-69 | no encoding is the start of another |
| TimeChunkCodec.StreamsAreUnique | internal/ecdf/timechunk.go:52-69 | concatenated chunks can be read in one way only |
| TimeChunkCodec.UvarintRoundTrip | internal/ecdf/timechunk.go:122-127 | every 64-bit count survives its variable-length form |
| TimeChunkCodec.TenBytesSuffice | internal/ecdf/timechunk.go:122-127 | it never needs more than the ten bytes of its buffer |
| TimeChunkCodec.ChunkLayout | internal/ecdf/timechunk.go:52-120 | the bytes of a chunk: seconds in eight with the highest first, the number of the first list, each value in eight bytes before its count, the number of the second list |
| TimeChunkCodec.UvarintDigit | internal/ecdf/timechunk.go:122-127 | a count is written in groups of seven bits, the lowest first, every byte but the last marked |
| TimeChunkCodec.SuspectCountsAreRefused | internal/ecdf/timechunk.go:81-88 | a list that claims more than a ninth of the bytes beyond ten is refused before any record is read |
| TimeChunkCodec.PutUvarint | internal/ecdf/timechunk.go:122-127 | the loop writes the variable-length form |
| TimeChunkCodec.Writer.WriteSamples | internal/ecdf/timechunk.go:102-120 | the buffer gains the encoded list |
| TimeChunkCodec.Reader.NextSamples | internal/ecdf/timechunk.go:129-150 | the cursor reads a list, or fails as the format says |
| TimeChunkCodec.EncodeChunk | internal/ecdf/timechunk.go:52-69 | seconds, then both lists |
| TimeChunkCodec.DecodeChunk | internal/ecdf/timechunk.go:72-100 | seconds, then both lists under the limit |
| Samples.CountSamples | internal/ecdf/timechunk.go:28-49 | sorts the values in place and returns them in ascending order with how often each occurs |
| Samples.SamplesFromValues | internal/collection/prometheus.go:183-203 | fails exactly for values that are not finite; otherwise the same of the values |
| Samples.CanonicalIsUnique | internal/ecdf/timechunk.go:27-49 | the counts determine the list |
| Samples.CountingsAgree | internal/collection/prometheus.go:183-203 | both ways of counting give the same list for the same values |
| Samples.AggregateSamples | internal/alerting/manager.go:1011-1039 | merging conserves the count of every value in a sorted list, strictly ascending if the first group has distinct values, and then fails exactly if some total exceeds 64 bits |
| HistogramDifference.Accumulate | internal/collection/prometheus.go:136-165 | the three-index merge of any lists ends with valid bounds, and for lists in order adds to each bound that both have what its count rose by, nothing after a reset, and leaves all other bounds alone |
| HistogramDifference.IncreaseIsRise | internal/collection/prometheus.go:136-165 | the increase of a bound is what its count rose by, and nothing after a reset or if one of the two has no such bound |
| HistogramDifference.SamplesFromHistograms | internal/collection/prometheus.go:115-181 | fails exactly for fewer than two histograms or an invalid bound; for histograms with their bounds in order otherwise strictly ascending finite bounds with positive counts, each the sum of its increases modulo 2^64 |
| HistogramDifference.IncreasesTelescope | internal/collection/prometheus.go:127-129 | without resets the increases sum to the last count less the first, so none is lost |
| RenderCache.Cache.Get | cmd/weewoo-server/joint_ecdf_render.go:164-173 | finds exactly the keys that are there; a found entry comes to the front and the rest keep their order, a miss moves nothing |
| RenderCache.Cache.Add | cmd/weewoo-server/joint_ecdf_render.go:175-200 | a body over the budget changes nothing; any other comes to the front in place of the one with its key, the rest keep their order, and as many from the front stay as fit |
| RenderCache.HitOutlivesOthers | cmd/weewoo-server/joint_ecdf_render.go:164-200 | what was just found is the last to be evicted by the next body added |
| RenderCache.FoundComesToFront | cmd/weewoo-server/joint_ecdf_render.go:164-173 | a hit moves its entry to the front and keeps the order of the others |
| RenderCache.FittingIsLongestPrefix | cmd/weewoo-server/joint_ecdf_render.go:193-199 | what stays is the longest prefix of the recency order that fits |
| RenderCache.AddedIsKept | cmd/weewoo-server/joint_ecdf_render.go:175-200 | an accepted entry stays, in front, and the total is within the budget |
| RenderCache.AddedIsFound | cmd/weewoo-server/joint_ecdf_render.go:164-200 | and is what the key then finds |

## Left out

- Fencing on SQLite: the code holds no lock across the build there and gives no such guarantee.
- Publishers, service updates, evidence readers and recovery workers are state machines over their statements where others step in between; `EcdfTable.JointStore.Publish`, `ServiceUpdates.ServiceStore.UpdateService` and `RecoveryQueue.Queue.ProcessOne` are their undisturbed forms. The revision history of services is not part of this model.
- A resolve that commits between the sending of a notification and the update that marks it delivered: one delivery is one step here, and the code's unconditional update gives no guarantee without that.
- The order of two resolved rows inserted by one resolution follows a Go map; the model takes the warning first. No property depends on it.
- Retry times of outbox rows, titles, messages and events of alerts. What the receiver shows is the last row handed off for a severity; that a receiver may let it expire by itself is not part of this model.
- AlertHandoff.NeverStuckExactly: for futures whose threshold keeps the alert critical; one raised so far that the next occurrence is a warning again is not part of this model's notion of a warning left behind.
- AlertHandoff.NeverStuckExactly: an alert that the retention removes while its withdrawal is queued takes the withdrawal with it; such an alert does not count as stuck here, though the receiver still shows its warning.
- KolmogorovSmirnov.OneSample: the p-value and its square root are not part of this model.
- KolmogorovSmirnov.OneSample: samples with equal values keep their order, which Go's sort does not promise; the bounds hold for either order.
- KolmogorovSmirnov.DominatesExactly: for different values, as both countings deliver them; with equal values `KolmogorovSmirnov.StatisticDominates` still gives the bound for single observations.
- MonotoneInterpolation.InterpolateMonotonic: no two neighbouring knots may coincide with different values, where JavaScript would go on with infinities and NaN.
- MonotoneInterpolation.FallingFitsExactly: for data that falls or stays; data that turns is covered by the slopes that the passes give only.
- LinearInterpolation.StatisticIsLeastBound: for different values observed once, none on a first knot with a positive proportion; with larger counts the statistic is no bound at all (`KolmogorovSmirnov.DominatesExactly`), and on a jump of the reference it compares with a value that is not approached from below.
- HistogramDifference.SamplesFromHistograms: what is collected is stated for histograms with their bounds in ascending order, which the code says it assumes; the rounding of a bucket's floating-point count is not part of this model.
- RenderCache.Cache.Add: entries are values held by the map and the list rather than objects shared by them; the mutex is not modelled.
- TimeChunkCodec.Reader.NextSamples: grows its list instead of filling a slice made at full length, so over-allocation is only covered by the limit.
- Rounding errors of floating-point numbers, NaN among sample values once they are parsed, and the 64-bit limit on the scheduler's own durations.
- Log output, metrics, panics of callbacks (any outcome may be reported), contexts (cancellation is an outcome).
- HTTP handlers, settings, authentication, Prometheus and Alertmanager clients, migrations and SQL text, analysis queues, import jobs, the external jecdf program and all user interface code but the interpolation.
