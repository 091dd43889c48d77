# hostd, modelled and proved

hostd keeps a machine's services converged on what its files declare. It talks to a container
runtime, fires jobs on a schedule, keeps the log and the metrics, takes uploads, prunes images
and guards every change with a generation counter. This project models those parts in Dafny and
proves what each of them is built around. `dafny verify dfyconfig.toml` checks everything.

## How the model is laid out

| files | what they model |
|---|---|
| `Services`, `Plan`, `Runtime`, `Supervisor` | the supervisor's operations on the declarations and the runtime, one caller at a time, as a class over a runtime whose calls may fail |
| `Interleaving`, `Provenance` | the same operations cut into critical sections and runtime calls, in every interleaving, with the lock `observe`, `Apply` and `Deploy` hold and `Remove` and `Start` do not; the same runs with a journal of what each builder had read |
| `Scheduler`, `JobRuns`, `RunLife`, `Timetable` | slots and firing, what may begin, the life of a run across daemons with a ledger of what became of it, and how what is fired becomes such a life |
| `RunDeadlines` | the runs of `RunLife` with a clock and the timer of every waiter of every daemon |
| `Dispatch` | the readers of declarations that build runs of jobs without the lock, among all of `Interleaving` |
| `LogStore`, `LogLives`, `Follower`, `Hearing`, `Logs` | the log pipe as a state machine with its theorems, its numbers over several lives of the store, search and follow, what a follower hears in every interleaving, and the store as a class whose methods take those steps |
| `MetricTable`, `MetricMinutes`, `MetricStore`, `MetricQuery` | the two resolutions and the roll-up, when a minute's row is its average, the store that sweeps on its writes, the stitched query |
| `Wire`, `Framing`, `ServerLoop` | lines and lengths, chunked uploads, the loop that serves a connection |
| `Artifacts` | the hashed stream of a service's files and the directory made to hold them |
| `ImagePrune`, `Audit`, `Gate` | which images go, the generation and its audit chain, the gate in front of an apply |
| `Ordering`, `Options` | string order, sorting in place, sequences in strict order |

A call into the runtime, the disk or the database may fail wherever the source checks for it; a
failed call has had no effect unless its contract says otherwise. State machines are total: an
event that cannot happen in a state leaves it as it is. Clocks, instants, the decoding of a
request line, base64, the hash and every reason to refuse an upload are parameters.

## What the code does that its comments do not say

Each of these is stated as a lemma or an `ensures`, with the condition under which the expected
property does hold beside it.

- A `Start` that read its declaration before an apply goes on with it afterwards: it takes away
  the new container and builds the old one (`Interleaving.StartCanUndoAnApply`). Only a start's
  build can be outdated, and it is exactly when its name was last declared otherwise between its
  reading and its building (`Provenance.StartBuildsOutdatedExactlyWhen`).
- A `Remove` between a round's reading and its building leaves a running container nothing
  declares (`Interleaving.RemovalCanLeaveAnOrphan`); the status lists it as an orphan. What a
  holder of the lock builds is undeclared exactly when a removal took the name since it was read
  (`Provenance.LockHoldersBuildNothingOutdated`).
- An update whose create failed is forgotten: the declaration is taken, so planning again finds
  nothing to do. The rounds bring the service up exactly when the failure left no container
  (`Supervisor.FailedUpdateIsForgotten`).
- The permission an apply asks for rests on the runtime's listing, where the last entry of a
  service's name has the say and runs of a job carry the name too. Every listing tells the truth
  exactly when those runs are in the state of the service itself (`Gate.ListingsTellExactlyWhen`).
  Where they are not, or the listing fails, an apply can stop a running service for good without
  permission (`Gate.Server.Apply`, `Gate.RunHidesItsService`, `Gate.BlindPlanAsksNothing`).
- A round that lists runs between a start's create and its launch takes the new container for a
  run that has ended, and removes it by force once it runs (`RunLife.ListOvertakesALaunch`). A list
  can do that exactly when it finds such a container (`RunLife.ListKillsExactlyWhen`). A second
  start in the same millisecond takes the first one's run (`RunLife.SecondStartTakesALiveRun`), and
  a wait that fails is recorded as an end (`RunLife.FailedWaitIsMistaken`).
- A run found ended by a new daemon is taken away even if the one inspection of it was not
  answered, and then there is no record of it (`RunLife.UnansweredInspectionLosesARun`).
- A daemon that takes charge of a run counts its limit from now when the inspection is not
  answered, and takes the limit from the current declaration. Under an unchanged limit every
  daemon's timer stands at the launch plus the limit exactly when it was told of the launch and
  set before that (`RunDeadlines.EveryDaemonKeepsTheDeadline`); no run is stopped early
  (`RunDeadlines.NoneIsStoppedEarly`), but a hung one can outlive any number of daemons
  (`RunDeadlines.HungRunOutlivesDaemons`).
- The scheduler reads the declarations once a tick and holds no lock: a run can be built for a job
  that was removed since (`Dispatch.RemovedJobRuns`), exactly when the job's last change between
  the reading and the building was to be taken away (`Dispatch.RunsAreOutdatedExactlyWhen`).
- The follower drops a record overtaken between its number and its announcement, and can miss one
  announced before its watch began whose append had not returned when its flush was called
  (`Hearing.OvertakenIsLost`, `Hearing.RecordInTheGap`); nothing else falls between.
- A log store opened again goes on from the highest row it finds. Numbers are given out a second
  time exactly when the last one given out is no longer stored at an opening that draws any
  (`LogLives.NumbersComeBackExactlyWhen`), as after a sudden end (`LogLives.KilledBeforeTheWrite`).
- The metric row limit keeps more rows than the limit: a table over it is left with more than
  `MaxRows` rows, a table at it is left alone (`MetricTable.CapOverflows`). The log's limit is exact.
- A fold boundary inside a minute makes the minute's row forget its first samples
  (`MetricTable.MinuteForgetsItsStart`). Folds write averages of whole minutes exactly when the
  boundary is a multiple of a minute (`MetricMinutes.FoldIsTheAverageExactlyWhen`); the code's
  boundary is whatever the instant of the sweep makes it.
- A schedule edited across a daemon restart can fire a slot again
  (`Scheduler.EditAcrossRestartFiresAgain`): exactly when the slot at first sight is below it and
  some schedule still has it in force (`Scheduler.FiredAgainExactlyWhen`).
- After an upload past the ceiling the connection goes on inside it, and takes what is left of the
  payload for requests (`ServerLoop.OneMessageATurn`).
- A sink that fails in the middle of an accepted upload leaves the reader inside the upload, at
  least the end marker short of the next request (`ServerLoop.LoadImage`, `ServerLoop.PutFile`).
- A declaration is refused for a bad file beside it after its source was already replaced
  (`Artifacts.Place.WriteDeclaration`); the one name with a slash that passes for a file name is the
  slash itself (`Artifacts.PlainNames`); a line break in a file's name can hide a change from the
  hash (`Artifacts.LineBreakHidesAChange`).
- Restarting what nothing declares stops its container and is then refused as unknown; a redeploy
  that fails leaves the new declaration without moving the counter (`Gate.Server.Mutate`). Removing
  a service looks at no claimed generation, and leaves no entry where its files stay behind
  (`Gate.Server.RemoveService`).
- Two operators who claim the same generation can both pass the check; the entries tell
  (`Audit.TwoCanPass`, `Audit.EntryTellsOfARace`).

## Model

| member | source | states |
|---|---|---|
| Services.SameDefinitionIsEssence | supervisor/commands.go:425-453 | two declarations compare as the same exactly when they agree on everything but name, wanted state and proxy lines |
| Services.OnlyVolumesGoUnnamed | supervisor/plan.go:112-157 | an update the plan describes with no part is one that changes the volumes and nothing else |
| Plan.PlanIsUnique | supervisor/plan.go:35-92 | the maps leave one plan: iteration order cannot show |
| Plan.PlanIsDistinct | supervisor/plan.go:86-91 | at most one change per service |
| Plan.EmptyPlan | supervisor/plan.go:35-92 | a plan is empty exactly when both sides name the same services with the same definitions |
| Plan.DestructiveMeansTakenAway | supervisor/plan.go:168-185 | a plan is destructive exactly when it takes away a service that reads as running |
| Plan.CollectKnown | supervisor/plan.go:55-76 | the pass over what is known yields each of its changes once |
| Plan.CollectAdded | supervisor/plan.go:77-86 | the pass over what is wanted adds the services nobody knew |
| Plan.Compute | supervisor/plan.go:35-92 | collected in any order and sorted in place, the result is the plan |
| Supervisor.Supervisor.Adopt | supervisor/supervisor.go:145-175 | records what is declared, touches no container, reports every undeclared service that runs and nothing declared |
| Supervisor.Supervisor.Create | supervisor/container.go:92-160 | leaves the fresh container under its policy; a failure leaves what stood, nothing, or the container not started; every other service is left alone |
| Supervisor.Supervisor.Retire | supervisor/container.go:323-337 | takes one service's container down and nothing else |
| Supervisor.Supervisor.ConvergePolicy | supervisor/supervisor.go:362-380 | the policy becomes the declared one or nothing changes; no call if it is already |
| Supervisor.Supervisor.Observe | supervisor/supervisor.go:221-273 | a round whose calls go through settles every declared service, replaces no container, and makes no call when all is settled already |
| Supervisor.RoundStep | supervisor/supervisor.go:244-272 | one service's turn keeps what the round has settled so far |
| Supervisor.Supervisor.PlanFor | supervisor/plan.go:35-52 | the plan against the machine as listed; a listing that fails reads as nothing running |
| Supervisor.Supervisor.Stop | supervisor/commands.go:206-245 | stops what is there; done means it does not run |
| Supervisor.Supervisor.TakeAway | supervisor/commands.go:366-385 | an undeclared service goes, or keeps its declaration because it would not stop |
| Supervisor.Supervisor.Apply | supervisor/commands.go:357-421 | the declarations become the files' but for what would not stop; unchanged services keep the very same container; planning again finds nothing exactly when everything stopped |
| Supervisor.ApplyIsFaithful | supervisor/commands.go:357-421 | containers built as declared stay so through an apply, but for what failed |
| Supervisor.PlanAgain | supervisor/commands.go:357-421 | after an apply the plan is empty exactly when nothing was stuck |
| Supervisor.FailedUpdateIsForgotten | supervisor/commands.go:357-421 | after a change that failed to build the plan is silent about the service; through any rounds what stands is as declared exactly when the old container was not left, and rounds that go well bring it up exactly when no container was left and it is wanted running |
| Supervisor.Supervisor.Deploy | supervisor/commands.go:253-281 | takes the declaration, replaces the container, touches no other service |
| Supervisor.Supervisor.Remove | supervisor/commands.go:289-324 | the declaration goes first, then the container; orphans can be removed too |
| Supervisor.Supervisor.Start | supervisor/commands.go:171-203 | runs what stands, or builds what is declared |
| Supervisor.Supervisor.Restart | supervisor/commands.go:326-338 | stops and starts, a change either way; what nothing declares is stopped and then unknown |
| Supervisor.Supervisor.Status | supervisor/commands.go:25-97 | one line a name in order; a line is an orphan exactly when nothing declares the name; every container has a line |
| Interleaving.EveryBuildIsCurrent | supervisor/supervisor.go:221-273 | in every interleaving of rounds, applies, deploys, ends and hands, each container built is for a name declared right then with its current definition |
| Provenance.EverythingIsTold | supervisor/commands.go:253-421 | the journal holds every change to a declaration and a line for every container built |
| Provenance.LockHoldersBuildNothingOutdated | supervisor/supervisor.go:221-273 | removals and starts included, what a round, an apply or a deploy builds is never outdated, and is undeclared exactly when a removal took the name since it was read or declared |
| Provenance.StartBuildsOutdatedExactlyWhen | supervisor/commands.go:171-203 | a start's build is outdated exactly when its name was last declared otherwise between its reading and its building, undeclared exactly when it was last taken away |
| Interleaving.StaysGone | supervisor/commands.go:253-421 | a service that is gone stays gone through every interleaving, removals and starts included, until an apply or a deploy asks for it |
| Interleaving.RemovalCanLeaveAnOrphan | supervisor/supervisor.go:244-272 | a run in which a removal between reading and building leaves a running orphan |
| Interleaving.StartCanUndoAnApply | supervisor/commands.go:171-203 | a run in which a start puts back the definition an apply replaced |
| Scheduler.SlotOf | supervisor/schedule.go:37-39 | a slot is a multiple of the interval, not after now and less than one interval old |
| Scheduler.SlotsFollowTheClock | supervisor/schedule.go:37-39 | slots do not go back when the clock does not |
| Scheduler.RunIdsAreDistinct | supervisor/schedule.go:28-32 | different slots of a schedule have different run ids |
| Scheduler.Scheduler.FireDue | supervisor/schedule.go:57-89 | one tick looks at every declared job and fires those whose slot is later than the last |
| Scheduler.NoSlotTwiceInOneLife | supervisor/schedule.go:57-89 | in one daemon's life no slot of a job is fired twice, whatever becomes of its schedule |
| Scheduler.NoSlotTwice | supervisor/schedule.go:57-89 | across ticks and restarts, with an unchanged interval and a clock that does not go back, fired slots strictly increase and each is the slot of its instant |
| Scheduler.FirstSightNeverFires | supervisor/schedule.go:70-80 | the first sight of a job in a daemon's life fires nothing |
| Scheduler.EverySlotSeenIsFired | supervisor/schedule.go:57-89 | a job always declared is fired for exactly the slots seen but the first |
| Scheduler.SlotsRiseWhileFirstSightsFollow | supervisor/schedule.go:57-89 | whatever the clock and the schedules do, while each first sight is of a slot no lower than any fired, no slot is fired twice |
| Scheduler.FiredAgainExactlyWhen | supervisor/schedule.go:57-89 | after a first sight, the rest of the life can fire a past slot again exactly when it is above the slot first seen and some schedule has it in force |
| Scheduler.EditAcrossRestartFiresAgain | supervisor/schedule.go:57-89 | a run within a minute of June 2025 in which an interval edited across a restart fires one slot twice |
| RunLife.NextIsExact | supervisor/schedule.go:248-418 | a step loses a run that began exactly when it takes its unrecorded container, kills it exactly when it takes it running, and misreports it exactly when a failed wait or an inspection records it while it is not over |
| RunLife.LossIsExactly | supervisor/schedule.go:248-418 | over any run, what is lost, killed or reported too early is exactly what an unrecorded removal, a removal while going, or a failed wait or premature inspection touched |
| RunLife.NoRunIsLost | supervisor/schedule.go:248-344 | with distinct start instants and fair rounds, no run is removed while it is going, and none before a finished record written once it was over |
| RunLife.ListMisleadsExactlyWhen | supervisor/schedule.go:307-344 | a list can lead to a false finished record exactly when it holds a container that was never launched |
| RunLife.ListKillsExactlyWhen | supervisor/schedule.go:307-418 | a list can lead to the end of a going run exactly when it holds a container between its create and its launch |
| RunLife.ListOvertakesALaunch | supervisor/schedule.go:375-418 | a run with one start and every call answered in which that happens |
| RunLife.SecondStartTakesALiveRun | supervisor/schedule.go:375-418 | a run in which a second start of the same instant takes a live, unrecorded run |
| RunLife.FailedWaitIsMistaken | supervisor/schedule.go:248-305 | a run in which a failed wait is put down as the end |
| RunLife.EveryListedRunIsWatched | supervisor/schedule.go:307-344 | while what waiters and rounds ask goes through, a round that has dealt with its list leaves every listed run with a waiter or gone |
| RunLife.UnansweredInspectionLosesARun | supervisor/schedule.go:334-343 | without the answer a run's container goes unrecorded |
| JobRuns.Jobs.CreateRun | supervisor/schedule.go:375-418 | builds and starts one run; a failure leaves no more going than before |
| JobRuns.Jobs.StartRun | supervisor/schedule.go:142-180 | with one caller at a time no more runs go than the declaration allows, and a refusal changes nothing |
| RunDeadlines.EveryDaemonKeepsTheDeadline | supervisor/schedule.go:259-344 | over any run of starts, rounds, ends and replaced daemons under an unchanged limit, a timer stands at the launch plus the limit exactly when its waiter was told of the launch, or was spawned at it, and the timer was set by then |
| RunDeadlines.AnEditMovesTheDeadline | supervisor/schedule.go:206-217 | under any declarations, a timer set in time stands there exactly when its waiter was told and that limit was then declared, or the two errors cancel |
| RunDeadlines.NoneIsStoppedEarly | supervisor/schedule.go:219-244 | whatever is answered or edited, no run is stopped for time before it has gone on for the limit declared when the timer was set |
| RunDeadlines.HungRunOutlivesDaemons | supervisor/schedule.go:324-333 | for any number of daemons, a run in which none of them is told of the launch and none stops it |
| RunDeadlines.LifeIsARun | supervisor/schedule.go:248-344 | with a clock and timers, what becomes of the runs is a run of the life modelled without them |
| RunDeadlines.DeadlineIsKeptExactlyWhen | supervisor/schedule.go:198-217 | of one timer set in time: it keeps a deadline exactly when its waiter was told and the limit is that one, or the two errors cancel |
| RunDeadlines.AnswerKeepsTheDeadline | supervisor/schedule.go:189-204 | of one timer under an unchanged limit: exactly when the inspection was answered and the instant has not passed; otherwise by how much it is off |
| Timetable.StartsAreDistinctExactlyWhen | supervisor/schedule.go:26-118 | with a forward clock and unchanged schedules, no two starts have one name exactly when hands kept off the milliseconds other starts are named for |
| Timetable.WhatIsFiredIsNotLost | supervisor/schedule.go:57-89 | what such a scheduler fires is not lost in a fair run |
| Dispatch.RunsAreOutdatedExactlyWhen | supervisor/schedule.go:57-119 | in every interleaving with the supervisor, a run is built from an outdated declaration exactly when its job was last declared otherwise between reading and building, and for an undeclared job exactly when it was last taken away |
| Dispatch.JobsDisturbNothing | supervisor/schedule.go:57-89 | with any runs built in between, the supervisor's part is a run of its own |
| Dispatch.RemovedJobRuns | supervisor/schedule.go:61-88 | a run built for a job removed after it was read |
| LogStore.RunPartitions | logs/store.go:215-314 | in every interleaving each number drawn is in exactly one of flight, queue, batch, written and dropped, and the two counters are the sizes of the last two |
| LogStore.RunConserves | logs/store.go:215-314 | as many numbers were drawn as records are in flight, queued, batched, written and dropped |
| LogStore.FlushedMeansSettled | logs/store.go:361-368 | when a flush is answered, every record whose append had returned before the call is written or counted as dropped |
| LogStore.NumbersAreNeverTaken | logs/store.go:151-219 | what a batch inserts has numbers nothing stored has, each once |
| LogLives.NumbersComeBackExactlyWhen | logs/store.go:151-160 | over any lives of the store no number is given out twice exactly when each life that gives any out began with the last one still stored |
| LogLives.KilledBeforeTheWrite | logs/store.go:151-160 | two lives that give out one number |
| Logs.Store.Append | logs/store.go:215-240 | a record is announced to every watch and queued, or counted as dropped when the queue is full |
| Logs.Store.Offer | logs/store.go:224-231 | the loop over the watches offers the record to each of them once and never waits |
| Logs.Store.Drain | logs/store.go:274-284 | empties the queue into the batch in order |
| Logs.Store.WriteBatch | logs/store.go:316-357 | all of the batch or none; with fresh numbers only an outside failure fails it |
| Logs.Store.Flush | logs/store.go:302-314 | takes the step of the state machine: written, or counted |
| Logs.Store.ServeFlush | logs/store.go:272-287 | drains before it writes, so that what had returned is settled |
| Logs.Store.ReportDropped | logs/store.go:508-518 | a loss becomes a record of its own, once |
| Logs.NthNewest | logs/store.go:533-536 | the row with that many newer ones, if there is one |
| Logs.Store.Sweep | logs/store.go:521-540 | leaves the rows young enough and among the newest `maxRows` of those |
| Logs.Store.Watch | logs/store.go:484-501 | a watch begins at the end of the history with room for at least one record |
| Follower.Where | logs/store.go:373-396 | the conditions a search builds select what the follower's rule lets through |
| Follower.Select | logs/store.go:417-446 | the newest matching rows, newest first |
| Follower.Search | logs/store.go:370-450 | the newest `limit` matching rows, oldest first; nothing that matches is left out but what is older than a full answer |
| Follower.AnswerIsUnique | logs/store.go:370-450 | a table, a query and a limit leave one answer |
| Ordering.ReverseInPlace | logs/store.go:446-448 | two indices swapping towards each other turn an array round |
| Follower.ForwardedRises | api/server.go:1136-1159 | whatever order the stream came in, what is forwarded rises and is newer than the backlog |
| Follower.ForwardedWhen | api/server.go:1136-1159 | a record is forwarded exactly when it matches, is new, and no higher number came before it |
| Follower.InOrderNothingIsLost | api/server.go:1136-1159 | of a stream in order, exactly what matches and is new is forwarded |
| Follower.SendLive | api/server.go:1136-1159 | the loop sends that, or a prefix of it when a send fails |
| Follower.Follow | api/server.go:1117-1160 | backlog, then live stream, each line once |
| Follower.SessionRises | api/server.go:1117-1160 | backlog and stream together have strictly increasing numbers |
| Hearing.HeardUnlessOvertaken | api/server.go:1117-1160 | in every interleaving, exactly which records since the watch began a follower is sent |
| Hearing.FollowerHearsEverything | logs/store.go:215-238 | with serial appends and no overflow it is sent every matching record since the watch began that exceeds the backlog's last |
| Hearing.NothingElseFallsBetween | api/server.go:1119-1135 | between backlog and stream only a record announced before the watch and not returned before the flush can be missed |
| Hearing.RecordInTheGap | api/server.go:1119-1135 | a run in which one is |
| Hearing.OvertakenIsLost | logs/store.go:215-238 | a run in which an overtaken record is not forwarded |
| MetricTable.SumSplits | metrics/store.go:174-180 | an average may be taken in any order |
| MetricTable.FoldedRowIsWitnessed | metrics/store.go:174-180 | a folded row lies between samples of its minute |
| MetricTable.FoldKeeps | metrics/store.go:174-180 | a fold keeps every sample represented and leaves a minute row for all it folded |
| MetricTable.RunKeepsEverySample | metrics/store.go:102-210 | over any run of appends, late ones included, and sweeps below the row limit, every sample not past the expiry has its own row or its minute's |
| MetricTable.CapOverflows | metrics/store.go:195-203 | the row limit leaves more than the limit exactly when it finds more |
| MetricTable.MinuteForgetsItsStart | metrics/store.go:163-188 | two folds across one minute replace its row by the average of the rest |
| MetricMinutes.BoundarySplitsNoMinute | metrics/store.go:163-172 | a boundary splits no minute exactly when it is a multiple of a minute or not after the epoch |
| MetricMinutes.FoldIsTheAverageExactlyWhen | metrics/store.go:163-188 | over all tables a fold writes averages of whole minutes exactly under such a boundary |
| MetricMinutes.EveryMinuteRowIsTheAverage | metrics/store.go:102-210 | over runs with such boundaries, below the limit and with no sample for a folded minute, every minute row is the average of its minute's samples |
| MetricStore.FoldGroups | metrics/store.go:174-180 | computes the averages group by group |
| MetricStore.NthNewest | metrics/store.go:197-200 | the bound of the row limit |
| MetricStore.Store.Sweep | metrics/store.go:166-210 | the table after each statement, and that below the limit only what expired may be gone |
| MetricStore.Store.Maintain | metrics/store.go:155-161 | sweeps at most once a minute of the samples' time |
| MetricStore.Store.Append | metrics/store.go:102-153 | all samples or none, the last of an instant standing, then the maintenance at the latest instant |
| MetricQuery.SelectRows | metrics/store.go:285-333 | the newest rows the window selects, up to the limit |
| MetricQuery.GroupRows | metrics/store.go:336-354 | rows become series, found by name |
| MetricQuery.Read | metrics/store.go:285-373 | each series once, in order of names, its points oldest first |
| MetricQuery.SeriesRise | metrics/store.go:248-255 | each series rises strictly, across the stitch too, and shows exactly the chosen rows |
| MetricQuery.FullWindowShowsEverything | metrics/store.go:248-255 | a full window not before the last sweep shows every row but full detail older than six hours |
| MetricQuery.AfterASweepNothingIsLeftOut | metrics/store.go:166-188 | right after a sweep it shows every row |
| Wire.DecimalRoundTrip | api/protocol.go:204-237 | a length written is the length read |
| Wire.LineIsWhole | api/protocol.go:165-180 | however long a line and wherever the buffer ends in it, it is read whole up to its newline or refused as too long |
| Wire.ReadLimitedLine | api/protocol.go:165-180 | the pieces put together, never more than the ceiling |
| Framing.WriteChunks | api/protocol.go:199-221 | what is written are the frames of the reads and the end marker, or a prefix of that |
| Framing.ReadChunks | api/protocol.go:225-256 | passes on what the frames say and stops right after the marker; a failing sink stops it short |
| Framing.RoundTrip | api/protocol.go:188-256 | for any splitting and any trailing bytes the payload comes back and exactly the trailing bytes are left |
| Framing.TooMuchIsRefused | api/protocol.go:247-250 | a payload past the ceiling is refused wherever its pieces fall, and exactly the rest from the piece that went past it stays unread |
| Framing.CeilingHolds | api/protocol.go:225-256 | on any input no more than the ceiling is written, and a success counts the bytes written |
| Framing.CutNeverPassesForWhole | api/protocol.go:225-256 | an upload cut off anywhere, or whose source failed, is never taken for whole |
| ServerLoop.WriteMessage | api/protocol.go:143-154 | one line, or nothing when a line break is inside |
| ServerLoop.OneMessageATurn | api/server.go:682-751 | whatever follows, a message is one turn and the next begins right after it exactly when its upload is under the ceiling; past it, the next begins inside the upload |
| ServerLoop.EveryMessageIsOneRequest | api/server.go:682-751 | a connection that sends messages asks for exactly those |
| ServerLoop.LoadImage | api/server.go:204-240 | refused or taken, an upload is read to its end unless the runtime stops taking it |
| ServerLoop.PutFile | api/files.go:256-310 | a file is whole under its name or untouched; the upload is read to its end unless the file cannot be written |
| ServerLoop.Handle | api/server.go:682-751 | while no sink fails, the requests handled are those asked for, in order |
| Artifacts.HashArtifacts | service/tree.go:172-201 | the digest of the files of a directory, none for none |
| Artifacts.StreamTells | service/tree.go:190-199 | the stream determines names, order and contents |
| Artifacts.DigestTellsFiles | service/tree.go:169-201 | with a hash that tells streams apart, digests agree exactly when the files do |
| Artifacts.LineBreakHidesAChange | service/tree.go:192-198 | a line break in a name makes one file read as two |
| Artifacts.PlainNames | api/declaration.go:148-154 | which names pass for file names, both ways |
| Artifacts.Place.WriteAll | api/declaration.go:109-128 | the files sent replace or join what is there, each whole |
| Artifacts.Place.RemoveStale | api/declaration.go:129-143 | what was not sent goes, unless it is a directory with something in it |
| Artifacts.Place.WriteDeclaration | api/declaration.go:89-145 | success leaves exactly what was sent; with a working disk it succeeds exactly when the names, contents and directories allow |
| ImagePrune.MarkNamesItsRepository | api/server.go:281-323 | wherever the mark a push wrote stands among the tags, the image counts for the pushed repository exactly when its first mark is of that repository |
| ImagePrune.ManagedTagIn | api/server.go:314-323 | the first mark among the tags |
| ImagePrune.HeldBy | api/server.go:447-459 | an image is held by its digest or any of its tags |
| ImagePrune.NamedRepositories | api/server.go:542-558 | exactly the repositories a declaration or a held image names |
| ImagePrune.PruneLine | api/server.go:502-533 | of one line, newest first, those beyond the floor that nothing holds |
| ImagePrune.ImagesToPrune | api/server.go:491-535 | what goes, in order, and how many marked images stay: together all of them |
| ImagePrune.PruneIsUnique | api/server.go:491-535 | the answer does not depend on the order of the listing |
| ImagePrune.NewestStay | api/server.go:517-525 | a named repository keeps at least `keep` versions, or all it has |
| ImagePrune.OldestGoFirst | api/server.go:505-525 | nothing removed is newer than anything that stays unheld |
| ImagePrune.UnnamedKeepNothing | api/server.go:511-520 | a repository nothing names keeps no version |
| ImagePrune.PruneSettles | api/server.go:485-535 | run again on the survivors, a prune removes nothing |
| ImagePrune.PruneImages | api/server.go:609-669 | what is removed is what was planned, and nothing without permission |
| Audit.Store.Check | state/state.go:176-186 | zero claims nothing; anything else must be the current generation |
| Audit.Store.Record | state/state.go:194-227 | one entry more on the chain; only a success that changed something moves the counter |
| Audit.Store.Recent | state/state.go:293-302 | the newest entries, up to a thousand |
| Audit.GenerationCounts | state/state.go:188-200 | the counter is the number of changing entries |
| Audit.ClaimHoldsIffNothingChanged | state/state.go:174-186 | a claimed generation passes exactly when nothing changed since it was seen |
| Audit.EntryTellsOfARace | state/state.go:194-200 | an entry begins at the checked generation exactly when nobody changed anything in between |
| Audit.TwoCanPass | api/server.go:904-930 | two callers can pass one check and both change the host |
| Plan.LiveIsLast | supervisor/plan.go:45-52 | a service reads as running exactly when the last listed entry of its name runs |
| Gate.ListingsTellExactlyWhen | supervisor/plan.go:45-52 | every listing tells whether a service runs exactly when the runs of its name are in the same state as the service |
| Gate.BlindPlanAsksNothing | supervisor/plan.go:45-66 | without a listing no permission is asked for |
| Gate.RunHidesItsService | supervisor/plan.go:48-52 | a run listed last hides that its service runs |
| Gate.Server.Apply | api/server.go:1068-1115 | a refusal changes nothing and is recorded; permission is asked for exactly when a listed last entry of what would go runs; otherwise all of it is stopped but what would not stop, and without permission a running service goes only where no answer came or a run differs from it |
| Gate.Server.Mutate | api/server.go:904-950 | check, a start, stop, restart or redeploy, record: the counter moves with each accepted restart and redeploy and with a start or stop exactly when the machine changed; what a refusal and a failure leave |
| Gate.Server.RemoveService | api/declaration.go:204-262 | the declaration and the container go, whatever generation was claimed; without an entry where the files stay behind |

## Left out

- Text match: `Search` asks a phrase index and `Matches` a substring, which are not the same rule; the match is empty throughout.
- SQL, SQLite and FTS5: tables are maps, a transaction commits whole or not at all, and the queries are written out as selections.
- The Docker client, ssh, sockets, deadlines and peer credentials; a connection is the bytes it will bring, and ends instead of timing out.
- The Filo language, SHA-256 and base64 (section 4 of RFC 4648): parameters.
- A runtime call that fails after it took effect: here a failed call changed nothing.
- 64-bit wrap-around of sequence numbers and generations; negative instants before 1970.
- Times finer than a millisecond in the log and the metrics.
- MetricQuery.Read: does not model the millisecond on the wire as a floating-point number.
- Supervisor.Supervisor.Observe: does not model the readers of container output nor the adoption of runs, which is modelled in `RunLife`; the round of the class leaves runs alone.
- Follower.Follow: does not model a search that fails, which answers with an error and ends the session.
- JobRuns.Jobs.StartRun: does not model two callers at once, because `RunNow` and the schedule share no lock around the check and the create.
- Backup runs, which carry the run label and register no waiter.
- Texts: event messages, details of entries, problem reports and what `reportOnce` remembers.
- Reading what containers print (`follow` in the container file), spools and log resume.
- Audit.Store.Record: does not model the writing of the audit file and the snapshot, which happen outside the lock.
- Reading a tree of services on the client side, limits on its size, and parsing declarations.
- The tick ring and its percentiles, host and disk sampling, `Latest`, backups, pulls, the panel and the command line.
- RunDeadlines.EveryDaemonKeepsTheDeadline: does not model a clock that goes back, nor a runtime that stops a run some time after it was asked to.
- Container names: containers are keyed by service and run instead of by the joined name.
