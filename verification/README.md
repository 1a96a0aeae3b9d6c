# A verified model of the process and job supervisor

This project models the crash-safe protocols and in-memory state machines of the supervisor and proves what they are
for. `dafny verify dfyconfig.toml` checks all of it. Five groups are modelled.

**Durable sagas.** `ConfigApply` is the staged journal of a configuration apply over four stores (definitions,
schedule, unit files, running processes): every effect is an atomic operation, an attempt, a forward recovery and a
compensation are sequences of operations, and `budget` says after how many of them something fails or the daemon dies.
`ConfigPhases` computes what each phase does to a world, `ConfigRecovery` holds the invariant before the point of no
return, `ConfigForward` the one behind it, `ConfigAttempts` follows one attempt or one recovery stopped anywhere,
`ConfigLife` joins them over whole lives of crashes, error handlers and recoveries, `ConfigUnits` says which
definitions the live units of a settled apply run, `ConfigProcesses` which processes run and which are never
interrupted, and `ConfigSaga` is the object that carries the operations out step by step. `ConfigPlan` is the planner
in front of it. `JobDeletion` and `JobDeletionRun` do the same for job deletion; there every effect consumes one
fault, so that a failure and a death are told apart at every step.

**The log journal.** `LogFiles` has the files, the manifest and the plan of file operations of every journal
operation. `LogInvariant` relates them to one plain append-only log, `LogRetention` says which segments the policy
condemns and that retention gives up exactly those, `LogRecovery` and `LogHistory` prove crash safety over whole
histories, `LogRollover` when a segment is sealed, `LogReads` the reads, and `LogJournal` is the journal object that
dies when its budget of file operations runs out. `LogFollow` is the follow protocol above it, with producer,
retention, server and client interleaved.

**The run registry.** `RunRegistry` has the tables and their invariant over all events with admission in one step,
`RunRaces` what remains when an admission registers later than it checked, `RunAdmission` what admission, overlap
policies and tombstones are for, `ActiveRuns` the object.

**Restarts.** `RollingRestart` is the rolling replacement, `RestartFencing` the automatic restart with tokens, pending
names, the process lock and guard generations, as a state machine over single steps of every restart task.

**Algorithmic cores.** `DependencyCycles`, `Downsampling`, `Alerts` (episodes and leased deliveries),
`AlertEvaluation` (one pass of rules over samples), `Pagination`, `PageKeys`, `EventDeduper`.

`Crashes` is the shared notion of an operation cut short; `Names` orders and sorts by name; `Options` and
`Definitions` hold data types.

## What does not hold, and exactly when it does

Each of these is a theorem: a concrete run, the exact condition under which the promise is kept, or both.

- A rollover cut after the new empty active file exists and before the manifest is written makes a later rollover
  overwrite a sealed segment (`LogHistory.WindowLosesALine`). A completed restart restores the invariant exactly when
  the crash missed that instant (`LogHistory.RestartIsExactOutsideWindow`).
- With nothing retained an expired cursor is not reported (`LogReads.ExpiryGoesUnnoticed`); a journal without a
  directory never reports one (`LogReads.RingReadsAreBlind`).
- A follow skips lines after an expiry it reconnects behind or is served a snapshot behind; from then on its output is
  unbroken exactly as long as it prints nothing (`LogFollow.ExpiryLeavesAGap`, `LogFollow.ExpiredSnapshotLeavesAGap`).
  The tail of a failed snapshot read is served as an empty page; that is harmless exactly if the connection ends
  before it delivers a line (`LogFollow.FailedSnapshotIsHarmlessIff`, `LogFollow.FailedSnapshotLeavesAGap`).
- A configuration apply replaces the file of a registered unit and starts only units that start by themselves. A live
  unit that the target redefines without starting it keeps its former definition, and that is the only way a settled
  apply can have a live unit off target (`ConfigUnits.SettledTargetIsLiveIff`, with a failure-free run in
  `ConfigUnits.StaleUnitStaysLive`). "The target world" of `ConfigLife.ConfigApplyConverges` includes such a unit.
- Compensation restores the starting world exactly when no crash cut off a running detached process; otherwise a
  second copy is started and the first is no longer recorded (`ConfigLife.RollbackIsExactIff`,
  `ConfigLife.CrashDuplicatesADetachedProcess`).
- The loader draws a trigger identifier for every load, and the planner keeps existing job identifiers but not
  existing trigger identifiers. Planning the same definitions again is stable exactly when the loaded trigger
  identifiers are left out or are the planned ones (`ConfigPlan.ReplanningIsStableIff`).
- `DELETE` on a journal that must roll back succeeds without deleting; success means removal exactly for the stages in
  `JobDeletion.FaultlessResumeSucceeds`. A removal finished after the boundary keeps a trigger that start-up armed
  again (`JobDeletion.TriggerOfRemovedJob`, `JobDeletion.StartUpLeavesAStaleTrigger`).
- A run that a deletion's drain cancels does not get its end recorded: its row still says running until the rows are
  removed (`JobDeletion.DrainLeavesARowRunning`). No row is open then exactly if each open one was queued before the
  boundary or its run was already writing its end (`JobDeletion.NoRowIsOpenIff`).
- A deletion that fails between the cancellation boundary and its drain leaves the cancelled runs in the queue. One
  that is then handed a slot runs, and its row says so (`JobDeletion.CancelledRunStarts`); nothing else reopens an
  ended row (`JobDeletion.EndedStaysIff`).
- The registry counts, registers and queues under separate locks. A late registration keeps the registry valid exactly
  if it starts its run or an active run is left to hand its slot on (`RunRaces.LateAdmissionIsValidIff`). A drained
  job keeps only its former active runs exactly as long as nothing registers one (`RunRaces.DrainHoldsIff`); the
  freeze of a deletion leaves only admissions that checked before it (`RunRaces.FrozenRegistersIff`), and the drain of
  a configuration apply, which does not freeze, leaves every dispatch until the job's definition is gone. A late
  registration also starts a second run of a job that skips or queues, exactly if the slot has been taken since it was
  counted (`RunAdmission.LateAdmissionKeepsOneSlotIff`).
- A cancellation by name misses a restart whose timer has fired and which has not yet passed its check under the lock,
  unless another restart is pending for the instance (`RestartFencing.CancelStopsRestartIff`). A restart bumped while
  it spawns leaves its child running exactly if the force-stop that follows does not happen
  (`RestartFencing.BumpedChildSurvivesIff`).
- A page limit of zero yields an empty page that claims to be the last (`Pagination.ZeroLimitReturnsNothing`), and
  following pages need not end under unbounded inserts (`Pagination.FollowNeedNotTerminate`).
- Page keys accept texts that no encoding produces, and a text with a pair that ends inside a character panics;
  `PageKeys.DecodingIsExact` says what every text does, `PageKeys.IsEncodedIff` which texts are encodings.
- Maintenance loses late samples, exactly those whose minute already has its aggregate
  (`Downsampling.LosesIffConflict`).
- An acknowledgement that lands after a resolution breaks the match of keys and episodes
  (`Alerts.LateAcknowledgementIff`, `Alerts.LateAcknowledgementDuplicates`).
- Evaluation looks at the oldest 500 episodes, resolved ones included: an alert whose cause is over is resolved
  exactly if fewer than 500 are listed before it (`AlertEvaluation.PassIsExact`), and otherwise stays open through
  every later pass until retention removes some of those (`AlertEvaluation.StarvedForever`).
- The finish of a delivery does not ask who holds the lease. A late finish frees the candidate under its present
  holder or deletes it; `Alerts.ClaimableIff` says exactly when a claim can succeed early,
  `Alerts.LateFinishFreesTheHolder` is the shortest such run. Attempt numbers are taken modulo 256
  (`Alerts.AttemptsWrapAround`).

## Model

| member | source | states |
|---|---|---|
| LogRetention.RetentionMeetsPolicy | crates/infra/logging/src/lib.rs:776-809 | Every segment retention drops was too old, one too many or in a journal too large when its turn came; it stops exactly when nothing sealed is left or all three limits hold. |
| LogRetention.CondemnedIsUnique | crates/infra/logging/src/lib.rs:776-809 | The policy alone determines how many segments go: no two different counts are each condemned in turn up to a segment that is not. |
| LogRetention.RetentionDropsCondemned | crates/infra/logging/src/lib.rs:776-809 | Retention gives up exactly the segments the policy condemns, with three file operations for each. |
| LogRetention.RetentionKeepsNumbers | crates/infra/logging/src/lib.rs:776-809 | Retention only drops oldest segments: what is left is a suffix, and no sequence number of the manifest changes. |
| LogRetention.RetentionIsCrashSafe | crates/infra/logging/src/lib.rs:776-809 | Stopped after any file operation, retention leaves recoverable files in which the lines lost are exactly those of the condemned segments whose tombstone is durable; run through, the manifest describes the files exactly. |
| LogRetention.CommitIsCrashSafe | crates/infra/logging/src/lib.rs:770-773 | Retention when owned, then the manifest write: crash safe at every point, losing exactly what retention condemned and nothing in an open run; running invariant at the end. |
| LogRecovery.RolloverIsCrashSafe | crates/infra/logging/src/lib.rs:718-774 | A rollover cut anywhere keeps every line that its retention pass does not condemn; the delicate window is open after exactly three of its file operations and at no other point. |
| LogRecovery.AppendIsCrashSafe | crates/infra/logging/src/lib.rs:291-332 | An append, with the rollover it may start, either adds its line under the next number or leaves the log as it was, wherever it stops; lines go only with segments condemned by that rollover. |
| LogRecovery.SealIsCrashSafe | crates/infra/logging/src/lib.rs:368-391 | A seal cut anywhere leaves recoverable files outside the window, run through a running journal; lines go only with segments its retention pass condemned. |
| LogRecovery.RemovalIsCrashSafe | crates/infra/logging/src/lib.rs:638-641 | Deleting tombstoned files one by one, interrupted anywhere, loses nothing retained and leaves exactly the other files. |
| LogRecovery.SurvivorFacts | crates/infra/logging/src/lib.rs:634-710 | Without the tombstoned files the directory holds the listed segments and at most one more, which continues them up to the active segment. |
| LogRecovery.RepairIsExact | crates/infra/logging/src/lib.rs:634-710 | Restart repair rebuilds, from any crash state and any directory order, the manifest that describes the files exactly, unless the crash hit the window. |
| LogRecovery.InitializeIsCrashSafe | crates/infra/logging/src/lib.rs:248-289 | A restart, itself interrupted anywhere, loses exactly the lines of segments condemned by its own retention pass as far as their tombstones were written, never revives a tombstoned segment and, run through, gives the running invariant. |
| LogInvariant.WindowIsMisplacedStart | crates/infra/logging/src/lib.rs:700-707 | In any crash state the window is exactly an empty active file whose recorded start is not one past the log. |
| LogHistory.NewJournalIsConsistent | crates/infra/logging/src/lib.rs:248-289 | An empty directory is a journal of no lines. |
| LogHistory.HistoryAgreesWithLog | crates/infra/logging/src/lib.rs:248-391 | Every history of appends, seals, crashes and restarts outside the window agrees with one append-only log that only grows, each append taking the next number, of which exactly the lines given up by its retention passes are missing. |
| LogHistory.OnlyCondemnedExpire | crates/infra/logging/src/lib.rs:776-809 | A step gives up exactly the oldest sealed segments that exceed the policy in turn, as far as their tombstones were written, and nothing when its run is not sealed. |
| LogHistory.OpenRunKeepsEverything | crates/infra/logging/src/lib.rs:770-773 | Until it is sealed a run loses no line, whatever the policy, the crashes and the restarts. |
| LogHistory.RestartIsExactOutsideWindow | crates/infra/logging/src/lib.rs:700-707 | A completed restart restores the running invariant if and only if the crash missed the window. |
| LogHistory.WindowLosesALine | crates/infra/logging/src/lib.rs:759-773 | A concrete history through the window after which an acknowledged line is in no file. |
| LogHistory.HitsWindowIff | crates/infra/logging/src/lib.rs:718-774 | A step leaves the window open on disk if and only if it is an append stopped at that one instant of its rollover. |
| LogHistory.SealTakesEffect | crates/infra/logging/src/lib.rs:368-391 | A completed seal is durable. |
| LogHistory.SealedForever | crates/infra/logging/src/lib.rs:291-300 | After a seal no history, with any crashes and restarts, appends another line. |
| LogRollover.RollsOverIff | crates/infra/logging/src/lib.rs:712-716 | The manifest's decision to roll over agrees with the lines on disk: the active segment has a line, and is full or old. |
| LogRollover.AppendsInPlace | crates/infra/logging/src/lib.rs:291-332 | A segment that has no line, or is neither full nor old, takes the new line by one file operation; nothing sealed changes. |
| LogRollover.AppendRollsOver | crates/infra/logging/src/lib.rs:718-774 | Otherwise its lines become a sealed segment, the new line is alone in the active file, and only oldest segments go. |
| LogRollover.SealedWasFullOrOld | crates/infra/logging/src/lib.rs:712-774 | In every history a segment file appears only by an append, and only for an active segment that was full or old. |
| LogRollover.RepairedAges | crates/infra/logging/src/lib.rs:634-710 | A repair after a crash keeps every recorded age, and takes the first line's time for an active file without a manifest. |
| LogJournal.Journal.EnforceRetention | crates/infra/logging/src/lib.rs:776-809 | The loop over the oldest segment leaves the files of the retention plan stopped after the budget, and that plan's manifest if it got through. |
| LogJournal.Journal.Rollover | crates/infra/logging/src/lib.rs:718-774 | Leaves the files of the rollover plan stopped after the budget, and its manifest if it got through. |
| LogJournal.Journal.RemoveTombstoned | crates/infra/logging/src/lib.rs:638-641 | The loop deletes exactly the tombstoned files, or those the budget allows, in order. |
| LogJournal.Journal.AdoptUnlisted | crates/infra/logging/src/lib.rs:658-696 | The scan loop adopts exactly the unlisted non-empty segment files, in directory order. |
| LogJournal.Journal.RepairManifest | crates/infra/logging/src/lib.rs:634-710 | Deletes tombstoned files, then yields the repaired manifest proved exact in `RepairIsExact`. |
| LogJournal.Journal.Initialize | crates/infra/logging/src/lib.rs:248-289 | Is one restart step of a journal's life; it succeeds exactly when the journal ends up running, and then loads the newest lines. |
| LogJournal.Journal.AppendTo | crates/infra/logging/src/lib.rs:291-332 | Is one append step of a journal's life: refuses exactly when sealed, and publishes to the ring only a line that was written. |
| LogJournal.Journal.SealRunTo | crates/infra/logging/src/lib.rs:368-391 | Is one seal step of a journal's life. |
| LogReads.SnapshotDurable | crates/infra/logging/src/lib.rs:819-850 | The loop that skips whole segments returns the snapshot of the segments it loads. |
| LogReads.ReadsRefineLog | crates/infra/logging/src/lib.rs:819-883 | A durable read of a running journal equals the same filter over every retained line: skipping segments loses nothing. |
| LogReads.FilteredIsExact | crates/infra/logging/src/lib.rs:862-867 | A filter keeps, each once and in order, exactly the lines that are not older than `since` if one is given and numbered above the cursor if one is given. |
| LogReads.PlainReadIsExact | crates/infra/logging/src/lib.rs:819-883 | A read without filters is the newest `limit` retained lines of the log, or all of them for a limit of zero; truncation, watermark and earliest number are exact. |
| LogReads.FilteredReadIsExact | crates/infra/logging/src/lib.rs:819-883 | A read with `since`, a cursor or both is the newest `limit` of exactly the wanted retained lines, truncated exactly when there are more. |
| LogReads.CursorPageIsExact | crates/infra/logging/src/lib.rs:852-883 | A cursor read is everything after the cursor exactly when nothing after it has expired; truncation and the expiry flag are set exactly when lines are missing, as long as something is retained. |
| LogReads.EarliestIsFirstRetained | crates/infra/logging/src/lib.rs:89-97 | The earliest retained number is the first one not expired, or none when nothing is retained. |
| LogReads.ExpiryGoesUnnoticed | crates/infra/logging/src/lib.rs:89-97 | With nothing retained, lines after the cursor are gone and no flag says so. |
| LogReads.RingHoldsTheNewest | crates/infra/logging/src/lib.rs:140-145 | After any appends the ring holds, in order, exactly the newest of the lines it was loaded with - after a restart those of the active file - and of the appended ones. |
| LogReads.RingReadsAreBlind | crates/infra/logging/src/lib.rs:356-363 | A read from the ring alone is complete if and only if the cursor is within the ring, and never reports expiry. |
| LogFollow.PagesAreCursorReads | crates/infra/http/src/ws.rs:54-62 | The pages of the protocol are the journal's unbounded cursor reads, numbers, watermark and expiry flag included. |
| LogFollow.FirstPageIsARead | crates/cli/src/main.rs:1063-1110 | What the follower prints first is the journal's plain read of the last lines. |
| LogFollow.PrintedStrictlyIncreases | crates/cli/src/main.rs:1055-1209 | Whatever is lost, late, repeated or reconnected, printed numbers strictly increase. |
| LogFollow.FollowIsExactlyOnce | crates/infra/http/src/ws.rs:144-195 | In every interleaving of producer, retention, server and client in which no page skips lines, the lines printed after the first page are an unbroken run, each once and in order. |
| LogFollow.FollowFromTheStart | crates/cli/src/main.rs:1055-1209 | The same from the client's start: what follows the initial page is the unbroken run up to the last line printed. |
| LogFollow.StreamCatchesUp | crates/infra/http/src/ws.rs:144-195 | A connection that is left alone gets its client to the end: every line produced is printed, unless a dropped frame sends the client back to read a page. |
| LogFollow.LagSendsBack | crates/infra/http/src/ws.rs:175-181 | A connection that has lagged ends with its client back at reading a page, however many lines it missed. |
| LogFollow.SkippingIsExact | crates/cli/src/main.rs:1102-1137 | The pages excluded from the exactly-once theorem are exactly the steps that leave its invariant, but for a page that finds nothing retained. |
| LogFollow.DrainPrintsEverything | crates/cli/src/main.rs:1237-1254 | The final cursor drain prints everything produced by then. |
| LogFollow.ExpiryLeavesAGap | crates/cli/src/main.rs:1102-1137 | If lines the client has not read expire while it is disconnected, the printed run stays unbroken from then on exactly as long as nothing more is printed, in every continuation. |
| LogFollow.ExpiredSnapshotLeavesAGap | crates/infra/http/src/ws.rs:144-195 | The same, from every state, for a client that has subscribed and is served a snapshot starting above its cursor. |
| LogFollow.FailedSnapshotIsHarmlessIff | crates/infra/logging/src/lib.rs:352-355 | After a snapshot whose read fails, served as an empty page, a client with lines to catch up on is still consistent when that connection ends if and only if the connection has delivered nothing. |
| LogFollow.FailedSnapshotLeavesAGap | crates/infra/logging/src/lib.rs:352-355 | Once such a connection has delivered a line, the lines in between, which never expired, are missing in every later state. |
| LogFollow.Forwarder.ForwardLine | crates/infra/http/src/ws.rs:161-174 | Sends a broadcast line exactly when it is above the snapshot's watermark and above what was sent, as the protocol's receive step does. |
| LogFollow.Follower.ConsumeFollowText | crates/cli/src/main.rs:1258-1272 | Prints a line exactly when it is new and asks for recovery exactly on a dropped frame. |
| LogFollow.Follower.ConsumePage | crates/cli/src/main.rs:1247-1252 | Consumes a page line by line as the protocol does. |
| LogFollow.Follower.ConsumeInitialPage | crates/cli/src/main.rs:1111-1137 | Reading everything and skipping all but the last lines prints the same as reading that tail alone, and moves the cursor to the end. |
| ConfigPlan.SortedValues | crates/application/src/config_apply.rs:50-53 | The sorted list of a table has strictly increasing names and is the table again. |
| ConfigPlan.TargetSnapshot | crates/application/src/config_apply.rs:10-59 | Produces the planned target: the base of the mode overlaid with the loaded definitions, sorted, with kept job identifiers. |
| ConfigPlan.TargetNames | crates/application/src/config_apply.rs:10-59 | Names are unique; Merge keeps every current name beside the loaded ones, Replace has exactly the loaded ones. |
| ConfigPlan.JobIdsAreKept | crates/application/src/config_apply.rs:36-48 | A job that exists keeps its identifier whatever the loader gave it. |
| ConfigPlan.DiffPartitions | crates/application/src/config_apply.rs:61-124 | Added, updated, removed and unchanged partition all names, and the difference is empty exactly when the tables are equal. |
| ConfigPlan.ReplanningIsStableIff | crates/application/src/config_apply.rs:36-48 | Planning the same definitions on their own result changes nothing if and only if every loaded trigger identifier is left out or is the planned one. |
| ConfigPlan.ReplanningIsIdempotent | crates/application/src/config_apply.rs:10-86 | Planning one loaded configuration on its own result gives the same target and an empty difference. |
| ConfigPlan.RunningStaysDesired | crates/application/src/config_apply.rs:88-99 | A direct process must run exactly when it starts by itself or was running before. |
| ConfigRecovery.ReversiblePrefix | crates/application/src/facade.rs:3692-3712 | Whatever part of the effects before the point of no return is carried out, the previous definitions, unit files and processes can still be restored. |
| ConfigRecovery.BackwardDestroysNothing | crates/application/src/facade.rs:3941-3955 | As long as the stage leads back, no job has been drained, no live unit replaced and no previous unit file removed. |
| ConfigRecovery.CompensationPrefix | crates/application/src/facade.rs:4503-4559 | A compensation stopped anywhere can be compensated again and loses track of no further process. |
| ConfigRecovery.CompensationIsExact | crates/application/src/facade.rs:4503-4559 | A compensation run through restores the starting world in all four stores; only processes already lost in a crash remain beside it. |
| ConfigForward.TeardownPrefix | crates/application/src/facade.rs:3713-3726 | Any part of tearing down the old jobs, units and processes keeps what a forward recovery needs. |
| ConfigForward.TornDownIsReady | crates/application/src/facade.rs:3713-3726 | Once staged and torn down, exactly the target's schedule and unit files are there and nothing old runs. |
| ConfigForward.LaunchIsExact | crates/application/src/facade.rs:4386-4501 | Committing and launching from there ends in exactly the target world. A unit that was live and is not started there keeps the definition it runs; see `ConfigUnits.TargetIsLiveIff`. |
| ConfigAttempts.AttemptPrefix | crates/application/src/facade.rs:3692-3810 | Wherever the first attempt stops, it heads for the target if and only if it got past the point of no return, which the plan alone places; the world is then one that can be finished, and otherwise one that can be restored. |
| ConfigAttempts.DestroysIff | crates/application/src/facade.rs:3941-3990 | A forward direction is persisted before the old world is torn down if and only if some previous job is missing from the target, or some previous registered process is not in the target with the same definition. |
| ConfigAttempts.ForwardDrainsIff | crates/application/src/facade.rs:3856-3874 | A forward recovery drains exactly the jobs that the plan removes and that are still in the table. |
| ConfigAttempts.ForwardIsExact | crates/application/src/facade.rs:3856-3900 | A forward recovery run through, from any interrupted forward world, ends in exactly the target world. A unit that was live and is not started there keeps the definition it runs; see `ConfigUnits.TargetIsLiveIff`. |
| ConfigAttempts.ForwardPrefix | crates/application/src/facade.rs:3856-3900 | A forward recovery stopped anywhere can be recovered forward again. |
| ConfigLife.ConfigApplyConverges | crates/application/src/facade.rs:3692-3900 | For any stop of the attempt and any later sequence of crashes, error handlers and recoveries: a settled apply is exactly the target world if a forward stage had been persisted, and exactly the starting world, up to processes crashes cut off, if not; an unsettled one keeps its direction. The target world has live the started units and, unchanged, the kept ones; `ConfigUnits` says when those run the target. |
| ConfigLife.GoesForwardIff | crates/application/src/facade.rs:3692-3733 | Stopped before the stage of the staging, an attempt leads back; stopped behind the next stage write and before the direct processes are stopped, it leads forward if and only if the plan destroys something; behind that always. |
| ConfigLife.SettlesInTargetIff | crates/application/src/facade.rs:3692-3900 | A settled apply is the target world if and only if its attempt got that far, and otherwise the starting world up to cut-off processes, whatever happened since. |
| ConfigUnits.SettledTargetIsLiveIff | crates/application/src/facade.rs:4489-4501 | An apply that settles in the target, however often interrupted, has every live unit running its target definition if and only if no unit was live whose definition the target replaces without starting it. |
| ConfigUnits.TargetIsLiveIff | crates/platform/macos/src/launchd.rs:506-561 | The same of the target world itself: registration only writes the file, and starting is what replaces the live definition. |
| ConfigUnits.TargetIsLiveIffNothingStale | crates/application/src/facade.rs:4489-4501 | With any units live beforehand: the target is live if and only if every live unit it does not start already ran its definition. |
| ConfigUnits.RollbackKeepsLive | crates/application/src/facade.rs:4503-4559 | A settled rollback leaves every unit live as it was. |
| ConfigUnits.TargetUnitsAre | crates/application/src/facade.rs:4386-4501 | The unit files of the target world are those of the target and those of no process of the apply; live are the started units and those that were live and are not removed. |
| ConfigProcesses.TargetRuns | crates/application/src/facade.rs:4386-4438 | In the target world exactly those direct processes run that start by themselves or ran before, with the target definition. |
| ConfigProcesses.UnchangedRunsThroughout | crates/application/src/facade.rs:4330-4350 | A direct process that runs and that the target leaves as it is runs through the attempt and through every later error handler and recovery, as long as nothing kills the daemon. |
| ConfigLife.RecoverySettlesIff | crates/application/src/facade.rs:3819-3851 | In every reachable unsettled world a recovery settles the apply if and only if nothing cuts it short. |
| ConfigLife.DestructionCommitsToTarget | crates/application/src/facade.rs:3941-3990 | Once a job was drained, a live unit changed or a previous unit file removed, the journal heads for the target in every later world. |
| ConfigLife.RollbackIsExactIff | crates/application/src/facade.rs:4549-4553 | A settled rollback is exactly the starting world if and only if no crash cut off a running detached process. |
| ConfigLife.CrashDuplicatesADetachedProcess | crates/application/src/facade.rs:4549-4553 | A concrete crash after which compensation has started a second copy of a detached process. |
| ConfigSaga.Saga.ApplyConfigInner | crates/application/src/facade.rs:3692-3810 | The attempt, step by step, leaves the world of its operation sequence stopped after the budget, and reports exactly whether it finished. |
| ConfigSaga.Saga.StageSchedulerAndTargetRegistrar | crates/application/src/facade.rs:3916-3939 | The staging loops carry out the staging sequence. |
| ConfigSaga.Saga.RemoveObsoleteSystemRegisteredUnits | crates/application/src/facade.rs:3992-4005 | The loop removes exactly the obsolete units, in order. |
| ConfigSaga.Saga.StopChangedDirectProcesses | crates/application/src/facade.rs:4330-4350 | The loop stops exactly the direct processes the target changes, drops or no longer runs directly. |
| ConfigSaga.Saga.Launch | crates/application/src/facade.rs:4386-4501 | The loops start exactly what the target must run. |
| ConfigSaga.Saga.ForwardRecoverConfigApply | crates/application/src/facade.rs:3856-3900 | The forward recovery, step by step, leaves the world of its operation sequence stopped after the budget. |
| ConfigSaga.Saga.CompensateConfigApply | crates/application/src/facade.rs:4503-4559 | The compensation, step by step, leaves the world of its operation sequence stopped after the budget. |
| ConfigSaga.Saga.RecoverIncompleteConfigApply | crates/application/src/facade.rs:3819-3851 | Recovery at start-up is one recovery step of the apply's life: the persisted stage picks the direction. |
| ConfigSaga.Saga.ApplyFailed | crates/application/src/facade.rs:3760-3808 | The attempt's error path is one handling step of the apply's life. |
| JobDeletion.RollbackRestores | crates/application/src/facade.rs:4234-4243 | A rollback succeeds exactly when the definition is back, the schedule armed, dispatch thawed and the journal cleared; otherwise the journal is kept. |
| JobDeletion.UndoRestores | crates/application/src/facade.rs:4210-4232 | A failed crossing of the boundary undoes itself, schedule armed and dispatch thawed, or leaves a journal that only rolls back, and never reports success. |
| JobDeletion.IrreversibleRemoves | crates/application/src/facade.rs:4096-4207 | From every stage behind the boundary an attempt, stopped anywhere, only removes, and success means everything is gone. |
| JobDeletion.ForegroundCrossesOrKeeps | crates/application/src/facade.rs:4019-4095 | An attempt before the boundary either crosses it or keeps every row, run and log, and if it cleared the journal the schedule is armed and dispatch thawed. |
| JobDeletion.RecoveryRestores | crates/application/src/facade.rs:4007-4018 | A recovery before the boundary changes no row or log and succeeds exactly when the job is back, armed and thawed. |
| JobDeletion.AttemptOutcome | crates/application/src/facade.rs:4007-4207 | What one attempt may do, for every stage it finds, whoever runs it and whatever fails or dies. |
| JobDeletion.AttemptRows | crates/application/src/facade.rs:4007-4207 | In every life an attempt that keeps the rows at all ends nothing but the queued runs, all of them and only across the boundary, and runs whose end is still to be written, all of them once the drain is over. |
| JobDeletion.BoundaryEndsTheQueued | crates/application/src/facade.rs:4062-4094 | An attempt that stops at the cancellation boundary has ended exactly the rows of the formerly queued runs and left every other row as it was. |
| JobDeletion.NoRowIsOpenIff | crates/application/src/runner.rs:242-244 | When the drain is over no row is pending or running if and only if every row that was open belongs to a run queued before the boundary or to one whose end is still to be written. |
| JobDeletion.DrainLeavesARowRunning | crates/application/src/facade.rs:331-337 | A concrete run that the drain cancels and whose row still says running when the rows are about to go. |
| JobDeletion.EndedStaysIff | crates/application/src/facade.rs:4062-4094 | A single step opens an ended row again if and only if its run is still queued and is handed the slot of a run that finishes. |
| JobDeletion.CancelledStays | crates/application/src/facade.rs:4062-4094 | A cancelled run stays cancelled through every sequence of events in which it is handed no slot. |
| JobDeletion.CancelledRunStarts | crates/application/src/facade.rs:4095-4108 | A concrete deletion that fails between the boundary and its drain, after which a run it had cancelled is handed a slot and its row says running. |
| JobDeletion.DispatchedIsCancelledIff | crates/application/src/facade.rs:4062-4094 | A run dispatched just before an attempt crosses the boundary is ended there if and only if it had to wait. |
| JobDeletion.StartedRunEnds | crates/application/src/runner.rs:242-262 | A run that starts and finishes by itself before its job is drained has its row ended, its log kept and its slot freed. |
| JobDeletion.DeathForgets | crates/application/src/facade.rs:4633-4733 | Wherever the process dies in an attempt, the job is neither scheduled nor frozen afterwards, and none of its runs waits or is active. |
| JobDeletion.LifeKeepsDirection | crates/core/src/domain/job.rs:50-75 | No trace revives a job whose cancellation began, none re-enters cancellation from a rollback, and a cleared journal stays cleared. |
| JobDeletion.DeletionConverges | crates/application/src/facade.rs:4007-4243 | Every life that clears the journal ends with the job restored, or with definition, run rows and run logs all gone; it is removed exactly when it ever crossed the boundary. A restored job is thawed, and armed unless the process was killed since and has not started up again. |
| JobDeletion.RemovedForever | crates/application/src/facade.rs:4676-4705 | A removed job comes back by nothing that happens later, start-ups included: no row, no log, and no trigger that it did not have left. |
| JobDeletion.FrozenTakesNoRun | crates/application/src/facade.rs:3381-3383 | While dispatch is frozen the job takes no further run, whatever is dispatched, settles or finishes. |
| JobDeletion.RecoveryGivesBack | crates/application/src/facade.rs:4007-4018 | After a restart, recoveries and start-ups alone give back exactly what was there before; only rows that a start-up ended differ. |
| JobDeletion.StageNeverRegresses | crates/core/src/domain/job.rs:50-75 | The persisted stage never goes back, so failure-free resumes end. |
| JobDeletion.FaultlessResumeSucceeds | crates/application/src/facade.rs:4007-4207 | A resume that meets no failure reports success, and has removed the job if and only if the stage was behind the boundary or the request may cross it. |
| JobDeletion.TriggerOfRemovedJob | crates/application/src/facade.rs:4040-4060 | A removed job keeps its trigger if and only if it was armed and the resume started behind the stage that takes it out. |
| JobDeletion.StartUpLeavesAStaleTrigger | crates/application/src/facade.rs:4633-4733 | A concrete crash, a start-up whose own recovery fails, and a later successful recovery, after which the trigger outlives the job. |
| JobDeletion.StartUpLeavesOpenIff | crates/application/src/facade.rs:4676-4705 | A start-up leaves a row open if and only if it was open and was not looked at, or was pending and is kept for a rollback. |
| JobDeletionRun.Deletion.ResumeJobDeletion | crates/application/src/facade.rs:4007-4207 | The resume, stage by stage, has exactly the outcome of the stage functions for every intent and fault sequence. |
| JobDeletionRun.Deletion.RollbackPreCancellation | crates/application/src/facade.rs:4210-4232 | Persists the rollback direction if it can and rolls back either way. |
| JobDeletionRun.Deletion.CompleteJobDeletionRollback | crates/application/src/facade.rs:4234-4243 | Restores the schedule, thaws dispatch whatever came of it, then clears the journal. |
| JobDeletionRun.Deletion.CancelQueuedRuns | crates/application/src/facade.rs:4062-4094 | One transaction ends every queued run and moves the stage, or changes nothing and rolls back. |
| JobDeletionRun.Deletion.Drain | crates/application/src/facade.rs:4096-4139 | Marks the drain and waits for every active run before rows may go; only a run whose end is still to be written gets it written. |
| JobDeletionRun.Deletion.RemoveLogs | crates/application/src/facade.rs:4162-4200 | The loop removes every recorded run's log and ticket in identifier order before completion. |
| RunRegistry.StepKeepsValid | crates/application/src/facade.rs:211-497 | Every operation keeps `runs_by_job` the exact inverse of `runs` without empty sets, every queue exactly its job's queued runs oldest first, and a waiting run only behind an active one. |
| RunRegistry.LifeKeepsValid | crates/application/src/facade.rs:211-497 | The same over every sequence of operations. |
| RunRegistry.PromoteKeepsValid | crates/application/src/facade.rs:452-458 | The oldest waiting run, and only it, gets the freed slot. |
| RunRegistry.LeavingTheQueue | crates/application/src/facade.rs:343-487 | A queued run leaves only as the head of its queue when a slot is freed, by its own cancellation, or in a drain of its job. |
| RunRegistry.SlotIsPassedOnIff | crates/application/src/facade.rs:422-487 | A finished run hands its slot to the head of the queue if and only if no other run of the job holds one; an unreaped run always does. |
| RunRegistry.NeverQueuedTwice | crates/application/src/facade.rs:296-304 | A run that left its queue, however it left, never waits again. |
| RunRegistry.DrainIsLocal | crates/application/src/facade.rs:375-420 | A drain takes the job's queue, leaves exactly its active runs, tombstones them if asked, and no other job notices. |
| RunRegistry.BarrierHolds | crates/application/src/facade.rs:375-420 | Until thawed, a drained job keeps only former active runs, all tombstoned, and its queue never comes back. |
| RunRegistry.DrainCompletesIff | crates/application/src/facade.rs:260-270 | The job still counts as having runs if and only if a former active run is left or clean-up is owed. |
| RunRegistry.TombstonesAreForever | crates/application/src/facade.rs:331-341 | No run of a tombstoned job may persist a terminal state in any later state. |
| RunAdmission.AdmissionIsExact | crates/application/src/facade.rs:3372-3440 | A frozen job and a busy one that skips take no run, a busy one that queues takes it as the last to wait, and in every other case it starts. |
| RunAdmission.OneAtATime | crates/application/src/facade.rs:3372-3440 | A job whose dispatches all skip or queue never has two started runs, however its runs finish, are cancelled, drained without a tombstone or left behind by a child nobody reaped. |
| RunAdmission.LateAdmissionKeepsOneSlotIff | crates/application/src/facade.rs:3405-3426 | When an admission registers later than it counted, that promise is broken exactly by a start that finds the slot taken since. |
| RunAdmission.MayReportIff | crates/application/src/facade.rs:331-337 | In every life a registered run may persist how it ended if and only if its job has never been drained for deletion. |
| RunRaces.LateAdmissionIsValidIff | crates/application/src/facade.rs:3372-3440 | An admission that registers after its check keeps the registry valid if and only if it starts its run or an active run still holds a slot; otherwise its run is stranded in the queue. |
| RunRaces.RacyStepKeepsSound | crates/application/src/facade.rs:3372-3440 | Links, queues and clean-ups stay exact under every operation, late admissions included. |
| RunRaces.DrainHoldsIff | crates/application/src/facade.rs:375-420 | After a draining cut-off, frozen or not, the job keeps only its former active runs in every later state if and only if nothing registers a run for it. |
| RunRaces.FrozenRegistersIff | crates/application/src/facade.rs:3718-3725 | While a job is frozen only an admission that passed the check before the freeze registers a run; the drain of a configuration apply does not freeze, so there any dispatch does. |
| RunRaces.LateRunsNeverReport | crates/application/src/facade.rs:331-341 | A run registered late for a tombstoned job may never persist a terminal state either. |
| ActiveRuns.ActiveRunRegistry.RunningCount | crates/application/src/facade.rs:243-258 | The count is the number of runs of the job that hold a slot. |
| ActiveRuns.ActiveRunRegistry.Dispatch | crates/application/src/facade.rs:3372-3440 | Counting, registering and queueing as one step do what the registry's dispatch event does. |
| ActiveRuns.ActiveRunRegistry.PublishChild | crates/application/src/facade.rs:312-320 | A tombstoned run's child is not published. |
| ActiveRuns.ActiveRunRegistry.CancelOwned | crates/application/src/facade.rs:343-373 | Only a run of the named job is touched; the outcome says whether it was queued, active or missing. |
| ActiveRuns.ActiveRunRegistry.BeginDrain | crates/application/src/facade.rs:375-420 | The loop over the job's runs does what the drain event does and returns exactly the queued and the active runs. |
| ActiveRuns.ActiveRunRegistry.Finish | crates/application/src/facade.rs:422-459 | Unlinks the run and promotes exactly when no other run of the job is active. |
| ActiveRuns.ActiveRunRegistry.FinishUnreaped | crates/application/src/facade.rs:461-487 | Unlinks the run, records the clean-up it owes and promotes without looking for other active runs. |
| ActiveRuns.ActiveRunRegistry.FinishCleanup | crates/application/src/facade.rs:489-497 | Settles one clean-up and drops an entry that has become empty. |
| RollingRestart.CapacityIsNeverLost | crates/application/src/facade.rs:1116-1259 | At every moment and failure exit at least as many instances live as at the start, and at most one more. |
| RollingRestart.CompletedIffAllReplaced | crates/application/src/facade.rs:1076-1260 | Completed is reported if and only if every slot was live and nothing failed, and then every identifier is replaced by a fresh one at the same ordinal and nothing else changed. |
| RollingRestart.LaterSlotsAreUntouched | crates/application/src/facade.rs:1116-1259 | An operation that stops at a slot has removed all earlier identifiers and left every later slot as it was. |
| RollingRestart.FailureLeavesExactly | crates/application/src/facade.rs:1116-1245 | Wherever an operation stops, all slots before are replaced and every other instance is as it was; in the slot itself the new instance is left at a surge ordinal or nowhere, running or not, and the old one drained or not, exactly as the failure says. |
| RollingRestart.Operation.ReplaceSlot | crates/application/src/facade.rs:1116-1245 | One round of surge, readiness, drain and promotion leaves the fleet and passes through the live sets of the model for every fault. |
| RollingRestart.Operation.RollingRestartProcess | crates/application/src/facade.rs:1076-1260 | The loop over the slots has exactly the modelled outcome, every intermediate live set included. |
| RestartFencing.LifeKeepsInv | crates/application/src/facade.rs:2937-3041 | In every interleaving one task at most holds the process lock, a task past its check finds its instance idle, and handles are never reused. |
| RestartFencing.SpawnsAreExclusive | crates/application/src/facade.rs:2125-2181 | No step replaces a running child: an instance never has two. |
| RestartFencing.RunsIff | crates/application/src/facade.rs:2125-2181 | An instance runs after a step if and only if the step starts it, under a handle never used before, or it ran and is not stopped by its user, its own guard or a restart whose token has moved on. |
| RestartFencing.TokensDifferIff | crates/application/src/facade.rs:2280-2287 | The wrapped token tells a bumped task from a current one if and only if the bumps since are no multiple of the token space. |
| RestartFencing.BumpedNeverSpawns | crates/application/src/facade.rs:2937-3041 | In every interleaving a restart whose token was bumped before its check under the lock never spawns. |
| RestartFencing.BumpedDuringSpawnIsNotKept | crates/application/src/facade.rs:3009-3038 | A restart bumped after its check under the lock is never reported as kept: it gives up, is stopped or leaves its child unstopped. |
| RestartFencing.BumpedChildFate | crates/application/src/facade.rs:3017-3038 | In every continuation its child runs undisturbed until the restart verifies it; with the force-stop it is gone and never comes back, and without it has escaped. |
| RestartFencing.BumpedChildSurvivesIff | crates/application/src/facade.rs:3022-3032 | The bumped child survives its verification, as the same child, if and only if the force-stop does not happen: the definition or the runtime entry cannot be read, or the stop fails. |
| RestartFencing.CancelledRestartNeverSpawns | crates/application/src/facade.rs:2254-2278 | A cancellation by name stops every restart scheduled before it and not yet past its check, whatever happens before and after, as long as no current restart of the same instance has woken in between. |
| RestartFencing.ShutDownStopsRestarts | crates/application/src/facade.rs:2993-3003 | Once the daemon shuts down, no restart that has not passed its check under the lock ever spawns. |
| RestartFencing.UselessRestartGivesUp | crates/application/src/facade.rs:2993-2998 | A restart that finds on waking that the daemon shuts down, the instance runs or its token has moved on never waits for the lock. |
| RestartFencing.ListedIff | crates/application/src/facade.rs:2969-2992 | An instance is listed under its name from a scheduling until the first current restart of it wakes or the name is cancelled. |
| RestartFencing.PendingIff | crates/application/src/facade.rs:2273-2278 | It is reported as pending just as long, or until it is cancelled itself or while running. |
| RestartFencing.SupersededNeverSpawns | crates/application/src/facade.rs:3000-3008 | A restart whose instance was given a new generation before its own generation check only ever gives up. |
| RestartFencing.LifeKeepsOwners | crates/application/src/facade.rs:2125-2181 | In every interleaving exactly the running children have an owner, the guard of that very child, and each runs under the current generation of its instance. |
| RestartFencing.CancelReachesIff | crates/application/src/facade.rs:2254-2278 | A cancellation by name bumps exactly the instances still listed under the name or running. |
| RestartFencing.CancelStopsRestartIff | crates/application/src/facade.rs:2982-3008 | Anywhere between its timer and its check - woken, waiting for the lock or holding it - a restart survives a cancellation by name and keeps a child if and only if no other restart lists its instance. |
| RestartFencing.StaleGuardNeverStops | crates/application/src/facade.rs:2307-2326 | Once the child a guard action was raised for is gone, the action changes nothing, whatever has been started since. |
| RestartFencing.GuardStopsItsOwnChildIff | crates/application/src/facade.rs:2850-2935 | A guard action stops the child it was raised for exactly when that child still runs under that owner, and never another. |
| RestartFencing.GuardStopsIff | crates/application/src/facade.rs:2307-2326 | In every interleaving a guard action stops a running child if and only if it was raised for that very child and nobody holds the process lock. |
| DependencyCycles.SearchCycle | crates/application/src/facade.rs:5781-5808 | The search with a stack and a seen set ends and answers yes if and only if the job can be reached from its own dependencies. |
| DependencyCycles.SnapshotIsAcyclicIff | crates/application/src/facade.rs:5659-5682 | A snapshot of uniquely named jobs is acyclic if and only if every job passes its own check against the others. |
| DependencyCycles.AcyclicIffNoRing | crates/application/src/facade.rs:5781-5808 | For uniquely named jobs, acyclic means that no job waits, over whatever other jobs, for its own completion. |
| DependencyCycles.AddingIsAcyclicIff | crates/application/src/facade.rs:3155-3222 | Adding or replacing a job keeps the graph acyclic if and only if the check passes. |
| DependencyCycles.ValidateDependsOn | crates/application/src/facade.rs:5752-5774 | The loop accepts exactly the non-empty, duplicate-free lists of other registered jobs. |
| DependencyCycles.ValidateJob | crates/application/src/facade.rs:5667-5680 | A job passes exactly when its dependencies are registered and form no cycle. |
| DependencyCycles.ValidateJobs | crates/application/src/facade.rs:5659-5682 | A configuration's jobs pass as a whole exactly when names are unique, dependencies are registered and the graph is acyclic. |
| Downsampling.CutoffNeverSplitsABucket | crates/infra/sqlite/src/observability.rs:199-205 | The minute-aligned cutoff never separates two samples of one bucket. |
| Downsampling.MeansAreBetween | crates/infra/sqlite/src/observability.rs:77-99 | Memory and processor means lie between the smallest and the greatest value folded in. |
| Downsampling.GapsAreRemembered | crates/infra/sqlite/src/observability.rs:77-99 | An aggregate is partial if and only if some sample had a gap, and has a mean if and only if some sample had a value. |
| Downsampling.SumNeverSaturates | crates/infra/sqlite/src/observability.rs:87-99 | The saturating 128-bit sum does not saturate for fewer than two to the 64 samples. |
| Downsampling.MaintainConserves | crates/infra/sqlite/src/observability.rs:198-260 | Maintenance keeps every recorded sample in exactly one place, raw row, aggregate, expired or lost; the rows behind an aggregate are recorded samples of its minute, each once, and the aggregate is their exact summary. |
| Downsampling.CountedExactlyOnce | crates/infra/sqlite/src/observability.rs:198-260 | By multiplicity: a recorded sample is one raw row and in no aggregate, or folded once into its own minute and nowhere else, or nowhere when expired or lost. |
| Downsampling.RecordConserves | crates/infra/sqlite/src/observability.rs:194-197 | Recording keeps the same accounting. |
| Downsampling.LosesIffConflict | crates/infra/sqlite/src/observability.rs:246-254 | A maintenance loses samples if and only if a sealed row falls into a minute that already has its aggregate. |
| Downsampling.OnTimeSamplesAreNeverLost | crates/infra/sqlite/src/observability.rs:198-260 | Without late samples the accounting stays exact over every history and no sample is lost. |
| Downsampling.EachSampleCountsOnce | crates/infra/sqlite/src/observability.rs:198-260 | Over every such history each recorded sample is one raw row, or folded exactly once into its minute, whose aggregate is the summary of its rows, or its aggregate has expired. |
| Downsampling.Accumulate | crates/infra/sqlite/src/observability.rs:220-234 | The loop gives each source and minute the accumulator of exactly its samples, and no other key. |
| Downsampling.Metric.AddSample | crates/infra/sqlite/src/observability.rs:87-99 | Accumulates one sample into the fields the summaries are proved about. |
| Downsampling.MetricStore.RunMaintenance | crates/infra/sqlite/src/observability.rs:198-260 | Group, insert unless present, delete: the tables end as in the maintenance proved conservative. |
| Alerts.KeysAlwaysMatch | crates/infra/sqlite/src/observability.rs:273-318 | Under every sequence of opening, acknowledging, resolving and forgetting, keys and unresolved episodes stay in bijection. |
| Alerts.NoDuplicateEpisodes | crates/infra/sqlite/src/observability.rs:280-298 | At most one unresolved episode for a rule, source and cause. |
| Alerts.LateAcknowledgementIff | crates/infra/sqlite/src/observability.rs:484-511 | The late write of an acknowledgement keeps the bijection if and only if the episode is gone or still unresolved when it lands. |
| Alerts.LateAcknowledgementDuplicates | crates/infra/sqlite/src/observability.rs:484-511 | A concrete run with two unresolved episodes of one key. |
| AlertEvaluation.PassIsExact | crates/application/src/observability.rs:51-141 | One pass over rules and samples: keys and unresolved episodes stay in bijection, what was open stays on record, an episode ends if and only if its rule is listed, enabled and not matched by the last sample of its source and fewer than 500 episodes are listed before it, and each opening and each ending is announced exactly once. |
| AlertEvaluation.AlertsFollowTheSamples | crates/application/src/observability.rs:51-157 | Without storage failures and with at most 500 episodes on record, an alert is open after the pass if and only if the last sample exceeds its rule; with nothing to judge it by it stays as it was. |
| AlertEvaluation.ProcessorAlertIsOpenIff | crates/application/src/observability.rs:143-157 | A processor alert that a pass can judge is open afterwards if and only if the last sample of its source has a processor share above the threshold. |
| AlertEvaluation.MemoryAlertIsOpenIff | crates/application/src/observability.rs:143-157 | A memory alert that a pass can judge is open afterwards if and only if the last sample of its source has a size above the threshold. |
| AlertEvaluation.UnreadableEndsTheAlert | crates/application/src/observability.rs:143-157 | A value missing from the last sample, a threshold that cannot be read or an unknown measure opens no alert and ends an open one. |
| AlertEvaluation.OpenAllFires | crates/application/src/observability.rs:51-97 | The opening loop keeps every key and adds exactly those for which a listed enabled rule matches a sample. |
| AlertEvaluation.StarvedForever | crates/application/src/observability.rs:98-103 | An open alert with 500 episodes listed before it is resolved by no sequence of passes, whatever the samples, until retention removes some. |
| AlertEvaluation.IsOnFirstPageIff | crates/infra/sqlite/src/observability.rs:459-466 | A row is on the first page if and only if fewer than 500 rows sort before it. |
| AlertEvaluation.EvaluateSamples | crates/application/src/observability.rs:51-141 | The loops over samples, rules and listed episodes leave the tables and send the announcements of the pass proved exact. |
| Alerts.ClaimableIff | crates/infra/sqlite/src/observability.rs:329-397 | Exactly when a leased candidate can be claimed again, whatever finishes arrive: at the end of the lease if none took effect, and otherwise as the last of them decides, even one of an earlier claim, because a finish is stored by identifier without asking who holds the lease. |
| Alerts.ClaimsAreExclusive | crates/infra/sqlite/src/observability.rs:329-363 | What one claimer leased another leaves alone until that lease has run out. |
| Alerts.ClaimTakesUpToLimit | crates/infra/sqlite/src/observability.rs:329-363 | A claim takes as many free rows as there are, up to the limit, and leaves the others free. |
| Alerts.FinishedAtMostThreeTimes | crates/infra/sqlite/src/observability.rs:364-397 | With each claim finished at most once and fewer than 256 claims, at most three finishes of any sequence take effect. |
| Alerts.LateFinishFreesTheHolder | crates/infra/sqlite/src/observability.rs:383-393 | A concrete run in which the late failure of a first claim lets a third claimer in while the second still holds the lease. |
| Alerts.AttemptsWrapAround | crates/infra/sqlite/src/observability.rs:383-393 | The failure of the 256th claim is retried after one second like that of a zeroth, because the number handed out has eight bits. |
| Alerts.RetryDelays | crates/infra/sqlite/src/observability.rs:383-388 | A failed first or second attempt is claimable again exactly from five or twenty-five seconds later on. |
| Alerts.Candidates.ClaimDeliveryCandidates | crates/infra/sqlite/src/observability.rs:329-363 | The loop leaves exactly the rows of the claim whose exclusiveness and size are proved. |
| Alerts.AlertTables.UpsertAlertEpisode | crates/infra/sqlite/src/observability.rs:280-298 | Opens an episode exactly when its key is not taken, and says so. |
| Alerts.AlertTables.ResolveAlertEpisode | crates/infra/sqlite/src/observability.rs:300-318 | Resolves the episode and frees its key. |
| Alerts.AlertTables.AcknowledgeAlert | crates/infra/sqlite/src/observability.rs:484-511 | Acknowledges exactly an unresolved episode. |
| Pagination.Retain | crates/core/src/ports/repository.rs:212-214 | The in-place filter keeps exactly the eligible names in order. |
| Pagination.ListSpecsPage | crates/core/src/ports/repository.rs:200-225 | Sort, retain, truncate: the page characterised in `PageIsTheNextNames`. |
| Pagination.PageIsTheNextNames | crates/core/src/ports/repository.rs:200-225 | A page is the first `limit` eligible names in increasing order and has a cursor exactly when it may not be the last. |
| Pagination.FollowIsOrderedAndComplete | crates/core/src/ports/repository.rs:411-436 | Whatever is inserted or deleted between pages, followed names strictly increase, each was there, and a completed follow has every name at or below the watermark that was there throughout. |
| Pagination.FirstPageWatermark | crates/core/src/ports/repository.rs:208-222 | A page asked for without a watermark has the greatest name as its watermark and is the page under it. |
| Pagination.ListingIsComplete | crates/core/src/ports/repository.rs:200-225 | A whole listing from a first page without watermark is strictly increasing and, when it completes, has every name that was there throughout; nothing above the names of the first page appears. |
| Pagination.FollowTerminates | crates/core/src/ports/repository.rs:200-225 | If all names ever present come from a finite set, following ends within its size. |
| Pagination.FollowNeedNotTerminate | crates/core/src/ports/repository.rs:200-225 | For every number of pages there are inserts below the watermark that keep a follow from ending. |
| Pagination.ZeroLimitReturnsNothing | crates/core/src/ports/repository.rs:200-225 | A limit of zero returns an empty last page, whatever there is. |
| PageKeys.DecodingUndoesEncoding | crates/infra/http/src/handlers.rs:133-162 | Decoding an encoded key gives the key back, or refuses bytes that are no text, and never panics. |
| PageKeys.IsEncodedIff | crates/infra/http/src/handlers.rs:133-138 | A text is an encoded key if and only if it has even length and only lower-case digits. |
| PageKeys.DecodingIsExact | crates/infra/http/src/handlers.rs:140-162 | For every text: it decodes, to the bytes its pairs stand for, if and only if its length is even, every pair parses and the bytes are text; it panics if and only if its length is even and some pair, all before it parsing, ends inside a character; else it is refused. |
| PageKeys.AsciiNeverPanics | crates/infra/http/src/handlers.rs:140-162 | A cursor in ASCII never panics. |
| PageKeys.ContinuationIff | crates/infra/http/src/handlers.rs:140-162 | In the encoding of any text, the bytes no slice may begin with are exactly those before which no character ends. |
| PageKeys.TextPanicsIff | crates/infra/http/src/handlers.rs:140-162 | So decoding any text panics if and only if a pair ends inside one of its characters and every pair before that one parses. |
| PageKeys.PairIff | crates/infra/http/src/handlers.rs:149-152 | A pair stands for a byte if and only if its characters are the byte's digits in either case; a plus sign may stand for a leading nought. |
| EventDeduper.RepeatsAreFarApart | crates/cli/src/main.rs:214-241 | On every input sequence an identifier is let through again only after a full cache of others. |
| EventDeduper.RepeatedIffForgotten | crates/cli/src/main.rs:224-241 | An identifier is let through again if and only if at least 1,024 others have been accepted since. |
| EventDeduper.NewestAreDistinct | crates/cli/src/main.rs:214-241 | The window of newest accepted identifiers is duplicate-free and within capacity. |
| EventDeduper.Deduper.ShouldEmit | crates/cli/src/main.rs:224-241 | Refuses an identifier if and only if it is among the newest accepted ones, keeps set and queue equal, and lets events without identifier through. |

## Left out

Contracts weaker than a first reading of the promise:

- LogHistory.HistoryAgreesWithLog: excludes stops at the one instant of `LogHistory.WindowLosesALine`; `LogHistory.RestartIsExactOutsideWindow` shows that exclusion is exact.
- LogReads.CursorPageIsExact: reads without `since`, because it says when nothing after the cursor is missing; what a read with `since` returns is `LogReads.FilteredReadIsExact`.
- LogFollow.FirstPageIsARead: follows without `since`; with one, every page is the read of `LogReads.FilteredReadIsExact` instead.
- LogFollow.FollowIsExactlyOnce: excludes pages that skip lines, which `LogFollow.ExpiryLeavesAGap`, `LogFollow.ExpiredSnapshotLeavesAGap` and `LogFollow.FailedSnapshotIsHarmlessIff` show to be necessary.
- LogFollow.DrainPrintsEverything: the final read must succeed; a failed one is ignored by the client.
- ConfigLife.ConfigApplyConverges: assumes that a unit name belongs to one process name and that a process keeps its management mode, because the compensation compares unit names only and validation refuses the latter. Its target world keeps the live definition of units the target redefines without starting them; `ConfigUnits.SettledTargetIsLiveIff` is exact.
- RunRegistry.LifeKeepsValid: counting, registering and queueing are one step; what holds with the races between them is `RunRaces.RacyStepKeepsSound`, `RunRaces.LateAdmissionIsValidIff` and `RunRaces.DrainHoldsIff`.
- RunAdmission.OneAtATime: counting and registering are one step; `RunAdmission.LateAdmissionKeepsOneSlotIff` is exact without that. A drain for a deletion is excluded, because a run with a tombstone holds no slot and may still be running when a thawed job starts its next.
- RestartFencing.BumpedNeverSpawns: fewer than two to the 64 bumps since the restart was scheduled; `RestartFencing.TokensDifferIff` is exact.
- Alerts.FinishedAtMostThreeTimes: fewer than 256 claims, because the attempt number handed out is cut to eight bits; `Alerts.AttemptsWrapAround` shows what happens at the 256th.
- Alerts.KeysAlwaysMatch: an acknowledgement is one step; its read and its write apart are `Alerts.LateAcknowledgementIff`.
- AlertEvaluation.AlertsFollowTheSamples: at most 500 episodes on record and no failed write; with more, `AlertEvaluation.PassIsExact` is exact, and `AlertEvaluation.OpenAllFires` covers failed writes.
- JobDeletion.DeletionConverges: says nothing of the schedule between a kill and the next start-up; while one attempt is under way no other task dispatches, promotes or cancels a run of the job. Between attempts a finished run may hand its slot to any queued run, although the source takes the oldest; that order is `RunRegistry.PromoteKeepsValid`.
- JobDeletion.StartUpLeavesOpenIff: which rows a start-up looks at, the newest 500 without those of durable schedules, is a parameter.
- Pagination.FollowTerminates: the names ever present come from a finite set; without that it is false by `Pagination.FollowNeedNotTerminate`.

Abstractions shared by the whole model:

- Files, the database, the service registrar and child processes are maps and sequences changed by atomic operations that go through, fail or are cut off; SQL, `launchctl`, signals, permissions and the effect of `fsync` are not modelled. A record append is atomic; a torn last record is not modelled. A file operation of the log journal that fails is treated as the death of the process; the source then stays up with a manifest in memory that may be ahead of the files.
- Identifiers drawn at random are numbers not used before. Names are ordered by characters. Times are whole seconds, or abstract integers; processor percentages are real numbers, without rounding.
- `RestartFencing` is a state machine over single steps, not a class: its point is the interleaving of tasks.
- Spawning a child and storing its handle is one step. The SQLite implementation of `set_process_instance_runtime_handle` (crates/infra/sqlite/src/lib.rs:1521-1549) does not commit its transaction; the model follows the port's contract.
- One instance per process in the configuration saga; running processes run the stored definition; clearing the schedule cannot fail halfway; history of earlier runs deleted with a definition is not modelled, and a generation check in a start is only one more point of failure.
- Lines with sequence number zero, migration of legacy journals, and the client's silence about initial system lines are not modelled.
- During a rolling restart no instance dies by itself, and ordinals are unbounded where the source has 16 bits.
- A crash between opening an episode and enqueueing its delivery, and a failed enqueue, are not modelled; a pass of the alert rules is not interleaved with acknowledgements. The rules are compared over real numbers, a threshold that cannot be parsed matches nothing, and a dedupe key is a triple, because no condition that matches contains its separator.

Not part of this model:

- HTTP routing, sessions, CORS, transfer objects, printing, the user interface, the desktop host: no invariant beyond one call.
- Durable schedule admission, cron evaluation, time zones and restart backoff: their logic is in external libraries or database statements.
- Scaling, conversion between management modes, detached-process restoration, memory, check and watch guards beyond their ownership check.
- Backup, upgrade and rollback directories, notification delivery, retention of run logs by age and count.
- Validation of single fields such as empty names, zero timeouts and past one-shot times.
