# MAA Auto Panel: a verified model

This project models the parts of MAA Auto Panel where correctness depends on many steps together, and proves what
holds over all inputs, all runs and all interleavings.

**Run lifecycle** (`RunResources`, `Coordinator`, `LiveState`, `LiveObjects`, `Lifecycle`, `LifecycleInvariant`,
`LifecycleSteps`, `LifecycleTheorems`, `RunEndings`, `RecordedRun`, `RetryRecords`, `DecidedRuns`, `Manager`, `Store`,
`StoreRecords`, `StoreRefinement`). Any number of runs over any number of managers share one lease table and one
durable store. `Lifecycle` is a step system: every lock section, every durable write, every append of output outside
the lock and every unlocked read of a stop flag is one step, and stops, preemption callbacks, shutdown, evictions,
clock ticks and crashes may come between any two of them. `LifecycleInvariant` gives the inductive invariant, one
predicate per concern; `LifecycleTheorems` and `RunEndings` draw the consequences, `RecordedRun` and `RetryRecords`
for the decisions of a run and its retries, and `DecidedRuns` shows that every orderly sequence of decisions has its
execution. The classes `RunLease`, `RunCoordinator`, `LiveRetry`, `LiveRun`, `GenericRunManager` and `RunStateStore`
hold the mutable state and are proved against the same functions.

**State replication** (`Sse`, `RunStream`, `Replication`, `StateStream`). The server diffs snapshots into suffix
patches, the client folds them. For snapshots whose retries carry their run id, which the lifecycle invariant
provides, the client always ends with the server's last snapshot, and that snapshot is current as long as the
manager's version stands still and no output is on its way. Resuming with a cursor is not always exact; the exact
conditions are proved.

**Streaming text** (`StreamReader`, `LogText`, `LogDisplay`, `LogPipeline`, `LogSession`, `LogTheorems`,
`LogContents`, `LogStatus`, `LogObjects`, `TemplateRuntime`, `TemplateHooks`, `TemplateSession`,
`TemplateHookCrashes`). Process output in chunks becomes line records, records become line and terminal calls, calls
drive a block machine per source. What preprocessors, matchers and hooks decide is an arbitrary function of the line
and of how many lines came before, bound only by the contract that a block not kept active has been closed. Template
hooks are shown to keep that contract; `TemplateSession` runs them on the block the session itself has under way, and
says which closed blocks they leave running.

**Scheduler policy** (`Policy`, `SchedulerState`, `ScheduledRun`, `DailyQuota`, `ManualRun`, `Results`,
`RunCallbacks`). From what one retry plans, over a whole run, to a whole game day.

**Templates and parameters** (`Patterns`, `PatternDetails`, `Templates`, `TemplateFields`, `TemplateSurvivors`,
`TemplateCrashes`, `ManagedParams`, `ManagedValues`). Pattern matching with its capture preferences, strict and
tolerant template loading key by key, what survives the tolerant form and what crashes it, and the two forms of
managed task parameters.

Beside the theorems, lemmas named `...Exactly`, `...Writes` or `...Looks` write out what a single operation does to
each field, case by case, so that the definitions the theorems rest on are themselves pinned; those that span no
further operation have no row below.

Where the code does not meet a promise, the code is kept as it is and the exact condition is proved:

- a run that was asked to stop can still be recorded as failed: by the exception handler, which does not look at the
  flag, or because the stop came after the loop's last look (`EndsFailedExactly`, with an execution for each case);
- resuming a stream can miss that a retry was sealed, and can lose the first retry of another run (`ResumeSameRun`,
  `ResumeOtherRun`);
- a start that forgets the finished run and then cannot create its record changes the state without telling the streams,
  and versions are used again after a restart (`ChangesRaiseVersion`, `FailedStartIsNotTold`, `VersionIsReused`);
- output shows in the answer before the version says so (`ChangesRaiseVersion`, `OutputIsVisibleEarly`);
- a buffer limit of 0 is exceeded by a rewritten terminal line (`BuffersBounded`, `ZeroLimitIsExceeded`);
- a superseded block takes the status of the rule that superseded it, and may so stay running after it has been closed
  (`ClosedRunningUnderTemplate`, `SupersededStaysRunning`);
- a soft failure is forgotten once a run needs a second retry (`SoftFailedExactly`, `SoftFailureForgotten`);
- a stopped slot can cost a task its daily minimum, and so can two entries that share an id, exactly if a slot of the
  task lies between them (`StoppedRunBreaksQuota`, `MinimumIsSafeExactly`, `RepeatedEntryIdMissesDay`);
- a task that starts again before it ended stays running in the results (`StaysRunningExactly`,
  `StartedTwiceStaysRunning`);
- a list or table where a template expects a word crashes the tolerant loader, whose own documentation says that invalid
  rules are isolated (`TolerantCrashesExactly`, `ListActionCrashes`);
- a list or table as the status of a boundary rule passes the loader and fails the hooks (`HooksCrashExactly`);
- integer captures do not keep how a number was written (`SubstitutionReproducesLine`).

## Model

| member | source | states |
|---|---|---|
| `RunResources.ClaimsConflictSymmetric` | src/maa_auto_panel/run_manager/coordinator.py:174-179 | whether two claims clash does not depend on which of them asks |
| `RunResources.ClaimsConflictExactly` | src/maa_auto_panel/run_resources.py:89-91 | two claims clash exactly if both name one resource, by kind and identifier, and not both only share it |
| `RunResources.ExclusiveExcludesEveryOther` | src/maa_auto_panel/run_resources.py:89-91 | an exclusive claim on a resource clashes with every claim that names the resource |
| `Coordinator.AttemptKeepsExclusion` | src/maa_auto_panel/run_manager/coordinator.py:91-110 | no pass of `acquire`, whatever its outcome, leaves two clashing leases in the table |
| `Coordinator.AttemptOutcome` | src/maa_auto_panel/run_manager/coordinator.py:95-125 | a claim is granted exactly when the table is open, the run is not cancelled and nothing clashes; a failing pass leaves the table as it was |
| `Coordinator.RefusedExactly` | src/maa_auto_panel/run_manager/coordinator.py:98-118 | a clashing holder of higher priority, or of lower one that cannot be preempted, blocks a claim at once and exactly those are named; else a contested claim times out exactly if its deadline has passed, naming all it clashes with, and waits if not |
| `Coordinator.EqualsAreWaitedFor` | src/maa_auto_panel/run_manager/coordinator.py:112-139 | among holders of equal priority a claim waits, asks nobody to stop and changes nothing |
| `Coordinator.TurnedAwayExactly` | src/maa_auto_panel/run_manager/coordinator.py:95-99 | shutdown turns a claim away before cancellation does, cancellation before the table is looked at |
| `Coordinator.WaitingAsksExactly` | src/maa_auto_panel/run_manager/coordinator.py:132-139 | in a waiting pass a holder is asked to stop exactly if it clashes, has lower priority and has not been asked; by force exactly if it was asked its non-zero grace period ago and not by force yet |
| `Coordinator.WaitingPreemptsOnlyLower` | src/maa_auto_panel/run_manager/coordinator.py:112-139 | a waiting pass marks a holder only if it clashes, is preemptible and has strictly lower priority; force needs an earlier stop and the grace period |
| `Coordinator.WaitingEffect` | src/maa_auto_panel/run_manager/coordinator.py:132-136 | the preemption rule is applied to every such holder and to no other |
| `Coordinator.RunLease.ApplyPreemption` | src/maa_auto_panel/run_manager/coordinator.py:181-195 | first the stop mark and callback, then after the grace period the force mark and callback, once each |
| `Coordinator.RunCoordinator.Attempted` | src/maa_auto_panel/run_manager/coordinator.py:91-139 | one lock section of `acquire` over the mutable lease table is one pass of the specification |
| `Coordinator.RunCoordinator.PreemptAll` | src/maa_auto_panel/run_manager/coordinator.py:132-136 | the loop over the lower-priority holders marks all of them and collects exactly the callbacks due |
| `Coordinator.RunCoordinator.Release` | src/maa_auto_panel/run_manager/coordinator.py:163-168 | a release removes one lease and nothing else |
| `LiveState.RetryIdsDistinct` | src/maa_auto_panel/run_manager/state.py:123-143 | the retries of a run have pairwise distinct ids |
| `LiveState.AppendEventExtends` | src/maa_auto_panel/run_manager/manager.py:784-790 | an event only appends to the open last retry, or opens one; every earlier or sealed retry stays as it is |
| `LiveState.SealLastExtends` | src/maa_auto_panel/run_manager/state.py:62-68 | sealing the open last retry keeps numbering and history |
| `LiveState.SealRetryWrites` | src/maa_auto_panel/run_manager/state.py:62-68 | an open retry is closed with the status given, a closed one stays as it was sealed, and no other changes |
| `LiveState.AppendEventWrites` | src/maa_auto_panel/run_manager/manager.py:784-790 | an event is the last text of the open last retry, or of a new one, and nothing else changes |
| `LiveState.StopSectionWrites` | src/maa_auto_panel/run_manager/state.py:145-163 | a request makes an active run stopping and raises its flag; the first of its kind leaves an event |
| `LiveState.StopSectionsAdvance` | src/maa_auto_panel/run_manager/manager.py:221-228 | a stop or force-stop section raises its flag on an active run, changes nothing on a finished one and never alters sealed history |
| `LiveObjects.LiveRun.BeginRetry` | src/maa_auto_panel/run_manager/state.py:123-143 | the new retry object is fresh, last and numbered next |
| `LiveObjects.LiveRun.RequestStop` | src/maa_auto_panel/run_manager/state.py:145-153 | a stop request on the mutable run is the specified one, and nothing on a finished run |
| `LiveObjects.LiveRun.RequestForceStop` | src/maa_auto_panel/run_manager/state.py:155-163 | a force-stop request also raises the stop flag |
| `LiveObjects.LiveRun.AppendEvent` | src/maa_auto_panel/run_manager/manager.py:784-790 | the mutable run appends the event to the open retry or to a fresh one |
| `LiveObjects.LiveRun.StopSection` | src/maa_auto_panel/run_manager/manager.py:221-228 | the first stop request leaves an event, later ones do not |
| `LiveObjects.LiveRun.ForceStopSection` | src/maa_auto_panel/run_manager/manager.py:243-250 | the first force request leaves an event, later ones do not |
| `LiveObjects.LiveRun.SealRetry` | src/maa_auto_panel/run_manager/manager.py:643-665 | a sealed retry is never sealed again |
| `LifecycleInvariant.LocalStepOk` | src/maa_auto_panel/run_manager/manager.py:333-455 | every step of a run thread keeps the thread and its record consistent and only advances the run |
| `LifecycleInvariant.AttemptKeepsInv` | src/maa_auto_panel/run_manager/manager.py:364-397 | a claim of any run, granted, waiting or refused, keeps the invariant of the whole system |
| `LifecycleInvariant.PublishKeepsInv` | src/maa_auto_panel/run_manager/manager.py:702-713 | publishing a status that is already durable keeps the invariant |
| `LifecycleInvariant.CrashKeepsInv` | src/maa_auto_panel/run_manager/store.py:115-129 | a crash at any point, also half way through starting a run, keeps the invariant |
| `LifecycleInvariant.StepKeepsInv` | src/maa_auto_panel/run_manager/manager.py:333-455 | the invariant is inductive over every step of every run and of its surroundings |
| `LifecycleInvariant.ExecutionInv` | src/maa_auto_panel/run_manager/manager.py:333-455 | the invariant holds after every interleaving |
| `LifecycleTheorems.CommandHoldsLease` | src/maa_auto_panel/run_manager/manager.py:364-397 | a run inside its main command, in any of its retries, holds the lease on all its resources |
| `LifecycleTheorems.MutualExclusion` | src/maa_auto_panel/run_manager/coordinator.py:91-110 | in every reachable state two runs with clashing resources are not both inside their main command |
| `LifecycleTheorems.DurableFirst` | src/maa_auto_panel/run_manager/manager.py:693-717 | a live-terminal run has a durable record of the same status or none; a granted lease is gone only from a live-terminal run |
| `LifecycleTheorems.PublishedSurvives` | src/maa_auto_panel/run_manager/manager.py:693-741 | a status once visible live is what the record says after any further steps, crashes included, as long as the record exists |
| `LifecycleTheorems.RecoveryLeavesNoActiveRecord` | src/maa_auto_panel/run_manager/store.py:115-129 | after recovery no record is running or stopping, however often recovery was interrupted |
| `LifecycleTheorems.StepFollows` | src/maa_auto_panel/run_manager/state.py:145-170 | no step reverts a flag, leaves a terminal status, brings back a lost run or alters a sealed retry |
| `LifecycleTheorems.RunOnlyAdvances` | src/maa_auto_panel/run_manager/state.py:119-170 | over any stretch of any execution the retry history is append-only and numbered, terminal statuses absorb and flags only rise |
| `LifecycleTheorems.StopOnFinishedRun` | src/maa_auto_panel/run_manager/manager.py:215-235 | stopping a finished run changes no state |
| `LifecycleTheorems.OneActiveRunPerManager` | src/maa_auto_panel/run_manager/manager.py:106-131 | a manager never has two runs that are not terminal |
| `LifecycleTheorems.ShutdownOnlyShrinks` | src/maa_auto_panel/run_manager/manager.py:178-181 | once shutdown has begun no lease is granted and no run is added |
| `LifecycleTheorems.PreemptionProtocol` | src/maa_auto_panel/run_manager/coordinator.py:181-195 | over all waiters together each lease gets at most one stop, then at most one force, the force no earlier than the grace period after the stop |
| `LifecycleTheorems.ClaimLeavesEqualPriorityAlone` | src/maa_auto_panel/run_manager/coordinator.py:132-139 | a waiting claim never touches a holder of equal or higher priority |
| `LifecycleTheorems.RefusedClaimLeavesTable` | src/maa_auto_panel/run_manager/coordinator.py:96-124 | a failed or cancelled claim leaves lease table and request history as they were |
| `Manager.GenericRunManager.DiscardTerminalRunsLocked` | src/maa_auto_panel/run_manager/manager.py:842-849 | exactly the terminal runs are forgotten, and the current run if it is one of them |
| `Manager.GenericRunManager.StartLocked` | src/maa_auto_panel/run_manager/manager.py:106-131 | a start is refused on shutdown, on an active current run and on a failed record write, and else registers the run as the current one |
| `Manager.GenericRunManager.StopLocked` | src/maa_auto_panel/run_manager/manager.py:221-230 | the stop section changes the addressed run as specified and no other run |
| `Manager.GenericRunManager.PublishLocked` | src/maa_auto_panel/run_manager/manager.py:702-713 | the final status is published at most once, and the plan dropped with it |
| `Manager.GenericRunManager.DiscardTerminal` | src/maa_auto_panel/run_manager/manager.py:150-162 | only a terminal run is forgotten; an active one is refused and an unknown one ignored |
| `Store.UpsertWritesOneRecord` | src/maa_auto_panel/run_manager/store.py:326-355 | a write changes the status of its own record and no other record |
| `Store.UpsertKeepsOrder` | src/maa_auto_panel/run_manager/store.py:326-355 | ids stay unique and the newest record stays first |
| `StoreRecords.PlacedExactly` | src/maa_auto_panel/run_manager/store.py:351-355 | a written record stands behind the newer ones and before all others, those of the same time among them |
| `StoreRecords.MergedExactly` | src/maa_auto_panel/run_manager/store.py:331-350 | a write keeps the time of its record and every field and metadata key it does not carry; without a record it makes one of the present |
| `StoreRecords.WrittenExactly` | src/maa_auto_panel/run_manager/store.py:353-355 | after a write the records are the one written and, in every field, all others there were |
| `Store.RetainedExactly` | src/maa_auto_panel/run_manager/store.py:95-113 | newest first, a run is retained exactly when it is active or fits beside the newer retained runs |
| `StoreRecords.RetainedByNumbers` | src/maa_auto_panel/run_manager/store.py:100-106 | a finished record stays exactly if fewer than the allowed number stay before it and all retries kept with it are at most the allowed number |
| `Store.RetentionKeepsActive` | src/maa_auto_panel/run_manager/store.py:101-110 | retention keeps every active run |
| `Store.RetentionLimits` | src/maa_auto_panel/run_manager/store.py:102-108 | at most the allowed number of terminal runs stay, and their retries exceed the limit by no more than what active runs own |
| `Store.RetentionIdempotent` | src/maa_auto_panel/run_manager/store.py:85-113 | a second retention pass evicts nothing |
| `Store.RunStateStore.Upsert` | src/maa_auto_panel/run_manager/store.py:326-355 | an empty id is refused, any other write merges into its record |
| `Store.RunStateStore.RecoverInterruptedRuns` | src/maa_auto_panel/run_manager/store.py:115-129 | every running or stopping record becomes stopped, no other changes, and the count is right |
| `StoreRecords.ActiveCountExactly` | src/maa_auto_panel/run_manager/store.py:117-128 | the number recovery reports is that of the records that say running or stopping |
| `Store.RunStateStore.DeleteRun` | src/maa_auto_panel/run_manager/store.py:245-255 | only an existing terminal record is deleted, with its retries |
| `Store.RunStateStore.EnforceRetention` | src/maa_auto_panel/run_manager/store.py:85-113 | the loop computes the retained records; an evicted run goes with all its retries, a retained one keeps all of them |
| `StoreRefinement.RecoveryComputesRecovered` | src/maa_auto_panel/run_manager/store.py:115-129 | the recovery steps of the system, interrupted or not, end in the state the recovery loop computes |
| `StoreRefinement.RetentionIsAnEviction` | src/maa_auto_panel/run_manager/store.py:85-113 | retention is an eviction step of the run system: it removes records and changes none |
| `Sse.CommonPrefixIsLongest` | src/maa_auto_panel/web/sse.py:138-148 | the kept prefix is the longest common one |
| `Sse.SuffixPatchIsShortest` | src/maa_auto_panel/web/sse.py:138-148 | a list patch is absent exactly for equal lists, rebuilds the current list, and no other cut needs fewer items |
| `Sse.ListPatchOf` | src/maa_auto_panel/web/sse.py:138-148 | the loop of the server computes that patch |
| `StateStream.StateEvents.Opening` | src/maa_auto_panel/web/sse.py:35-47 | no first event exactly for the version the stream is at; without a version or with a later one any client ends with the stream's snapshot; with an earlier one it does exactly if cutting what it held gives the right list |
| `StateStream.StateEvents.Changed` | src/maa_auto_panel/web/sse.py:63-68 | each change emits the patch from the previous snapshot and remembers the new one |
| `StateStream.ChangesRaiseVersion` | src/maa_auto_panel/run_manager/manager.py:838-840 | while the backend is up, what a manager answers changes without a new version exactly if a start forgot its finished current run and then could not create its record, or a run appended output to its log before taking the lock to announce it |
| `StateStream.LocalNotifiesExactly` | src/maa_auto_panel/run_manager/manager.py:267-281 | a step of a run's own thread raises the version exactly if it changes the run, output apart: that is told when it is announced |
| `StateStream.StartNotifiesExactly` | src/maa_auto_panel/run_manager/manager.py:106-131 | a start raises the version exactly if it makes a run |
| `StateStream.SameVersionSameState` | src/maa_auto_panel/run_manager/manager.py:172-176 | over any further steps with no such start, at an unchanged version the answer is unchanged exactly if no output has got on its way since |
| `StateStream.StreamConverges` | src/maa_auto_panel/web/sse.py:49-68 | a stream that sees no newer version than its last sample has brought its client to what the manager answers now, exactly if no output has got on its way since that sample |
| `StateStream.OutputIsVisibleEarly` | src/maa_auto_panel/run_manager/manager.py:267-281 | an execution in which the answer shows output at the old version, before the announcement raises it |
| `StateStream.FailedStartIsNotTold` | src/maa_auto_panel/run_manager/manager.py:106-131 | an execution in which a failed start turns the answer to idle without a new version |
| `StateStream.VersionIsReused` | src/maa_auto_panel/run_manager/manager.py:67 | an execution in which, after a restart, the version a client last saw belongs to another run |
| `Replication.PatchRestoresExactly` | frontend/src/lib/runStream.ts:36-61 | a patch brings the client to the current snapshot exactly when it is idle, the client keeps its base, or the lists share no prefix |
| `Replication.PatchRestores` | src/maa_auto_panel/web/sse.py:104-120 | for snapshots whose retries carry their run id every patch brings the client to the current snapshot; no patch is emitted exactly when nothing changed |
| `Replication.StreamReplicates` | frontend/src/lib/runStream.ts:13-61 | folding all emitted patches gives the last snapshot, over any number of run changes and returns to idle |
| `Replication.ManagerStreamReplicates` | src/maa_auto_panel/run_manager/manager.py:164-170 | the snapshots of a manager, sampled anywhere in any execution, satisfy the hypotheses, so the client ends with the last sample |
| `Replication.CursorRestoresExactly` | src/maa_auto_panel/web/sse.py:82-101 | a cursor patch always updates the run; the retries are right exactly when cutting the held list gives the current one |
| `Replication.ResumeSameRun` | src/maa_auto_panel/web/sse.py:82-101 | resuming on the same run is exact if and only if the held last retry is unchanged, or is still last and open |
| `Replication.ResumeAfterSealedRetry` | src/maa_auto_panel/web/sse.py:82-101 | a client whose last retry was sealed always resumes exactly |
| `Replication.ResumeOtherRun` | frontend/src/lib/runStream.ts:51-61 | resuming after a run change is exact if and only if the cut falls on 0 or there is nothing to send |
| `Replication.ResumeMissesSealing` | src/maa_auto_panel/web/sse.py:151-153 | a retry sealed while the client was away stays open on the client |
| `Replication.ResumeLosesRetryOfOtherRun` | frontend/src/lib/runStream.ts:51-61 | the first retry of a run that started while the client was away is lost |
| `Replication.RunStreamResumes` | src/maa_auto_panel/run_manager/state.py:119-143 | in every execution a client that left a run at a sealed retry resumes exactly, whatever the run did meanwhile |
| `StreamReader.SplitJoins` | src/maa_auto_panel/process.py:237-247 | the one-shot split loses and adds nothing |
| `StreamReader.ChunkIndependence` | src/maa_auto_panel/process.py:196-234 | the records equal the one-shot split, and join to the output, exactly when no chunk leaves an unfinished line beyond the limit |
| `StreamReader.EmittedLength` | src/maa_auto_panel/process.py:222-233 | the records together are longer than the output by exactly one character per cut of an overlong line |
| `StreamReader.NoCrLfIsSplit` | src/maa_auto_panel/process.py:237-247 | no record boundary falls inside a CRLF, for any chunking and any line length |
| `StreamReader.NewlineIndex` | src/maa_auto_panel/process.py:237-247 | the search finds the first complete line and its delimiter; a CR at the end is not yet complete |
| `StreamReader.LineReader.Feed` | src/maa_auto_panel/process.py:196-234 | the loop drains the buffer as specified |
| `StreamReader.LineReader.Finish` | src/maa_auto_panel/process.py:179-194 | at the end of the stream a held CR ends its line and a rest is a record of its own |
| `StreamReader.LineReader.ReadAll` | src/maa_auto_panel/process.py:163-234 | the reader over a whole stream emits the specified records |
| `LogText.ScanIsByRecords` | src/maa_auto_panel/logs/pipeline.py:297-328 | the character scanner makes exactly the line, rewrite and end calls of the one-shot CR/LF/CRLF split |
| `LogText.ScanConcat` | src/maa_auto_panel/logs/pipeline.py:297-328 | scanning in two pieces is scanning at once if and only if the cut is not inside a CRLF |
| `LogText.AppendConcat` | src/maa_auto_panel/logs/pipeline.py:182-197 | two appends make the calls of one and leave the same carry if and only if the cut is not inside a CRLF |
| `LogText.PartialMetadataGoverns` | src/maa_auto_panel/logs/pipeline.py:189-196 | the metadata of a pending partial line governs every line of the append that completes it |
| `LogText.AppendAllConcat` | src/maa_auto_panel/logs/pipeline.py:182-197 | any number of appends with no cut inside a CRLF make the calls of one append |
| `LogPipeline.CallsKeepOk` | src/maa_auto_panel/logs/pipeline.py:329-382 | every call keeps the invariant of the block machine, for every decision of hooks that close what they do not keep active |
| `LogSession.BlockMachine` | src/maa_auto_panel/logs/pipeline.py:329-382 | in every reachable session an open entry is its source's active block or terminal line, and the visible entries are the latest issued, contiguous and bounded |
| `LogSession.BuffersBounded` | src/maa_auto_panel/logs/pipeline.py:537-541 | messages and lines of every visible entry stay within a positive limit; with a limit of 0 one message may remain |
| `LogSession.ZeroLimitIsExceeded` | src/maa_auto_panel/logs/pipeline.py:496-502 | with a limit of 0 a rewritten terminal line keeps a message no trimming has seen |
| `LogSession.CallsTrackTerminal` | src/maa_auto_panel/logs/pipeline.py:474-513 | a source has a terminal line exactly when the calls made say so |
| `LogSession.FlushSealsEverything` | src/maa_auto_panel/logs/pipeline.py:199-214 | after a full flush, in any order of sources, nothing is active, pending or open |
| `LogTheorems.AppendTwice` | src/maa_auto_panel/logs/pipeline.py:182-197 | two appends leave the very session that one leaves, unless the cut splits a CRLF |
| `LogTheorems.OutputReachesSessionUnchanged` | src/maa_auto_panel/process.py:196-234 | however process output is chunked, the session ends as if its records, and within the line limit the output itself, had been appended at once |
| `LogTheorems.OnlyWorkUnderWayChanges` | src/maa_auto_panel/logs/pipeline.py:329-382 | an append or flush changes no entry but the active block and terminal line of its own source; only where a limit is 0 may trimming still take from another what that limit does not allow |
| `LogStatus.ClosedRunningExactly` | src/maa_auto_panel/logs/pipeline.py:347-440 | for hooks that close a block at once exactly if they do not keep it, a closed entry of a reachable session says running exactly if the line or flush that closed it left it so |
| `LogStatus.OnlyLinesLeaveRunning` | src/maa_auto_panel/logs/pipeline.py:199-214 | if flushes settle what they close, exactly the handled lines leave closed entries running |
| `LogTheorems.LineGoesToOnePlace` | src/maa_auto_panel/logs/pipeline.py:347-382 | a line either ends its block, starts the only new entry, goes to the block under way, or is shown by the fallback |
| `LogContents.ContentGoesIntoBlock` | src/maa_auto_panel/logs/pipeline.py:376-381 | the block under way ends with the latest of what it held and then the messages and raw lines of the line; no other entry changes |
| `LogContents.ClosingGoesIntoBlock` | src/maa_auto_panel/logs/pipeline.py:347-366 | a block the line closes ends closed, with the latest of what it held and then what its close adds, and the status the close gives it |
| `LogContents.StartGoesIntoNewEntry` | src/maa_auto_panel/logs/pipeline.py:367-373 | a started block holds exactly what its start adds, within the limits |
| `LogContents.FallbackGoesIntoNewEntry` | src/maa_auto_panel/logs/pipeline.py:442-472 | a line of no block opens an entry with exactly its messages and exactly its raw lines, trimmed |
| `LogContents.RewriteShowsText` | src/maa_auto_panel/logs/pipeline.py:474-502 | a rewritten terminal line has the displayed text as its one message and its one raw line |
| `LogContents.FlushGoesIntoBlock` | src/maa_auto_panel/logs/pipeline.py:199-214 | a flush closes the block under way with what its hook adds |
| `LogDisplay.AnsiExactly` | src/maa_auto_panel/logs/pipeline.py:12 | a control sequence is found exactly where one stands, with its length |
| `LogDisplay.DisplayExactly` | src/maa_auto_panel/logs/pipeline.py:622-623 | a terminal shows a line without its control sequences and without the white space around it |
| `LogDisplay.SpacesExactly` | src/maa_auto_panel/logs/pipeline.py:622-623 | white space is exactly what Python strips |
| `LogDisplay.ControlsExactly` | src/maa_auto_panel/logs/pipeline.py:297-328 | a backspace or delete takes back a character; CR, LF and CRLF make the calls they make |
| `LogDisplay.SourcesExactly` | src/maa_auto_panel/logs/pipeline.py:603-611 | no name and the name output stand for the standard output, every other source for itself |
| `LogTheorems.BuffersHoldTheLatest` | src/maa_auto_panel/logs/pipeline.py:265-279 | trimming after every record keeps what trimming once at the end keeps, the latest messages and lines |
| `LogTheorems.EveryChangeIsReported` | src/maa_auto_panel/logs/pipeline.py:182-214 | an operation that reports no change has changed nothing visible |
| `LogObjects.LogEntry.AppendRecords` | src/maa_auto_panel/logs/pipeline.py:265-279 | hook records go into the entry one by one, trimmed each time |
| `LogObjects.LogPipelineSession.Trim` | src/maa_auto_panel/logs/pipeline.py:537-541 | the list is trimmed and then every entry still in it |
| `LogObjects.LogPipelineSession.AppendBlock` | src/maa_auto_panel/logs/pipeline.py:216-263 | a new entry gets the next id, is listed and everything is trimmed |
| `LogObjects.LogPipelineSession.CloseActive` | src/maa_auto_panel/logs/pipeline.py:420-440 | the active block leaves the table and its shared entry ends closed, whatever the hook did |
| `LogObjects.LogPipelineSession.StartBlock` | src/maa_auto_panel/logs/pipeline.py:367-373 | a start opens a new entry and registers it if it is kept active |
| `LogObjects.LogPipelineSession.DecideLine` | src/maa_auto_panel/logs/pipeline.py:347-382 | the branches of line handling, over shared entry objects, are those of the block machine |
| `LogObjects.LogPipelineSession.HandleLine` | src/maa_auto_panel/logs/pipeline.py:329-382 | one handled line of the mutable session is one line call |
| `LogObjects.LogPipelineSession.HandleTerminalUpdate` | src/maa_auto_panel/logs/pipeline.py:474-502 | a rewrite opens the terminal entry or replaces its content in place |
| `LogObjects.LogPipelineSession.FinalizeTerminalUpdate` | src/maa_auto_panel/logs/pipeline.py:504-513 | the terminal entry is closed and forgotten |
| `LogObjects.LogPipelineSession.AppendText` | src/maa_auto_panel/logs/pipeline.py:297-328 | the character loop makes the calls of the scan, in order |
| `LogObjects.LogPipelineSession.Append` | src/maa_auto_panel/logs/pipeline.py:182-197 | an append is the specified operation, and tells whether anything visible changed |
| `LogObjects.LogPipelineSession.Flush` | src/maa_auto_panel/logs/pipeline.py:199-214 | a flush visits the sources in the given order |
| `TemplateRuntime.MatchRules` | src/maa_auto_panel/logs/templates/runtime.py:135-148 | the first rule of the source whose pattern matches decides |
| `TemplateRuntime.TemplateHooksOk` | src/maa_auto_panel/logs/templates/runtime.py:150-221 | the hooks of any template close a block at once exactly if they do not keep it, so every theorem about the block machine holds for them |
| `TemplateHooks.EndsExactly` | src/maa_auto_panel/logs/templates/runtime.py:124-133 | a line ends the block under way exactly if one of its end rules takes it, and the first that does captures no source name other than the block's own |
| `TemplateHooks.FirstStartExactly` | src/maa_auto_panel/logs/templates/runtime.py:119-122 | a line is started by the first block one of whose start rules, or else one of whose end rules, takes it; an end rule leaves its block closed at once, with its message |
| `TemplateHooks.ToneExactly` | src/maa_auto_panel/logs/templates/runtime.py:260-266 | in blocks that ask for it a danger message fails the block and a warning stops it unless it has failed; no other changes the status |
| `TemplateHooks.StartsWith` | src/maa_auto_panel/logs/templates/runtime.py:192-200 | a block starts with the status its rule brings, or else its own |
| `TemplateHooks.DecidesExactly` | src/maa_auto_panel/logs/templates/runtime.py:119-299 | what the line is closed with, what it adds to the block under way, and what it shows outside all blocks |
| `TemplateSession.ClosedRunningUnderTemplate` | src/maa_auto_panel/logs/templates/runtime.py:150-299 | over every session under any template, with the block under way derived from what the template opened: a closed entry says running exactly if some line closed its block by a rule, possibly of the next block, that says running or says nothing of a running block, or opened it closed and running, or showed it so outside all blocks; no flush or metadata boundary leaves one so |
| `TemplateSession.CallStep` | src/maa_auto_panel/logs/templates/runtime.py:58-90 | after every call the block under way of each source is known and was started by a line of that source, and the call leaves running exactly what the template makes it leave |
| `TemplateSession.SupersededStaysRunning` | src/maa_auto_panel/logs/templates/runtime.py:279-282 | a template and two equal start lines: the second block supersedes the first and leaves it closed and running |
| `TemplateHookCrashes.HooksCrashExactly` | src/maa_auto_panel/logs/templates/runtime.py:192-195 | some session under a template makes a hook fail exactly if some line is taken first by a rule that opens a block and brings a list or table as its status, or a line starts a block and another of its source is taken first by such an end rule of it |
| `TemplateRuntime.ForeignEndSupersedes` | src/maa_auto_panel/logs/templates/runtime.py:119-133 | an end line naming another source does not end its block, wherever that stands among the blocks, but supersedes it unless an earlier block takes the line |
| `Policy.StartIndex` | src/maa_auto_panel/scheduler/policy.py:163-167 | the count starts at the first entry with the id, or at the start of the day |
| `Policy.SlotsCounted` | src/maa_auto_panel/scheduler/policy.py:163-168 | the slots of a task are the enabled entries that list it |
| `Policy.RemainingSlotsAt` | src/maa_auto_panel/scheduler/policy.py:163-168 | the slots counted as left are never too few, and exactly those from the entry on if and only if none of the task's slots lies between the first entry with its id and itself |
| `Policy.Selected` | src/maa_auto_panel/scheduler/policy.py:82-116 | a task is selected exactly when some policy of it is enabled and still owed runs |
| `Policy.SkippedExactly` | src/maa_auto_panel/scheduler/policy.py:82-116 | an important limited task is left out exactly once it has succeeded often enough, an unimportant one exactly once it has run often enough |
| `Policy.InitialTaskSelection` | src/maa_auto_panel/scheduler/policy.py:82-116 | the loop selects that list and gives every other policy its reason |
| `Policy.RetryTaskIdsAre` | src/maa_auto_panel/scheduler/policy.py:157-160 | the retry list is empty exactly when nothing is a cause, and else holds the causes and the tasks that always rerun |
| `Policy.RetriedExactly` | src/maa_auto_panel/scheduler/policy.py:119-160 | something is retried exactly if a task is still needed, and then exactly the tasks still needed and the enabled important ones that ask to rerun with every retry, succeeded or not |
| `Policy.RetryOrder` | src/maa_auto_panel/scheduler/policy.py:160 | the retry list keeps the order of the policies, with one place for each policy whose id is in it |
| `Policy.RetryTasks` | src/maa_auto_panel/scheduler/policy.py:119-160 | the loop computes that list |
| `Policy.FinalStatusOf` | src/maa_auto_panel/scheduler/service.py:615-641 | the loop returns failed exactly when some important task fails the run, and soft failed exactly when only an unimportant one did not succeed |
| `Policy.RetrySetAgreesWithFinalStatus` | src/maa_auto_panel/scheduler/service.py:139-161 | the final status is failed exactly when some retry cause never succeeded; with nothing to retry it never is |
| `Policy.RetryUnfinishedTaskIds` | src/maa_auto_panel/scheduler/policy.py:62-71 | the loop keeps, in order, what has succeeded neither before nor now |
| `SchedulerState.MarkedIsTriggered` | src/maa_auto_panel/scheduler/state.py:88-108 | a marked slot is known as triggered unless a negative limit drops it at once; records are bounded exactly for a positive limit; no slot is recorded twice |
| `SchedulerState.TriggeredExactly` | src/maa_auto_panel/scheduler/state.py:104-108 | a slot has been triggered exactly if some record carries its schedule, its entry and its day |
| `SchedulerState.SchedulerStateStore.UpdateDailyStats` | src/maa_auto_panel/scheduler/state.py:63-86 | read after write for the day and schedule, and no other day or schedule changes |
| `SchedulerState.SchedulerStateStore.AlreadyTriggered` | src/maa_auto_panel/scheduler/state.py:104-108 | the search finds a record of the slot exactly if there is one |
| `SchedulerState.SchedulerStateStore.MarkTriggered` | src/maa_auto_panel/scheduler/state.py:88-102 | the record is appended unless there is one |
| `ScheduledRun.CountedStats` | src/maa_auto_panel/scheduler/service.py:129-137 | a retry adds one success to exactly the known tasks that succeeded in it |
| `ScheduledRun.CountedExactly` | src/maa_auto_panel/scheduler/service.py:129-137 | a retry counts a run for each planned task of a policy that the log mentions, and a success for those that succeeded |
| `ScheduledRun.RetryStatusExactly` | src/maa_auto_panel/scheduler/service.py:122-126 | a retry succeeded exactly if the process returned 0, was neither stopped nor timed out, and every planned task succeeded |
| `ScheduledRun.RoundsExactly` | src/maa_auto_panel/run_manager/manager.py:333-430 | round by round each outcome is judged with its number and the progress so far, and a run goes on exactly if the decision says so |
| `ScheduledRun.CallbackDecides` | src/maa_auto_panel/scheduler/service.py:118-190 | what the callback plans, counts as succeeded, and makes of the run |
| `ScheduledRun.RerunsAreAlwaysPlanned` | src/maa_auto_panel/scheduler/policy.py:138-160 | over a whole run every retry after the first plans every enabled important task that asks to rerun, whether it has succeeded or not |
| `ScheduledRun.PlansOnlyShrink` | src/maa_auto_panel/scheduler/service.py:118-149 | over a whole run the plans of tasks without rerun-on-success only shrink, and none is planned after it has succeeded |
| `ScheduledRun.NothingToRetryNeverFails` | src/maa_auto_panel/run_manager/manager.py:549-557 | a retry is recorded as stopped, and the run with it, exactly if the manager saw a stop, whatever the callback decided; else a run fails exactly when something is left to retry and the limit is reached, and goes on exactly when no status is set |
| `ScheduledRun.TimedOutStopIsStopped` | src/maa_auto_panel/scheduler/service.py:122-126 | a retry stopped and then timed out is a failure to the callback, which never calls the run stopped; the manager does |
| `ScheduledRun.SoftFailedExactly` | src/maa_auto_panel/scheduler/service.py:615-641 | with distinct policy ids a run ends soft failed exactly if its first retry was not stopped, every task that had to succeed in this slot did, and some selected unimportant task did not; later retries never matter |
| `ScheduledRun.SoftFailureForgotten` | src/maa_auto_panel/scheduler/service.py:639-641 | a run in which an unimportant task fails, only the important one is retried, and the run ends succeeded |
| `RunEndings.EndsFailedExactly` | src/maa_auto_panel/run_manager/manager.py:333-455 | in every execution a finished run is failed exactly if the exception handler took it over, or its loop left with a failure before any stop was requested; so a stopped run fails exactly in the first case or if the stop came after the last test of the flag |
| `RunEndings.StopThenHandlerFails` | src/maa_auto_panel/run_manager/manager.py:431-451 | an execution in which a stop is requested, an exception follows, and the record says failed |
| `RunEndings.StopAfterLeaveFails` | src/maa_auto_panel/run_manager/manager.py:428-430 | an execution in which a stop comes between the last test of the flag and the write, and the record says failed |
| `LifecycleSteps.StopKeepsOutOfCommand` | src/maa_auto_panel/run_manager/manager.py:339-418 | in every execution a run stopped outside its command and not just opening a retry never enters a command or opens a retry of its loop again |
| `LifecycleSteps.DecisionLooks` | src/maa_auto_panel/run_manager/manager.py:400-405 | a stop seen after the callbacks turns a failed retry into a stopped one, gives the run a status if it has none and asks for no other retry |
| `LifecycleSteps.ConclusionLooks` | src/maa_auto_panel/run_manager/manager.py:406-418 | the loop goes on exactly if a retry is wanted, there is room and no stop is requested; else the run gets the status of its finish callback, its decision or its retry |
| `LifecycleSteps.ThreeWritesAreTried` | src/maa_auto_panel/run_manager/manager.py:719-741 | a status is written up to three times; then the loop hands over to the handler, and the handler gives up |
| `LifecycleSteps.ClaimAnswers` | src/maa_auto_panel/run_manager/manager.py:364-390 | granted, waiting, cancelled, refused and shut down each take the thread where the loop goes |
| `LifecycleSteps.StartExactly` | src/maa_auto_panel/run_manager/manager.py:106-131 | a start is refused while closing or while the current run is active, and else makes a running run with a durable record the current one |
| `LifecycleSteps.CrashExactly` | src/maa_auto_panel/run_manager/store.py:115-129 | a crash leaves exactly the records, and recovery exactly those that say running or stopping |
| `RetryRecords.RetryStatuses` | src/maa_auto_panel/run_manager/state.py:62-68 | in every reachable state an open retry is running and a closed one has a final status, and an active run is stopping exactly if a stop was requested |
| `RetryRecords.RetriesAreSealedAsDecided` | src/maa_auto_panel/run_manager/manager.py:392-421 | in every plain execution the retry of the k-th decision is sealed with the status decided, or stopped where a stop turned its failure, or failed where the handler took over; only the last can be open |
| `RetryRecords.ConcludedRetriesAreSealed` | src/maa_auto_panel/run_manager/manager.py:420-430 | once the loop has left without the handler, the retry of every decision is sealed |
| `RetryRecords.SealWritesDecision` | src/maa_auto_panel/run_manager/manager.py:643-665 | sealing gives the thread's own open retry the status decided for it and touches no other |
| `RetryRecords.HandlerSealsAsFailed` | src/maa_auto_panel/run_manager/manager.py:434-443 | the handler seals the retry that is still open as failed |
| `DecidedRuns.EveryDecisionIsReached` | src/maa_auto_panel/run_manager/manager.py:339-430 | for every orderly sequence of decisions within the limit there is an execution that reaches exactly these, seals a retry for each as decided, and records the last one |
| `DecidedRuns.ScheduledRunIsReached` | src/maa_auto_panel/scheduler/service.py:118-190 | so every scheduled run whose last decision ends it is that of an execution, and is recorded as decided |
| `RecordedRun.LastDecisionIsRecorded` | src/maa_auto_panel/run_manager/manager.py:392-430 | in every execution a finished run not taken over by the handler is recorded with the status of its last decision, except that a failure becomes stopped if a stop had been requested by the last look, and a decision to go on ends only by a stop |
| `RecordedRun.ScheduledRunIsRecorded` | src/maa_auto_panel/run_manager/manager.py:530-561 | so for an execution whose decisions are those of a scheduled run, the manager's override included |
| `RecordedRun.ManualRunIsRecorded` | src/maa_auto_panel/run_manager/manager.py:530-561 | so for an execution whose decisions are those of a manual run |
| `RecordedRun.RecordedSoftFailedExactly` | src/maa_auto_panel/scheduler/service.py:118-161 | the live status, and the record, of a scheduled run is soft failed exactly under the condition on its first retry |
| `DailyQuota.ReserveKeptExactly` | src/maa_auto_panel/scheduler/service.py:131-138 | after a slot the day owes no more than the slots left exactly if it owed less before or the task succeeded |
| `DailyQuota.DeferredFailureLeavesSlots` | src/maa_auto_panel/scheduler/policy.py:150-156 | a failure that is not retried leaves more slots, its own included, than the day still owes |
| `DailyQuota.DailyMinimumIsMet` | src/maa_auto_panel/scheduler/policy.py:82-160 | over a whole day with manual runs in between, an important limited task with enough slots gets its minimum, if each of its slots is counted from itself, its slots are not stopped and every cause ends in success |
| `DailyQuota.MinimumIsSafeExactly` | src/maa_auto_panel/scheduler/policy.py:163-168 | for any entries of a day, no honoured day of any plan misses the minimum exactly if no slot of the task lies between an entry of it and the first entry with the same id; otherwise an honoured day that misses it by one is constructed |
| `DailyQuota.StoppedRunBreaksQuota` | src/maa_auto_panel/scheduler/service.py:140-152 | one stopped slot makes no retry cause and the minimum is missed |
| `DailyQuota.RepeatedEntryIdMissesDay` | src/maa_auto_panel/scheduler/policy.py:163-168 | two slots with one entry id: both failures are deferred and the day ends without a success |
| `ManualRun.ManualPlanIsUnfinished` | src/maa_auto_panel/maa/runner.py:83-102 | at every retry of a manual run the plan is exactly the selected tasks that have not succeeded |
| `ManualRun.ManualSuccessIsComplete` | src/maa_auto_panel/maa/runner.py:83-110 | a manual run ends stopped if the manager saw a stop in its last retry, and else succeeds exactly when every selected task succeeded in some retry |
| `ManualRun.CallbackDecides` | src/maa_auto_panel/maa/runner.py:83-127 | what the callback of a manual run plans, counts as succeeded, and makes of the run |
| `ManualRun.RoundsExactly` | src/maa_auto_panel/run_manager/manager.py:333-430 | so for manual runs |
| `RunCallbacks.ScheduledMaaRunCallbacks.EvaluateRetry` | src/maa_auto_panel/scheduler/service.py:118-190 | the callback with its success set and the shared counters makes the specified decision |
| `RunCallbacks.ManualMaaRunCallbacks.EvaluateRetry` | src/maa_auto_panel/maa/runner.py:83-127 | the manual callback makes the specified decision |
| `Results.LogAttribution` | src/maa_auto_panel/maa/results.py:33-105 | over every log results are attributed to planned tasks of their source, in order, none twice |
| `Results.OrderlyResultsExactly` | src/maa_auto_panel/maa/results.py:68-96 | a log that runs a prefix of the plan task by task gives one result per task reached, in order: succeeded after Completed, failed after Error, stopped after Stopped |
| `Results.OrderlyStatuses` | src/maa_auto_panel/maa/results.py:64-66 | after such a log a task has succeeded exactly if it ended by completing, failed exactly if by an error, stopped exactly if by being stopped, and is missing exactly if never reached |
| `Results.FinalStatusExactly` | src/maa_auto_panel/maa/results.py:33-96 | over whole logs a result has the status of the line that opened it, or if that was a start, of the next line that interrupts or is about its source; unfinished if that interrupts or there is none |
| `Results.StatusIsLogged` | src/maa_auto_panel/maa/results.py:163-172 | a result says succeeded, failed or stopped only if the log has such a line of its source |
| `Results.StaysRunningExactly` | src/maa_auto_panel/maa/results.py:33-62 | over whole logs, a result says running after the end exactly if the line that opened it is followed, before any interruption and any end of that source, by another start of the same source |
| `Results.StartedTwiceStaysRunning` | src/maa_auto_panel/maa/results.py:68-80 | a task started again before it ended keeps running for good |
| `Results.MaaTaskResultCollector.NextExpectedTask` | src/maa_auto_panel/maa/results.py:98-105 | the search takes the next planned task of the source and moves past it |
| `Results.MaaTaskResultCollector.ConsumeRawLine` | src/maa_auto_panel/maa/results.py:33-56 | a line of the error stream has the specified effect, any other stream none |
| `Results.MaaTaskResultCollector.Finish` | src/maa_auto_panel/maa/results.py:58-62 | what is still active ends unfinished |
| `Results.MaaTaskResultCollector.StatusOfTasks` | src/maa_auto_panel/maa/results.py:64-66 | the last result of a task counts, and a task without one is missing |
| `Patterns.TokensSpell` | src/maa_auto_panel/logs/templates/model.py:12 | tokens spell the text they were read from |
| `PatternDetails.HoleExactly` | src/maa_auto_panel/logs/templates/model.py:12 | a placeholder is a name in braces, with a colon and one of three kinds if it has one |
| `PatternDetails.FitsExactly` | src/maa_auto_panel/logs/templates/loader.py:527-532 | which pieces of a line a literal, a word, an integer and a text may stand for |
| `PatternDetails.LazyExactly` | src/maa_auto_panel/logs/templates/loader.py:512-532 | a text capture takes as little as it can exactly if another placeholder comes after it |
| `PatternDetails.DigitExactly` | src/maa_auto_panel/logs/templates/model.py:52-59 | every decimal digit has the value its script gives it |
| `Patterns.CompilesExactly` | src/maa_auto_panel/logs/templates/loader.py:512-526 | a pattern compiles exactly when capture names are distinct and have no dots |
| `Patterns.CompilePattern` | src/maa_auto_panel/logs/templates/loader.py:512-532 | the loop reports the first offending name |
| `Patterns.MatchExactly` | src/maa_auto_panel/logs/templates/model.py:52-59 | matching succeeds exactly when some decomposition of the line exists, and finds the one lazy and greedy captures prefer |
| `Patterns.SubstitutionReproducesLine` | src/maa_auto_panel/logs/templates/model.py:52-59 | putting the captures back gives the line exactly if every integer is written plainly; without integer captures always |
| `Patterns.LeadingZeroIsLost` | src/maa_auto_panel/logs/templates/model.py:56-59 | a leading zero does not survive an integer capture |
| `Templates.TolerantRefinesStrict` | src/maa_auto_panel/logs/templates/loader.py:85-125 | tolerant loading reports nothing exactly when strict loading succeeds, and then the templates are equal |
| `Templates.BlockAgrees` | src/maa_auto_panel/logs/templates/loader.py:221-280 | so for every single block |
| `TemplateFields.RuleHeadExactly` | src/maa_auto_panel/logs/templates/loader.py:375-396 | which tables load as rules, key by key: a rule emits unless it says drop, and its text refers only to what it captures, sets or finds among the fields |
| `TemplateFields.RuleWordsExactly` | src/maa_auto_panel/logs/templates/loader.py:395-410 | the tone, lookups, fold role and indent of a rule, and what stands in for them |
| `TemplateFields.RulePartsExactly` | src/maa_auto_panel/logs/templates/loader.py:395-418 | which styles and segments a rule loads with |
| `TemplateFields.LookupExactly` | src/maa_auto_panel/logs/templates/loader.py:305-325 | a lookup is a table of strings |
| `TemplateFields.BoundaryExactly` | src/maa_auto_panel/logs/templates/loader.py:470-482 | which tables load as boundaries, and that one neither reprocesses nor brings a message unless it says so |
| `TemplateFields.BlockWordsExactly` | src/maa_auto_panel/logs/templates/loader.py:174-190 | the words of a block and what stands in for them |
| `TemplateFields.BlockFlagsExactly` | src/maa_auto_panel/logs/templates/loader.py:204-218 | the flags of a block, all off unless set |
| `TemplateFields.BlockExactly` | src/maa_auto_panel/logs/templates/loader.py:191-198 | the title and entry fields of a block refer only to fields and to what its boundaries capture |
| `TemplateFields.FieldExactly` | src/maa_auto_panel/logs/templates/loader.py:283-302 | which tables load as fields |
| `TemplateFields.DocumentExactly` | src/maa_auto_panel/logs/templates/loader.py:67-82 | which documents load strictly, and from which sections |
| `TemplateFields.ItemDiagnostics` | src/maa_auto_panel/logs/templates/loader.py:421-446 | tolerant loading names every rule it drops and every key it ignores, and nothing else |
| `TemplateFields.SectionDiagnostics` | src/maa_auto_panel/logs/templates/loader.py:421-446 | a section of a block that has the wrong shape is dropped whole, and named |
| `TemplateFields.GlobalDiagnostics` | src/maa_auto_panel/logs/templates/loader.py:305-353 | so is a part of the global section that has the wrong shape |
| `TemplateFields.DocumentDiagnostics` | src/maa_auto_panel/logs/templates/loader.py:85-125 | so are a global section that is no table, missing blocks, and unknown keys of the document |
| `Templates.RuleSurvives` | src/maa_auto_panel/logs/templates/loader.py:436-445 | a rule survives exactly if it is a table that loads without its unknown keys |
| `TemplateSurvivors.TemplateIsWhatSurvives` | src/maa_auto_panel/logs/templates/loader.py:85-280 | for every document that loads tolerantly: the global rules, the blocks, and the rules, start and end lists of every block are the in-order sublists of what loads against the surviving fields and lookups |
| `TemplateCrashes.TolerantCrashesExactly` | src/maa_auto_panel/logs/templates/loader.py:85-125 | tolerant loading rejects exactly an unsupported version, and crashes exactly if a list or a table stands where a word is looked up, at a place of the raw document the loader reaches |
| `TemplateCrashes.RuleCrashesExactly` | src/maa_auto_panel/logs/templates/loader.py:375-418 | a rule crashes exactly on a list or table as action, tone, fold role, style tone or segment tone, in the order the loader looks at them |
| `TemplateCrashes.BlockExactly` | src/maa_auto_panel/logs/templates/loader.py:221-280 | a block crashes exactly on a list or table as its status, tone or message tone, in one of its rules, or as the message tone of one of its boundaries |
| `TemplateCrashes.ListActionCrashes` | src/maa_auto_panel/logs/templates/loader.py:383-385 | a document with one rule whose action is a list: the whole load crashes |
| `Templates.LoadRules` | src/maa_auto_panel/logs/templates/loader.py:353-372 | the strict loop stops at the first rule that fails |
| `Templates.TolerateRules` | src/maa_auto_panel/logs/templates/loader.py:421-446 | the tolerant loop keeps what loads and notes what it drops |
| `ManagedParams.EnsureIsIdempotent` | src/maa_auto_panel/config/tasks.py:106-139 | `ensure_managed_metadata` changes nothing in its own result |
| `ManagedParams.InflateAfterProject` | src/maa_auto_panel/config/tasks.py:142-175 | inflating a projection gives what inflating the original gives, failures included |
| `ManagedParams.EditRoundTrip` | src/maa_auto_panel/config/tasks.py:142-175 | inflate after project after inflate is inflate, params and metadata |
| `ManagedParams.NewListSurvives` | src/maa_auto_panel/config/tasks.py:106-175 | a list the panel sees for the first time is stored as a placeholder and comes back for editing as the same list |
| `ManagedParams.EnsureArrays` | src/maa_auto_panel/config/tasks.py:111-116 | the loop gives every unmanaged list parameter its spec |
| `ManagedParams.InflateParams` | src/maa_auto_panel/config/tasks.py:146-158 | the loop fails exactly on a plan value that is a list or an object, and else inflates every managed key |
| `ManagedParams.ProjectParams` | src/maa_auto_panel/config/tasks.py:164-175 | the loop puts a placeholder under every managed key |
| `ManagedValues.StageExactly` | src/maa_auto_panel/maa/stages.py:315-317 | a stage is the text of its value without white space around it; nothing at all means the last one played |
| `ManagedValues.NormalizedExactly` | src/maa_auto_panel/config/tasks.py:265-274 | every item of a stage list that is an object has its value normalized, and all else stays |
| `ManagedValues.EnsuredExactly` | src/maa_auto_panel/config/tasks.py:106-139 | which specs are there afterwards, key by key: what was there stays, only a stage list is normalized; lists, the stage of a Fight task and the plan of an Infrast task get specs of their own |
| `ManagedValues.ShownListExactly` | src/maa_auto_panel/config/tasks.py:151-154 | a list is shown value by value, a stage list with its values normalized |
| `ManagedValues.ShownPlanExactly` | src/maa_auto_panel/config/tasks.py:155-157 | a plan is shown as the automatic one if it says so in one of five ways, and else as its text |
| `ManagedValues.InflateFailsExactly` | src/maa_auto_panel/config/tasks.py:142-158 | opening a task for editing fails exactly if a plan spec holds a list or an object as its value |
| `ManagedValues.StoredExactly` | src/maa_auto_panel/config/tasks.py:161-175 | the task file holds a placeholder under every key with a spec of a known kind, and else the parameter |

## Left out

- The unbounded retry loop of `acquire` is modelled pass by pass; that a waiting run is eventually granted is not claimed.
- The retry loop of a run thread is a program counter of the step system instead of a loop, because steps of other threads come between any two of its statements.
- Retry limits are taken as given; the program brings them into its range of 1 to 50 before a run starts.
- A retry whose process cannot be started ends its run as failed without asking the callback; the step system has it (`NoResult`), the rounds of scheduled and manual runs do not.
- RecordedRun.LastDecisionIsRecorded: for runs whose callbacks leave decisions as they are, as those of scheduled and manual runs do; a finish callback or an after-retry callback that replaces a decision is a step of the system but not of this theorem.
- Callbacks of one waiting pass are a map, not the ordered list the coordinator calls them in.
- Every lease has both preemption callbacks, as every run the manager starts does.
- Subprocesses, signals, `select` and UTF-8 decoding: process output is a sequence of character chunks.
- The diagnostic copies of output and events written to log files.
- Files and JSON encoding: a durable write happens whole or not at all; timestamps of records are numbers.
- Run records keep id, status, start time and metadata; titles, artifacts, log references and owned files are not part of this model.
- The per-run history file behind `finish_run` is a write that may fail after the record was written.
- In the lifecycle the log of a retry is the sequence of texts appended to it; the log pipeline is modelled on its own.
- HTTP routes, event-stream framing, keep-alives and React components.
- A snapshot's run fields other than id, status, retry count and stop flags; two values that differ only as Python `1` and `True` do are distinct here.
- The parsing of the version and cursors a resuming client sends.
- What preprocessing and the translation engine make of a line, its text, tone and edits and the name of a block it starts, is given with the line; the theorems about templates hold whatever it is.
- What a log session holds after a hook has failed: `HooksCrashExactly` says when one does, and the other theorems about sessions speak of sessions in which none has.
- Styles, segments, titles, times and rendered texts of log entries, and their tones beyond what they do to a status; the translation engine is part of what hooks decide.
- A hook that edits another block's entry, or an entry directly beyond its messages, lines, status and closed flag.
- Log pipeline source state is kept in one table per field instead of one object per source; entries are shared objects as in the program.
- The regular expression that reads time, level and body off a maa-cli line: the collector starts from the parsed event.
- Result rows are a list with positions for the active ones instead of shared dictionaries; times and raw lines are dropped.
- Time zones and the computation of the game day: entries come sorted and a day has one key; a run that crosses the reset is not modelled.
- An enabled slot the scheduler misses because another run was active at its minute.
- Pruning of old days and rewriting of trigger records at startup.
- Two counters of a task that are not integers on disk.
- DailyQuota.DailyMinimumIsMet: assumes that no slot of the task is stopped and that each of its slots is counted from itself, because without either it is false, as `StoppedRunBreaksQuota` and `MinimumIsSafeExactly` show.
- LifecycleTheorems.MutualExclusion: speaks of the main command only, because scripts before a run start before its resources are claimed.
- The loader loops for fields, lookups, boundaries and blocks have the shape of those for rules and are modelled as functions only.
- Python's limit on the number of digits `int` accepts in an integer capture.
- Resolving managed parameters at run time, which asks the stage and infrastructure services.
- Floating-point numbers among task parameters, and the text form of lists and objects, which is an arbitrary function.
- JSON-schema validation, notifications, updates and network code.
