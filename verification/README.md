# Proofs about the Roborock bridge

A Dafny model of the parts of the bridge where state, timing and arithmetic are hardest to get right, with
proofs of what they promise. `dafny verify dfyconfig.toml` checks everything.

| files | what they model |
|---|---|
| `UpdateHost`, `DockerEngine`, `UpdateRequests`, `UpdateSafety`, `UpdateService`, `UpdateRecovery` | the transactional updater: accepting a request, replacing the container under a write-ahead journal, rolling back, recovering after a crash |
| `LoxoneStatus`, `ActivityLog`, `Correlation`, `ActivityTracker`, `CommandCoordinator` | commands and robot events: the tracker, the dispatch goroutine, the confirmation timer and the robots' reports in any interleaving |
| `MapSpans`, `RoomOutline`, `CurrentRoom`, `DrawLine` | the map: run-length spans, room outlines and centres, the robot's room, line drawing |
| `Watchdog`, `RestartGuard` | health, escalation, and the limit on restarts that outlives the process |
| `DirectQueue`, `QueuePairs`, `QueueAlone`, `QueueOutlook`, `QueueSettling`, `Synchronizer` | the Direct HTTP queue with its success cache, retries and resends: the steps, what they do to which robot and field, how it comes to rest, what a key ends with, and the fields |
| `Slug`, `SlugWords`, `StableSlugs`, `SlugHistory` | URL-safe names, their persistent allocation, and what becomes of them over calls, failing saves and restarts |
| `BlockCodec`, `WireProtocol`, `WireLayout` | the encrypted binary messages |
| `Common`, `Text` | shared datatypes and string operations |

How the world around the program is modelled:

- **The updater's machine** (`UpdateHost.Host`) is the set of containers and the three files of the updater.
  Every change to them is recorded in a history, so a crash is the history cut off after any change. A call
  to the container engine takes effect, is refused without effect, or takes effect while its reply is lost;
  `faults` counts the last two. Writing the journal may fail in the same ways. Writing the operation and the
  used IDs, and deleting the journal, succeed, as the program ignores errors there.
- **Locks**: what runs under one lock is one method call. `CommandCoordinator.RunAny` and
  `Synchronizer.RunAny` take any sequence of such steps, which covers every interleaving of the goroutines,
  timers and callbacks.
- **Time** is an integer parameter. Where a result needs a clock that does not go back, it says so.
- **Ciphers and checksums** are function parameters. The one law assumed of the block cipher is that
  decryption undoes encryption; where the reverse is needed it is stated.

Facts the proofs brought up:

- Recovery of an interrupted update needs an operation that started with no journal on disk, and a crash before
  the previous container is deleted. Both limits are reached by runs of the code: a successful update killed
  right after the deletion loses its service (`UpdateRecovery.CrashedAfterDeletion`); killed right after it
  reported success it leaves a stale entry, and the next operation that is killed loses the running service
  (`UpdateRecovery.CrashedAfterSuccess`).
- A service that is not running cannot be updated, since the engine answers 304 to stopping it
  (`UpdateService.ObstacleToSwap`); the attempt ends with it started again.
- The program's own README, lines 98-101, describes the backup as taken before the image is pulled;
  app/updater/service.go:261-273 pulls first. The model follows the code.
- The program's own README, lines 539-545, says that the watchdog exits only when a loop or queue stays blocked
  for the configured threshold. The code counts from the start of the issue, whatever it was
  (`Watchdog.ExitAfterLiveIncident`); which runs keep the documented rule is `Watchdog.KeepsRuleIff`.
- A room's outline can lack horizontal edges (`RoomOutline.OutlineCanMissBoundaries`), and exactly when is
  `RoomOutline.HorizontalEdgesCompleteIff`.
- A Direct HTTP update can be lost although no push of it failed: dropped while another value of its key waits
  (`Synchronizer.UpdateCanBeLost`) or is in flight (`Synchronizer.UpdateCanBeLostInFlight`), or replaced by a
  late retry (`Synchronizer.UpdateCanBeLostToRetry`) or by what a resend has read before it
  (`Synchronizer.UpdateCanBeLostToResend`). Exactly when is `QueueSettling.UpdateSettlesIff`. A resend that the
  program is bound to start afterwards, because the connection was lost, makes up for a dropped update.
- A slug whose save failed is forgotten by a restart although a later call succeeded
  (`SlugHistory.UnsavedIsForgotten`); exactly when a slug is remembered is `SlugHistory.RememberedIff`. The
  fallback name "robot" is never used, because a slugified name is never empty (`Slug.SlugifyFixesSlugs`).
- A message whose payload is longer than 65519 bytes is never read back as sent
  (`WireProtocol.RoundTripIff`).

## Model

| member | source | states |
|---|---|---|
| UpdateRecovery.SurviveCrashes | app/updater/service.go:140-330 | one operation on a clean machine, killed after any change from the acceptance of the request to the deletion of the old container, its recovery killed any number of times: at the end the stage is terminal (failed if it was interrupted), and the containers are as at the start with the previous one running if it was stopped, or a failed rollback is reported and its journal kept; never the latter if the last recovery met no failing call |
| UpdateRecovery.OperateAndCrash | app/updater/service.go:210-305 | after a crash at any recorded change of the run, the two writes of its acceptance included, and before that deletion, the machine is recoverable: wherever the containers differ from the start the journal names the previous instance |
| UpdateRecovery.CrashWhileRecovering | app/updater/service.go:131-165 | dying in the middle of recovery, any number of times, keeps the machine recoverable |
| UpdateRecovery.RecoverForGood | app/updater/service.go:131-165 | an uninterrupted recovery settles the machine or reports that its rollback failed |
| UpdateRecovery.CalmRestores | app/updater/service.go:140-165 | a recovery in which no call fails gives back what the operation started from |
| UpdateRecovery.CrashedAfterDeletion | app/updater/service.go:300-305 | a run that succeeds passes a state from which an undisturbed recovery removes the new service as well and reports a failed rollback |
| UpdateRecovery.CrashedAfterSuccess | app/updater/service.go:319-330 | a run that succeeds passes a state with its success and its journal on disk; killed there, and killed again once a later operation is accepted, it loses the running service |
| UpdateRecovery.StaleJournalLosesTheService | app/updater/service.go:131-157 | on every machine at rest whose journal names an instance that is gone: an accepted operation that is killed at once is undone into having no service |
| UpdateService.Service.constructor | app/updater/service.go:124-138 | what a new process does to the machine: nothing after a terminal stage, otherwise exactly the rollback the journal asks for, through recoverable states only |
| UpdateService.Service.RecoverInterrupted | app/updater/service.go:140-165 | the same for the recovery alone: failed at the end, rolled back if a journal entry names an instance, rollback error reported exactly when it failed; which of the three errors is reported |
| UpdateService.Service.Start | app/updater/service.go:173-224 | a request is refused for reuse exactly when its ID is among the last fifty ever accepted, and otherwise for the first check it fails; refusing changes nothing; accepting remembers the ID first and then the operation; accepted exactly if all checks pass, nothing runs and the ID is not one of those fifty |
| UpdateRequests.RememberId | app/updater/service.go:211-216 | the window of fifty IDs and the set stay in step with the whole history |
| UpdateRequests.CheckTells | app/updater/service.go:174-193 | which requests pass, spelled out on the trimmed texts, and which of the five refusals the others get |
| UpdateRequests.AllowedTagIff | app/updater/service.go:21 | the tags: edge, latest, one number, two with a dot, or v and three with dots |
| UpdateService.Service.Run | app/updater/service.go:226-305 | every operation ends; success means backup, health and artifact were observed, the new container runs under the service name and the old one is gone; a failure without rollback error leaves the containers as they were, and after an attempt that had to be undone with the previous one running; stages follow the declared edges; where no call fails the reported error is exactly the first obstacle; each early error says what was wrong, success says that there was enough space, the registry answered, the image was pulled, the backup made, a poll healthy and the artifact expected, and where no call fails success is exactly all of that with a running service under a name that can be parked |
| UpdateService.Service.Finish | app/updater/service.go:319-330 | the terminal stage is written before the journal is deleted, and the journal is kept after a rollback error |
| UpdateService.Service.Validate | app/updater/service.go:291-304 | from an activated replacement: kept exactly when it is found healthy and reports the expected artifact, if no call fails |
| UpdateService.Service.Swap | app/updater/service.go:285-289 | from a journaled replacement, with any failure rolled back |
| UpdateSafety.StagesClimb | app/updater/service.go:226-330 | over a whole run stages never go back, none is skipped on the way to validating, rollback comes only after restarting or validating and success only after validating |
| UpdateSafety.JourneyOrderly | app/updater/docker.go:104-137 | no sequence of container steps of an update leaves the recoverable states |
| UpdateSafety.RollbackRestores | app/updater/docker.go:196-216 | from anything an attempt can leave behind, a completed rollback gives back the containers of the start with the previous one running |
| UpdateSafety.RollbackRestoresIffPreviousExists | app/updater/docker.go:196-216 | on any machine, a completed rollback puts the previous instance back under the service name exactly when it still exists, and touches no other container |
| UpdateSafety.RollbackTwiceChangesNothing | app/updater/docker.go:196-216 | a rollback after a completed rollback changes nothing |
| DockerEngine.Activate | app/updater/docker.go:104-137 | passes only through recoverable container states whatever fails; done means stopped, parked, created and started; where no call fails it is done unless the previous one cannot be stopped or renamed |
| DockerEngine.Rollback | app/updater/docker.go:196-216 | keeps recoverability at every step, leaves the rolled-back containers when it succeeds or no call fails, and then succeeds exactly when the previous instance exists |
| DockerEngine.RolledBackInTwo | app/updater/docker.go:196-216 | clearing the name and restoring the instance compose to the whole rollback |
| DockerEngine.WaitHealthy | app/updater/docker.go:139-158 | a healthy verdict is about the running holder of the service name, and where no call fails it is the first verdict among the polls |
| UpdateRequests.ArtifactMatchesIff | app/updater/docker.go:183-193 | what is taken for the expected artifact: the version equal but for one leading "v", and no commit expected or one commit abbreviating the other, whatever case and surrounding space |
| DockerEngine.Finalize | app/updater/docker.go:218-220 | deletes the previous container or nothing |
| LoxoneStatus.AcceptedIsUnconfirmed | app/roborock/loxone_activity.go:264-405 | the confirm, already-satisfied and incompatible tables agree: of the commands not refused, those already satisfied are exactly those whose effect shows |
| LoxoneStatus.ConfirmsTells | app/roborock/loxone_activity.go:264-304 | what of a status confirms each command, in the state texts of the robot |
| LoxoneStatus.IncompatibleTells | app/roborock/loxone_activity.go:336-368 | what of a status refuses each command, in those texts |
| LoxoneStatus.CanonicalTells | app/roborock/loxone_activity.go:328-334 | a command text is compared part by part, trimmed and in lower case |
| ActivityTracker.RefusalTells | app/roborock/loxone_activity.go:91-127 | what a submission is refused for: offline, not parsed, repeated within the anti-rebound time, no status, or not now, the first of these |
| ActivityLog.RenderInjective | app/roborock/loxone_activity.go:98 | command IDs with different time or number have different texts |
| ActivityLog.CompletionNeedsOpening | app/roborock/loxone_activity.go:203-235 | between two closings of a cleaning cycle, the second a completion, there is a start, pause or resumption |
| ActivityLog.StartNeedsClosing | app/roborock/loxone_activity.go:203-235 | between an opening of a cycle and a later start there is a completion or an error |
| Correlation.StatusEventsFollow | app/roborock/loxone_activity.go:203-235 | the events of any status change are acceptable where the cycle stands and leave it where the device says |
| Correlation.StatusEventsTell | app/roborock/loxone_activity.go:195-235 | exactly which change of status gives which event, in the state texts and error codes of the robot, and whether a cycle is open after it |
| Correlation.KeptTimesTell | app/roborock/loxone_activity.go:112-120 | the pruned table of times refuses a repetition exactly when the whole history of accepted commands does |
| Correlation.PendingMeansOpen | app/roborock/loxone_activity.go:71-176 | of the dispatched commands the pending ones are exactly those whose log is still open |
| ActivityTracker.Tracker.BeginCommand | app/roborock/loxone_activity.go:91-135 | the decision and its reason as a function of the last status and the history of accepted commands; a new ID; pending exactly if dispatched |
| ActivityTracker.Tracker.UpdateStatus | app/roborock/loxone_activity.go:180-239 | the first status is a silent baseline; after it each of the six events is published exactly if the state texts, error codes and the open cycle say so, in a fixed order and once, and exactly the pending commands whose effect shows now, and did not before, are completed |
| ActivityTracker.Tracker.UpdateAvailability | app/roborock/loxone_activity.go:71-87 | going offline fails exactly the device's pending commands, one activity each |
| ActivityTracker.Tracker.UpdateRoom | app/roborock/loxone_activity.go:241-262 | a room is entered exactly when a cleaning robot with a status is in another known room |
| ActivityTracker.Tracker.MarkRunning | app/roborock/loxone_activity.go:137-146 | a pending command gets one running entry, any other none |
| ActivityTracker.Tracker.MarkFailed | app/roborock/loxone_activity.go:148-159 | a pending command ends with the reason, any other is left alone |
| ActivityTracker.Tracker.MarkCompleted | app/roborock/loxone_activity.go:161-172 | a pending command is completed, any other is left alone |
| ActivityTracker.Tracker.ExpireCommand | app/roborock/loxone_activity.go:174-176 | a pending command fails with a confirmation timeout |
| CommandCoordinator.RunAny | app/roborock/command_coordinator.go:63-141 | over any interleaving of the given steps, each with the effect of its step on jobs, timers, commands in flight, devices, logs, events and accepted commands: every log is a life (failed; or accepted, at most one running entry, ended at most once), an open command is pending and its timer has not fired, the effect of a pending command is false in the last status of its robot, every robot's events are acceptable, and no command is accepted again within the anti-rebound time while the clock does not go back, which it does not if the submissions come in the order of their times |
| CommandCoordinator.Coordinator.EveryLife | app/roborock/command_coordinator.go:63-101 | dispatched commands are the disjoint union of pending and ended ones, and none is pending after its timer fired, its dispatch failed, or it was a locate command sent |
| CommandCoordinator.Coordinator.QuietMeansEnded | app/roborock/command_coordinator.go:78-129 | once every goroutine is through and no timer runs, every command has ended and none is in flight |
| CommandCoordinator.Coordinator.Begin | app/roborock/command_coordinator.go:63-73 | the new log is failed, accepted and completed, or accepted, as the submitter is told; only the last has a job |
| CommandCoordinator.Coordinator.DispatchFails | app/roborock/command_coordinator.go:85-90 | the command's log ends in failed if it was open; no other log changes |
| CommandCoordinator.Coordinator.DispatchSucceeds | app/roborock/command_coordinator.go:91-93 | the log gets a running entry if it is open; a locate command is to be finished |
| CommandCoordinator.Coordinator.FinishLocate | app/roborock/command_coordinator.go:94-98 | the log of a locate command ends in completed if it is open |
| CommandCoordinator.Coordinator.TimerFires | app/roborock/command_coordinator.go:78-82 | the log ends in failed if it is still open, wherever the dispatch stands |
| CommandCoordinator.Coordinator.CompleteDispatch | app/roborock/command_coordinator.go:124-129 | the command is in flight no more |
| CommandCoordinator.Coordinator.Diagnose | app/roborock/command_coordinator.go:109-122 | the number of jobs between registration and completion, and the earliest start among them |
| CommandCoordinator.SubmissionTells | app/roborock/command_coordinator.go:163-180 | accepted exactly if nothing speaks against the command, the reason otherwise, completed exactly if its effect shows already |
| MapSpans.RoomPixels | app/roborock/map.go:298-320 | which pixel values are rooms, and of which room, and which are walls, floor and empty |
| MapSpans.ClassAtTells | app/roborock/map_vector.go:85-100 | which pixel a cell of the map shows: rows are counted from the bottom |
| MapSpans.EncodeSpans | app/roborock/map_vector.go:85-127 | every list holds, in order, exactly the maximal runs of its class |
| MapSpans.CoveredExactlyOnce | app/roborock/map_vector.go:85-127 | a cell lies in the list of its class and no other, and in exactly one span of it |
| MapSpans.DecodeRoundTrip | app/roborock/map_vector.go:85-127 | reading the spans back gives the classified image |
| RoomOutline.ComputeOutline | app/roborock/map_vector.go:194-240 | the loops compute the outline function of the room's cells |
| RoomOutline.VerticalEdgesExact | app/roborock/map_vector.go:228-236 | every vertical unit boundary of the room is emitted once, and no other vertical edge |
| RoomOutline.HorizontalEdgesSound | app/roborock/map_vector.go:207-227 | a horizontal edge lies only on boundaries of the room |
| RoomOutline.HorizontalEdgesCompleteIff | app/roborock/map_vector.go:207-227 | all horizontal boundaries are drawn exactly when along every span the free cells of the row above and below come first |
| RoomOutline.HorizontalEdgesOnce | app/roborock/map_vector.go:207-227 | no horizontal unit is drawn twice |
| RoomOutline.RoomOfImage | app/roborock/map_vector.go:85-127 | the spans of a room cover exactly the pixels classified as that room, in the order and without the overlaps the outline relies on |
| RoomOutline.OutlineTracesRoom | app/roborock/map_vector.go:194-240 | from the image: the outline has every vertical side of the room's pixels once and no other, and of their horizontal sides none twice and nothing else |
| RoomOutline.OutlineCanMissBoundaries | app/roborock/map_vector.go:207-227 | a room of three cells whose outline lacks a boundary |
| CurrentRoom.BuildRooms | app/roborock/map_vector.go:130-152 | every room once, with its spans, centre and outline, in any order |
| CurrentRoom.CenterInsideRoom | app/roborock/map_vector.go:131-141 | a room's centre lies in every box that holds the room |
| CurrentRoom.CenterIsMean | app/roborock/map_vector.go:131-141 | it is the mean of the middles of its pixels, rounded down |
| CurrentRoom.FindCurrentRoom | app/roborock/current_room.go:30-48 | the first room with a span that covers the robot, with its configured or default name, and none exactly if there is no such room |
| CurrentRoom.PixelUnder | app/roborock/map_vector.go:167-171 | the column and row of a position: the one square of 50 millimetres it lies in, rounded towards 0 |
| CurrentRoom.VectorRooms | app/roborock/map_vector.go:71-152 | from the image to the rooms, every outline tracing the pixels of its room |
| CurrentRoom.LocateRobot | app/roborock/map_vector.go:71-190 | from image and millimetres to answer: room r exactly when the 50 millimetre square under the robot, on either side of 0, is in the image and its pixel is 8r + 7 with r from 1 to 30, whatever the order of the rooms; the name configured for it, or its default |
| DrawLine.DrawLine | app/roborock/map_render.go:121-152 | paints exactly the points of the rounded line that are in the image and nothing else, and stops at the end point |
| DrawLine.LineEnds | app/roborock/map_render.go:135-138 | the line reaches its end after as many steps as the longer axis is long, and not before |
| DrawLine.HalfPixel | app/roborock/map_render.go:121-152 | no point is more than half a pixel off the ideal line or beyond an end point |
| DrawLine.LineConnected | app/roborock/map_render.go:139-150 | consecutive points touch |
| DrawLine.TestsRound | app/roborock/map_render.go:139-150 | the incremental tests advance the shorter axis exactly when rounding does |
| Watchdog.ReadyMeansNoRecovery | app/integration/watchdog/watchdog.go:78-130 | ready is exactly: started and no component failing; status follows live and ready; a ready bridge needs no recovery and a dead one does |
| Watchdog.FailingTells | app/integration/watchdog/watchdog.go:90-114 | what puts each part among the reasons |
| Watchdog.LiveTells | app/integration/watchdog/watchdog.go:90-117 | what makes a report live, and what asks for recovery |
| Watchdog.NewsIsGood | app/integration/watchdog/watchdog.go:78-130 | newer activity never makes a report worse |
| Watchdog.NoNewsIsNoBetter | app/integration/watchdog/watchdog.go:78-130 | and while nothing is heard it never gets better |
| Watchdog.Monitor.Step | app/integration/watchdog/watchdog.go:235-302 | the monitor's fields follow the escalation function of all readings so far, the action is the one due, and an exit is recorded exactly if the guard has room |
| Watchdog.IncidentKeepsTimer | app/integration/watchdog/watchdog.go:245-256 | short healthy streaks never restart the timer of an issue |
| Watchdog.OncePerIncident | app/integration/watchdog/watchdog.go:256-293 | within an incident the actions fire at most once each, in increasing order |
| Watchdog.NotBeforeThreshold | app/integration/watchdog/watchdog.go:252-293 | no action before its threshold from the step that opened the issue; exit only in a step that is not live |
| Watchdog.NoStageSkipped | app/integration/watchdog/watchdog.go:258-278 | with ascending thresholds the stage before was fired in the same incident |
| Watchdog.IssueClosesIff | app/integration/watchdog/watchdog.go:245-252 | an issue closes exactly at the end of a full healthy streak |
| Watchdog.ExitDueIff | app/integration/watchdog/watchdog.go:277-287 | the exact condition for an exit to be due |
| Watchdog.StageIff | app/integration/watchdog/watchdog.go:252-293 | the stage an issue has reached, from its readings alone: level n exactly if levels 1 to n were due one after the other |
| Watchdog.ExitIffPattern | app/integration/watchdog/watchdog.go:252-293 | the exits of a run, from its readings alone |
| Watchdog.KeepsRuleIff | app/integration/watchdog/watchdog.go:252-293 | on a clock that does not go back, every exit due in a run comes after the restart threshold without a live reading, as documented, exactly if no issue shows a live reading and then completes the pattern of an exit before the threshold has passed again |
| Watchdog.ExitAfterLiveIncident | app/integration/watchdog/watchdog.go:252-287 | a run that was live until the step that asks for the exit, which breaks that rule |
| Watchdog.RunLives | app/integration/watchdog/watchdog.go:235-302 | over any number of given processes that reload the guard, the exits are exactly those due by the readings of each process and allowed by the exits of all, and every interval as long as the window holds at most the allowed number of exits |
| RestartGuard.RestartGuard.Allow | app/integration/watchdog/watchdog.go:369-374 | allows exactly while fewer than the maximum are recent, and one more then keeps the bound |
| RestartGuard.RestartGuard.Prune | app/integration/watchdog/watchdog.go:414-423 | keeps exactly the recent entries, in order |
| RestartGuard.RestartGuard.Record | app/integration/watchdog/watchdog.go:376-381 | the saved log is the kept one with the new time |
| RestartGuard.PruneRemembers | app/integration/watchdog/watchdog.go:414-423 | the pruned log still determines what any later window holds |
| RestartGuard.RestartBound | app/integration/watchdog/watchdog.go:369-381 | a history in which entries max apart are further apart than the window has at most max entries in any closed window |
| RestartGuard.BoundedIsSpread | app/integration/watchdog/watchdog.go:369-381 | and conversely |
| Synchronizer.RunAny | app/loxone/direct/synchronizer.go:76-230 | over any interleaving the fields go through exactly the states of the step function, no request is pushed more than maxRetries + 1 times, the cache is what was delivered last for every key not being recorded, and no pending value is stranded |
| Synchronizer.Synchronizer.Offer | app/loxone/direct/synchronizer.go:142-159 | the section under the lock stores what the state function says |
| Synchronizer.FirstKey | app/loxone/direct/synchronizer.go:182-191 | the key taken is the first in sort order |
| Text.BeforeTells | app/loxone/direct/synchronizer.go:190-191 | the sort order: a text comes before its extensions, and before texts with a greater character at the first difference |
| QueuePairs.SameKeyIff | app/loxone/direct/synchronizer.go:143 | values share a key exactly if they are for the same field of the same robot |
| QueuePairs.StepKeepsOthers | app/loxone/direct/synchronizer.go:142-230 | no step for one robot and field touches what is pending, recorded or delivered for any other |
| QueuePairs.UpdateStoredIff | app/loxone/direct/synchronizer.go:142-159 | an update is stored under its robot and field unless it is unforced and the value is the last one recorded for them or waits for them already |
| QueuePairs.RetryStoredIff | app/loxone/direct/synchronizer.go:142-159 | a retry is stored only where no other value waits, and not if its value is the last one recorded |
| QueuePairs.DeliveredUnderPair | app/loxone/direct/synchronizer.go:201-207 | what a push delivers and its recording notes is the value of that robot and field |
| DirectQueue.NextIsSound | app/loxone/direct/synchronizer.go:76-230 | every step keeps each request in one place with its pushes counted, the cache in step with what was delivered, and every pending value attended |
| DirectQueue.RunIsSound | app/loxone/direct/synchronizer.go:76-230 | and so does every run |
| DirectQueue.QuietMeansDelivered | app/loxone/direct/synchronizer.go:167-230 | at rest but for planned retries and resends nothing is pending and the cache is exactly what was delivered |
| QueueAlone.StopsSoon | app/loxone/direct/synchronizer.go:76-230 | left alone with pushes that succeed, the resend of a returning connection included, no run is longer than a bound on what is left to do |
| QueueAlone.ComesToRest | app/loxone/direct/synchronizer.go:76-230 | and from every state there is such a run to rest |
| QueueOutlook.SettledStays | app/loxone/direct/synchronizer.go:76-230 | nothing that can happen to a queue left alone, in any order, unsettles a key |
| QueueSettling.SettlesIff | app/loxone/direct/synchronizer.go:76-230 | left alone with pushes that succeed, every interleaving of the remaining steps to rest, those of resends under way and of the one a returning connection starts included, ends a key with the value exactly in the settled states, a condition on what is pending, in flight, cached, planned, still to be offered and to be read |
| QueueSettling.UpdateSettlesIff | app/loxone/direct/synchronizer.go:76-230 | an update is what its key ends with, in every such run, exactly if two things hold. Nothing still to come can leave another value behind: no planned retry of the key has one and no resend under way offers one last; where a resend is bound to follow, that resend must read the value, and one such retry or offer does no harm if it alone brings the connection back. And, unless a resend is bound to follow, the update does not repeat, unforced, the last recorded delivery while another value is pending, or in flight or delivered with no resend and no retry sure to outdo it |
| Synchronizer.UpdateCanBeLost | app/loxone/direct/synchronizer.go:145-148 | a run from the start in which an update is dropped while another value is pending |
| Synchronizer.UpdateCanBeLostInFlight | app/loxone/direct/synchronizer.go:145-148 | and one in which the other value is in flight |
| Synchronizer.UpdateCanBeLostToRetry | app/loxone/direct/synchronizer.go:205-228 | and one in which an update, delivered and sent again by the resend, is replaced by a late retry |
| Synchronizer.UpdateCanBeLostToResend | app/loxone/direct/synchronizer.go:76-90 | and one in which a delivered update is replaced by a resend that read the state before it |
| Slug.SlugifyFixesSlugs | app/roborock/slug.go:12-22 | the result is always a well-formed slug, and a text is left alone exactly when it is one |
| Slug.SlugifyKeepsLetters | app/roborock/slug.go:12-22 | the slug spells the name's letters and digits in order |
| SlugWords.SlugifyJoinsWords | app/roborock/slug.go:12-22 | the slug is the words of the name, parted by spaces and dashes, in lower case and joined by single dashes, or "device" |
| StableSlugs.FirstFree | app/roborock/stable_slugs.go:58-65 | ends, and picks the smallest free candidate: the base, or the base with the smallest number from 2 on that is free |
| StableSlugs.TriedAreMany | app/roborock/stable_slugs.go:63-65 | the pigeonhole bound: no more candidates can be taken than slugs are in use |
| StableSlugs.StableSlugStore.Resolve | app/roborock/stable_slugs.go:39-78 | keeps every assigned slug, keeps the table injective, assigns only to listed devices without one, each the smallest slug free at its turn; saved exactly when something changed and saving worked, an error exactly when it did not |
| SlugHistory.RememberedIff | app/roborock/stable_slugs.go:66-77 | over any calls with any saves failing, a slug assigned by a call is in the file at the end exactly if that call or a later one that assigned something was saved |
| SlugHistory.InStepIff | app/roborock/stable_slugs.go:66-77 | the file equals the table at the end, and holds every slug given, exactly if no call assigned one or the last that did was saved |
| SlugHistory.ResolveCalls | app/roborock/stable_slugs.go:24-78 | any calls on one store that starts from a file: what they return, what the table becomes and what the file holds |
| SlugHistory.LiveThrough | app/roborock/stable_slugs.go:24-78 | any number of processes, each starting from the file the one before left |
| SlugHistory.SlugsStandForKeys | app/roborock/stable_slugs.go:24-78 | over calls and restarts, with lists reordered, two slugs are equal exactly when the keys are, as long as every process in between had its last assignment saved |
| SlugHistory.SlugsStandForIds | app/roborock/stable_slugs.go:51-71 | and for robots that have an ID exactly when their trimmed IDs are, whatever their names, product IDs and places |
| SlugHistory.SlugsStandForEntries | app/roborock/stable_slugs.go:53-55 | two entries of one list without an ID never share a slug |
| StableSlugs.SlugsTellIdsApart | app/roborock/stable_slugs.go:51-71 | the same for the lists of one store |
| Text.TrimSpaceTells | app/roborock/stable_slugs.go:52 | trimming takes away all white space at both ends and nothing else |
| Text.DecimalReads | app/roborock/stable_slugs.go:64 | the numeral of a suffix stands for its number, without leading zeros |
| StableSlugs.SlugsTellDevicesApart | app/roborock/stable_slugs.go:51-71 | in an injective table devices share a slug only if they share a key |
| SlugHistory.UnsavedIsForgotten | app/roborock/stable_slugs.go:72-77 | a failed save is not made up for by the next successful call |
| BlockCodec.PadInverse | app/roborock/crypto.go:37-59 | on whole blocks, unpadding succeeds with a text exactly when the data is that text padded |
| WireLayout.PadTells | app/roborock/crypto.go:37-41 | the padding, byte by byte |
| BlockCodec.Unpad | app/roborock/crypto.go:44-59 | the loop decides exactly the padding condition |
| BlockCodec.OnBlocks | app/roborock/crypto.go:68-75 | the buffer loop applies the cipher to every block in order |
| WireProtocol.ShuffleTimestamp | app/roborock/crypto.go:18-26 | the buffer loop permutes the hexadecimal digits by the fixed pattern |
| WireProtocol.KeyTextInjective | app/roborock/crypto.go:18-34 | different times or device keys never give the same text to hash |
| WireLayout.KeyTextTells | app/roborock/crypto.go:18-34 | the text to hash, character by character: the digits of the time in their order, the device key and the salt |
| WireProtocol.DecryptInverse | app/roborock/crypto.go:62-95 | decryption undoes encryption for any lawful block cipher |
| WireProtocol.RoundTripIff | app/roborock/protocol.go:101-168 | an encoded message followed by anything decodes to its header and payload exactly when the payload has at most 65519 bytes |
| WireProtocol.OpensExactlySealed | app/roborock/protocol.go:131-168 | the decoder accepts exactly what starts with the frame of an encrypted payload |
| WireProtocol.OpensEmpty | app/roborock/protocol.go:157-160 | a frame with an empty body, and only that, has no payload |
| WireLayout.MessageTells | app/roborock/protocol.go:96-128 | where every field of a sent message lies, how its blocks are encrypted and what its checksum covers |
| WireLayout.BytesTell | app/roborock/protocol.go:107-112 | numbers are sent with the highest byte first |
| WireLayout.RefusalsTell | app/roborock/protocol.go:132-153 | which messages are too short, truncated or of another checksum |
| WireProtocol.Codec.Encode | app/roborock/protocol.go:96-128 | the buffers hold the specified message, under the next sequence number modulo 2^32 |
| WireProtocol.Codec.Decode | app/roborock/protocol.go:131-168 | follows the decoding function, error by error |

## Left out

- Transport and formats: HTTP, MQTT, the Docker API's JSON, files as bytes, PNG and vector-map JSON, map parsing; the model starts from parsed values and ends at values to be sent.
- AES, MD5 and CRC-32 themselves, the CBC mode of map data, and the request tracker of app/roborock/protocol.go.
- Timestamps of operations and activities, error texts of the updater (a failure is named, not worded), the text of robot errors, and failure classes of submissions.
- Publication order: what the tracker returns is published after its lock is released, so claims are about the order of the tracker.
- Device records of the tracker are values in its map, not separate objects; no reference to one leaves the lock. The message sequence counter is a field of one codec rather than a process-wide atomic.
- The checks a submission makes against the device's inventory before the tracker sees it come in as the parse error.
- UpdateRecovery.SurviveCrashes: starts with no journal on disk and ends before the previous container is deleted, because the code gives no more; both limits are reached by runs (CrashedAfterDeletion, CrashedAfterSuccess).
- QueueSettling.UpdateSettlesIff: speaks of what follows if no further request comes and no further push fails, and if the states and installation values that resends read stay as they are.
- UpdateHost.Host.WriteOperation: always succeeds, as do the writes of the used IDs and the watchdog's saves, because the program ignores their errors.
- Of the Direct HTTP queue, the per-key diagnostics, the delays of retries and the manual test push; a push that fails is taken to have had no effect.
- Text comparisons that ignore case, and lower case in command texts and requests, are over ASCII only.
- Numbers are unbounded except in the binary messages: the overflow of 64-bit integers and of the tracker's sequence number is not modelled.
- Watchdog reports: the reasons are a set of parts, not a joined text, and details and uptime are not modelled; the defaults of the configuration are filled in before.
- The slug file is a map that can be read; its absence is the empty map, and unreadable contents are not modelled.
- Room name merging, the core status store, capability recording, fleet counters: short case splits.
