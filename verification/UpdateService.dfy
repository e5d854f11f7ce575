// The update coordinator: accepting a request, running the operation, recovering an interrupted one.
module UpdateService {
  import opened Common
  import opened Text
  import opened UpdateHost
  import opened UpdateRequests
  import opened DockerEngine
  import opened UpdateSafety

  // What the rest of the world answers while an operation runs: None and false are errors.
  datatype Surroundings = Surroundings(
    freeBytes: Option<nat>, minimumFree: nat, registry: bool, pulled: bool, backupPath: Option<string>,
    stamp: string, polls: seq<Health>, report: Option<Report>)

  ghost predicate Observed(evidence: seq<Evidence>, from: nat, e: Evidence) {
    exists k :: from <= k < |evidence| && evidence[k] == e
  }

  // The service runs the new artifact and the previous instance is gone, after everything was checked.
  ghost predicate Upgraded(b: Baseline, op: Operation, c: Fleet, evidence: seq<Evidence>, from: nat) {
    && b.previous in b.containers && b.previous !in c
    && exists id, v, m ::
         && id in c && id !in b.containers && c[id] == Container(b.service, op.targetImage, true)
         && (forall i :: i in b.containers && i != b.previous ==> i in c && c[i] == b.containers[i])
         && (forall i :: i in c && i != id ==> i in b.containers)
         && Observed(evidence, from, BackedUp(op.id, op.backupPath))
         && Observed(evidence, from, SeenHealthy(id))
         && Observed(evidence, from, SeenArtifact(v, m)) && ArtifactMatches(v, m, op.expectedVersion, op.expectedCommit)
  }

  // The failures after the containers were touched.
  predicate RollsBack(error: Option<Failure>) {
    error.Some? && error.value in {Failure.Activate, Failure.Unhealthy, ArtifactMismatch, Failure.Finalize}
  }

  // What a finished operation reports is so: success means upgraded. Failure without a failed rollback
  // means the containers are as they were, and after an attempt that had to be undone the previous
  // instance runs.
  ghost predicate Concluded(
      b: Baseline, op: Operation, c: Fleet, journal: Option<Replacement>, evidence: seq<Evidence>, from: nat)
  {
    && (op.stage == Success || op.stage == Failed) && (op.stage == Success <==> op.error.None?)
    && (op.stage == Success ==> !op.rollbackFailed && journal == None && Upgraded(b, op, c, evidence, from))
    && (op.stage == Failed && !op.rollbackFailed ==>
          && journal == None
          && if RollsBack(op.error) then HasPrevious(b) && c == Restored(b) else c == b.containers)
  }

  lemma SucceedsIff(
      b: Baseline, op: Operation, c: Fleet, journal: Option<Replacement>, evidence: seq<Evidence>, from: nat)
    requires Concluded(b, op, c, journal, evidence, from)
    ensures op.stage == Success <==> op.error.None?
  {
  }

  // Where the guarantee of a recovery ends. A successful run records a state that is not terminal while the
  // previous instance is gone, and one that is terminal while its journal entry is still on disk.
  ghost predicate PassesLimits(b: Baseline, trace: seq<Snapshot>, from: nat) {
    && (exists k :: from <= k < |trace| && InTransit(b, trace[k]) && b.previous !in trace[k].containers)
    && (exists k :: from <= k < |trace| && IsStale(b, trace[k]))
  }

  predicate IsStale(b: Baseline, w: Snapshot) {
    && StageOf(w) == Success && w.journal.Some? && Names(b, w.journal.value) && b.previous !in w.containers
    && !NameFree(w.containers, b.service) && Consistent(w)
  }

  // What is in the way of an update, apart from calls that fail: the first check that does not pass.
  function ObstacleToKeep(s: Surroundings, op: Operation): Option<Failure> {
    if !FoundHealthy(s.polls) then Some(Failure.Unhealthy)
    else if s.report.None? then Some(ArtifactMismatch)
    else if !ArtifactMatches(s.report.value.version, s.report.value.commit, op.expectedVersion, op.expectedCommit) then
      Some(ArtifactMismatch)
    else None
  }

  // A service that is not running cannot be replaced: stopping it is an error.
  ghost function ObstacleToSwap(s: Surroundings, b: Baseline, op: Operation): Option<Failure> {
    if b.previous in b.containers && b.containers[b.previous].running && NameFree(b.containers, b.parked) then
      ObstacleToKeep(s, op)
    else Some(Failure.Activate)
  }

  ghost function ObstacleToFetch(s: Surroundings, b: Baseline, op: Operation): Option<Failure> {
    if !s.pulled || !(ALLOWED_IMAGE + ":" <= op.targetImage) then Some(Pull)
    else if s.backupPath.None? then Some(Failure.Backup)
    else ObstacleToSwap(s, b, op)
  }

  ghost function Obstacle(s: Surroundings, b: Baseline, op: Operation): Option<Failure> {
    if s.freeBytes.None? then Some(FreeSpaceUnknown)
    else if s.freeBytes.value < s.minimumFree then Some(InsufficientSpace)
    else if !s.registry then Some(RegistryUnavailable)
    else if !HasImage(b.containers, b.service) then Some(InspectCurrent)
    else ObstacleToFetch(s, b, op)
  }

  // Nothing is in the way exactly if all of this holds.
  lemma NothingInTheWay(s: Surroundings, b: Baseline, op: Operation, service: string)
    requires StartsFrom(b, b.containers, service, s.stamp) && UniqueNames(b.containers)
    ensures Obstacle(s, b, op).None? <==>
              && s.freeBytes.Some? && s.freeBytes.value >= s.minimumFree && s.registry && s.pulled
              && ALLOWED_IMAGE + ":" <= op.targetImage && s.backupPath.Some?
              && (exists id :: id in b.containers && b.containers[id].name == service
                    && b.containers[id].image != "" && b.containers[id].running)
              && (forall id :: id in b.containers ==> b.containers[id].name != service + "-rollback-" + s.stamp)
              && (exists k :: 0 <= k < |s.polls| && s.polls[k] == Healthy
                    && forall i :: 0 <= i < k ==> s.polls[i] != Health.Unhealthy)
              && s.report.Some?
              && ArtifactMatches(s.report.value.version, s.report.value.commit, op.expectedVersion, op.expectedCommit)
  {
    hide ArtifactMatches;
    FoundHealthyIff(s.polls);
  }

  // What a run is checked against: its baseline, whether it started with no journal, and where in the
  // recorded states and in the evidence it began.
  datatype Watch = Watch(b: Baseline, clean: bool, from: nat, seen: nat)

  ghost predicate SameRequest(op: Operation, op': Operation) {
    && op.id == op'.id && op.tag == op'.tag && op.targetImage == op'.targetImage
    && op.expectedVersion == op'.expectedVersion && op.expectedCommit == op'.expectedCommit
  }

  ghost predicate SameRun(op: Operation, op': Operation) {
    SameRequest(op, op') && op.backupPath == op'.backupPath
  }

  // The errors from the stage "restarting" on.
  ghost predicate IsLate(error: Option<Failure>) {
    error in {Some(Failure.Prepare), Some(PersistJournal), Some(Failure.Activate), Some(Failure.Unhealthy),
              Some(ArtifactMismatch), Some(Failure.Finalize)}
  }

  // What was kept was healthy at some poll and is the expected artifact.
  ghost predicate Checked(s: Surroundings, op: Operation) {
    && Healthy in s.polls && s.report.Some?
    && ArtifactMatches(s.report.value.version, s.report.value.commit, op.expectedVersion, op.expectedCommit)
  }

  // The end of an operation that got as far as the stage "pulling".
  ghost predicate Fetched(s: Surroundings, op: Operation) {
    var fetched := s.pulled && ALLOWED_IMAGE + ":" <= op.targetImage;
    match op.error
    case None => fetched && s.backupPath == Some(op.backupPath) && Checked(s, op)
    case Some(Pull) => !fetched
    case Some(Backup) => fetched && s.backupPath.None?
    case _ => fetched && s.backupPath == Some(op.backupPath) && IsLate(op.error)
  }

  // The baseline an operation starting now has: its previous instance is whatever holds the service name.
  ghost predicate StartsFrom(b: Baseline, c: Fleet, service: string, stamp: string) {
    && b.containers == c && b.service == service && b.parked == ParkedName(service, stamp)
    && (!NameFree(c, service) ==> HasPrevious(b))
  }

  lemma UpgradedBy(
      b: Baseline, r: Replacement, op: Operation, id: InstanceId, report: Report, c: Fleet,
      evidence: seq<Evidence>, from: nat)
    requires Names(b, r) && r.targetArtifact == op.targetImage && id !in b.containers
    requires c == Removed(Activated(b.containers, r, b.previous, id), b.previous)
    requires Observed(evidence, from, BackedUp(op.id, op.backupPath))
    requires Observed(evidence, from, SeenHealthy(id))
    requires Observed(evidence, from, SeenArtifact(report.version, report.commit))
    requires ArtifactMatches(report.version, report.commit, op.expectedVersion, op.expectedCommit)
    ensures Upgraded(b, op, c, evidence, from)
  {
  }

  class Service {
    const host: Host
    const containerName: string
    var operation: Operation
    var running: bool
    var usedIDs: seq<string>
    var usedSet: set<string>

    ghost predicate Loaded()
      reads this, host
    {
      && host.Valid()
      && usedIDs == host.usedFile && usedSet == UsedSet(usedIDs)
      && operation == (if host.operationFile.Some? then host.operationFile.value else IDLE_OPERATION)
    }

    ghost predicate Valid()
      reads this, host
    {
      Loaded() && (running <==> !Terminal(operation.stage))
    }

    // A new updater process on this machine. If the stage on disk is not terminal, an operation was
    // interrupted and is undone from the journal. `b` is the baseline of that operation.
    constructor (host: Host, containerName: string, ghost b: Baseline)
      requires host.Valid()
      modifies host`containers, host`operationFile, host`journalFile, host`trace, host`faults
      ensures this.host == host && this.containerName == containerName
      ensures Valid() && !running
      ensures host.faults >= old(host.faults) && old(host.trace) <= host.trace
      ensures Terminal(StageOf(old(host.Now()))) ==>
                host.Now() == old(host.Now()) && host.trace == old(host.trace)
      ensures !Terminal(StageOf(old(host.Now()))) ==> operation.stage == Failed
      ensures Recoverable(b, old(host.Now())) ==> AllRecoverable(b, host.trace, |old(host.trace)| - 1)
      ensures !Terminal(StageOf(old(host.Now()))) && host.faults == old(host.faults) && Resumable(old(host.Now())) ==>
                && host.containers == RolledBack(old(host.containers), old(host.journalFile).value.serviceName,
                                                 old(host.journalFile).value.previousInstance.value)
                && (operation.rollbackFailed <==>
                      || old(host.journalFile).value.previousInstance.value !in old(host.containers)
                      || old(host.operationFile).value.rollbackFailed)
      ensures !Terminal(StageOf(old(host.Now()))) && !Resumable(old(host.Now())) ==>
                && host.containers == old(host.containers)
                && operation.rollbackFailed == old(host.operationFile).value.rollbackFailed
    {
      this.host, this.containerName := host, containerName;
      usedIDs := host.usedFile;
      usedSet := UsedSet(host.usedFile);
      operation := if host.operationFile.Some? then host.operationFile.value else IDLE_OPERATION;
      running := false;
      new;
      if host.operationFile.Some? && !Terminal(operation.stage) {
        RecoverInterrupted(b);
      }
    }

    static predicate Resumable(w: Snapshot) {
      w.journal.Some? && w.journal.value.previousInstance.Some?
    }

    method RecoverInterrupted(ghost b: Baseline)
      requires Loaded() && !running && host.operationFile.Some? && !Terminal(operation.stage)
      modifies this`operation, host`containers, host`operationFile, host`journalFile, host`trace, host`faults
      ensures Loaded() && operation.stage == Failed
      ensures host.faults >= old(host.faults) && old(host.trace) <= host.trace
      ensures Recoverable(b, old(host.Now())) ==> AllRecoverable(b, host.trace, |old(host.trace)| - 1)
      ensures host.faults == old(host.faults) && Resumable(old(host.Now())) ==>
                && host.containers == RolledBack(old(host.containers), old(host.journalFile).value.serviceName,
                                                 old(host.journalFile).value.previousInstance.value)
                && (operation.rollbackFailed <==>
                      || old(host.journalFile).value.previousInstance.value !in old(host.containers)
                      || old(host.operationFile).value.rollbackFailed)
      ensures !Resumable(old(host.Now())) ==>
                && host.containers == old(host.containers)
                && operation.rollbackFailed == old(host.operationFile).value.rollbackFailed
      // The error that is reported.
      ensures operation.error == Some(InterruptedBeforeReplacement) <==> !Resumable(old(host.Now()))
      ensures operation.error == Some(InterruptedRestored) ==>
                && old(host.journalFile).Some? && old(host.journalFile).value.previousInstance.Some?
                && host.containers == RolledBack(old(host.containers), old(host.journalFile).value.serviceName,
                                                 old(host.journalFile).value.previousInstance.value)
                && host.journalFile.None?
      ensures operation.error == Some(InterruptedRollbackFailed) ==>
                operation.rollbackFailed && host.journalFile == old(host.journalFile)
      ensures host.faults == old(host.faults) && Resumable(old(host.Now())) ==>
                operation.error ==
                  Some(if old(host.journalFile).value.previousInstance.value in old(host.containers)
                       then InterruptedRestored else InterruptedRollbackFailed)
    {
      hide Recoverable, AllRecoverable, RolledBack, Consistent, RecoveryEnd;
      ghost var w0, from := host.Now(), |host.trace| - 1;
      if Recoverable(b, w0) { RecoveryStarts(b, host.trace); }
      if host.journalFile.Some? && host.journalFile.value.previousInstance.Some? {
        UndoFromJournal(host.journalFile.value, b, from);
      } else {
        operation := operation.(stage := Failed, error := Some(InterruptedBeforeReplacement));
        if Recoverable(b, w0) { RecoveryWithoutJournal(b, w0, operation); }
      }
      ghost var w3, undone := host.Now(), host.trace;
      host.WriteOperation(operation);
      if Recoverable(b, w0) {
        RecoveryEnds(b, w3, operation);
        AllRecoverableExtends(b, undone, from, host.Now());
      }
    }

    // Roll back from the journal entry; what is left to do is to write the final stage.
    method UndoFromJournal(r: Replacement, ghost b: Baseline, ghost from: nat)
      requires host.Valid() && host.operationFile == Some(operation) && !Terminal(operation.stage)
      requires host.journalFile == Some(r) && r.previousInstance.Some? && from < |host.trace|
      requires Recoverable(b, host.Now()) ==> AllRecoverable(b, host.trace, from)
      modifies this`operation, host`containers, host`operationFile, host`journalFile, host`trace, host`faults
      ensures host.Valid() && host.operationFile.Some? && operation.stage == Failed
      ensures host.faults >= old(host.faults) && old(host.trace) <= host.trace
      ensures Recoverable(b, old(host.Now())) ==>
                AllRecoverable(b, host.trace, from) && RecoveryEnd(b, host.Now(), operation)
      ensures host.faults == old(host.faults) ==>
                && host.containers == RolledBack(old(host.containers), r.serviceName, r.previousInstance.value)
                && (operation.rollbackFailed <==>
                      r.previousInstance.value !in old(host.containers) || old(operation).rollbackFailed)
      ensures operation.error == Some(if host.journalFile.None? then InterruptedRestored else InterruptedRollbackFailed)
      ensures host.journalFile.None? ==>
                host.containers == RolledBack(old(host.containers), r.serviceName, r.previousInstance.value)
      ensures host.journalFile.Some? ==> host.journalFile == old(host.journalFile) && operation.rollbackFailed
      ensures host.faults == old(host.faults) ==>
                (host.journalFile.None? <==> r.previousInstance.value in old(host.containers))
    {
      hide Recoverable, Journey, Keeps, RolledBack, AllRecoverable, Consistent, RecoveryEnd;
      ghost var safe := Recoverable(b, host.Now());
      BeginUndo(b, from);
      ghost var w1, begun := host.Now(), host.trace;
      var ok := DockerEngine.Rollback(host, r, b);
      ghost var w2 := host.Now();
      assert host.trace[..|begun|] == begun && host.trace[|begun| - 1] == w1;
      if safe { RecoveryJourney(b, r, host.trace, from, |begun| - 1); }
      if ok {
        operation := operation.(stage := Failed, error := Some(InterruptedRestored));
        ghost var rolled := host.trace;
        host.RemoveJournal();
        if safe {
          RecoverySettles(b, r, w1, w2, host.Now(), operation);
          AllRecoverableExtends(b, rolled, from, host.Now());
        }
      } else {
        operation := operation.(stage := Failed, error := Some(InterruptedRollbackFailed), rollbackFailed := true);
        if safe { RecoveryReports(b, w2, operation); }
      }
    }

    method BeginUndo(ghost b: Baseline, ghost from: nat)
      requires host.Valid() && host.operationFile == Some(operation) && !Terminal(operation.stage)
      requires host.journalFile.Some? && from < |host.trace|
      requires Recoverable(b, host.Now()) ==> AllRecoverable(b, host.trace, from)
      modifies this`operation, host`operationFile, host`trace
      ensures host.Valid() && operation == old(operation).(stage := Rollback) && host.operationFile == Some(operation)
      ensures host.trace == old(host.trace) + [host.Now()]
      ensures Recoverable(b, old(host.Now())) ==> AllRecoverable(b, host.trace, from) && Recoverable(b, host.Now())
    {
      hide Recoverable, AllRecoverable, Consistent;
      operation := operation.(stage := Rollback);
      host.WriteOperation(operation);
      if Recoverable(b, old(host.Now())) {
        RecoveryBegins(b, old(host.Now()), host.Now());
        AllRecoverableExtends(b, old(host.trace), from, host.Now());
      }
    }

    // Writing `op` is all that is left of the recovery.
    static ghost predicate RecoveryEnd(b: Baseline, w: Snapshot, op: Operation) {
      && Recoverable(b, w) && !Terminal(StageOf(w)) && op.stage == Failed
      && (w.journal.Some? ==> op.rollbackFailed)
    }

    static lemma RecoveryWithoutJournal(b: Baseline, w: Snapshot, op: Operation)
      requires Recoverable(b, w) && !Terminal(StageOf(w)) && op.stage == Failed
      requires w.journal.Some? ==> w.journal.value.previousInstance.None?
      ensures RecoveryEnd(b, w, op)
    {
    }

    static lemma RecoveryReports(b: Baseline, w: Snapshot, op: Operation)
      requires Recoverable(b, w) && !Terminal(StageOf(w)) && op.stage == Failed && op.rollbackFailed
      ensures RecoveryEnd(b, w, op)
    {
    }

    static lemma RecoverySettles(b: Baseline, r: Replacement, w: Snapshot, rolled: Snapshot, w': Snapshot,
                                 op: Operation)
      requires Recoverable(b, w) && Recoverable(b, rolled) && w.journal == Some(r)
      requires !Terminal(StageOf(rolled)) && rolled.journal == Some(r)
      requires r.previousInstance.Some? && op.stage == Failed
      requires rolled.containers == RolledBack(w.containers, r.serviceName, r.previousInstance.value)
      requires w' == rolled.(journal := None)
      ensures RecoveryEnd(b, w', op)
      ensures Recoverable(b, w')
    {
      RollbackRestores(b, w.containers);
    }

    static lemma RecoveryEnds(b: Baseline, w: Snapshot, op: Operation)
      requires RecoveryEnd(b, w, op)
      ensures Recoverable(b, w.(operation := Some(op)))
    {
    }

    static lemma RecoveryStarts(b: Baseline, trace: seq<Snapshot>)
      requires |trace| > 0 && Recoverable(b, trace[|trace| - 1]) && Consistent(trace[|trace| - 1])
      ensures AllRecoverable(b, trace, |trace| - 1)
    {
    }

    // A rollback during recovery passes only through recoverable states.
    static lemma RecoveryJourney(b: Baseline, r: Replacement, trace: seq<Snapshot>, from: nat, mid: nat)
      requires from <= mid && Journey(b, r, trace, mid) && AllRecoverable(b, trace[..mid + 1], from)
      requires StageOf(trace[mid]) == Rollback && trace[mid].journal == Some(r)
      ensures AllRecoverable(b, trace, from) && Recoverable(b, trace[|trace| - 1])
    {
      assert trace[..mid + 1][mid] == trace[mid];
      forall k | from <= k < |trace| ensures Recoverable(b, trace[k]) && Consistent(trace[k]) {
        if k <= mid {
          assert trace[..mid + 1][k] == trace[k];
        } else {
          assert Keeps(b, r, trace[mid].containers, trace[k].containers);
        }
      }
    }

    static lemma RecoveryBegins(b: Baseline, w: Snapshot, w': Snapshot)
      requires Recoverable(b, w) && Consistent(w) && !Terminal(StageOf(w)) && w.journal.Some?
      requires w' == w.(operation := Some(w.operation.value.(stage := Rollback)))
      ensures Recoverable(b, w') && Consistent(w')
    {
    }

    method Start(request: Request) returns (result: Result<Operation, Refusal>)
      requires Valid()
      modifies this`operation, this`running, this`usedIDs, this`usedSet
      modifies host`operationFile, host`usedFile, host`accepted, host`trace
      ensures Valid()
      ensures host.containers == old(host.containers) && host.journalFile == old(host.journalFile)
      // Refused for reuse exactly when the ID is one of the last fifty ever accepted.
      ensures result == Err(AlreadyUsed) <==>
                && Check(Normalized(request)) == None && !old(running)
                && Normalized(request).requestId in LastUsed(old(host.accepted))
      ensures result == Err(AlreadyRunning) <==> Check(Normalized(request)) == None && old(running)
      ensures Check(Normalized(request)).Some? ==> result == Err(Check(Normalized(request)).value)
      ensures result.Ok? <==>
                && Check(Normalized(request)) == None && !old(running)
                && forall k :: 0 <= k < |old(host.accepted)| && k >= |old(host.accepted)| - 50 ==>
                     old(host.accepted)[k] != TrimSpace(request.requestId)
      ensures result.Err? ==>
                && host.Now() == old(host.Now()) && host.trace == old(host.trace)
                && operation == old(operation) && running == old(running)
      ensures result.Ok? ==>
                && result.value == operation && running && operation.stage == Preparing
                && var r := Normalized(request);
                && operation == Operation(r.requestId, Preparing, r.tag, r.expectedVersion, r.expectedCommit, "",
                                          ALLOWED_IMAGE + ":" + r.tag, "", None, false)
                && host.accepted == old(host.accepted) + [r.requestId]
                && |host.trace| == |old(host.trace)| + 2 && old(host.trace) <= host.trace
                && host.trace[|old(host.trace)|] ==
                     old(host.Now()).(used := LastUsed(host.accepted), accepted := host.accepted)
    {
      hide Check, LastUsed, Distinct, UniqueNames, UsedSet, TrimSpace, Lower, WithoutPrefix;
      var r := Normalized(request);
      AmongLast(host.accepted, r.requestId);
      var check := Check(r);
      if check.Some? {
        return Err(check.value);
      }
      if running {
        return Err(AlreadyRunning);
      }
      InUsedSet(usedIDs, r.requestId);
      if r.requestId in usedSet {
        return Err(AlreadyUsed);
      }
      Accept(r);
      return Ok(operation);
    }

    // A checked request is taken: remembered, and the operation begins.
    method Accept(r: Request)
      requires Valid() && !running && r.requestId !in usedSet
      modifies this`operation, this`running, this`usedIDs, this`usedSet
      modifies host`operationFile, host`usedFile, host`accepted, host`trace
      ensures Valid() && running
      ensures operation == Operation(r.requestId, Preparing, r.tag, r.expectedVersion, r.expectedCommit, "",
                                     ALLOWED_IMAGE + ":" + r.tag, "", None, false)
      ensures host.accepted == old(host.accepted) + [r.requestId]
      ensures |host.trace| == |old(host.trace)| + 2 && old(host.trace) <= host.trace
      ensures host.trace[|old(host.trace)|] ==
                old(host.Now()).(used := LastUsed(host.accepted), accepted := host.accepted)
    {
      hide LastUsed, Distinct, UniqueNames, UsedSet;
      operation := Operation(
        r.requestId, Preparing, r.tag, r.expectedVersion, r.expectedCommit, "", ALLOWED_IMAGE + ":" + r.tag, "",
        None, false);
      running := true;
      Remember(r.requestId);
      host.WriteOperation(operation);
    }

    // The ID joins the last fifty.
    method Remember(id: string)
      requires host.Valid() && usedIDs == host.usedFile && usedSet == UsedSet(usedIDs) && id !in usedSet
      modifies this`usedIDs, this`usedSet, host`usedFile, host`accepted, host`trace
      ensures host.Valid() && usedIDs == host.usedFile && usedSet == UsedSet(usedIDs)
      ensures host.accepted == old(host.accepted) + [id]
      ensures host.Now() == old(host.Now()).(used := LastUsed(host.accepted), accepted := host.accepted)
      ensures host.trace == old(host.trace) + [host.Now()]
    {
      hide LastUsed, Distinct, UniqueNames, UsedSet;
      InUsedSet(usedIDs, id);
      RememberId(host.accepted, id);
      usedIDs := usedIDs + [id];
      if |usedIDs| > MAX_USED_IDS {
        usedSet := usedSet - {usedIDs[0]};
        usedIDs := usedIDs[|usedIDs| - MAX_USED_IDS..];
      }
      usedSet := usedSet + {id};
      host.WriteUsed(usedIDs, id);
    }

    // Everything recorded since the operation began is in order.
    ghost predicate Watched(g: Watch)
      reads this, host
    {
      && Loaded() && host.operationFile == Some(operation)
      && g.from < |host.trace| && Orderly(g.b, g.clean, host.trace, g.from)
    }

    // The operation runs and no container has been touched.
    ghost predicate Intact(g: Watch)
      reads this, host
    {
      && Watched(g) && running && !Terminal(operation.stage) && !operation.rollbackFailed
      && Untouched(g.b, g.clean, host.Now()) && (g.clean ==> host.journalFile.None?)
      && host.containers == g.b.containers && UniqueNames(g.b.containers)
    }

    // The operation runs and its replacement is journaled.
    ghost predicate Swapping(g: Watch, r: Replacement)
      reads this, host
    {
      && Watched(g) && running && !operation.rollbackFailed
      && operation.stage in {Restarting, Validating, Rollback}
      && InTransit(g.b, host.Now()) && Names(g.b, r)
    }

    ghost predicate Over(g: Watch)
      reads this, host
    {
      && Valid() && !running && Watched(g)
      && Concluded(g.b, operation, host.containers, host.journalFile, host.evidence, g.seen)
      && (operation.stage == Success ==> PassesLimits(g.b, host.trace, g.from))
    }

    // Record the changed operation. Callers show that the machine is covered with it.
    method Update(op: Operation, ghost g: Watch)
      requires Watched(g) && Covered(g.b, g.clean, host.Now().(operation := Some(op)))
      requires RunEdge(operation.stage, op.stage)
      modifies this`operation, host`operationFile, host`trace
      ensures Watched(g) && operation == op && old(host.trace) <= host.trace
      ensures host.Now() == old(host.Now()).(operation := Some(op))
    {
      hide Covered, Orderly, Consistent, RunEdge;
      operation := op;
      host.WriteOperation(op);
      OrderlyExtends(g.b, g.clean, old(host.trace), g.from, host.Now());
    }

    // Record the changed operation while nothing has been touched.
    method Advance(op: Operation, ghost g: Watch)
      requires Intact(g) && !Terminal(op.stage) && !op.rollbackFailed && RunEdge(operation.stage, op.stage)
      modifies this`operation, host`operationFile, host`trace
      ensures Intact(g) && operation == op && old(host.trace) <= host.trace
    {
      hide Covered, Orderly, Consistent, RunEdge, Untouched;
      UntouchedStage(g.b, g.clean, host.Now(), op);
      Update(op, g);
    }

    method Finish(stage: Stage, error: Option<Failure>, rollbackFailed: bool, ghost g: Watch)
      requires Watched(g) && Terminal(stage) && RunEdge(operation.stage, stage)
      requires var op := operation.(stage := stage, error := error, rollbackFailed := rollbackFailed);
               var w := host.Now().(operation := Some(op));
               Covered(g.b, g.clean, w) && (!rollbackFailed ==> Covered(g.b, g.clean, w.(journal := None)))
      modifies this`operation, this`running, host`operationFile, host`journalFile, host`trace
      ensures Valid() && !running && Watched(g) && old(host.trace) <= host.trace
      ensures operation == old(operation).(stage := stage, error := error, rollbackFailed := rollbackFailed)
      ensures host.journalFile == if rollbackFailed then old(host.journalFile) else None
      ensures |host.trace| > |old(host.trace)|
      ensures host.trace[|old(host.trace)|] == old(host.Now()).(operation := Some(operation))
    {
      hide Covered, Orderly, Consistent, RunEdge;
      operation := operation.(stage := stage, error := error, rollbackFailed := rollbackFailed);
      running := false;
      host.WriteOperation(operation);
      OrderlyExtends(g.b, g.clean, old(host.trace), g.from, host.Now());
      if !rollbackFailed {
        ghost var written := host.trace;
        host.RemoveJournal();
        OrderlySameStage(g.b, g.clean, written, g.from, host.Now());
      }
    }

    // Fail before the containers are touched.
    method FailEarly(error: Failure, ghost g: Watch)
      requires Intact(g) && RunEdge(operation.stage, Failed) && !RollsBack(Some(error))
      modifies this`operation, this`running, host`operationFile, host`journalFile, host`trace
      ensures Over(g) && SameRun(operation, old(operation)) && old(host.trace) <= host.trace
      ensures operation.stage == Failed && operation.error == Some(error)
      ensures !operation.rollbackFailed
    {
      hide Covered, Orderly, RunEdge, Untouched, Consistent;
      UntouchedEnds(g.b, g.clean, host.Now(),
                    operation.(stage := Failed, error := Some(error), rollbackFailed := false));
      Finish(Failed, Some(error), false, g);
    }

    // Fail after the containers may have been touched: undo, then report.
    method FailAndRollBack(error: Failure, r: Replacement, ghost g: Watch)
      requires Swapping(g, r) && RunEdge(operation.stage, Rollback) && RollsBack(Some(error))
      modifies this`operation, this`running
      modifies host`containers, host`operationFile, host`journalFile, host`trace, host`faults
      ensures Over(g) && SameRun(operation, old(operation)) && old(host.trace) <= host.trace
      ensures host.faults >= old(host.faults)
      ensures operation.stage == Failed && operation.error == Some(error)
      ensures host.faults == old(host.faults) ==> (operation.rollbackFailed <==> g.b.previous !in old(host.containers))
    {
      hide Covered, Orderly, RunEdge, InTransit, Journey, Settled, RolledBack, Consistent;
      var op := operation.(stage := Rollback, error := None);
      TransitStage(g.b, g.clean, host.Now(), op);
      Update(op, g);
      ghost var w, begun := host.Now(), host.trace;
      var ok := DockerEngine.Rollback(host, r, g.b);
      assert host.trace[..|begun|] == begun && host.trace[|begun| - 1] == w;
      JourneyOrderly(g.b, g.clean, r, host.trace, g.from, |begun| - 1);
      TransitEnds(g.b, g.clean, w, host.Now(),
                  operation.(stage := Failed, error := Some(error), rollbackFailed := !ok));
      RollbackFails();
      Finish(Failed, Some(error), !ok, g);
    }

    static lemma RollbackFails()
      ensures RunEdge(Rollback, Failed)
    {
    }

    // The operation Start accepted, from its first check to its last stage. `b` is what it starts from.
    method Run(s: Surroundings, ghost b: Baseline)
      requires Valid() && running && operation.stage == Preparing && !operation.rollbackFailed
      requires StartsFrom(b, host.containers, containerName, s.stamp)
      modifies this`operation, this`running
      modifies host`containers, host`operationFile, host`journalFile, host`trace, host`faults, host`evidence
      ensures Valid() && !running && host.faults >= old(host.faults)
      ensures SameRequest(operation, old(operation))
      ensures old(host.trace) <= host.trace
      ensures Orderly(b, old(host.journalFile).None?, host.trace, |old(host.trace)| - 1)
      ensures Concluded(b, operation, host.containers, host.journalFile, host.evidence, |old(host.evidence)|)
      ensures operation.stage == Success ==> PassesLimits(b, host.trace, |old(host.trace)| - 1)
      // Where no call fails, the update succeeds unless something was in the way, and says what.
      ensures host.faults == old(host.faults) ==>
                operation.error == Obstacle(s, b, old(operation)) && !operation.rollbackFailed
      // What each error, and success, says about the world.
      ensures operation.error == Some(FreeSpaceUnknown) <==> s.freeBytes.None?
      ensures operation.error == Some(InsufficientSpace) <==>
                s.freeBytes.Some? && s.freeBytes.value < s.minimumFree
      ensures operation.error == Some(RegistryUnavailable) <==>
                s.freeBytes.Some? && s.freeBytes.value >= s.minimumFree && !s.registry
      ensures operation.error == Some(Pull) ==> !s.pulled || !(ALLOWED_IMAGE + ":" <= operation.targetImage)
      ensures operation.error == Some(Failure.Backup) ==> s.pulled && s.backupPath.None?
      ensures operation.stage == Success ==>
                && s.freeBytes.Some? && s.freeBytes.value >= s.minimumFree && s.registry && s.pulled
                && ALLOWED_IMAGE + ":" <= operation.targetImage && s.backupPath == Some(operation.backupPath)
                && Healthy in s.polls && s.report.Some?
                && ArtifactMatches(s.report.value.version, s.report.value.commit, operation.expectedVersion,
                                   operation.expectedCommit)
      // Where no call fails it succeeds exactly if all of this holds.
      ensures host.faults == old(host.faults) ==>
                (operation.stage == Success <==>
                   && s.freeBytes.Some? && s.freeBytes.value >= s.minimumFree && s.registry && s.pulled
                   && ALLOWED_IMAGE + ":" <= operation.targetImage && s.backupPath.Some?
                   && (exists id :: id in b.containers && b.containers[id].name == containerName
                         && b.containers[id].image != "" && b.containers[id].running)
                   && (forall id :: id in b.containers ==>
                         b.containers[id].name != containerName + "-rollback-" + s.stamp)
                   && (exists k :: 0 <= k < |s.polls| && s.polls[k] == Healthy
                         && forall i :: 0 <= i < k ==> s.polls[i] != Health.Unhealthy)
                   && s.report.Some?
                   && ArtifactMatches(s.report.value.version, s.report.value.commit, operation.expectedVersion,
                                      operation.expectedCommit))
    {
      hide Covered, Orderly, Untouched, Concluded, UsedSet, Obstacle;
      ghost var g := Watch(b, host.journalFile.None?, |host.trace| - 1, |host.evidence|);
      RunStarts(b, g.clean, host.trace);
      ghost var op := operation;
      Preflight(s, g);
      NothingInTheWay(s, b, op, containerName);
      SucceedsIff(b, operation, host.containers, host.journalFile, host.evidence, g.seen);
    }

    // The checks before the stage "pulling".
    method Preflight(s: Surroundings, ghost g: Watch)
      requires Intact(g) && operation.stage == Preparing && g.seen == |host.evidence|
      requires StartsFrom(g.b, host.containers, containerName, s.stamp)
      modifies this`operation, this`running
      modifies host`containers, host`operationFile, host`journalFile, host`trace, host`faults, host`evidence
      ensures Over(g) && SameRequest(operation, old(operation)) && old(host.trace) <= host.trace
      ensures host.faults >= old(host.faults)
      ensures host.faults == old(host.faults) ==>
                operation.error == Obstacle(s, g.b, old(operation)) && !operation.rollbackFailed
      ensures operation.error == Some(FreeSpaceUnknown) <==> s.freeBytes.None?
      ensures operation.error == Some(InsufficientSpace) <==>
                s.freeBytes.Some? && s.freeBytes.value < s.minimumFree
      ensures operation.error == Some(RegistryUnavailable) <==>
                s.freeBytes.Some? && s.freeBytes.value >= s.minimumFree && !s.registry
      ensures operation.error !in {Some(FreeSpaceUnknown), Some(InsufficientSpace), Some(RegistryUnavailable)} ==>
                operation.error == Some(InspectCurrent) || Fetched(s, operation)
    {
      hide Over, Orderly, Untouched, Consistent, UsedSet;
      if s.freeBytes.None? {
        FailEarly(FreeSpaceUnknown, g);
        return;
      }
      if s.freeBytes.value < s.minimumFree {
        FailEarly(InsufficientSpace, g);
        return;
      }
      if !s.registry {
        FailEarly(RegistryUnavailable, g);
        return;
      }
      var previousImage := CurrentArtifact(host, containerName);
      if previousImage.None? {
        FailEarly(InspectCurrent, g);
        return;
      }
      Advance(operation.(previousImage := previousImage.value), g);
      FetchAndBackUp(s, g);
    }

    // From the stage "pulling" on.
    method FetchAndBackUp(s: Surroundings, ghost g: Watch)
      requires Intact(g) && operation.stage == Preparing && g.seen == |host.evidence|
      requires StartsFrom(g.b, host.containers, containerName, s.stamp)
      requires !NameFree(host.containers, containerName)
      modifies this`operation, this`running
      modifies host`containers, host`operationFile, host`journalFile, host`trace, host`faults, host`evidence
      ensures Over(g) && SameRequest(operation, old(operation)) && old(host.trace) <= host.trace
      ensures host.faults >= old(host.faults)
      ensures host.faults == old(host.faults) ==>
                operation.error == ObstacleToFetch(s, g.b, old(operation)) && !operation.rollbackFailed
      ensures Fetched(s, operation)
    {
      hide Over, StartsFrom, Orderly, Untouched, Consistent, UsedSet;
      Advance(operation.(stage := Pulling, error := None), g);
      if !s.pulled || !(ALLOWED_IMAGE + ":" <= operation.targetImage) {
        FailEarly(Pull, g);
        return;
      }
      Advance(operation.(stage := BackingUp, error := None), g);
      if s.backupPath.None? {
        FailEarly(Failure.Backup, g);
        return;
      }
      Advance(operation.(backupPath := s.backupPath.value), g);
      BackUpDone(s, g);
    }

    method BackUpDone(s: Surroundings, ghost g: Watch)
      requires Intact(g) && operation.stage == BackingUp && g.seen == |host.evidence|
      requires StartsFrom(g.b, host.containers, containerName, s.stamp)
      requires !NameFree(host.containers, containerName)
      modifies this`operation, this`running
      modifies host`containers, host`operationFile, host`journalFile, host`trace, host`faults, host`evidence
      ensures Over(g) && SameRun(operation, old(operation)) && old(host.trace) <= host.trace
      ensures host.faults >= old(host.faults)
      ensures host.faults == old(host.faults) ==>
                operation.error == ObstacleToSwap(s, g.b, old(operation)) && !operation.rollbackFailed
      ensures if operation.error.None? then Checked(s, operation) else IsLate(operation.error)
    {
      hide Over, StartsFrom, Orderly, Untouched, Consistent, UsedSet;
      host.Witness(BackedUp(operation.id, operation.backupPath));
      assert host.evidence[g.seen] == BackedUp(operation.id, operation.backupPath);
      Advance(operation.(stage := Restarting, error := None), g);
      Replace(s, g);
    }

    // From the stage "restarting" on.
    method Replace(s: Surroundings, ghost g: Watch)
      requires Intact(g) && operation.stage == Restarting
      requires StartsFrom(g.b, host.containers, containerName, s.stamp)
      requires !NameFree(host.containers, containerName)
      requires Observed(host.evidence, g.seen, BackedUp(operation.id, operation.backupPath))
      modifies this`operation, this`running
      modifies host`containers, host`operationFile, host`journalFile, host`trace, host`faults, host`evidence
      ensures Over(g) && SameRun(operation, old(operation)) && old(host.trace) <= host.trace
      ensures host.faults >= old(host.faults)
      ensures host.faults == old(host.faults) ==>
                operation.error == ObstacleToSwap(s, g.b, old(operation)) && !operation.rollbackFailed
      ensures if operation.error.None? then Checked(s, operation) else IsLate(operation.error)
    {
      hide Covered, Orderly, Untouched, InTransit, Consistent, UsedSet, Over, Observed;
      var prepared := DockerEngine.Prepare(host, containerName, operation.targetImage, s.stamp);
      if prepared.None? {
        FailEarly(Failure.Prepare, g);
        return;
      }
      var r := prepared.value;
      ghost var w, t := host.Now(), host.trace;
      var journaled := host.WriteJournal(r);
      UntouchedJournal(g.b, g.clean, r, w, host.Now());
      OrderlySameStage(g.b, g.clean, t, g.from, host.Now());
      if !journaled {
        FailUnjournaled(g);
      } else {
        Swap(s, r, g);
      }
    }

    // The journal write reported an error; the entry may be there all the same.
    method FailUnjournaled(ghost g: Watch)
      requires Watched(g) && running && operation.stage == Restarting && !operation.rollbackFailed
      requires Untouched(g.b, g.clean, host.Now()) && host.containers == g.b.containers
      modifies this`operation, this`running, host`operationFile, host`journalFile, host`trace
      ensures Over(g) && SameRun(operation, old(operation)) && old(host.trace) <= host.trace
      ensures operation.stage == Failed && operation.error == Some(PersistJournal)
      ensures !operation.rollbackFailed
    {
      hide Covered, Orderly, Untouched, Consistent;
      UntouchedEnds(g.b, g.clean, host.Now(),
                    operation.(stage := Failed, error := Some(PersistJournal), rollbackFailed := false));
      Finish(Failed, Some(PersistJournal), false, g);
    }

    method Swap(s: Surroundings, replacement: Replacement, ghost g: Watch)
      requires Swapping(g, replacement) && operation.stage == Restarting && host.containers == g.b.containers
      requires replacement.newInstance.None? && replacement.targetArtifact == operation.targetImage
      requires g.b.service == containerName && g.b.parked != g.b.service && UniqueNames(g.b.containers)
      requires Observed(host.evidence, g.seen, BackedUp(operation.id, operation.backupPath))
      modifies this`operation, this`running
      modifies host`containers, host`operationFile, host`journalFile, host`trace, host`faults, host`evidence
      ensures Over(g) && SameRun(operation, old(operation)) && old(host.trace) <= host.trace
      ensures host.faults >= old(host.faults)
      ensures host.faults == old(host.faults) ==>
                operation.error == ObstacleToSwap(s, g.b, old(operation)) && !operation.rollbackFailed
      ensures if operation.error.None? then Checked(s, operation) else RollsBack(operation.error)
    {
      hide Covered, Orderly, InTransit, Journey, Consistent, UsedSet, Over, Observed;
      ghost var w, begun := host.Now(), host.trace;
      var activated, r := DockerEngine.Activate(host, replacement, g.b);
      assert host.trace[..|begun|] == begun && host.trace[|begun| - 1] == w;
      JourneyOrderly(g.b, g.clean, replacement, host.trace, g.from, |begun| - 1);
      JourneyKeepsPrevious(g.b, replacement, host.trace, |begun| - 1);
      OnlyPrevious(g.b);
      if !activated {
        FailAndRollBack(Failure.Activate, r, g);
        return;
      }
      ghost var w2, t2 := host.Now(), host.trace;
      var _ := host.WriteJournal(r);
      TransitJournal(g.b, g.clean, r, w2, host.Now());
      OrderlySameStage(g.b, g.clean, t2, g.from, host.Now());
      Validate(s, r, g);
    }

    // An attempt that started from the baseline still has the previous instance.
    static lemma JourneyKeepsPrevious(b: Baseline, r: Replacement, trace: seq<Snapshot>, mid: nat)
      requires Journey(b, r, trace, mid) && Names(b, r) && UniqueNames(b.containers)
      requires trace[mid].containers == b.containers
      ensures b.previous in trace[|trace| - 1].containers
    {
      assert Keeps(b, r, trace[mid].containers, trace[|trace| - 1].containers);
    }

    static lemma OnlyPrevious(b: Baseline)
      requires HasPrevious(b) && UniqueNames(b.containers)
      ensures ServiceClear(b.service, b.previous, b.containers)
    {
    }

    static lemma ActivatedRuns(b: Baseline, r: Replacement, created: InstanceId)
      requires Names(b, r) && UniqueNames(Activated(b.containers, r, b.previous, created))
      ensures ServiceRuns(Activated(b.containers, r, b.previous, created), b.service)
      ensures b.previous in Activated(b.containers, r, b.previous, created)
    {
      var c := Activated(b.containers, r, b.previous, created);
      assert created in c && c[created].name == b.service;
    }

    // From the stage "validating" on.
    method Validate(s: Surroundings, r: Replacement, ghost g: Watch)
      requires Swapping(g, r) && operation.stage == Restarting && g.b.service == containerName
      requires r.targetArtifact == operation.targetImage && r.newInstance.Some?
      requires r.newInstance.value !in g.b.containers
      requires host.containers == Activated(g.b.containers, r, g.b.previous, r.newInstance.value)
      requires Observed(host.evidence, g.seen, BackedUp(operation.id, operation.backupPath))
      modifies this`operation, this`running
      modifies host`containers, host`operationFile, host`journalFile, host`trace, host`faults, host`evidence
      ensures Over(g) && SameRun(operation, old(operation)) && old(host.trace) <= host.trace
      ensures host.faults >= old(host.faults)
      ensures host.faults == old(host.faults) ==>
                operation.error == ObstacleToKeep(s, old(operation)) && !operation.rollbackFailed
      ensures if operation.error.None? then Checked(s, operation) else RollsBack(operation.error)
    {
      hide Covered, Orderly, InTransit, UsedSet, Over, Observed;
      TransitStage(g.b, g.clean, host.Now(), operation.(stage := Validating, error := None));
      Update(operation.(stage := Validating, error := None), g);
      var failure := Confirm(s, r, g);
      if failure.Some? {
        FailAndRollBack(failure.value, r, g);
      } else {
        Conclude(s.report.value, r, g);
      }
    }

    // The health check and the artifact check of the new container.
    method Confirm(s: Surroundings, r: Replacement, ghost g: Watch) returns (failure: Option<Failure>)
      requires Watched(g) && Names(g.b, r) && g.b.service == containerName && UniqueNames(host.containers)
      requires r.newInstance.Some? && r.newInstance.value !in g.b.containers
      requires host.containers == Activated(g.b.containers, r, g.b.previous, r.newInstance.value)
      requires Observed(host.evidence, g.seen, BackedUp(operation.id, operation.backupPath))
      modifies host`faults, host`evidence
      ensures host.faults >= old(host.faults)
      ensures Observed(host.evidence, g.seen, BackedUp(operation.id, operation.backupPath))
      ensures failure.Some? ==> RollsBack(failure)
      ensures failure.None? ==>
                && Checked(s, operation) && s.report.Some?
                && Observed(host.evidence, g.seen, SeenHealthy(r.newInstance.value))
                && Observed(host.evidence, g.seen, SeenArtifact(s.report.value.version, s.report.value.commit))
                && ArtifactMatches(s.report.value.version, s.report.value.commit, operation.expectedVersion,
                                   operation.expectedCommit)
      ensures host.faults == old(host.faults) ==> failure == ObstacleToKeep(s, operation)
    {
      hide Orderly, Consistent, UsedSet, ArtifactMatches;
      ActivatedRuns(g.b, r, r.newInstance.value);
      var healthy := WaitHealthy(host, containerName, s.polls);
      if !healthy {
        return Some(Failure.Unhealthy);
      }
      ObservedLater(old(host.evidence), host.evidence, g.seen, BackedUp(operation.id, operation.backupPath));
      ghost var seen := host.evidence;
      assert seen[|seen| - 1] == SeenHealthy(r.newInstance.value);
      var verified := VerifyVersion(host, s.report, operation.expectedVersion, operation.expectedCommit);
      ObservedLater(seen, host.evidence, g.seen, BackedUp(operation.id, operation.backupPath));
      ObservedLater(seen, host.evidence, g.seen, SeenHealthy(r.newInstance.value));
      if !verified {
        return Some(ArtifactMismatch);
      }
      assert host.evidence[|host.evidence| - 1] == SeenArtifact(s.report.value.version, s.report.value.commit);
      return None;
    }

    static lemma ObservedLater(evidence: seq<Evidence>, later: seq<Evidence>, from: nat, e: Evidence)
      requires Observed(evidence, from, e) && evidence <= later
      ensures Observed(later, from, e)
    {
      var k :| from <= k < |evidence| && evidence[k] == e;
      assert later[k] == e;
    }

    static lemma SuccessIsStale(b: Baseline, r: Replacement, w: Snapshot, op: Operation)
      requires InTransit(b, w) && Names(b, r) && r.newInstance.Some? && op.stage == Success
      requires r.newInstance.value !in b.containers
      requires w.containers == Removed(Activated(b.containers, r, b.previous, r.newInstance.value), b.previous)
      ensures b.previous !in w.containers && IsStale(b, w.(operation := Some(op)))
    {
      assert r.newInstance.value in w.containers && w.containers[r.newInstance.value].name == b.service;
    }

    // Delete the previous instance and report success.
    method Conclude(report: Report, r: Replacement, ghost g: Watch)
      requires Swapping(g, r) && operation.stage == Validating
      requires r.targetArtifact == operation.targetImage && r.newInstance.Some?
      requires r.newInstance.value !in g.b.containers
      requires host.containers == Activated(g.b.containers, r, g.b.previous, r.newInstance.value)
      requires UniqueNames(host.containers)
      requires Observed(host.evidence, g.seen, BackedUp(operation.id, operation.backupPath))
      requires Observed(host.evidence, g.seen, SeenHealthy(r.newInstance.value))
      requires Observed(host.evidence, g.seen, SeenArtifact(report.version, report.commit))
      requires ArtifactMatches(report.version, report.commit, operation.expectedVersion, operation.expectedCommit)
      modifies this`operation, this`running
      modifies host`containers, host`operationFile, host`journalFile, host`trace, host`faults
      ensures Over(g) && SameRun(operation, old(operation)) && old(host.trace) <= host.trace
      ensures host.faults >= old(host.faults)
      ensures host.faults == old(host.faults) ==> operation.error == None && !operation.rollbackFailed
      ensures operation.error.None? || operation.error == Some(Failure.Finalize)
    {
      hide Covered, Orderly, InTransit, Consistent, UsedSet, Observed, ArtifactMatches, Activated, Upgraded;
      hide HasPrevious;
      ghost var w, t := host.Now(), host.trace;
      ActivatedRuns(g.b, r, r.newInstance.value);
      var finalized := DockerEngine.Finalize(host, r);
      TransitFinalize(g.b, g.clean, w, host.Now());
      OrderlySameStage(g.b, g.clean, t, g.from, host.Now());
      if !finalized {
        FailAndRollBack(Failure.Finalize, r, g);
        return;
      }
      UpgradedBy(g.b, r, operation, r.newInstance.value, report, host.containers, host.evidence, g.seen);
      ReportSuccess(r, g);
    }

    method ReportSuccess(r: Replacement, ghost g: Watch)
      requires Watched(g) && operation.stage == Validating && InTransit(g.b, host.Now()) && Names(g.b, r)
      requires r.newInstance.Some? && r.newInstance.value !in g.b.containers
      requires host.containers == Removed(Activated(g.b.containers, r, g.b.previous, r.newInstance.value), g.b.previous)
      requires Upgraded(g.b, operation, host.containers, host.evidence, g.seen)
      modifies this`operation, this`running, host`operationFile, host`journalFile, host`trace
      ensures Over(g) && SameRun(operation, old(operation)) && old(host.trace) <= host.trace
      ensures operation.error == None && !operation.rollbackFailed
    {
      hide Covered, Orderly, InTransit, Consistent, UsedSet, Observed, ArtifactMatches, Activated, IsStale;
      var op := operation.(stage := Success, error := None, rollbackFailed := false);
      TransitSucceeds(g.b, g.clean, host.Now(), op);
      UpgradedSame(g.b, operation, op, host.containers, host.evidence, g.seen);
      hide Upgraded;
      ghost var deleted, at := host.Now(), |host.trace|;
      SuccessIsStale(g.b, r, deleted, op);
      Finish(Success, None, false, g);
      assert host.trace[at - 1] == deleted && g.from <= at - 1;
    }

    static lemma UpgradedSame(b: Baseline, op: Operation, op': Operation, c: Fleet, evidence: seq<Evidence>, from: nat)
      requires Upgraded(b, op, c, evidence, from) && SameRequest(op, op') && op.backupPath == op'.backupPath
      ensures Upgraded(b, op', c, evidence, from)
    {
    }
  }
}
