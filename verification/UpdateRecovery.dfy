// One operation, interrupted anywhere and as often as you like.
module UpdateRecovery {
  import opened Common
  import opened UpdateHost
  import opened UpdateRequests
  import opened DockerEngine
  import opened UpdateSafety
  import opened UpdateService

  // Start an operation on a machine with no journal and let the updater die after any recorded change, from
  // the acceptance of the request up to the deletion of the previous instance.
  method OperateAndCrash(host: Host, containerName: string, request: Request, s: Surroundings, b: Baseline)
    returns (accepted: bool)
    requires host.Valid() && host.journalFile == None && Terminal(StageOf(host.Now()))
    requires StartsFrom(b, host.containers, containerName, s.stamp)
    modifies host
    ensures host.Valid()
    ensures !accepted ==> host.Now() == old(host.Now())
    ensures accepted ==> Recoverable(b, host.Now())
  {
    hide Orderly, Recoverable, AllRecoverable, Concluded, PassesLimits, Consistent, UsedSet, LastUsed, Check;
    hide Normalized;
    ghost var before := host.Now();
    var service := new Service(host, containerName, b);
    var start := |host.trace|;
    var result := service.Start(request);
    if result.Err? {
      return false;
    }
    ghost var remembered := host.trace[start];
    RememberedIsRecoverable(b, before, remembered, host.Now());
    ghost var begun := host.trace;
    service.Run(s, b);
    assert host.trace[start] == begun[start] && host.trace[start + 1].containers == b.containers;
    var k :| start <= k < |host.trace| && (HasPrevious(b) ==> b.previous in host.trace[k].containers);
    if k > start {
      OrderlyAt(b, host.trace, start + 1, k);
    }
    host.CrashAt(k);
    return true;
  }

  // The ID is remembered and nothing else has changed.
  lemma RememberedIsRecoverable(b: Baseline, w: Snapshot, w': Snapshot, later: Snapshot)
    requires Consistent(w) && Terminal(StageOf(w)) && w.journal == None && w.containers == b.containers
    requires w' == w.(used := LastUsed(w'.accepted), accepted := w'.accepted) && Consistent(later)
    requires later.accepted == w'.accepted
    ensures Recoverable(b, w') && Consistent(w')
  {
  }

  // Restart the updater `crashes` times, and let it die each time right after any recorded change.
  method CrashWhileRecovering(host: Host, containerName: string, crashes: nat, ghost b: Baseline)
    requires host.Valid() && Recoverable(b, host.Now())
    modifies host
    ensures host.Valid() && Recoverable(b, host.Now())
  {
    hide Recoverable, AllRecoverable, Consistent, RolledBack, UsedSet;
    for i := 0 to crashes
      invariant host.Valid() && Recoverable(b, host.Now())
    {
      var before := |host.trace|;
      RecoverableStarts(b, host.trace);
      var service := new Service(host, containerName, b);
      var n :| before - 1 <= n < |host.trace|;
      AllRecoverableAt(b, host.trace, before - 1, n);
      host.CrashAt(n);
    }
  }

  // The last restart is not interrupted. `resumed` says that it found an interrupted operation and
  // `calm` that no external call failed while it undid it.
  method RecoverForGood(host: Host, containerName: string, ghost b: Baseline)
    returns (service: Service, resumed: bool, calm: bool)
    requires host.Valid() && Recoverable(b, host.Now())
    modifies host
    ensures service.host == host && service.Valid() && !service.running && Terminal(service.operation.stage)
    ensures Settled(b, host.containers) || (host.journalFile.Some? && service.operation.rollbackFailed)
    ensures resumed ==> service.operation.stage == Failed
    ensures resumed && calm ==> Settled(b, host.containers) && !service.operation.rollbackFailed
  {
    hide Recoverable, AllRecoverable, Settled, Consistent, RolledBack, UsedSet;
    resumed := !Terminal(StageOf(host.Now()));
    ghost var w := host.Now();
    var before, faults := |host.trace|, host.faults;
    RecoverableStarts(b, host.trace);
    service := new Service(host, containerName, b);
    calm := host.faults == faults;
    AllRecoverableAt(b, host.trace, before - 1, |host.trace| - 1);
    RecoverableAtRest(b, host.Now());
    if resumed && calm {
      CalmRestores(b, w);
    }
  }

  // An operation on a clean machine, interrupted anywhere before the previous instance is deleted, its
  // recovery interrupted any number of times: at the end the containers are as they were, with the
  // previous instance running if it had to be stopped, or a failed rollback is reported and its journal
  // kept; and if the last recovery met no failing call, it is never the latter.
  method SurviveCrashes(host: Host, containerName: string, request: Request, s: Surroundings, crashes: nat, b: Baseline)
    returns (service: Service, accepted: bool, resumed: bool, calm: bool)
    requires host.Valid() && host.journalFile == None && Terminal(StageOf(host.Now()))
    requires StartsFrom(b, host.containers, containerName, s.stamp)
    modifies host
    ensures service.host == host && service.Valid() && !service.running && Terminal(service.operation.stage)
    ensures !accepted ==> host.containers == b.containers
    ensures accepted ==> Settled(b, host.containers) || (host.journalFile.Some? && service.operation.rollbackFailed)
    ensures resumed ==> service.operation.stage == Failed
    ensures resumed && calm ==> Settled(b, host.containers) && !service.operation.rollbackFailed
  {
    hide Recoverable, AllRecoverable, Settled, Consistent, RolledBack, UsedSet;
    accepted := OperateAndCrash(host, containerName, request, s, b);
    if accepted {
      CrashWhileRecovering(host, containerName, crashes, b);
      service, resumed, calm := RecoverForGood(host, containerName, b);
    } else {
      resumed, calm := false, true;
      service := new Service(host, containerName, b);
    }
  }

  // Run an operation that starts with no journal to its end.
  method OperateToTheEnd(host: Host, containerName: string, request: Request, s: Surroundings, b: Baseline)
    returns (started: Option<Operation>, succeeded: bool)
    requires host.Valid() && host.journalFile == None && Terminal(StageOf(host.Now()))
    requires StartsFrom(b, host.containers, containerName, s.stamp)
    modifies host
    ensures host.Valid() && host.faults >= old(host.faults)
    ensures succeeded ==> PassesLimits(b, host.trace, 0)
    ensures started.Some? && host.faults == old(host.faults) ==> (succeeded <==> Obstacle(s, b, started.value) == None)
  {
    hide Orderly, Concluded, Obstacle, Consistent, UsedSet, LastUsed, Check, Normalized, InTransit, IsStale;
    var service := new Service(host, containerName, b);
    var result := service.Start(request);
    if result.Err? {
      return None, false;
    }
    started := Some(result.value);
    var seen := |host.evidence|;
    service.Run(s, b);
    SuccessHasNoError(b, service.operation, host.containers, host.journalFile, host.evidence, seen);
    succeeded := service.operation.stage == Success;
  }

  lemma SuccessHasNoError(b: Baseline, op: Operation, c: Fleet, journal: Option<Replacement>, evidence: seq<Evidence>,
                          from: nat)
    requires Concluded(b, op, c, journal, evidence, from)
    ensures op.stage == Success <==> op.error.None?
  {
  }

  // The first limit is real: a successful operation killed between the deletion of the previous instance and
  // its report of success loses its service. Undoing it from the journal removes the replacement too, and
  // there is nothing to bring back.
  method CrashedAfterDeletion(host: Host, containerName: string, request: Request, s: Surroundings, b: Baseline)
    returns (started: Option<Operation>, succeeded: bool, calm: bool)
    requires host.Valid() && host.journalFile == None && Terminal(StageOf(host.Now()))
    requires StartsFrom(b, host.containers, containerName, s.stamp)
    modifies host
    ensures succeeded && calm ==> NameFree(host.containers, b.service)
    ensures succeeded && calm ==> host.operationFile.Some? && host.operationFile.value.rollbackFailed
    ensures started.Some? && host.faults == old(host.faults) ==> (succeeded <==> Obstacle(s, b, started.value) == None)
    ensures calm <==> host.faults == old(host.faults)
  {
    hide Obstacle, Recoverable, AllRecoverable, UsedSet, Concluded, IsStale;
    var faults := host.faults;
    started, succeeded := OperateToTheEnd(host, containerName, request, s, b);
    if succeeded {
      var k: nat :| k < |host.trace| && InTransit(b, host.trace[k]) && b.previous !in host.trace[k].containers;
      host.CrashAt(k);
      RollbackRestoresIffPreviousExists(host.containers, b.service, b.previous);
      hide RolledBack;
      var service := new Service(host, containerName, b);
    }
    calm := host.faults == faults;
  }

  // With a stale entry on disk, an operation that has only been accepted is undone like one that has
  // replaced the service.
  method StaleJournalLosesTheService(host: Host, containerName: string, request: Request, r: Replacement,
                                     ghost b: Baseline)
    returns (accepted: bool, calm: bool)
    requires host.Valid() && Terminal(StageOf(host.Now())) && host.journalFile == Some(r)
    requires r.previousInstance.Some? && r.previousInstance.value !in host.containers
    modifies host
    ensures host.faults >= old(host.faults)
    ensures accepted && calm ==> NameFree(host.containers, r.serviceName)
    ensures accepted && calm ==> host.operationFile.Some? && host.operationFile.value.rollbackFailed
  {
    hide Recoverable, AllRecoverable, UsedSet, Consistent, Check, Normalized, LastUsed;
    var service := new Service(host, containerName, b);
    var result := service.Start(request);
    accepted := result.Ok?;
    if accepted {
      assert UniqueNames(host.containers) by { NamesAreUnique(host.Now()); }
      RollbackRestoresIffPreviousExists(host.containers, r.serviceName, r.previousInstance.value);
      hide RolledBack;
      var faults := host.faults;
      service := new Service(host, containerName, b);
      calm := host.faults == faults;
    } else {
      calm := true;
    }
  }

  lemma NamesAreUnique(w: Snapshot)
    requires Consistent(w)
    ensures UniqueNames(w.containers)
  {
  }

  // The second limit is real: a successful operation killed after its report of success leaves such an
  // entry. The next process does not look at it, and the operation it accepts loses the running service if
  // it is killed at once.
  method CrashedAfterSuccess(host: Host, containerName: string, request: Request, s: Surroundings, b: Baseline,
                             later: Request)
    returns (started: Option<Operation>, succeeded: bool, accepted: bool, calm: bool)
    requires host.Valid() && host.journalFile == None && Terminal(StageOf(host.Now()))
    requires StartsFrom(b, host.containers, containerName, s.stamp)
    modifies host
    ensures succeeded && accepted && calm ==> NameFree(host.containers, b.service)
    ensures started.Some? && host.faults == old(host.faults) ==> (succeeded <==> Obstacle(s, b, started.value) == None)
  {
    hide Obstacle, Recoverable, AllRecoverable, UsedSet, Concluded, InTransit, Consistent;
    accepted, calm := false, true;
    started, succeeded := OperateToTheEnd(host, containerName, request, s, b);
    if succeeded {
      var k: nat :| k < |host.trace| && IsStale(b, host.trace[k]);
      host.CrashAt(k);
      assert !NameFree(host.containers, b.service);
      accepted, calm := StaleJournalLosesTheService(host, containerName, later, host.journalFile.value, b);
    }
  }

  lemma RecoverableStarts(b: Baseline, trace: seq<Snapshot>)
    requires |trace| > 0 && Recoverable(b, trace[|trace| - 1]) && Consistent(trace[|trace| - 1])
    ensures AllRecoverable(b, trace, |trace| - 1)
  {
  }

  lemma OrderlyAt(b: Baseline, trace: seq<Snapshot>, from: nat, k: nat)
    requires Orderly(b, true, trace, from) && from <= k < |trace| && PreviousExists(b, trace[k])
    ensures Recoverable(b, trace[k]) && Consistent(trace[k])
  {
  }

  lemma AllRecoverableAt(b: Baseline, trace: seq<Snapshot>, from: nat, k: nat)
    requires AllRecoverable(b, trace, from) && from <= k < |trace|
    ensures Recoverable(b, trace[k]) && Consistent(trace[k])
  {
  }

  lemma RecoverableAtRest(b: Baseline, w: Snapshot)
    requires Recoverable(b, w) && Terminal(StageOf(w))
    ensures Settled(b, w.containers) || (w.journal.Some? && w.operation.Some? && w.operation.value.rollbackFailed)
  {
  }

  // An undisturbed recovery of an interrupted operation gives back what the operation started from.
  lemma CalmRestores(b: Baseline, w: Snapshot)
    requires Recoverable(b, w) && !Terminal(StageOf(w))
    ensures !w.operation.value.rollbackFailed
    ensures Service.Resumable(w) ==>
              && w.journal.value.previousInstance.value in w.containers
              && Settled(b, RolledBack(w.containers, w.journal.value.serviceName,
                                       w.journal.value.previousInstance.value))
    ensures !Service.Resumable(w) ==> Settled(b, w.containers)
  {
    if w.journal.Some? {
      RollbackRestores(b, w.containers);
    }
  }
}
