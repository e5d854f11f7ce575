// The container steps an update is made of, and what they keep whatever fails and wherever they stop.
module DockerEngine {
  import opened Common
  import opened UpdateHost
  import opened UpdateRequests

  // What an update started from: the containers, the service name, the instance that held it, and
  // the name that instance is parked under while its replacement is tried.
  datatype Baseline = Baseline(containers: Fleet, service: string, previous: InstanceId, parked: string)

  predicate HasPrevious(b: Baseline) {
    b.previous in b.containers && b.containers[b.previous].name == b.service
  }

  // The journal entry is the one this update writes.
  predicate Names(b: Baseline, r: Replacement) {
    && HasPrevious(b)
    && r.serviceName == b.service && r.previousInstance == Some(b.previous) && r.previousName == b.parked
  }

  function Restored(b: Baseline): Fleet
    requires b.previous in b.containers
  {
    Started(b.containers, b.previous)
  }

  // No container but the previous one has changed, except that one replacement may hold the service name.
  predicate Midway(b: Baseline, c: Fleet) {
    && UniqueNames(b.containers) && UniqueNames(c)
    && if !HasPrevious(b) then c == b.containers else
      && b.previous in c
      && c[b.previous].image == b.containers[b.previous].image
      && c[b.previous].name in {b.service, b.parked}
      && (forall id :: id in b.containers && id != b.previous ==> id in c && c[id] == b.containers[id])
      && (forall id :: id in c && id !in b.containers ==> c[id].name == b.service)
  }

  ghost predicate Settled(b: Baseline, c: Fleet) {
    c == b.containers || (HasPrevious(b) && c == Restored(b))
  }

  // A container step of the update `r`: if `r` is this update's journal entry and the containers were
  // midway they still are, an instance that was gone stays gone, and names stay unique.
  ghost predicate Keeps(b: Baseline, r: Replacement, c: Fleet, c': Fleet) {
    && UniqueNames(c')
    && (Names(b, r) && Midway(b, c) ==> Midway(b, c'))
    && (r.previousInstance.Some? && r.previousInstance.value !in c ==> r.previousInstance.value !in c')
  }

  // Since the snapshot at `from` only containers moved, and only by such steps.
  ghost predicate Journey(b: Baseline, r: Replacement, trace: seq<Snapshot>, from: nat) {
    && from < |trace|
    && forall k :: from <= k < |trace| ==>
         && trace[k] == trace[from].(containers := trace[k].containers)
         && Keeps(b, r, trace[from].containers, trace[k].containers)
  }

  lemma JourneyExtends(b: Baseline, r: Replacement, trace: seq<Snapshot>, from: nat, s: Snapshot)
    requires Journey(b, r, trace, from)
    requires s == trace[|trace| - 1].(containers := s.containers)
    requires Keeps(b, r, trace[|trace| - 1].containers, s.containers)
    ensures Journey(b, r, trace + [s], from)
  {
  }

  // What an undisturbed rollback leaves: whatever else held the service name is gone, and the previous
  // instance, if it still exists, holds that name and runs.
  function RolledBack(c: Fleet, service: string, previous: InstanceId): Fleet {
    var cleared := map id | id in c && (id == previous || c[id].name != service) :: c[id];
    if previous in cleared then cleared[previous := cleared[previous].(name := service, running := true)] else cleared
  }

  function ParkedName(service: string, stamp: string): string {
    service + "-rollback-" + stamp
  }

  // Stopping or starting the previous instance, or anything that was not there at the start.
  lemma SwitchKeeps(b: Baseline, r: Replacement, c: Fleet, c': Fleet, id: InstanceId)
    requires UniqueNames(c) && r.previousInstance.Some?
    requires c' == c || (id in c && (c' == Stopped(c, id) || c' == Started(c, id)))
    requires id == r.previousInstance.value || (id in c && c[id].name == r.serviceName)
          || (Names(b, r) ==> id !in b.containers)
    ensures Keeps(b, r, c, c')
  {
  }

  lemma RenameKeeps(b: Baseline, r: Replacement, c: Fleet, c': Fleet, name: string)
    requires UniqueNames(c) && r.previousInstance.Some? && name in {r.serviceName, r.previousName}
    requires c' == c
          || (r.previousInstance.value in c && NameFree(c, name) && c' == Renamed(c, r.previousInstance.value, name))
    ensures Keeps(b, r, c, c')
  {
  }

  lemma CreateKeeps(b: Baseline, r: Replacement, c: Fleet, c': Fleet)
    requires UniqueNames(c) && r.previousInstance.Some? && r.previousInstance.value in c
    requires c' == c
          || (NameFree(c, r.serviceName)
              && exists id: InstanceId :: id !in c && c' == c[id := Container(r.serviceName, r.targetArtifact, false)])
    ensures Keeps(b, r, c, c')
  {
  }

  lemma RemoveKeeps(b: Baseline, r: Replacement, c: Fleet, c': Fleet, id: InstanceId)
    requires UniqueNames(c) && r.previousInstance.Some? && id != r.previousInstance.value
    requires c' == c || c' == Removed(c, id)
    requires id in c ==> c[id].name == r.serviceName
    ensures Keeps(b, r, c, c')
  {
  }

  // A container holds the name, and its image is known.
  ghost predicate HasImage(c: Fleet, service: string) {
    exists id :: id in c && c[id].name == service && c[id].image != ""
  }

  method CurrentArtifact(host: Host, service: string) returns (image: Option<string>)
    modifies host`faults
    ensures host.faults >= old(host.faults)
    ensures image.Some? ==>
              exists id :: id in host.containers && host.containers[id].name == service
                && host.containers[id].image == image.value != ""
    ensures image.None? && UniqueNames(host.containers) ==>
              host.faults > old(host.faults) || !HasImage(host.containers, service)
  {
    var found := host.InspectName(service);
    image := None;
    if found.Some? && host.containers[found.value].image != "" {
      image := Some(host.containers[found.value].image);
    }
  }

  method Prepare(host: Host, service: string, target: string, stamp: string) returns (r: Option<Replacement>)
    modifies host`faults
    ensures host.faults >= old(host.faults)
    ensures r.Some? ==>
      exists id :: id in host.containers && host.containers[id].name == service
        && r.value == Replacement(service, Some(id), ParkedName(service, stamp), None, target)
    ensures r.None? ==> NameFree(host.containers, service) || host.faults > old(host.faults)
  {
    var found := host.InspectName(service);
    r := None;
    if found.Some? {
      r := Some(Replacement(service, found, ParkedName(service, stamp), None, target));
    }
  }

  // The previous instance stopped and parked, the replacement running under the service name.
  function Activated(c: Fleet, r: Replacement, previous: InstanceId, created: InstanceId): Fleet
    requires previous in c
  {
    Renamed(Stopped(c, previous), previous, r.previousName)[created := Container(r.serviceName, r.targetArtifact, true)]
  }

  // The previous instance can be stopped, which it cannot if it is not running, and renamed.
  ghost predicate CanPark(c: Fleet, r: Replacement)
    requires r.previousInstance.Some?
  {
    r.previousInstance.value in c && c[r.previousInstance.value].running && NameFree(c, r.previousName)
  }

  lemma StopKeepsNames(c: Fleet, id: InstanceId, name: string)
    requires id in c
    ensures NameFree(Stopped(c, id), name) <==> NameFree(c, name)
  {
    var c' := Stopped(c, id);
    assert forall i :: i in c ==> i in c' && c'[i].name == c[i].name;
  }

  // Stop the previous instance and move it out of the way; if it cannot be moved, start it again.
  method Park(host: Host, r: Replacement, ghost b: Baseline, ghost from: nat) returns (ok: bool)
    requires host.Valid() && r.previousInstance.Some? && Journey(b, r, host.trace, from)
    modifies host`containers, host`trace, host`faults
    ensures host.Valid() && host.faults >= old(host.faults)
    ensures old(host.trace) <= host.trace
    ensures Journey(b, r, host.trace, from)
    ensures ok ==>
              && r.previousInstance.value in old(host.containers)
              && host.containers
                 == Renamed(Stopped(old(host.containers), r.previousInstance.value), r.previousInstance.value,
                            r.previousName)
    ensures ok ==> CanPark(old(host.containers), r)
    ensures !ok ==> !CanPark(old(host.containers), r) || host.faults > old(host.faults)
  {
    hide Keeps, Journey;
    ok := false;
    var previous := r.previousInstance.value;
    var found := host.Inspect(previous);
    if found.None? {
      return;
    }
    label a:
    var stopped := host.Stop(previous);
    SwitchKeeps(b, r, old@a(host.containers), host.containers, previous);
    JourneyExtends(b, r, old@a(host.trace), from, host.Now());
    if !stopped {
      return;
    }
    StopKeepsNames(old(host.containers), previous, r.previousName);
    ok := MoveAway(host, r, b, from);
  }

  // Rename the stopped instance, or start it again.
  method MoveAway(host: Host, r: Replacement, ghost b: Baseline, ghost from: nat) returns (ok: bool)
    requires host.Valid() && r.previousInstance.Some? && Journey(b, r, host.trace, from)
    modifies host`containers, host`trace, host`faults
    ensures host.Valid() && host.faults >= old(host.faults)
    ensures old(host.trace) <= host.trace
    ensures Journey(b, r, host.trace, from)
    ensures var previous, c := r.previousInstance.value, old(host.containers);
            ok ==>
              && previous in c && NameFree(c, r.previousName)
              && host.containers == Renamed(c, previous, r.previousName)
    ensures var previous, c := r.previousInstance.value, old(host.containers);
            !ok ==> previous !in c || !NameFree(c, r.previousName) || host.faults > old(host.faults)
  {
    hide Keeps, Journey;
    var previous := r.previousInstance.value;
    label a:
    ok := host.Rename(previous, r.previousName);
    RenameKeeps(b, r, old@a(host.containers), host.containers, r.previousName);
    JourneyExtends(b, r, old@a(host.trace), from, host.Now());
    if !ok {
      label c:
      var _ := host.Start(previous);
      SwitchKeeps(b, r, old@c(host.containers), host.containers, previous);
      JourneyExtends(b, r, old@c(host.trace), from, host.Now());
    }
  }

  // Create the replacement under the service name and start it; if it cannot start, remove it.
  method Launch(host: Host, replacement: Replacement, ghost b: Baseline, ghost from: nat)
    returns (ok: bool, r: Replacement)
    requires host.Valid() && replacement.previousInstance.Some? && Journey(b, replacement, host.trace, from)
    requires replacement.previousInstance.value in host.containers
    modifies host`containers, host`trace, host`faults
    ensures host.Valid() && host.faults >= old(host.faults)
    ensures old(host.trace) <= host.trace
    ensures Journey(b, replacement, host.trace, from)
    ensures r == replacement.(newInstance := r.newInstance)
    ensures ok ==>
              && r.newInstance.Some? && r.newInstance.value !in old(host.containers)
              && host.containers
                 == old(host.containers)[r.newInstance.value := Container(r.serviceName, r.targetArtifact, true)]
    ensures !ok ==> !NameFree(old(host.containers), replacement.serviceName) || host.faults > old(host.faults)
  {
    hide Keeps, Journey;
    ok, r := false, replacement;
    label a:
    var created := host.Create(replacement.serviceName, replacement.targetArtifact);
    CreateKeeps(b, replacement, old@a(host.containers), host.containers);
    JourneyExtends(b, replacement, old@a(host.trace), from, host.Now());
    if created.None? {
      return;
    }
    r := r.(newInstance := created);
    ok := StartCreated(host, replacement, created.value, b, from);
  }

  // Start the new instance, or remove it again.
  method StartCreated(host: Host, r: Replacement, created: InstanceId, ghost b: Baseline, ghost from: nat)
    returns (ok: bool)
    requires host.Valid() && r.previousInstance.Some? && created != r.previousInstance.value
    requires Journey(b, r, host.trace, from)
    requires created in host.containers
    requires host.containers[created] == Container(r.serviceName, r.targetArtifact, false)
    modifies host`containers, host`trace, host`faults
    ensures host.Valid() && host.faults >= old(host.faults)
    ensures old(host.trace) <= host.trace
    ensures Journey(b, r, host.trace, from)
    ensures ok ==>
              host.containers == old(host.containers)[created := Container(r.serviceName, r.targetArtifact, true)]
    ensures !ok ==> host.faults > old(host.faults)
  {
    hide Keeps, Journey;
    label a:
    ok := host.Start(created);
    SwitchKeeps(b, r, old@a(host.containers), host.containers, created);
    JourneyExtends(b, r, old@a(host.trace), from, host.Now());
    if !ok {
      label c:
      var _ := host.Remove(created);
      RemoveKeeps(b, r, old@c(host.containers), host.containers, created);
      JourneyExtends(b, r, old@c(host.trace), from, host.Now());
    }
  }

  method Activate(host: Host, replacement: Replacement, ghost b: Baseline) returns (ok: bool, r: Replacement)
    requires host.Valid() && replacement.previousInstance.Some?
    modifies host`containers, host`trace, host`faults
    ensures host.Valid() && host.faults >= old(host.faults)
    ensures old(host.trace) <= host.trace
    ensures Journey(b, replacement, host.trace, |old(host.trace)| - 1)
    ensures r == replacement.(newInstance := r.newInstance)
    ensures ok ==>
              && r.newInstance.Some? && r.newInstance.value !in old(host.containers)
              && replacement.previousInstance.value in old(host.containers)
              && host.containers
                 == Activated(old(host.containers), replacement, replacement.previousInstance.value,
                              r.newInstance.value)
    ensures ok ==> CanPark(old(host.containers), replacement)
    ensures !ok && host.faults == old(host.faults) ==>
              || !CanPark(old(host.containers), replacement)
              || replacement.serviceName == replacement.previousName
              || !ServiceClear(replacement.serviceName, replacement.previousInstance.value, old(host.containers))
  {
    r := replacement;
    ok := Park(host, replacement, b, |host.trace| - 1);
    if ok {
      ok, r := Launch(host, replacement, b, |old(host.trace)| - 1);
    }
  }

  // Stop and remove whatever else holds the service name.
  method ClearService(host: Host, r: Replacement, ghost b: Baseline, ghost from: nat) returns (ok: bool)
    requires host.Valid() && r.previousInstance.Some? && Journey(b, r, host.trace, from)
    modifies host`containers, host`trace, host`faults
    ensures host.Valid() && host.faults >= old(host.faults)
    ensures old(host.trace) <= host.trace
    ensures Journey(b, r, host.trace, from)
    ensures !ok ==> host.faults > old(host.faults)
    ensures ok ==> Clears(r.serviceName, r.previousInstance.value, old(host.containers), host.containers)
    ensures ok ==>
              ServiceClear(r.serviceName, r.previousInstance.value, host.containers) || host.faults > old(host.faults)
  {
    hide Keeps, Journey;
    ok := true;
    var previous := r.previousInstance.value;
    var current := host.InspectName(r.serviceName);
    if current.Some? && current.value != previous {
      var id := current.value;
      label a:
      var _ := host.Stop(id);
      SwitchKeeps(b, r, old@a(host.containers), host.containers, id);
      JourneyExtends(b, r, old@a(host.trace), from, host.Now());
      label c:
      ok := host.Remove(id);
      RemoveKeeps(b, r, old@c(host.containers), host.containers, id);
      JourneyExtends(b, r, old@c(host.trace), from, host.Now());
      assert ok ==> host.containers == Removed(old(host.containers), id);
    }
  }

  // Nothing but the previous instance holds the service name.
  ghost predicate ServiceClear(service: string, previous: InstanceId, c: Fleet) {
    forall i :: i in c && c[i].name == service ==> i == previous
  }

  ghost predicate Clears(service: string, previous: InstanceId, c: Fleet, c': Fleet) {
    || c' == c
    || exists i :: i in c && i != previous && c[i].name == service && c' == Removed(c, i)
  }

  // Give the previous instance the service name back and start it if it is not running.
  method RestorePrevious(host: Host, r: Replacement, ghost b: Baseline, ghost from: nat) returns (ok: bool)
    requires host.Valid() && r.previousInstance.Some? && Journey(b, r, host.trace, from)
    modifies host`containers, host`trace, host`faults
    ensures host.Valid() && host.faults >= old(host.faults)
    ensures old(host.trace) <= host.trace
    ensures Journey(b, r, host.trace, from)
    ensures ok ==>
              && r.previousInstance.value in old(host.containers)
              && ServiceClear(r.serviceName, r.previousInstance.value, old(host.containers))
              && host.containers
                 == Started(Renamed(old(host.containers), r.previousInstance.value, r.serviceName),
                            r.previousInstance.value)
    ensures !ok && ServiceClear(r.serviceName, r.previousInstance.value, old(host.containers)) ==>
              || host.faults > old(host.faults)
              || (r.previousInstance.value !in old(host.containers) && host.containers == old(host.containers))
  {
    hide Keeps, Journey;
    ok := false;
    var previous := r.previousInstance.value;
    var found := host.Inspect(previous);
    if found.None? {
      return;
    }
    if found.value.name != r.serviceName {
      label a:
      var renamed := host.Rename(previous, r.serviceName);
      RenameKeeps(b, r, old@a(host.containers), host.containers, r.serviceName);
      JourneyExtends(b, r, old@a(host.trace), from, host.Now());
      if !renamed {
        return;
      }
    }
    assert host.containers == Renamed(old(host.containers), previous, r.serviceName);
    if found.value.running {
      assert host.containers == Started(host.containers, previous);
      ok := true;
      return;
    }
    label c:
    ok := host.Start(previous);
    SwitchKeeps(b, r, old@c(host.containers), host.containers, previous);
    JourneyExtends(b, r, old@c(host.trace), from, host.Now());
  }

  method Rollback(host: Host, r: Replacement, ghost b: Baseline) returns (ok: bool)
    requires host.Valid() && r.previousInstance.Some?
    modifies host`containers, host`trace, host`faults
    ensures host.Valid() && host.faults >= old(host.faults)
    ensures old(host.trace) <= host.trace
    ensures Journey(b, r, host.trace, |old(host.trace)| - 1)
    ensures r.previousInstance.value !in old(host.containers) ==> !ok
    ensures ok || host.faults == old(host.faults) ==>
              host.containers == RolledBack(old(host.containers), r.serviceName, r.previousInstance.value)
    ensures host.faults == old(host.faults) ==> (ok <==> r.previousInstance.value in old(host.containers))
  {
    ok := ClearService(host, r, b, |host.trace| - 1);
    if ok {
      label between:
      ok := RestorePrevious(host, r, b, |old(host.trace)| - 1);
      if ok || host.faults == old(host.faults) {
        RolledBackInTwo(old(host.containers), old@between(host.containers), r.serviceName, r.previousInstance.value);
      }
    }
  }

  // Clearing the service name and then restoring the previous instance is the whole rollback.
  lemma RolledBackInTwo(c: Fleet, cleared: Fleet, service: string, previous: InstanceId)
    requires UniqueNames(c) && Clears(service, previous, c, cleared) && ServiceClear(service, previous, cleared)
    ensures previous in cleared <==> previous in c
    ensures RolledBack(c, service, previous) ==
            if previous in cleared then Started(Renamed(cleared, previous, service), previous) else cleared
  {
    assert cleared == map id | id in c && (id == previous || c[id].name != service) :: c[id];
  }

  // The first verdict among the polls is that the service is healthy.
  predicate FoundHealthy(polls: seq<Health>) {
    polls != [] && (polls[0] == Healthy || (polls[0] != Health.Unhealthy && FoundHealthy(polls[1..])))
  }

  lemma {:induction false} FoundHealthyIff(polls: seq<Health>)
    ensures FoundHealthy(polls) <==>
              exists k :: 0 <= k < |polls| && polls[k] == Healthy
                && forall i :: 0 <= i < k ==> polls[i] != Health.Unhealthy
  {
    if polls != [] {
      FoundHealthyIff(polls[1..]);
      if polls[0] != Healthy && polls[0] != Health.Unhealthy {
        if k :| 0 <= k < |polls[1..]| && polls[1..][k] == Healthy
                && forall i :: 0 <= i < k ==> polls[1..][i] != Health.Unhealthy {
          assert polls[k + 1] == Healthy;
          forall i | 0 <= i < k + 1 ensures polls[i] != Health.Unhealthy {
            assert i > 0 ==> polls[1..][i - 1] == polls[i];
          }
        }
        if k :| 0 <= k < |polls| && polls[k] == Healthy && forall i :: 0 <= i < k ==> polls[i] != Health.Unhealthy {
          assert polls[1..][k - 1] == Healthy;
          assert forall i :: 0 <= i < k - 1 ==> polls[1..][i] == polls[i + 1];
        }
      }
    }
  }

  ghost predicate ServiceRuns(c: Fleet, service: string) {
    !NameFree(c, service) && forall id :: id in c && c[id].name == service ==> c[id].running
  }

  // Poll the service until it reports a verdict or the polls run out; `polls` is what each one would see.
  method WaitHealthy(host: Host, service: string, polls: seq<Health>) returns (ok: bool)
    modifies host`faults, host`evidence
    ensures host.faults >= old(host.faults)
    ensures ok ==>
              exists id :: id in host.containers && host.containers[id].name == service && host.containers[id].running
                && host.evidence == old(host.evidence) + [SeenHealthy(id)]
    ensures !ok ==> host.evidence == old(host.evidence)
    ensures ok ==> Healthy in polls
    ensures ServiceRuns(host.containers, service) && host.faults == old(host.faults) ==> (ok <==> FoundHealthy(polls))
  {
    for i := 0 to |polls|
      invariant host.faults >= old(host.faults) && host.evidence == old(host.evidence)
      invariant ServiceRuns(host.containers, service) && host.faults == old(host.faults) ==>
                  (FoundHealthy(polls) <==> FoundHealthy(polls[i..]))
    {
      assert polls[i..][0] == polls[i] && polls[i..][1..] == polls[i + 1..];
      var found := host.InspectName(service);
      if found.Some? && host.containers[found.value].running && polls[i] != NotReported {
        if polls[i] == Healthy {
          host.Witness(SeenHealthy(found.value));
          return true;
        } else if polls[i] == Health.Unhealthy {
          return false;
        }
      }
    }
    ok := false;
  }

  method VerifyVersion(host: Host, report: Option<Report>, expectedVersion: string, expectedCommit: string)
    returns (ok: bool)
    modifies host`evidence
    ensures ok <==>
              && report.Some?
              && ArtifactMatches(report.value.version, report.value.commit, expectedVersion, expectedCommit)
    ensures host.evidence == old(host.evidence)
              + (if ok then [SeenArtifact(report.value.version, report.value.commit)] else [])
  {
    ok := report.Some? && ArtifactMatches(report.value.version, report.value.commit, expectedVersion, expectedCommit);
    if ok {
      host.Witness(SeenArtifact(report.value.version, report.value.commit));
    }
  }

  method Finalize(host: Host, r: Replacement) returns (ok: bool)
    requires host.Valid() && r.previousInstance.Some?
    modifies host`containers, host`trace, host`faults
    ensures host.Valid() && host.faults >= old(host.faults)
    ensures host.trace == old(host.trace) + [host.Now()]
    ensures host.containers == old(host.containers)
         || host.containers == Removed(old(host.containers), r.previousInstance.value)
    ensures ok ==> host.containers == Removed(old(host.containers), r.previousInstance.value)
    ensures !ok ==> r.previousInstance.value !in old(host.containers) || host.faults > old(host.faults)
  {
    ok := host.Remove(r.previousInstance.value);
  }
}
