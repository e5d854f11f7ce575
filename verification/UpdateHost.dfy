// The machine the updater acts on: the container engine and the three files the updater keeps in its
// data directory. Every change to either is recorded in a history, so "the process died here" is "the
// history stops here".
module UpdateHost {
  import opened Common

  type InstanceId = nat

  datatype Container = Container(name: string, image: string, running: bool)

  type Fleet = map<InstanceId, Container>

  datatype Stage =
    | Idle | Preparing | Pulling | BackingUp | Restarting | Validating | Success | Rollback | Failed

  predicate Terminal(stage: Stage) {
    stage == Idle || stage == Success || stage == Failed
  }

  datatype Failure =
    | FreeSpaceUnknown | InsufficientSpace | RegistryUnavailable | InspectCurrent | Pull | Backup
    | Prepare | PersistJournal | Activate | Unhealthy | ArtifactMismatch | Finalize
    | InterruptedRestored | InterruptedRollbackFailed | InterruptedBeforeReplacement

  datatype Operation = Operation(
    id: string, stage: Stage, tag: string, expectedVersion: string, expectedCommit: string,
    previousImage: string, targetImage: string, backupPath: string,
    error: Option<Failure>, rollbackFailed: bool)

  const IDLE_OPERATION := Operation("", Idle, "", "", "", "", "", "", None, false)

  // The journal entry written before the containers are touched.
  datatype Replacement = Replacement(
    serviceName: string, previousInstance: Option<InstanceId>, previousName: string,
    newInstance: Option<InstanceId>, targetArtifact: string)

  // Everything that survives the updater process. `accepted` lists every request ID ever written to
  // the used-ID file, oldest first; the program itself keeps only the tail of it.
  datatype Snapshot = Snapshot(
    containers: Fleet, operation: Option<Operation>, journal: Option<Replacement>,
    used: seq<string>, accepted: seq<string>)

  function StageOf(w: Snapshot): Stage {
    if w.operation.Some? then w.operation.value.stage else Idle
  }

  // What one external call does: it takes effect and says so, it is refused without effect, or it
  // takes effect and the reply is lost.
  datatype Outcome = Done | Refused | LostReply

  // What a run has observed about the container it is about to keep.
  datatype Evidence =
    | BackedUp(id: string, path: string)
    | SeenHealthy(instance: InstanceId)
    | SeenArtifact(version: string, commit: string)

  // A container's health as one inspection shows it, and what a bridge says it is.
  datatype Health = NotReported | Healthy | Unhealthy | Other

  datatype Report = Report(version: string, commit: string)

  const MAX_USED_IDS := 50

  function LastUsed(history: seq<string>): seq<string> {
    if |history| <= MAX_USED_IDS then history else history[|history| - MAX_USED_IDS..]
  }

  predicate Distinct(ids: seq<string>) {
    forall i, j :: 0 <= i < j < |ids| ==> ids[i] != ids[j]
  }

  predicate UniqueNames(c: Fleet) {
    forall i, j :: i in c && j in c && c[i].name == c[j].name ==> i == j
  }

  predicate NameFree(c: Fleet, name: string) {
    forall i :: i in c ==> c[i].name != name
  }

  predicate Consistent(w: Snapshot) {
    && UniqueNames(w.containers)
    && w.used == LastUsed(w.accepted)
    && Distinct(w.used)
  }

  class Host {
    var containers: Fleet
    var operationFile: Option<Operation>
    var journalFile: Option<Replacement>
    var usedFile: seq<string>
    var accepted: seq<string>
    var trace: seq<Snapshot>
    var faults: nat
    var evidence: seq<Evidence>

    function Now(): Snapshot
      reads this
    {
      Snapshot(containers, operationFile, journalFile, usedFile, accepted)
    }

    ghost predicate Valid()
      reads this
    {
      && |trace| > 0
      && trace[|trace| - 1] == Now()
      && Consistent(Now())
    }

    // A machine that has never run the updater.
    constructor (containers: Fleet)
      requires UniqueNames(containers)
      ensures Valid()
      ensures Now() == Snapshot(containers, None, None, [], []) && faults == 0 && evidence == []
    {
      this.containers := containers;
      operationFile, journalFile, usedFile, accepted := None, None, [], [];
      trace := [Snapshot(containers, None, None, [], [])];
      faults, evidence := 0, [];
    }

    method Attempt() returns (outcome: Outcome)
      modifies this`faults
      ensures faults >= old(faults)
      ensures outcome == Done || faults > old(faults)
    {
      outcome := *;
      if outcome != Done {
        faults := faults + 1;
      }
    }

    // The containers become `next`, and the change is recorded.
    method Change(next: Fleet)
      requires Valid() && UniqueNames(next)
      modifies this`containers, this`trace
      ensures Valid()
      ensures containers == next && trace == old(trace) + [Now()]
    {
      containers := next;
      trace := trace + [Now()];
    }

    method Inspect(id: InstanceId) returns (found: Option<Container>)
      modifies this`faults
      ensures faults >= old(faults)
      ensures found.Some? ==> id in containers && found.value == containers[id]
      ensures found.None? ==> id !in containers || faults > old(faults)
    {
      var outcome := Attempt();
      found := if outcome == Done && id in containers then Some(containers[id]) else None;
    }

    method InspectName(name: string) returns (found: Option<InstanceId>)
      modifies this`faults
      ensures faults >= old(faults)
      ensures found.Some? ==> found.value in containers && containers[found.value].name == name
      ensures found.None? ==> NameFree(containers, name) || faults > old(faults)
    {
      var outcome := Attempt();
      found := None;
      if outcome == Done && !NameFree(containers, name) {
        var id :| id in containers && containers[id].name == name;
        found := Some(id);
      }
    }

    // Stopping a container that is not running is an error: the engine answers 304, outside 2xx.
    method Stop(id: InstanceId) returns (ok: bool)
      requires Valid()
      modifies this`containers, this`trace, this`faults
      ensures Valid() && faults >= old(faults)
      ensures trace == old(trace) + [Now()]
      ensures containers == old(containers) || (id in old(containers) && containers == Stopped(old(containers), id))
      ensures ok ==> id in old(containers) && old(containers)[id].running && containers == Stopped(old(containers), id)
      ensures !ok ==> id !in old(containers) || !old(containers)[id].running || faults > old(faults)
    {
      var outcome := Attempt();
      var possible := id in containers && containers[id].running;
      Change(if possible && outcome != Refused then Stopped(containers, id) else containers);
      ok := possible && outcome == Done;
    }

    method Start(id: InstanceId) returns (ok: bool)
      requires Valid()
      modifies this`containers, this`trace, this`faults
      ensures Valid() && faults >= old(faults)
      ensures trace == old(trace) + [Now()]
      ensures containers == old(containers) || (id in old(containers) && containers == Started(old(containers), id))
      ensures ok ==> id in old(containers) && containers == Started(old(containers), id)
      ensures !ok ==> id !in old(containers) || old(containers)[id].running || faults > old(faults)
    {
      var outcome := Attempt();
      var possible := id in containers && !containers[id].running;
      Change(if possible && outcome != Refused then Started(containers, id) else containers);
      ok := possible && outcome == Done;
    }

    method Rename(id: InstanceId, name: string) returns (ok: bool)
      requires Valid()
      modifies this`containers, this`trace, this`faults
      ensures Valid() && faults >= old(faults)
      ensures trace == old(trace) + [Now()]
      ensures containers == old(containers)
           || (&& id in old(containers) && NameFree(old(containers), name)
               && containers == Renamed(old(containers), id, name))
      ensures ok ==>
                && id in old(containers) && NameFree(old(containers), name)
                && containers == Renamed(old(containers), id, name)
      ensures !ok ==> id !in old(containers) || !NameFree(old(containers), name) || faults > old(faults)
    {
      var outcome := Attempt();
      var possible := id in containers && NameFree(containers, name);
      Change(if possible && outcome != Refused then Renamed(containers, id, name) else containers);
      ok := possible && outcome == Done;
    }

    method Create(name: string, image: string) returns (created: Option<InstanceId>)
      requires Valid()
      modifies this`containers, this`trace, this`faults
      ensures Valid() && faults >= old(faults)
      ensures trace == old(trace) + [Now()]
      ensures containers == old(containers)
           || (NameFree(old(containers), name)
               && exists id: InstanceId ::
                    id !in old(containers) && containers == old(containers)[id := Container(name, image, false)])
      ensures created.Some? ==>
                && created.value !in old(containers) && NameFree(old(containers), name)
                && containers == old(containers)[created.value := Container(name, image, false)]
      ensures created.None? ==> !NameFree(old(containers), name) || faults > old(faults)
    {
      var outcome := Attempt();
      UnusedInstance(containers.Keys);
      var id :| id !in containers;
      var possible := NameFree(containers, name);
      Change(if possible && outcome != Refused then containers[id := Container(name, image, false)] else containers);
      created := if possible && outcome == Done then Some(id) else None;
    }

    method Remove(id: InstanceId) returns (ok: bool)
      requires Valid()
      modifies this`containers, this`trace, this`faults
      ensures Valid() && faults >= old(faults)
      ensures trace == old(trace) + [Now()]
      ensures containers == old(containers) || (id in old(containers) && containers == Removed(old(containers), id))
      ensures ok ==> id in old(containers) && containers == Removed(old(containers), id)
      ensures !ok ==> id !in old(containers) || faults > old(faults)
    {
      var outcome := Attempt();
      var possible := id in containers;
      Change(if possible && outcome != Refused then Removed(containers, id) else containers);
      ok := possible && outcome == Done;
    }

    method Witness(e: Evidence)
      modifies this`evidence
      ensures evidence == old(evidence) + [e]
    {
      evidence := evidence + [e];
    }

    method WriteOperation(operation: Operation)
      requires Valid()
      modifies this`operationFile, this`trace
      ensures Valid() && operationFile == Some(operation) && trace == old(trace) + [Now()]
    {
      operationFile := Some(operation);
      trace := trace + [Now()];
    }

    method WriteJournal(replacement: Replacement) returns (ok: bool)
      requires Valid()
      modifies this`journalFile, this`trace, this`faults
      ensures Valid() && faults >= old(faults) && trace == old(trace) + [Now()]
      ensures journalFile == old(journalFile) || journalFile == Some(replacement)
      ensures ok ==> journalFile == Some(replacement)
      ensures !ok ==> faults > old(faults)
    {
      var outcome := Attempt();
      if outcome != Refused {
        journalFile := Some(replacement);
      }
      trace := trace + [Now()];
      ok := outcome == Done;
    }

    method RemoveJournal()
      requires Valid()
      modifies this`journalFile, this`trace
      ensures Valid() && journalFile == None && trace == old(trace) + [Now()]
    {
      journalFile := None;
      trace := trace + [Now()];
    }

    method WriteUsed(used: seq<string>, id: string)
      requires Valid() && used == LastUsed(accepted + [id]) && Distinct(used)
      modifies this`usedFile, this`accepted, this`trace
      ensures Valid() && usedFile == used && accepted == old(accepted) + [id] && trace == old(trace) + [Now()]
    {
      usedFile, accepted := used, accepted + [id];
      trace := trace + [Now()];
    }

    // The process dies right after the k-th recorded change; only what was on the machine then is left.
    method CrashAt(k: nat)
      requires Valid() && k < |trace| && Consistent(trace[k])
      modifies this
      ensures Valid() && Now() == old(trace)[k] && trace == old(trace)[..k + 1]
      ensures faults == old(faults) && evidence == old(evidence)
    {
      var w := trace[k];
      containers, operationFile, journalFile, usedFile, accepted :=
        w.containers, w.operation, w.journal, w.used, w.accepted;
      trace := trace[..k + 1];
    }
  }

  // The engine can always name a new instance.
  lemma UnusedInstance(ids: set<InstanceId>)
    ensures exists id: InstanceId :: id !in ids
  {
    var rest, top := ids, 0;
    while rest != {}
      invariant rest <= ids
      invariant forall i :: i in ids - rest ==> i < top
      decreases rest
    {
      var i :| i in rest;
      assert ids - (rest - {i}) == (ids - rest) + {i};
      rest, top := rest - {i}, if i < top then top else i + 1;
    }
    assert ids - rest == ids;
    assert top !in ids;
  }

  function Stopped(c: Fleet, id: InstanceId): Fleet
    requires id in c
  {
    c[id := c[id].(running := false)]
  }

  function Started(c: Fleet, id: InstanceId): Fleet
    requires id in c
  {
    c[id := c[id].(running := true)]
  }

  function Renamed(c: Fleet, id: InstanceId, name: string): Fleet
    requires id in c
  {
    c[id := c[id].(name := name)]
  }

  function Removed(c: Fleet, id: InstanceId): Fleet {
    map i | i in c && i != id :: c[i]
  }
}
