// When the machine can be brought back: the predicate every recorded state of an update satisfies.
module UpdateSafety {
  import opened Common
  import opened UpdateHost
  import opened DockerEngine

  // An operation whose stage is not terminal was interrupted here. Where the containers are not as they
  // were, or as a completed rollback leaves them, the journal on disk names the instance to bring back
  // or the operation already reports that its rollback failed.
  ghost predicate Recoverable(b: Baseline, w: Snapshot) {
    && Midway(b, w.containers)
    && (w.journal.Some? ==> Names(b, w.journal.value))
    && if Terminal(StageOf(w)) then
         Settled(b, w.containers) || (w.journal.Some? && w.operation.Some? && w.operation.value.rollbackFailed)
       else
         && !w.operation.value.rollbackFailed
         && (w.journal.None? ==> Settled(b, w.containers))
         && (w.journal.Some? ==> StageOf(w) in {Restarting, Validating, Rollback})
  }

  ghost predicate AllRecoverable(b: Baseline, trace: seq<Snapshot>, from: nat) {
    forall k :: from <= k < |trace| ==> Recoverable(b, trace[k]) && Consistent(trace[k])
  }

  lemma AllRecoverableExtends(b: Baseline, trace: seq<Snapshot>, from: nat, s: Snapshot)
    requires AllRecoverable(b, trace, from) && Recoverable(b, s) && Consistent(s)
    ensures AllRecoverable(b, trace + [s], from)
  {
  }

  // The point of no return is the deletion of the previous instance.
  ghost predicate PreviousExists(b: Baseline, w: Snapshot) {
    HasPrevious(b) ==> b.previous in w.containers
  }

  // `clean` says the operation started with no journal left on disk.
  ghost predicate Covered(b: Baseline, clean: bool, w: Snapshot) {
    && Consistent(w)
    && (clean && PreviousExists(b, w) ==> Recoverable(b, w))
  }

  predicate RunEdge(from: Stage, to: Stage) {
    || from == to
    || (match from
        case Preparing => to == Pulling || to == Failed
        case Pulling => to == BackingUp || to == Failed
        case BackingUp => to == Restarting || to == Failed
        case Restarting => to == Validating || to == Rollback || to == Failed
        case Validating => to == Success || to == Rollback
        case Rollback => to == Failed
        case _ => false)
  }

  // Every state recorded since `from` is covered, and stages moved only along the declared edges.
  ghost predicate Orderly(b: Baseline, clean: bool, trace: seq<Snapshot>, from: nat) {
    && from < |trace|
    && (forall k :: from <= k < |trace| ==> Covered(b, clean, trace[k]))
    && (forall k :: from < k < |trace| ==> RunEdge(StageOf(trace[k - 1]), StageOf(trace[k])))
  }

  lemma OrderlyExtends(b: Baseline, clean: bool, trace: seq<Snapshot>, from: nat, s: Snapshot)
    requires Orderly(b, clean, trace, from) && Covered(b, clean, s)
    requires RunEdge(StageOf(trace[|trace| - 1]), StageOf(s))
    ensures Orderly(b, clean, trace + [s], from)
  {
    hide Covered, RunEdge;
  }

  lemma OrderlySameStage(b: Baseline, clean: bool, trace: seq<Snapshot>, from: nat, s: Snapshot)
    requires Orderly(b, clean, trace, from) && Covered(b, clean, s)
    requires s.operation == trace[|trace| - 1].operation
    ensures Orderly(b, clean, trace + [s], from)
  {
    hide Covered;
    OrderlyExtends(b, clean, trace, from, s);
  }

  // The operation is between journaling its replacement and its last stage.
  predicate InTransit(b: Baseline, w: Snapshot) {
    && Consistent(w)
    && w.operation.Some? && w.operation.value.stage in {Restarting, Validating, Rollback}
    && !w.operation.value.rollbackFailed
    && w.journal.Some? && Names(b, w.journal.value)
    && (b.previous in w.containers ==> Midway(b, w.containers))
  }

  lemma InTransitCovered(b: Baseline, clean: bool, w: Snapshot)
    requires InTransit(b, w)
    ensures Covered(b, clean, w)
  {
  }

  // Nothing has been touched yet, or nothing was touched at all.
  ghost predicate Untouched(b: Baseline, clean: bool, w: Snapshot) {
    && Consistent(w) && w.containers == b.containers
    && w.operation.Some? && !w.operation.value.rollbackFailed
    && (clean ==>
          && (w.journal.Some? ==> Names(b, w.journal.value))
          && (w.journal.Some? ==> Terminal(StageOf(w)) || StageOf(w) == Restarting))
  }

  // A container journey of an operation in transit stays in transit, snapshot by snapshot.
  lemma JourneyOrderly(b: Baseline, clean: bool, r: Replacement, trace: seq<Snapshot>, from: nat, mid: nat)
    requires from <= mid && Journey(b, r, trace, mid) && InTransit(b, trace[mid])
    requires Names(b, r)
    requires Orderly(b, clean, trace[..mid + 1], from)
    ensures InTransit(b, trace[|trace| - 1]) && Orderly(b, clean, trace, from)
    ensures b.previous !in trace[mid].containers ==> b.previous !in trace[|trace| - 1].containers
  {
    forall k | mid <= k < |trace| ensures InTransit(b, trace[k]) && Covered(b, clean, trace[k]) {
      assert Keeps(b, r, trace[mid].containers, trace[k].containers);
      InTransitCovered(b, clean, trace[k]);
    }
    forall k | from <= k < |trace| ensures Covered(b, clean, trace[k]) {
      if k <= mid { assert trace[..mid + 1][k] == trace[k]; }
    }
    forall k | from < k < |trace| ensures RunEdge(StageOf(trace[k - 1]), StageOf(trace[k])) {
      if k <= mid {
        assert trace[..mid + 1][k] == trace[k] && trace[..mid + 1][k - 1] == trace[k - 1];
      }
    }
  }

  lemma RunStarts(b: Baseline, clean: bool, trace: seq<Snapshot>)
    requires |trace| > 0
    requires var w := trace[|trace| - 1];
             && Consistent(w) && w.containers == b.containers && (clean ==> w.journal.None?)
             && w.operation.Some? && !w.operation.value.rollbackFailed
    ensures Orderly(b, clean, trace, |trace| - 1) && Untouched(b, clean, trace[|trace| - 1])
    ensures Settled(b, b.containers)
  {
  }

  lemma UntouchedStage(b: Baseline, clean: bool, w: Snapshot, op: Operation)
    requires Untouched(b, clean, w) && !Terminal(op.stage) && !op.rollbackFailed && (clean ==> w.journal.None?)
    ensures Untouched(b, clean, w.(operation := Some(op))) && Covered(b, clean, w.(operation := Some(op)))
  {
  }

  lemma UntouchedEnds(b: Baseline, clean: bool, w: Snapshot, op: Operation)
    requires Untouched(b, clean, w) && Terminal(op.stage) && !op.rollbackFailed
    ensures Covered(b, clean, w.(operation := Some(op)))
    ensures Covered(b, clean, w.(operation := Some(op), journal := None))
  {
  }

  // Writing the journal entry, whether or not the write reports success.
  lemma UntouchedJournal(b: Baseline, clean: bool, r: Replacement, w: Snapshot, w': Snapshot)
    requires Untouched(b, clean, w) && StageOf(w) == Restarting && Names(b, r) && (clean ==> w.journal.None?)
    requires w' == w.(journal := w'.journal) && (w'.journal == w.journal || w'.journal == Some(r))
    ensures Untouched(b, clean, w') && Covered(b, clean, w')
    ensures w'.journal == Some(r) ==> InTransit(b, w')
    ensures Settled(b, w'.containers)
  {
  }

  lemma TransitJournal(b: Baseline, clean: bool, r: Replacement, w: Snapshot, w': Snapshot)
    requires InTransit(b, w) && Names(b, r)
    requires w' == w.(journal := w'.journal) && (w'.journal == w.journal || w'.journal == Some(r))
    ensures InTransit(b, w') && Covered(b, clean, w')
  {
  }

  lemma TransitStage(b: Baseline, clean: bool, w: Snapshot, op: Operation)
    requires InTransit(b, w) && op.stage in {Restarting, Validating, Rollback} && !op.rollbackFailed
    ensures InTransit(b, w.(operation := Some(op))) && Covered(b, clean, w.(operation := Some(op)))
  {
  }

  lemma TransitFinalize(b: Baseline, clean: bool, w: Snapshot, w': Snapshot)
    requires InTransit(b, w) && w' == w.(containers := w'.containers) && Consistent(w')
    requires w'.containers == w.containers || w'.containers == Removed(w.containers, b.previous)
    ensures InTransit(b, w') && Covered(b, clean, w')
  {
  }

  lemma TransitSucceeds(b: Baseline, clean: bool, w: Snapshot, op: Operation)
    requires InTransit(b, w) && b.previous !in w.containers && op.stage == Success
    ensures Covered(b, clean, w.(operation := Some(op)))
    ensures Covered(b, clean, w.(operation := Some(op), journal := None))
  {
  }

  // After the rollback of an operation in transit, from `w` to `w'`.
  lemma TransitEnds(b: Baseline, clean: bool, w: Snapshot, w': Snapshot, op: Operation)
    requires InTransit(b, w) && InTransit(b, w') && op.stage == Failed
    requires b.previous !in w.containers ==> op.rollbackFailed && b.previous !in w'.containers
    requires !op.rollbackFailed ==> w'.containers == RolledBack(w.containers, b.service, b.previous)
    ensures Covered(b, clean, w'.(operation := Some(op)))
    ensures !op.rollbackFailed ==>
              && HasPrevious(b) && w'.containers == Restored(b)
              && Covered(b, clean, w'.(operation := Some(op), journal := None))
  {
    if !op.rollbackFailed {
      RollbackRestores(b, w.containers);
    }
  }

  // From any containers an update may leave behind, a completed rollback gives back what the update
  // started from, with the previous instance running, however often it was interrupted before.
  lemma RollbackRestores(b: Baseline, c: Fleet)
    requires HasPrevious(b) && Midway(b, c)
    ensures RolledBack(c, b.service, b.previous) == Restored(b)
  {
    var r := RolledBack(c, b.service, b.previous);
    assert r.Keys == b.containers.Keys;
  }

  // On any machine at all: a completed rollback puts the previous instance back under the service name,
  // running, exactly when that instance still exists. Otherwise nothing is left under that name. The
  // other containers are not touched.
  lemma RollbackRestoresIffPreviousExists(c: Fleet, service: string, previous: InstanceId)
    requires UniqueNames(c)
    ensures var after := RolledBack(c, service, previous);
            && UniqueNames(after)
            && (previous in c <==> exists i :: i in after && after[i].name == service && after[i].running)
            && (previous in c ==>
                  previous in after && after[previous] == c[previous].(name := service, running := true))
            && (previous !in c ==> NameFree(after, service))
            && (forall i :: i in after && i != previous ==> i in c && after[i] == c[i] && c[i].name != service)
            && (forall i :: i in c && c[i].name != service ==> i in after)
  {
    var after := RolledBack(c, service, previous);
    if previous in c {
      assert previous in after && after[previous].name == service && after[previous].running;
    }
  }

  lemma RollbackTwiceChangesNothing(c: Fleet, service: string, previous: InstanceId)
    ensures RolledBack(RolledBack(c, service, previous), service, previous) == RolledBack(c, service, previous)
  {
    var once := RolledBack(c, service, previous);
    assert RolledBack(once, service, previous).Keys == once.Keys;
  }

  function Rank(stage: Stage): nat {
    match stage
    case Idle => 0
    case Preparing => 1
    case Pulling => 2
    case BackingUp => 3
    case Restarting => 4
    case Validating => 5
    case Rollback => 6
    case Success => 7
    case Failed => 7
  }

  ghost predicate Reached(trace: seq<Snapshot>, from: nat, k: nat, stage: Stage)
    requires k < |trace|
  {
    exists j :: from <= j <= k && StageOf(trace[j]) == stage
  }

  // Over a whole run stages never go back, none is skipped on the way to validation, and a rollback or a
  // success is preceded by the stage it belongs after.
  lemma {:induction false} StagesClimb(b: Baseline, clean: bool, trace: seq<Snapshot>, from: nat, k: nat)
    requires Orderly(b, clean, trace, from) && StageOf(trace[from]) == Preparing && from <= k < |trace|
    ensures forall j :: from <= j <= k ==> Rank(StageOf(trace[j])) <= Rank(StageOf(trace[k]))
    ensures StageOf(trace[k]) == Rollback ==> Reached(trace, from, k, Restarting) || Reached(trace, from, k, Validating)
    ensures StageOf(trace[k]) == Success ==> Reached(trace, from, k, Validating)
    ensures forall stage :: 1 <= Rank(stage) <= Rank(StageOf(trace[k])) <= 5 ==> Reached(trace, from, k, stage)
  {
    hide Covered, Reached;
    if from < k {
      StagesClimb(b, clean, trace, from, k - 1);
      assert RunEdge(StageOf(trace[k - 1]), StageOf(trace[k]));
      ReachedHere(trace, from, k - 1);
      ReachedHere(trace, from, k);
      ReachedLater(trace, from, k - 1);
    } else {
      ReachedHere(trace, from, from);
    }
  }

  lemma ReachedHere(trace: seq<Snapshot>, from: nat, k: nat)
    requires from <= k < |trace|
    ensures Reached(trace, from, k, StageOf(trace[k]))
  {
  }

  lemma ReachedLater(trace: seq<Snapshot>, from: nat, k: nat)
    requires from <= k < |trace| - 1
    ensures forall stage :: Reached(trace, from, k, stage) ==> Reached(trace, from, k + 1, stage)
  {
  }
}
