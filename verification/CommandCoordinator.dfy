// The coordinator of submissions: every accepted command has a goroutine that dispatches it and a timer
// that ends the wait for its confirmation, and both meet the robots' reports at the tracker. What runs
// under a lock is one step; steps of different goroutines may come in any order.
module CommandCoordinator {
  import opened Common
  import opened Text
  import opened LoxoneStatus
  import opened ActivityLog
  import opened Correlation
  import opened ActivityTracker

  // How far a submission and then its dispatch goroutine have come.
  datatype Phase = Begun | Registered | Dispatching | Locating | Finishing(failed: bool) | Done(failed: bool)

  datatype Job = Job(slug: string, action: Action, started: int, phase: Phase)

  predicate IsInFlight(phase: Phase) {
    phase != Begun && !phase.Done?
  }

  // The goroutine and the timer have been started.
  predicate IsArmed(phase: Phase) {
    phase != Begun && phase != Registered
  }

  function AfterSending(action: Action): Phase {
    if action == Locate then Locating else Finishing(false)
  }

  // The command has been sent.
  predicate IsSent(phase: Phase) {
    phase.Locating? || phase.Finishing? || phase.Done?
  }

  // The dispatch failed, or the command is one that ends when it is sent.
  predicate IsSettled(job: Job) {
    match job.phase
    case Finishing(failed) => failed || job.action == Locate
    case Done(failed) => failed || job.action == Locate
    case _ => false
  }

  ghost predicate JobSound(id: CommandId, job: Job, timing: bool, fired: bool, inFlight: map<CommandId, int>,
                           slug: string, logs: Logs) {
    && job.slug == slug && id in logs
    && (id in inFlight <==> IsInFlight(job.phase)) && (id in inFlight ==> inFlight[id] == job.started)
    && (timing || fired <==> IsArmed(job.phase)) && !(timing && fired)
    && (fired || IsSettled(job) ==> !IsOpen(logs[id]))
    && (IsOpen(logs[id]) ==> |logs[id]| <= if IsSent(job.phase) then 2 else 1)
  }

  ghost predicate JobsSound(jobs: map<CommandId, Job>, timers: set<CommandId>, fired: set<CommandId>,
                            inFlight: map<CommandId, int>, owner: map<CommandId, string>, logs: Logs) {
    && jobs.Keys == owner.Keys && timers <= jobs.Keys && fired <= jobs.Keys && inFlight.Keys <= jobs.Keys
    && forall id :: id in jobs ==> JobSound(id, jobs[id], id in timers, id in fired, inFlight, owner[id], logs)
  }

  // Whatever else is logged, what has ended has ended.
  lemma JobsGoOn(jobs: map<CommandId, Job>, timers: set<CommandId>, fired: set<CommandId>,
                 inFlight: map<CommandId, int>,
                 owner: map<CommandId, string>, logs: Logs, logs': Logs)
    requires JobsSound(jobs, timers, fired, inFlight, owner, logs) && Continues(logs, logs')
    ensures JobsSound(jobs, timers, fired, inFlight, owner, logs')
  {
    hide IsOpen, IsSettled;
    forall id | id in jobs ensures JobSound(id, jobs[id], id in timers, id in fired, inFlight, owner[id], logs') {
      assert JobSound(id, jobs[id], id in timers, id in fired, inFlight, owner[id], logs);
      assert StaysOrEnds(logs[id], logs'[id]);
      if IsOpen(logs[id]) {
        EndOpen(logs[id], Completed);
        EndOpen(logs[id], Failed);
      }
    }
  }

  // A log that is open has at most one running entry, so that no log has more.
  ghost predicate ShortLogs(logs: Logs) {
    forall id :: id in logs ==> |logs[id]| <= if IsOpen(logs[id]) then 2 else 3
  }

  lemma ShortLogsGoOn(logs: Logs, logs': Logs)
    requires ShortLogs(logs) && Continues(logs, logs') && logs'.Keys == logs.Keys
    ensures ShortLogs(logs')
  {
    hide IsOpen;
    forall id | id in logs' ensures |logs'[id]| <= if IsOpen(logs'[id]) then 2 else 3 {
      assert StaysOrEnds(logs[id], logs'[id]);
      if IsOpen(logs[id]) {
        EndOpen(logs[id], Completed);
        EndOpen(logs[id], Failed);
      }
    }
  }

  lemma ShortLogsBegin(logs: Logs, id: CommandId, log: seq<CommandState>)
    requires ShortLogs(logs) && (log == [Failed] || log == [Accepted, Completed] || log == [Accepted])
    ensures ShortLogs(logs[id := log])
  {
  }

  // A step of one job.
  lemma JobStep(jobs: map<CommandId, Job>, timers: set<CommandId>, fired: set<CommandId>, inFlight: map<CommandId, int>,
                timers': set<CommandId>, fired': set<CommandId>, inFlight': map<CommandId, int>,
                owner: map<CommandId, string>, logs: Logs, id: CommandId, job: Job)
    requires JobsSound(jobs, timers, fired, inFlight, owner, logs) && id in jobs
    requires timers' - {id} == timers - {id} && fired' - {id} == fired - {id} && inFlight' - {id} == inFlight - {id}
    requires JobSound(id, job, id in timers', id in fired', inFlight', owner[id], logs)
    ensures JobsSound(jobs[id := job], timers', fired', inFlight', owner, logs)
  {
    hide IsOpen, IsSettled;
    forall other | other in jobs && other != id
      ensures JobSound(other, jobs[other], other in timers', other in fired', inFlight', owner[other], logs)
    {
      assert JobSound(other, jobs[other], other in timers, other in fired, inFlight, owner[other], logs);
      assert other in timers' - {id} <==> other in timers - {id};
      assert other in fired' - {id} <==> other in fired - {id};
      assert (other in inFlight' - {id} <==> other in inFlight - {id});
      assert other in inFlight ==> (inFlight' - {id})[other] == (inFlight - {id})[other];
    }
    assert timers' <= jobs.Keys by {
      assert forall x :: x in timers' && x != id ==> x in timers' - {id};
    }
    assert fired' <= jobs.Keys by {
      assert forall x :: x in fired' && x != id ==> x in fired' - {id};
    }
    assert inFlight'.Keys <= jobs.Keys by {
      assert forall x :: x in inFlight' && x != id ==> x in inFlight' - {id};
    }
  }

  lemma JobBegins(jobs: map<CommandId, Job>, timers: set<CommandId>, fired: set<CommandId>,
                  inFlight: map<CommandId, int>,
                  owner: map<CommandId, string>, logs: Logs, id: CommandId, job: Job)
    requires JobsSound(jobs, timers, fired, inFlight, owner, logs) && id !in owner && id in logs && job.phase == Begun
    requires |logs[id]| == 1
    ensures JobsSound(jobs[id := job], timers, fired, inFlight, owner[id := job.slug], logs)
  {
    hide IsOpen;
    forall other | other in jobs
      ensures JobSound(other, jobs[other], other in timers, other in fired, inFlight, owner[other], logs)
    {
    }
  }

  // What the submitter is told.
  datatype Submission = Submission(id: CommandId, command: string, state: CommandState, error: string, accepted: bool)

  function SubmissionFrom(raw: string, decision: Decision): Submission
    requires decision.activities != [] && forall a :: a in decision.activities ==> a.CommandActivity?
  {
    var last := decision.activities[|decision.activities| - 1];
    Submission(decision.id, TrimSpace(raw), last.state, last.reason, decision.dispatch || last.state == Completed)
  }

  // The submitter is told that the command is accepted exactly when nothing speaks against it, and why not
  // otherwise; only a command whose effect shows already is reported as completed.
  lemma SubmissionTells(status: Option<Status>, p: Pending, raw: string, refusal: Option<string>, decision: Decision)
    requires Decided(status, p, refusal, decision)
    ensures decision.activities != [] && forall a :: a in decision.activities ==> a.CommandActivity?
    ensures var s := SubmissionFrom(raw, decision);
            && s.id == p.id && s.command == TrimSpace(raw) && (s.accepted <==> refusal.None?)
            && (s.state == Failed <==> refusal.Some?) && (refusal.Some? ==> s.error == refusal.value)
            && (s.state == Completed <==> refusal.None? && status.Some? && Confirms(status.value, p.parsed))
  {
    hide Confirms;
  }

  lemma FirstLog(status: Option<Status>, p: Pending, refusal: Option<string>, decision: Decision, logs: Logs)
    requires Decided(status, p, refusal, decision) && p.id !in logs
    ensures var confirmed := status.Some? && Confirms(status.value, p.parsed);
            Record(logs, decision.activities) ==
            logs[p.id := if refusal.Some? then [Failed] else if confirmed then [Accepted, Completed] else [Accepted]]
    ensures decision.dispatch <==> refusal.None? && !(status.Some? && Confirms(status.value, p.parsed))
  {
    hide Confirms;
    var first, last := decision.activities[0], decision.activities[|decision.activities| - 1];
    RecordFresh(logs, first, last);
  }

  // A command ends if it is still open.
  function AfterEnd(logs: Logs, id: CommandId, state: CommandState): Logs
    requires id in logs
  {
    if IsOpen(logs[id]) then logs[id := logs[id] + [state]] else logs
  }

  function AfterRun(logs: Logs, id: CommandId): Logs
    requires id in logs
  {
    if IsOpen(logs[id]) then logs[id := logs[id] + [Running]] else logs
  }

  lemma MarkedLogs(devices: map<string, Device>, logs: Logs, owner: map<CommandId, string>, sequence: nat,
                   devices': map<string, Device>, logs': Logs, slug: string, id: CommandId, state: CommandState,
                   reason: string, activity: Option<Activity>)
    requires Correlated(devices, logs, owner, sequence) && id in owner && owner[id] == slug
    requires Marked(devices, logs, devices', logs', slug, id, state, reason, activity)
    requires state == Completed || state == Failed
    ensures id in logs && logs' == AfterEnd(logs, id, state) && !IsOpen(logs'[id]) && Continues(logs, logs')
  {
    hide Correlated, IsOpen, Continues, Lifecycle, EndedOn;
    PendingMeansOpen(devices, logs, owner, sequence, id);
    var ids := if id in Known(devices, slug).pending then {id} else {};
    EndedOnLogs(devices[slug := Known(devices, slug)], logs, devices', logs', slug, ids, state, Emitted(activity));
    if IsOpen(logs[id]) {
      EndOpen(logs[id], state);
    }
  }

  // The running entry of a command that was sent.
  lemma JobRuns(jobs: map<CommandId, Job>, timers: set<CommandId>, fired: set<CommandId>, inFlight: map<CommandId, int>,
                owner: map<CommandId, string>, logs: Logs, id: CommandId, job: Job)
    requires JobsSound(jobs, timers, fired, inFlight, owner, logs) && ShortLogs(logs)
    requires id in jobs && jobs[id].phase == Dispatching
    requires job == jobs[id].(phase := AfterSending(jobs[id].action))
    ensures id in logs && JobsSound(jobs[id := job], timers, fired, inFlight, owner, AfterRun(logs, id))
    ensures ShortLogs(AfterRun(logs, id))
  {
    hide IsOpen;
    assert JobSound(id, jobs[id], id in timers, id in fired, inFlight, owner[id], logs);
    var logs' := AfterRun(logs, id);
    if IsOpen(logs[id]) {
      RunOpen(logs[id]);
    }
    forall other | other in jobs && other != id
      ensures JobSound(other, jobs[other], other in timers, other in fired, inFlight, owner[other], logs')
    {
      assert JobSound(other, jobs[other], other in timers, other in fired, inFlight, owner[other], logs);
    }
    assert JobSound(id, job, id in timers, id in fired, inFlight, owner[id], logs');
  }

  datatype Diagnostics = Diagnostics(inFlight: nat, oldest: Option<int>, lastCompleted: Option<int>)

  // The coordinator and what is published, as they are at one time.
  datatype Shot = Shot(
    jobs: map<CommandId, Job>, timers: set<CommandId>, fired: set<CommandId>, inFlight: map<CommandId, int>,
    lastCompleted: Option<int>, devices: map<string, Device>, logs: Logs, events: Streams,
    accepts: seq<Acceptance>, clock: int, steady: bool)

  const FIRST_SHOT := Shot(map[], {}, {}, map[], None, map[], map[], map[], [], 0, true)

  // A submission: what the tracker decides, and the job of a command that is dispatched.
  ghost predicate Submitted(
      s: Shot, slug: string, online: bool, raw: string, command: Command, parseError: Option<string>, now: int,
      debounce: int, d: Decision, refusal: Option<string>, s': Shot)
  {
    var before, p := Known(s.devices, slug), Pending(d.id, TrimSpace(raw), command);
    && d.id !in s.logs && slug in s'.devices
    && Examined(before.status, command, parseError, online, Canonical(TrimSpace(raw)), slug, s.accepts,
                s.steady && s.clock <= now, now, debounce, refusal)
    && Decided(before.status, p, refusal, d)
    && Timed(s.clock, s.steady, now, s'.clock, s'.steady)
    && s' == s.(jobs := if d.dispatch then s.jobs[d.id := Job(slug, command.action, now, Begun)] else s.jobs,
                devices := s.devices[slug := before.(online := online,
                                                     lastCommands := s'.devices[slug].lastCommands,
                                                     pending := Taken(before.pending, p, d.dispatch))],
                logs := Record(s.logs, d.activities),
                accepts := if refusal.Some? then s.accepts
                           else s.accepts + [Acceptance(slug, Canonical(TrimSpace(raw)), now)],
                clock := s'.clock, steady := s'.steady)
  }

  // A command ends if it is pending, and its job goes on.
  ghost predicate EndsWith(s: Shot, id: CommandId, state: CommandState, reason: string, phase: Phase, s': Shot)
    requires id in s.jobs
  {
    && (exists a :: Marked(s.devices, s.logs, s'.devices, s'.logs, s.jobs[id].slug, id, state, reason, a))
    && s' == s.(jobs := s.jobs[id := s.jobs[id].(phase := phase)], devices := s'.devices, logs := s'.logs)
  }

  // The first status of a robot is a baseline; after it the events of the change are published, and exactly
  // the pending commands whose effect shows now are completed.
  ghost predicate Reported(s: Shot, slug: string, status: Status, s': Shot) {
    var d := Known(s.devices, slug).(online := true);
    if d.status.None? then
      var cycle := IsCleaning(status) || NormalizeState(status.state) == Paused;
      s' == s.(devices := s.devices[slug := d.(status := Some(status), cycleActive := cycle)])
    else
      && slug in s'.devices && slug in s'.events
      && (exists activities ::
            Observed(d, s.logs, EventsOf(s.events, slug), status, activities, s'.devices[slug], s'.logs,
                     s'.events[slug]))
      && s' == s.(devices := s.devices[slug := s'.devices[slug]], logs := s'.logs,
                  events := s.events[slug := s'.events[slug]])
  }

  // A robot that goes offline fails what is pending on it.
  ghost predicate Switched(s: Shot, slug: string, online: bool, s': Shot) {
    var d := Known(s.devices, slug).(online := online);
    var devices := s.devices[slug := d];
    if online then s' == s.(devices := devices)
    else
      && AllFail(devices, s.logs, slug, d.pending.Keys, s'.devices, s'.logs)
      && s' == s.(devices := s'.devices, logs := s'.logs)
  }

  ghost predicate AllFail(devices: map<string, Device>, logs: Logs, slug: string, ids: set<CommandId>,
                          devices': map<string, Device>, logs': Logs) {
    exists activities :: EndedOn(devices, logs, devices', logs', slug, ids, Failed, activities)
  }

  // A robot in another room; the event is that of the tracker.
  ghost predicate Moved(s: Shot, slug: string, room: Option<CurrentRoom>, s': Shot) {
    var d := Known(s.devices, slug);
    var enters := room.Some? && room.value.id != 0 && d.status.Some? && IsCleaning(d.status.value)
                  && (d.room.Some? ==> d.room.value.id != room.value.id);
    s' == s.(devices := s.devices[slug := d.(room := room)],
             events := s.events[slug := EventsOf(s.events, slug)
                                        + if enters then [RoomEntered(room.value.id)] else []])
  }

  lemma EndedOnNobody(devices: map<string, Device>, logs: Logs, devices': map<string, Device>, logs': Logs,
                      slug: string, state: CommandState, activities: seq<Activity>)
    requires EndedOn(devices, logs, devices', logs', slug, {}, state, activities)
    ensures devices' == devices && logs' == logs
  {
    EndedOnNone(devices, logs, slug, state);
    assert activities == [];
  }

  class Coordinator {
    const tracker: Tracker
    var inFlight: map<CommandId, int>
    var lastCompleted: Option<int>
    // The goroutines, the running timers, and the timers that have fired.
    var jobs: map<CommandId, Job>
    var timers: set<CommandId>
    ghost var fired: set<CommandId>

    constructor (debounce: int)
      ensures Valid() && fresh(tracker) && tracker.debounce == debounce && Now() == FIRST_SHOT
    {
      tracker := new Tracker(debounce);
      inFlight, lastCompleted, jobs, timers, fired := map[], None, map[], {}, {};
    }

    ghost predicate Valid()
      reads this, tracker
    {
      && tracker.Valid() && ShortLogs(tracker.logs)
      && JobsSound(jobs, timers, fired, inFlight, tracker.owner, tracker.logs)
    }

    ghost function Now(): Shot
      reads this, tracker
    {
      Shot(jobs, timers, fired, inFlight, lastCompleted, tracker.devices, tracker.logs, tracker.events,
           tracker.accepts, tracker.clock, tracker.steady)
    }

    // The first part of a submission: the tracker decides.
    method Begin(slug: string, online: bool, raw: string, command: Command, parseError: Option<string>, now: int)
        returns (s: Submission)
      requires Valid()
      modifies this`jobs, tracker
      ensures Valid() && Continues(old(tracker.logs), tracker.logs) && (tracker.steady ==> old(tracker.steady))
      ensures s.id !in old(tracker.logs)
      ensures tracker.logs == old(tracker.logs)[s.id := if !s.accepted then [Failed]
                                                        else if s.state == Completed then [Accepted, Completed]
                                                        else [Accepted]]
      ensures jobs == if s.accepted && s.state != Completed then
                        old(jobs)[s.id := Job(slug, command.action, now, Begun)]
                      else old(jobs)
      ensures exists d, refusal ::
                && Submitted(old(Now()), slug, online, raw, command, parseError, now, tracker.debounce, d, refusal,
                             Now())
                && s.id == d.id
    {
      hide Correlated, Cycles, Spaced, Grounded, Examined, Decided, Continues, JobsSound, Record, Canonical, TrimSpace;
      ghost var logs0, owner0 := tracker.logs, tracker.owner;
      OwnersLogged(tracker.devices, logs0, owner0, tracker.sequence);
      ghost var status := Known(tracker.devices, slug).status;
      var decision, refusal := tracker.BeginCommand(slug, raw, command, parseError, online, now);
      ghost var p := Pending(decision.id, TrimSpace(raw), command);
      SubmissionTells(status, p, raw, refusal, decision);
      FirstLog(status, p, refusal, decision, logs0);
      JobsGoOn(jobs, timers, fired, inFlight, owner0, logs0, tracker.logs);
      ShortLogsBegin(logs0, decision.id, tracker.logs[decision.id]);
      s := SubmissionFrom(raw, decision);
      if decision.dispatch {
        JobBegins(jobs, timers, fired, inFlight, owner0, tracker.logs, decision.id,
                  Job(slug, command.action, now, Begun));
        jobs := jobs[decision.id := Job(slug, command.action, now, Begun)];
      }
      assert Submitted(old(Now()), slug, online, raw, command, parseError, now, tracker.debounce, decision, refusal,
                       Now());
    }

    // The second part: the command is in flight.
    method Register(id: CommandId)
      requires Valid() && id in jobs && jobs[id].phase == Begun
      modifies this`jobs, this`inFlight
      ensures Valid() && jobs == old(jobs)[id := old(jobs)[id].(phase := Registered)]
      ensures inFlight == old(inFlight)[id := jobs[id].started]
    {
      hide Correlated, Cycles, Spaced, Grounded, IsOpen;
      var job := jobs[id].(phase := Registered);
      var now := inFlight[id := job.started];
      assert now - {id} == inFlight - {id};
      JobStep(jobs, timers, fired, inFlight, timers, fired, now, tracker.owner, tracker.logs, id, job);
      jobs, inFlight := jobs[id := job], now;
    }

    // The third part: the timer and the goroutine are started.
    method Arm(id: CommandId)
      requires Valid() && id in jobs && jobs[id].phase == Registered
      modifies this`jobs, this`timers
      ensures Valid() && jobs == old(jobs)[id := old(jobs)[id].(phase := Dispatching)] && timers == old(timers) + {id}
    {
      hide Correlated, Cycles, Spaced, Grounded, IsOpen;
      var job := jobs[id].(phase := Dispatching);
      JobStep(jobs, timers, fired, inFlight, timers + {id}, fired, inFlight, tracker.owner, tracker.logs, id, job);
      jobs, timers := jobs[id := job], timers + {id};
    }

    // The command could not be sent.
    method DispatchFails(id: CommandId, reason: string)
      requires Valid() && id in jobs && jobs[id].phase == Dispatching
      modifies this`jobs, tracker`devices, tracker`logs
      ensures Valid() && jobs == old(jobs)[id := old(jobs)[id].(phase := Finishing(true))]
      ensures id in old(tracker.logs) && tracker.logs == AfterEnd(old(tracker.logs), id, Failed)
      ensures Continues(old(tracker.logs), tracker.logs)
      ensures EndsWith(old(Now()), id, Failed, reason, Finishing(true), Now())
    {
      hide Correlated, Cycles, Spaced, Grounded, IsOpen, Marked, Continues;
      var job := jobs[id].(phase := Finishing(true));
      ghost var devices0, logs0 := tracker.devices, tracker.logs;
      var activity := tracker.MarkFailed(job.slug, id, reason);
      MarkedLogs(devices0, logs0, tracker.owner, tracker.sequence, tracker.devices, tracker.logs, job.slug, id, Failed,
                 reason, activity);
      JobsGoOn(jobs, timers, fired, inFlight, tracker.owner, logs0, tracker.logs);
      ShortLogsGoOn(logs0, tracker.logs);
      JobStep(jobs, timers, fired, inFlight, timers, fired, inFlight, tracker.owner, tracker.logs, id, job);
      jobs := jobs[id := job];
    }

    // The command was sent.
    method DispatchSucceeds(id: CommandId)
      requires Valid() && id in jobs && jobs[id].phase == Dispatching
      modifies this`jobs, tracker`devices, tracker`logs
      ensures Valid()
      ensures jobs == old(jobs)[id := old(jobs)[id].(phase := AfterSending(old(jobs)[id].action))]
      ensures jobs[id].phase == if old(jobs)[id].action == Locate then Locating else Finishing(false)
      ensures id in old(tracker.logs) && tracker.logs == AfterRun(old(tracker.logs), id)
      ensures var slug := old(jobs)[id].slug;
              tracker.devices == old(tracker.devices)[slug := Known(old(tracker.devices), slug)]
    {
      hide Correlated, Cycles, Spaced, Grounded, IsOpen, JobsSound, ShortLogs;
      var job := jobs[id].(phase := AfterSending(jobs[id].action));
      ghost var devices0, logs0 := tracker.devices, tracker.logs;
      assert jobs[id].slug == tracker.owner[id] && id in tracker.owner by { JobKnown(id); }
      PendingMeansOpen(devices0, logs0, tracker.owner, tracker.sequence, id);
      JobRuns(jobs, timers, fired, inFlight, tracker.owner, logs0, id, job);
      var activity := tracker.MarkRunning(job.slug, id);
      jobs := jobs[id := job];
    }

    lemma JobKnown(id: CommandId)
      requires Valid() && id in jobs
      ensures id in tracker.owner && jobs[id].slug == tracker.owner[id]
    {
      hide Correlated, Cycles, Spaced, Grounded, IsOpen;
    }

    // Nothing a robot reports confirms a locate command: it ends when it is sent.
    method FinishLocate(id: CommandId)
      requires Valid() && id in jobs && jobs[id].phase == Locating
      modifies this`jobs, tracker`devices, tracker`logs
      ensures Valid() && jobs == old(jobs)[id := old(jobs)[id].(phase := Finishing(false))]
      ensures id in old(tracker.logs) && tracker.logs == AfterEnd(old(tracker.logs), id, Completed)
      ensures Continues(old(tracker.logs), tracker.logs)
      ensures EndsWith(old(Now()), id, Completed, "", Finishing(false), Now())
    {
      hide Correlated, Cycles, Spaced, Grounded, IsOpen, Marked, Continues;
      var job := jobs[id].(phase := Finishing(false));
      ghost var devices0, logs0 := tracker.devices, tracker.logs;
      var activity := tracker.MarkCompleted(job.slug, id);
      MarkedLogs(devices0, logs0, tracker.owner, tracker.sequence, tracker.devices, tracker.logs, job.slug, id,
                 Completed, "", activity);
      JobsGoOn(jobs, timers, fired, inFlight, tracker.owner, logs0, tracker.logs);
      ShortLogsGoOn(logs0, tracker.logs);
      JobStep(jobs, timers, fired, inFlight, timers, fired, inFlight, tracker.owner, tracker.logs, id, job);
      jobs := jobs[id := job];
    }

    method CompleteDispatch(id: CommandId, now: int)
      requires Valid() && id in jobs && jobs[id].phase.Finishing?
      modifies this`jobs, this`inFlight, this`lastCompleted
      ensures Valid() && jobs == old(jobs)[id := old(jobs)[id].(phase := Done(old(jobs)[id].phase.failed))]
      ensures inFlight == old(inFlight) - {id} && lastCompleted == Some(now)
    {
      hide Correlated, Cycles, Spaced, Grounded, IsOpen;
      var job := jobs[id].(phase := Done(jobs[id].phase.failed));
      assert inFlight - {id} - {id} == inFlight - {id};
      JobStep(jobs, timers, fired, inFlight, timers, fired, inFlight - {id}, tracker.owner, tracker.logs, id, job);
      jobs, inFlight, lastCompleted := jobs[id := job], inFlight - {id}, Some(now);
    }

    // The wait for a confirmation is over, wherever the dispatch stands.
    method TimerFires(id: CommandId)
      requires Valid() && id in timers
      modifies this`timers, this`fired, tracker`devices, tracker`logs
      ensures Valid() && timers == old(timers) - {id} && fired == old(fired) + {id}
      ensures id in old(tracker.logs) && tracker.logs == AfterEnd(old(tracker.logs), id, Failed)
      ensures Continues(old(tracker.logs), tracker.logs)
      ensures id in old(jobs)
      ensures EndsWith(old(Now()).(timers := timers, fired := fired), id, Failed, "confirmation timeout",
                       old(jobs)[id].phase, Now())
    {
      hide Correlated, Cycles, Spaced, Grounded, IsOpen, Marked, Continues, IsSettled;
      var job := jobs[id];
      ghost var devices0, logs0 := tracker.devices, tracker.logs;
      var activity := tracker.ExpireCommand(job.slug, id);
      MarkedLogs(devices0, logs0, tracker.owner, tracker.sequence, tracker.devices, tracker.logs, job.slug, id, Failed,
                 "confirmation timeout", activity);
      JobsGoOn(jobs, timers, fired, inFlight, tracker.owner, logs0, tracker.logs);
      ShortLogsGoOn(logs0, tracker.logs);
      assert jobs[id := job] == jobs && (timers - {id}) - {id} == timers - {id};
      assert (fired + {id}) - {id} == fired - {id};
      JobStep(jobs, timers, fired, inFlight, timers - {id}, fired + {id}, inFlight, tracker.owner, tracker.logs, id,
              job);
      timers := timers - {id};
      fired := fired + {id};
    }

    // How many commands are in flight, and since when the oldest one.
    method Diagnose() returns (d: Diagnostics)
      requires Valid()
      ensures d.inFlight == |set id | id in jobs && IsInFlight(jobs[id].phase)| && d.lastCompleted == lastCompleted
      ensures d.oldest.None? <==> d.inFlight == 0
      ensures d.oldest.Some? ==>
                && (exists id :: id in jobs && IsInFlight(jobs[id].phase) && jobs[id].started == d.oldest.value)
                && (forall id :: id in jobs && IsInFlight(jobs[id].phase) ==> d.oldest.value <= jobs[id].started)
    {
      hide Correlated, Cycles, Spaced, Grounded, IsOpen, IsSettled;
      var oldest: Option<int>, todo := None, inFlight.Keys;
      while todo != {}
        invariant todo <= inFlight.Keys && (oldest.None? <==> todo == inFlight.Keys)
        invariant oldest.Some? ==> exists id :: id in inFlight && inFlight[id] == oldest.value
        invariant oldest.Some? ==> forall id :: id in inFlight && id !in todo ==> oldest.value <= inFlight[id]
        decreases |todo|
      {
        var id :| id in todo;
        todo := todo - {id};
        if oldest.None? || inFlight[id] < oldest.value {
          oldest := Some(inFlight[id]);
        }
      }
      ghost var running := set id | id in jobs && IsInFlight(jobs[id].phase);
      assert running == inFlight.Keys;
      return Diagnostics(|inFlight|, oldest, lastCompleted);
    }

    // The robots' reports, as they come.
    method ReportStatus(slug: string, status: Option<Status>)
      requires Valid()
      modifies tracker`devices, tracker`logs, tracker`events, tracker`baseline
      ensures Valid() && Continues(old(tracker.logs), tracker.logs)
      ensures if status.None? then Now() == old(Now()) else Reported(old(Now()), slug, status.value, Now())
    {
      hide Correlated, Cycles, Spaced, Grounded, Observed, Continues, JobsSound, IsCleaning, NormalizeState;
      ghost var logs0 := tracker.logs;
      var activities := tracker.UpdateStatus(slug, status);
      JobsGoOn(jobs, timers, fired, inFlight, tracker.owner, logs0, tracker.logs);
      ShortLogsGoOn(logs0, tracker.logs);
    }

    method ReportRoom(slug: string, room: Option<CurrentRoom>)
      requires Valid()
      modifies tracker`devices, tracker`events
      ensures Valid() && Moved(old(Now()), slug, room, Now())
    {
      hide Correlated, Cycles, Spaced, Grounded, JobsSound, IsCleaning;
      var activities := tracker.UpdateRoom(slug, room);
      if activities != [] {
        NoEvents();
        EventsOneMore([], activities[0]);
        assert [] + [activities[0]] == activities;
        assert Events(activities) == [RoomEntered(room.value.id)];
      }
    }

    method ReportAvailability(slug: string, online: bool)
      requires Valid()
      modifies tracker`devices, tracker`logs
      ensures Valid() && Continues(old(tracker.logs), tracker.logs) && Switched(old(Now()), slug, online, Now())
    {
      hide Correlated, Cycles, Spaced, Grounded, EndedOn, Continues, JobsSound;
      ghost var devices0, logs0 := tracker.devices, tracker.logs;
      var activities := tracker.UpdateAvailability(slug, online);
      ghost var d := Known(devices0, slug).(online := online);
      EndedOnLogs(devices0[slug := d], logs0, tracker.devices, tracker.logs, slug,
                  if online then {} else d.pending.Keys, Failed, activities);
      if online {
        EndedOnNobody(devices0[slug := d], logs0, tracker.devices, tracker.logs, slug, Failed, activities);
      }
      JobsGoOn(jobs, timers, fired, inFlight, tracker.owner, logs0, tracker.logs);
      ShortLogsGoOn(logs0, tracker.logs);
    }

    // Every log is a life with at most one running entry; a dispatched command is open exactly while
    // it is pending on its device, which is
    // never after its timer fired or its dispatch settled it.
    lemma EveryLife()
      requires Valid()
      ensures forall id :: id in tracker.logs ==> Lifecycle(tracker.logs[id]) && |tracker.logs[id]| <= 3
      ensures forall id :: id in tracker.logs && IsOpen(tracker.logs[id]) ==> id in jobs
      ensures forall id :: id in jobs ==>
                id in tracker.logs &&
                (IsOpen(tracker.logs[id]) <==> id in Known(tracker.devices, jobs[id].slug).pending)
      ensures forall id :: id in jobs && (id in fired || IsSettled(jobs[id])) ==> !IsOpen(tracker.logs[id])
    {
      hide Cycles, Spaced, Grounded, IsOpen, Lifecycle, PendingSound, IsSettled;
      forall id | id in tracker.logs
        ensures Lifecycle(tracker.logs[id]) && (IsOpen(tracker.logs[id]) ==> id in jobs)
      {
        assert LogSound(tracker.logs[id], id, tracker.owner, tracker.sequence);
      }
      forall id | id in jobs
        ensures id in tracker.logs
        ensures IsOpen(tracker.logs[id]) <==> id in Known(tracker.devices, jobs[id].slug).pending
        ensures id in fired || IsSettled(jobs[id]) ==> !IsOpen(tracker.logs[id])
      {
        assert JobSound(id, jobs[id], id in timers, id in fired, inFlight, tracker.owner[id], tracker.logs);
        PendingMeansOpen(tracker.devices, tracker.logs, tracker.owner, tracker.sequence, id);
      }
    }

    // Once every submission is through and no timer runs, every command has ended and none is in flight.
    lemma QuietMeansEnded()
      requires Valid() && timers == {} && forall id :: id in jobs ==> jobs[id].phase.Done?
      ensures inFlight == map[] && forall id :: id in tracker.logs ==> !IsOpen(tracker.logs[id])
    {
      EveryLife();
      hide Correlated, Cycles, Spaced, Grounded, IsOpen;
      forall id | id in jobs ensures id in fired && id !in inFlight {
        assert JobSound(id, jobs[id], id in timers, id in fired, inFlight, tracker.owner[id], tracker.logs);
      }
    }
  }

  datatype Step =
    | Begin(slug: string, online: bool, raw: string, command: Command, parseError: Option<string>, now: int)
    | Register(id: CommandId) | Arm(id: CommandId) | DispatchFails(id: CommandId, reason: string)
    | DispatchSucceeds(id: CommandId) | FinishLocate(id: CommandId) | CompleteDispatch(id: CommandId, now: int)
    | TimerFires(id: CommandId) | ReportStatus(slug: string, status: Option<Status>)
    | ReportRoom(slug: string, room: Option<CurrentRoom>) | ReportAvailability(slug: string, online: bool)

  predicate IsAt(s: Shot, id: CommandId, phase: Phase) {
    id in s.jobs && s.jobs[id].phase == phase
  }

  function WithPhase(s: Shot, id: CommandId, phase: Phase): map<CommandId, Job>
    requires id in s.jobs
  {
    s.jobs[id := s.jobs[id].(phase := phase)]
  }

  // A command that was sent is running if it is still open.
  ghost predicate Sent(s: Shot, id: CommandId, s': Shot)
    requires id in s.jobs
  {
    var slug := s.jobs[id].slug;
    && id in s.logs
    && s' == s.(jobs := WithPhase(s, id, AfterSending(s.jobs[id].action)), logs := AfterRun(s.logs, id),
                devices := s.devices[slug := Known(s.devices, slug)])
  }

  // What a step does; one that is not possible where it stands does nothing.
  ghost predicate Effect(s: Shot, debounce: int, step: Step, s': Shot) {
    match step
    case Begin(slug, online, raw, command, parseError, now) =>
      exists d, refusal :: Submitted(s, slug, online, raw, command, parseError, now, debounce, d, refusal, s')
    case Register(id) =>
      s' == if IsAt(s, id, Begun) then
              s.(jobs := WithPhase(s, id, Registered), inFlight := s.inFlight[id := s.jobs[id].started])
            else s
    case Arm(id) =>
      s' == if IsAt(s, id, Registered) then
              s.(jobs := WithPhase(s, id, Dispatching), timers := s.timers + {id})
            else s
    case DispatchFails(id, reason) =>
      if IsAt(s, id, Dispatching) then EndsWith(s, id, Failed, reason, Finishing(true), s') else s' == s
    case DispatchSucceeds(id) => if IsAt(s, id, Dispatching) then Sent(s, id, s') else s' == s
    case FinishLocate(id) =>
      if IsAt(s, id, Locating) then EndsWith(s, id, Completed, "", Finishing(false), s') else s' == s
    case CompleteDispatch(id, now) =>
      s' == if id in s.jobs && s.jobs[id].phase.Finishing? then
              s.(jobs := WithPhase(s, id, Done(s.jobs[id].phase.failed)), inFlight := s.inFlight - {id},
              lastCompleted := Some(now))
            else s
    case TimerFires(id) =>
      if id in s.timers then
        && id in s.jobs
        && EndsWith(s.(timers := s.timers - {id}, fired := s.fired + {id}), id, Failed, "confirmation timeout",
                    s.jobs[id].phase, s')
      else s' == s
    case ReportStatus(slug, status) => if status.None? then s' == s else Reported(s, slug, status.value, s')
    case ReportRoom(slug, room) => Moved(s, slug, room, s')
    case ReportAvailability(slug, online) => Switched(s, slug, online, s')
  }

  // The states a run goes through, one step after the other.
  ghost predicate IsRun(trace: seq<Shot>, debounce: int, steps: seq<Step>) {
    && |trace| == |steps| + 1 && trace[0] == FIRST_SHOT
    && forall i :: 0 <= i < |steps| ==> Effect(trace[i], debounce, steps[i], trace[i + 1])
  }

  // The submissions come in the order of their times.
  ghost predicate Forward(steps: seq<Step>) {
    && (forall i :: 0 <= i < |steps| && steps[i].Begin? ==> 0 <= steps[i].now)
    && (forall i, j :: 0 <= i < j < |steps| && steps[i].Begin? && steps[j].Begin? ==> steps[i].now <= steps[j].now)
  }

  // Then the tracker's clock never goes back.
  lemma {:induction false} ForwardIsSteady(trace: seq<Shot>, debounce: int, steps: seq<Step>, n: nat)
    requires IsRun(trace, debounce, steps) && Forward(steps) && n <= |steps|
    ensures trace[n].steady
    ensures trace[n].clock == 0 || exists i :: 0 <= i < n && steps[i].Begin? && steps[i].now == trace[n].clock
  {
    if n > 0 {
      ForwardIsSteady(trace, debounce, steps, n - 1);
      EffectOnTime(trace[n - 1], debounce, steps[n - 1], trace[n]);
      hide IsRun;
      if trace[n].clock != trace[n - 1].clock {
        assert steps[n - 1].Begin? && steps[n - 1].now == trace[n].clock;
      }
    }
  }

  lemma EffectOnTime(s: Shot, debounce: int, step: Step, s': Shot)
    requires Effect(s, debounce, step, s')
    ensures !step.Begin? ==> s'.clock == s.clock && s'.steady == s.steady
    ensures step.Begin? ==> Timed(s.clock, s.steady, step.now, s'.clock, s'.steady)
  {
    hide Examined, Decided, Marked, Observed, AllFail;
  }

  // Any interleaving; a step that is not possible where it stands is skipped. However it goes, the log of
  // every command is a life that is over once its timer has fired, with at most one running entry; the
  // effect of a pending command does not show in the last status of its robot; every robot's events are
  // acceptable; and while the clock did not go back, which it does not if the submissions come in the order
  // of their times, no command was accepted again within the anti-rebound time.
  method RunAny(debounce: int, steps: seq<Step>) returns (c: Coordinator, ghost trace: seq<Shot>)
    ensures c.Valid() && IsRun(trace, debounce, steps) && trace[|steps|] == c.Now()
    ensures forall id :: id in c.tracker.logs ==> Lifecycle(c.tracker.logs[id]) && |c.tracker.logs[id]| <= 3
    ensures forall id :: id in c.tracker.logs && IsOpen(c.tracker.logs[id]) ==>
              id in c.jobs && id !in c.fired && id in Known(c.tracker.devices, c.jobs[id].slug).pending
    ensures forall slug, id :: slug in c.tracker.devices && id in c.tracker.devices[slug].pending ==>
              && c.tracker.devices[slug].status.Some?
              && !Confirms(c.tracker.devices[slug].status.value, c.tracker.devices[slug].pending[id].parsed)
    ensures forall slug :: Follows(OpenAtFirst(c.tracker.baseline, slug), EventsOf(c.tracker.events, slug)).Some?
    ensures Forward(steps) ==> c.tracker.steady
    ensures c.tracker.steady ==>
              forall i, j :: 0 <= i < j < |c.tracker.accepts| ==>
                !Within(c.tracker.accepts[i], c.tracker.accepts[j].slug, c.tracker.accepts[j].canonical,
                        c.tracker.accepts[j].at, debounce)
  {
    hide Effect, IsRun, Forward, Within, Follows, Lifecycle, IsOpen, Confirms;
    c, trace := RunSteps(debounce, steps);
    c.EveryLife();
    EffectsDoNotShow(c.tracker);
    EventsAcceptable(c.tracker);
    Repetitions(c.tracker);
    if Forward(steps) {
      SteadyAtEnd(trace, debounce, steps);
    }
  }

  lemma SteadyAtEnd(trace: seq<Shot>, debounce: int, steps: seq<Step>)
    requires IsRun(trace, debounce, steps) && Forward(steps)
    ensures |trace| == |steps| + 1 && trace[|steps|].steady
  {
    ForwardIsSteady(trace, debounce, steps, |steps|);
  }

  lemma EffectsDoNotShow(t: Tracker)
    requires t.Valid()
    ensures forall slug, id :: slug in t.devices && id in t.devices[slug].pending ==>
              && t.devices[slug].status.Some?
              && !Confirms(t.devices[slug].status.value, t.devices[slug].pending[id].parsed)
  {
    hide Cycles, Spaced, Grounded, IsOpen, Lifecycle, Confirms;
    forall slug, id | slug in t.devices && id in t.devices[slug].pending
      ensures t.devices[slug].status.Some?
      ensures !Confirms(t.devices[slug].status.value, t.devices[slug].pending[id].parsed)
    {
      assert PendingSound(t.devices[slug], slug, t.logs, t.owner);
    }
  }

  lemma EventsAcceptable(t: Tracker)
    requires t.Valid()
    ensures forall slug :: Follows(OpenAtFirst(t.baseline, slug), EventsOf(t.events, slug)).Some?
  {
    hide Correlated, Spaced, Grounded, Follows;
    forall slug ensures Follows(OpenAtFirst(t.baseline, slug), EventsOf(t.events, slug)).Some? {
      assert CycleKept(Known(t.devices, slug), OpenAtFirst(t.baseline, slug), EventsOf(t.events, slug));
    }
  }

  lemma Repetitions(t: Tracker)
    requires t.Valid()
    ensures t.steady ==>
              forall i, j :: 0 <= i < j < |t.accepts| ==>
                !Within(t.accepts[i], t.accepts[j].slug, t.accepts[j].canonical, t.accepts[j].at, t.debounce)
  {
    hide Correlated, Cycles, Grounded, Within, Kept;
  }

  method RunSteps(debounce: int, steps: seq<Step>) returns (c: Coordinator, ghost trace: seq<Shot>)
    ensures c.Valid() && c.tracker.debounce == debounce
    ensures IsRun(trace, debounce, steps) && trace[|steps|] == c.Now()
  {
    hide Effect;
    c := new Coordinator(debounce);
    trace := [c.Now()];
    for i := 0 to |steps|
      invariant fresh(c) && fresh(c.tracker) && c.Valid() && c.tracker.debounce == debounce
      invariant |trace| == i + 1 && trace[0] == FIRST_SHOT && trace[i] == c.Now()
      invariant forall k :: 0 <= k < i ==> Effect(trace[k], debounce, steps[k], trace[k + 1])
    {
      TakeStep(c, steps[i]);
      trace := trace + [c.Now()];
    }
  }

  method TakeStep(c: Coordinator, step: Step)
    requires c.Valid()
    modifies c, c.tracker
    ensures c.Valid() && Effect(old(c.Now()), c.tracker.debounce, step, c.Now())
  {
    hide Correlated, Cycles, Spaced, Grounded, JobsSound, ShortLogs, Continues, IsOpen, AfterEnd, AfterRun;
    hide EndsWith, Reported, Moved, Switched, Submitted, Sent;
    match step
    case Begin(slug, online, raw, command, parseError, now) =>
      var _ := c.Begin(slug, online, raw, command, parseError, now);
    case TimerFires(id) => if id in c.timers { c.TimerFires(id); }
    case ReportStatus(slug, status) => c.ReportStatus(slug, status);
    case ReportRoom(slug, room) => c.ReportRoom(slug, room);
    case ReportAvailability(slug, online) => c.ReportAvailability(slug, online);
    case _ => TakeJobStep(c, step);
  }

  method TakeJobStep(c: Coordinator, step: Step)
    requires c.Valid()
    requires step.Register? || step.Arm? || step.DispatchFails? || step.DispatchSucceeds? || step.FinishLocate?
          || step.CompleteDispatch?
    modifies c, c.tracker
    ensures c.Valid() && Effect(old(c.Now()), c.tracker.debounce, step, c.Now())
  {
    hide Correlated, Cycles, Spaced, Grounded, JobsSound, ShortLogs, Continues, IsOpen, AfterEnd, AfterRun, EndsWith;
    match step
    case Register(id) => if id in c.jobs && c.jobs[id].phase == Begun { c.Register(id); }
    case Arm(id) => if id in c.jobs && c.jobs[id].phase == Registered { c.Arm(id); }
    case DispatchFails(id, reason) =>
      if id in c.jobs && c.jobs[id].phase == Dispatching { c.DispatchFails(id, reason); }
    case DispatchSucceeds(id) => if id in c.jobs && c.jobs[id].phase == Dispatching { c.DispatchSucceeds(id); }
    case FinishLocate(id) => if id in c.jobs && c.jobs[id].phase == Locating { c.FinishLocate(id); }
    case CompleteDispatch(id, now) => if id in c.jobs && c.jobs[id].phase.Finishing? { c.CompleteDispatch(id, now); }
  }
}
