// The tracker itself. Each method runs under one lock, so any interleaving of the callbacks is a sequence
// of calls.
module ActivityTracker {
  import opened Common
  import opened Text
  import opened LoxoneStatus
  import opened ActivityLog
  import opened Correlation

  const NANOS_PER_MILLI := 1_000_000

  function Emitted(a: Option<Activity>): seq<Activity> {
    if a.Some? then [a.value] else []
  }

  // Why a command is refused, if it is: what the whole history says, not what the tracker has kept of it.
  ghost function Refusal(status: Option<Status>, parsed: Command, parseError: Option<string>, online: bool,
                         repeated: bool): Option<string>
  {
    if !online then Some("robot offline")
    else if parseError.Some? then parseError
    else if repeated then Some("duplicate command")
    else if status.None? then Some("robot status unavailable")
    else if Incompatible(status.value, parsed) then Some(IncompatibleReason(parsed))
    else None
  }

  // While the clock does not go back, the whole history decides about repetitions.
  ghost predicate Examined(status: Option<Status>, parsed: Command, parseError: Option<string>, online: bool,
                           canonical: string, slug: string, accepts: seq<Acceptance>, steady: bool, now: int,
                           debounce: int, refusal: Option<string>)
  {
    && (|| refusal == Refusal(status, parsed, parseError, online, true)
        || refusal == Refusal(status, parsed, parseError, online, false))
    && (steady ==>
          refusal == Refusal(status, parsed, parseError, online,
                             RecentlyAccepted(accepts, slug, canonical, now, debounce)))
  }

  // While the clock does not go back: what a submission is refused for, the first of these that applies.
  lemma RefusalTells(status: Option<Status>, parsed: Command, parseError: Option<string>, online: bool,
                     canonical: string, slug: string, accepts: seq<Acceptance>, now: int, debounce: int,
                     refusal: Option<string>)
    requires Examined(status, parsed, parseError, online, canonical, slug, accepts, true, now, debounce, refusal)
    ensures var repeated := exists i :: 0 <= i < |accepts| && accepts[i].slug == slug
                              && accepts[i].canonical == canonical && now - accepts[i].at < debounce;
            refusal ==
              if !online then Some("robot offline")
              else if parseError.Some? then parseError
              else if repeated then Some("duplicate command")
              else if status.None? then Some("robot status unavailable")
              else if !Incompatible(status.value, parsed) then None
              else if parsed.action == Pause then Some("pause incompatible with current state")
              else if parsed.action == Start then Some("start incompatible with current state")
              else if parsed.action == Dock then Some("dock incompatible with current state")
              else if parsed.action == SegmentClean || parsed.action == Scene then
                Some("cleaning command incompatible with current state")
              else Some("dock service command incompatible with current state")
  {
    hide Incompatible;
    if i :| 0 <= i < |accepts| && accepts[i].slug == slug && accepts[i].canonical == canonical
            && now - accepts[i].at < debounce {
      assert Within(accepts[i], slug, canonical, now, debounce);
    }
  }

  // A submission that gets as far as the anti-rebound time sets the clock; it stays steady if it goes on.
  predicate Timed(clock: int, steady: bool, now: int, clock': int, steady': bool) {
    || (clock' == clock && steady' == steady)
    || (clock' == now && steady' == (steady && clock <= now))
  }

  // What the decision about a command says.
  ghost predicate Decided(status: Option<Status>, p: Pending, refusal: Option<string>, decision: Decision) {
    if refusal.Some? then
      decision == Decision(p.id, false, [Outcome(p, Failed, refusal.value)])
    else if status.Some? && Confirms(status.value, p.parsed) then
      decision == Decision(p.id, false, [Outcome(p, Accepted, ""), Outcome(p, Completed, "")])
    else
      decision == Decision(p.id, true, [Outcome(p, Accepted, "")])
  }

  // The pending commands with one that was dispatched.
  function Taken(pending: map<CommandId, Pending>, p: Pending, dispatch: bool): map<CommandId, Pending> {
    if dispatch then pending[p.id := p] else pending
  }

  // A command is marked as ended if it is pending; then the activity says so, and otherwise there is none.
  ghost predicate Marked(devices: map<string, Device>, logs: Logs, devices': map<string, Device>, logs': Logs,
                         slug: string, id: CommandId, state: CommandState, reason: string, activity: Option<Activity>) {
    var d := Known(devices, slug);
    && EndedOn(devices[slug := d], logs, devices', logs', slug, if id in d.pending then {id} else {}, state,
               Emitted(activity))
    && activity == if id in d.pending then Some(Outcome(d.pending[id], state, reason)) else None
  }

  // What a status that follows another does: the events of the change, and the end of the commands whose
  // effect shows now; none of these effects showed before.
  ghost predicate Observed(d: Device, logs: Logs, events: seq<Event>, status: Status, activities: seq<Activity>,
                           d': Device, logs': Logs, events': seq<Event>)
    requires d.status.Some?
  {
    var (changes, cycle) := StatusEvents(d.status.value, status, d.cycleActive);
    && Events(activities) == changes && events' == events + changes
    && Ended(logs, logs', Confirmed(d, status), Completed)
    && (forall id :: id in Confirmed(d, status) ==> !Confirms(d.status.value, d.pending[id].parsed))
    && d' == d.(status := Some(status), cycleActive := cycle, pending := d.pending - Confirmed(d, status),
                room := if CleaningStarted in changes then None else d.room)
  }

  lemma ObservedEvents(d: Device, logs: Logs, events: seq<Event>, status: Status, activities: seq<Activity>,
                       d': Device, logs': Logs, events': seq<Event>)
    requires d.status.Some? && Observed(d, logs, events, status, activities, d', logs', events')
    ensures Events(activities) == StatusEvents(d.status.value, status, d.cycleActive).0
  {
  }

  class Tracker {
    const debounce: int
    var devices: map<string, Device>
    var sequence: nat
    // What has been published: the log of every command, the device of every dispatched command, the events
    // of every robot and the cycle it was first seen with.
    ghost var logs: Logs
    ghost var owner: map<CommandId, string>
    ghost var events: Streams
    ghost var baseline: map<string, bool>
    // The accepted commands, the time of the last submission, and whether time never went back.
    ghost var accepts: seq<Acceptance>
    ghost var clock: int
    ghost var steady: bool

    constructor (debounce: int)
      ensures Valid() && this.debounce == debounce && steady && clock == 0 && accepts == []
      ensures devices == map[] && sequence == 0 && logs == map[] && owner == map[] && events == map[]
    {
      this.debounce := debounce;
      devices, sequence, logs, owner, events, baseline := map[], 0, map[], map[], map[], map[];
      accepts, clock, steady := [], 0, true;
    }

    ghost predicate Valid()
      reads this
    {
      && Correlated(devices, logs, owner, sequence)
      && Cycles(devices, baseline, events)
      && Grounded(devices, accepts)
      && (steady ==> Spaced(devices, accepts, clock, debounce))
    }

    // A change of a device that leaves its status, cycle, pending commands and kept times alone.
    lemma Touched(slug: string, d: Device)
      requires Valid()
      requires var k := Known(devices, slug);
               && d.status == k.status && d.cycleActive == k.cycleActive
               && d.pending == k.pending && d.lastCommands == k.lastCommands
      ensures Correlated(devices[slug := d], logs, owner, sequence)
      ensures Cycles(devices[slug := d], baseline, events) && Grounded(devices[slug := d], accepts)
      ensures steady ==> Spaced(devices[slug := d], accepts, clock, debounce)
    {
      hide Correlated, Cycles, Spaced, Grounded;
      TouchPending(devices, logs, owner, sequence, slug, d);
      TouchRest(devices, baseline, events, accepts, clock, debounce, slug, d);
    }

    // The device, created where it is first heard of.
    method EnsureDevice(slug: string)
      requires Valid()
      modifies this`devices
      ensures Valid() && devices == old(devices)[slug := Known(old(devices), slug)]
    {
      hide Correlated, Cycles, Spaced, Grounded;
      Touched(slug, Known(devices, slug));
      if slug !in devices {
        devices := devices[slug := NEW_DEVICE];
      }
    }

    method SetOnline(slug: string, online: bool)
      requires Valid()
      modifies this`devices
      ensures Valid() && devices == old(devices)[slug := Known(old(devices), slug).(online := online)]
    {
      hide Correlated, Cycles, Spaced, Grounded;
      EnsureDevice(slug);
      Touched(slug, devices[slug].(online := online));
      devices := devices[slug := devices[slug].(online := online)];
    }

    // A pending command ends.
    method End(slug: string, id: CommandId, state: CommandState, reason: string) returns (a: Activity)
      requires Valid() && slug in devices && id in devices[slug].pending && (state == Completed || state == Failed)
      modifies this`devices, this`logs
      ensures Valid() && slug in devices
      ensures devices[slug].pending == old(devices)[slug].pending - {id}
      ensures a == Outcome(old(devices)[slug].pending[id], state, reason) && a.id == id
      ensures devices == Without(old(devices), slug, old(devices)[slug], {id})
      ensures logs == Recorded(old(logs), a) && Ended(old(logs), logs, {id}, state) && Continues(old(logs), logs)
    {
      hide Correlated, Cycles, Spaced, Grounded, Lifecycle;
      PendingIsOpen(devices, logs, owner, sequence, slug, id);
      EndOne(devices, logs, owner, sequence, slug, id, state);
      a := Outcome(devices[slug].pending[id], state, reason);
      var d := devices[slug].(pending := devices[slug].pending - {id});
      TouchRest(devices, baseline, events, accepts, clock, debounce, slug, d);
      devices := devices[slug := d];
      logs := Recorded(logs, a);
    }

    // Going offline fails every pending command of the device.
    method UpdateAvailability(slug: string, online: bool) returns (activities: seq<Activity>)
      requires Valid()
      modifies this`devices, this`logs
      ensures Valid()
      ensures var d := Known(old(devices), slug).(online := online);
              EndedOn(old(devices)[slug := d], old(logs), devices, logs, slug, if online then {} else d.pending.Keys,
                      Failed, activities)
      ensures online ==> activities == []
    {
      hide Correlated, Cycles, Spaced, Grounded, EndedOn;
      SetOnline(slug, online);
      activities := [];
      if online {
        EndedOnNone(devices, logs, slug, Failed);
        return;
      }
      activities := FailPending(slug);
    }

    method FailPending(slug: string) returns (activities: seq<Activity>)
      requires Valid() && slug in devices
      modifies this`devices, this`logs
      ensures Valid()
      ensures EndedOn(old(devices), old(logs), devices, logs, slug, old(devices)[slug].pending.Keys, Failed, activities)
    {
      hide Correlated, Cycles, Spaced, Grounded, Continues, Ended, Record, Events, Recorded, EndedOn;
      activities := [];
      ghost var d, done := devices[slug], {};
      EndedOnNone(devices, logs, slug, Failed);
      var todo := devices[slug].pending.Keys;
      while todo != {}
        invariant Valid() && todo == d.pending.Keys - done
        invariant EndedOn(old(devices), old(logs), devices, logs, slug, done, Failed, activities)
        decreases |todo|
      {
        var id :| id in todo;
        todo := todo - {id};
        EndedOnRest(old(devices), old(logs), devices, logs, slug, done, Failed, activities);
        ghost var devices0, logs0 := devices, logs;
        var a := End(slug, id, Failed, "robot offline");
        EndedOnMore(old(devices), old(logs), devices0, logs0, devices, logs, slug, done, id, Failed, activities, a);
        activities := activities + [a];
        done := done + {id};
      }
      EndedOnRest(old(devices), old(logs), devices, logs, slug, done, Failed, activities);
      assert done == d.pending.Keys;
    }

    // The status confirms the pending commands whose effect it shows.
    method ConfirmPending(slug: string, status: Status) returns (activities: seq<Activity>)
      requires Valid() && slug in devices
      modifies this`devices, this`logs
      ensures Valid()
      ensures EndedOn(old(devices), old(logs), devices, logs, slug, Confirmed(old(devices)[slug], status), Completed,
                      activities)
    {
      hide Correlated, Cycles, Spaced, Grounded, Continues, Ended, Record, Events, Recorded, Confirms, EndedOn;
      activities := [];
      ghost var d, done: set<CommandId> := devices[slug], {};
      EndedOnNone(devices, logs, slug, Completed);
      var todo := devices[slug].pending.Keys;
      while todo != {}
        invariant Valid() && todo <= d.pending.Keys && done == Confirmed(d, status) - todo
        invariant EndedOn(old(devices), old(logs), devices, logs, slug, done, Completed, activities)
        decreases |todo|
      {
        var id :| id in todo;
        todo := todo - {id};
        EndedOnRest(old(devices), old(logs), devices, logs, slug, done, Completed, activities);
        if Confirms(status, devices[slug].pending[id].parsed) {
          ghost var devices0, logs0 := devices, logs;
          var a := End(slug, id, Completed, "");
          EndedOnMore(old(devices), old(logs), devices0, logs0, devices, logs, slug, done, id, Completed, activities,
                      a);
          activities := activities + [a];
          done := done + {id};
        }
      }
      assert done == Confirmed(d, status);
    }

    // Forget the commands whose anti-rebound time is over.
    method PruneCommands(slug: string, now: int)
      requires Valid() && slug in devices
      modifies this`devices, this`clock, this`steady
      ensures Valid() && clock == now && steady == (old(steady) && old(clock) <= now)
      ensures var d := old(devices)[slug];
              && slug in devices
              && devices == old(devices)[slug := d.(lastCommands := Pruned(d.lastCommands, now, debounce))]
    {
      hide Correlated, Cycles, Spaced, Grounded;
      var d := devices[slug];
      var todo, kept := d.lastCommands.Keys, d.lastCommands;
      while todo != {}
        invariant todo <= d.lastCommands.Keys && todo <= kept.Keys <= d.lastCommands.Keys
        invariant forall c :: c in kept ==> kept[c] == d.lastCommands[c]
        invariant forall c :: c in d.lastCommands && c !in todo ==>
                    (c in kept <==> now - d.lastCommands[c] < debounce)
        decreases |todo|
      {
        var c :| c in todo;
        todo := todo - {c};
        if now - d.lastCommands[c] >= debounce {
          kept := kept - {c};
        }
      }
      assert kept == Pruned(d.lastCommands, now, debounce);
      PruneRest(slug, now);
      devices := devices[slug := d.(lastCommands := kept)];
      steady := steady && clock <= now;
      clock := now;
    }

    lemma PruneRest(slug: string, now: int)
      requires Valid() && slug in devices
      ensures var d := devices[slug].(lastCommands := Pruned(devices[slug].lastCommands, now, debounce));
              && Correlated(devices[slug := d], logs, owner, sequence)
              && Cycles(devices[slug := d], baseline, events) && Grounded(devices[slug := d], accepts)
              && (steady && clock <= now ==> Spaced(devices[slug := d], accepts, now, debounce))
    {
      hide Correlated, Cycles, Spaced, Grounded;
      var d := devices[slug].(lastCommands := Pruned(devices[slug].lastCommands, now, debounce));
      TouchPending(devices, logs, owner, sequence, slug, d);
      PruneKeepsSpaced(devices, accepts, clock, debounce, slug, now);
      TouchCycles(devices, baseline, events, slug, d);
    }

    // A command submitted: refused, satisfied at once, or accepted and pending until its effect shows.
    method BeginCommand(slug: string, raw: string, parsed: Command, parseError: Option<string>, online: bool, now: int)
        returns (decision: Decision, ghost refusal: Option<string>)
      requires Valid()
      modifies this
      ensures Valid() && slug in devices && sequence == old(sequence) + 1
      ensures decision.id == CommandId(now / NANOS_PER_MILLI, sequence) && decision.id !in old(logs)
      ensures logs == Record(old(logs), decision.activities) && Continues(old(logs), logs)
      ensures events == old(events) && baseline == old(baseline)
      ensures steady ==> old(steady)
      ensures Timed(old(clock), old(steady), now, clock, steady)
      ensures Examined(Known(old(devices), slug).status, parsed, parseError, online, Canonical(TrimSpace(raw)), slug,
                       old(accepts), old(steady) && old(clock) <= now, now, debounce, refusal)
      ensures Decided(Known(old(devices), slug).status, Pending(decision.id, TrimSpace(raw), parsed), refusal, decision)
      ensures accepts == if refusal.Some? then old(accepts)
                         else old(accepts) + [Acceptance(slug, Canonical(TrimSpace(raw)), now)]
      ensures owner == if decision.dispatch then old(owner)[decision.id := slug] else old(owner)
      ensures var d, p := Known(old(devices), slug), Pending(decision.id, TrimSpace(raw), parsed);
              devices == old(devices)[slug := d.(online := online, lastCommands := devices[slug].lastCommands,
                                                 pending := Taken(d.pending, p, decision.dispatch))]
    {
      hide Correlated, Cycles, Spaced, Grounded, Examined, Confirms, Incompatible, RecentlyAccepted, Record, Continues;
      hide TrimSpace, Canonical, Decided;
      SetOnline(slug, online);
      NextId(devices, logs, owner, sequence, now / NANOS_PER_MILLI);
      sequence := sequence + 1;
      var p := Pending(CommandId(now / NANOS_PER_MILLI, sequence), TrimSpace(raw), parsed);
      decision, refusal := Decide(slug, p, parseError, online, Canonical(p.command), now);
    }

    method Decide(slug: string, p: Pending, parseError: Option<string>, online: bool, canonical: string, now: int)
        returns (decision: Decision, ghost refusal: Option<string>)
      requires Valid() && slug in devices && online == devices[slug].online
      requires p.id !in logs && 1 <= p.id.sequence <= sequence
      modifies this`devices, this`logs, this`owner, this`accepts, this`clock, this`steady
      ensures Valid() && slug in devices && decision.id == p.id
      ensures logs == Record(old(logs), decision.activities) && Continues(old(logs), logs)
      ensures steady ==> old(steady)
      ensures Timed(old(clock), old(steady), now, clock, steady)
      ensures Examined(old(devices)[slug].status, p.parsed, parseError, online, canonical, slug, old(accepts),
                       old(steady) && old(clock) <= now, now, debounce, refusal)
      ensures Decided(old(devices)[slug].status, p, refusal, decision)
      ensures accepts == if refusal.Some? then old(accepts) else old(accepts) + [Acceptance(slug, canonical, now)]
      ensures owner == if decision.dispatch then old(owner)[decision.id := slug] else old(owner)
      ensures var d := old(devices)[slug];
              devices == old(devices)[slug := d.(lastCommands := devices[slug].lastCommands,
                                                 pending := Taken(d.pending, p, decision.dispatch))]
    {
      hide Correlated, Cycles, Spaced, Grounded, Examined, Confirms, Incompatible, RecentlyAccepted, Record, Continues;
      var reason := Examine(slug, p.parsed, parseError, online, canonical, now);
      refusal := reason;
      if reason.Some? {
        decision := Refuse(p, reason.value);
      } else {
        decision := Admit(slug, p, canonical, now);
      }
    }

    // Whether to refuse a command.
    method Examine(slug: string, parsed: Command, parseError: Option<string>, online: bool, canonical: string, now: int)
        returns (refusal: Option<string>)
      requires Valid() && slug in devices && online == devices[slug].online
      modifies this`devices, this`clock, this`steady
      ensures Valid() && slug in devices
      ensures devices == old(devices)[slug := old(devices)[slug].(lastCommands := devices[slug].lastCommands)]
      ensures Examined(old(devices)[slug].status, parsed, parseError, online, canonical, slug, accepts,
                       old(steady) && old(clock) <= now, now, debounce, refusal)
      ensures steady ==> old(steady)
      ensures Timed(old(clock), old(steady), now, clock, steady)
      ensures refusal.None? ==>
                && devices[slug].status.Some? && !Incompatible(devices[slug].status.value, parsed) && clock == now
                && (steady ==> !RecentlyAccepted(accepts, slug, canonical, now, debounce))
    {
      hide Correlated, Cycles, Spaced, Grounded, Confirms, Incompatible, RecentlyAccepted;
      if !online {
        return Some("robot offline");
      }
      if parseError.Some? {
        return parseError;
      }
      if steady && clock <= now {
        KeptTimesTell(devices, accepts, clock, debounce, slug, canonical, now);
      }
      PruneCommands(slug, now);
      var d := devices[slug];
      if canonical in d.lastCommands && now - d.lastCommands[canonical] < debounce {
        refusal := Some("duplicate command");
      } else if d.status.None? {
        refusal := Some("robot status unavailable");
      } else if Incompatible(d.status.value, parsed) {
        refusal := Some(IncompatibleReason(parsed));
      } else {
        refusal := None;
      }
    }

    method Refuse(p: Pending, reason: string) returns (decision: Decision)
      requires Valid() && p.id !in logs && 1 <= p.id.sequence <= sequence
      modifies this`logs
      ensures Valid() && logs == Record(old(logs), decision.activities) && Continues(old(logs), logs)
      ensures decision == Decision(p.id, false, [Outcome(p, Failed, reason)])
    {
      hide Correlated, Cycles, Spaced, Grounded, IsOpen;
      decision := Decision(p.id, false, [Outcome(p, Failed, reason)]);
      RecordFresh(logs, Outcome(p, Failed, reason), Outcome(p, Failed, reason));
      NotDispatched(devices, logs, owner, sequence, p.id, [Failed]);
      logs := logs[p.id := [Failed]];
    }

    // A command that is taken on: its time is kept, and it is pending unless the status shows its effect.
    method Admit(slug: string, p: Pending, canonical: string, now: int) returns (decision: Decision)
      requires Valid() && slug in devices && p.id !in logs && 1 <= p.id.sequence <= sequence && clock == now
      requires devices[slug].status.Some? && !Incompatible(devices[slug].status.value, p.parsed)
      requires steady ==> !RecentlyAccepted(accepts, slug, canonical, now, debounce)
      modifies this`devices, this`logs, this`owner, this`accepts
      ensures Valid() && slug in devices
      ensures logs == Record(old(logs), decision.activities) && Continues(old(logs), logs) && decision.id == p.id
      ensures Decided(old(devices)[slug].status, p, None, decision)
      ensures accepts == old(accepts) + [Acceptance(slug, canonical, now)]
      ensures owner == if decision.dispatch then old(owner)[decision.id := slug] else old(owner)
      ensures var d := old(devices)[slug];
              devices == old(devices)[slug := d.(lastCommands := devices[slug].lastCommands,
                                                 pending := Taken(d.pending, p, decision.dispatch))]
    {
      hide Correlated, Cycles, Spaced, Grounded, Confirms, Incompatible, AlreadySatisfied, RecentlyAccepted, IsOpen;
      KeepTime(slug, canonical, now);
      var status := devices[slug].status.value;
      AcceptedIsUnconfirmed(status, p.parsed);
      var accepted, completed := Outcome(p, Accepted, ""), Outcome(p, Completed, "");
      RecordFresh(logs, accepted, completed);
      if AlreadySatisfied(status, p.parsed) {
        NotDispatched(devices, logs, owner, sequence, p.id, [Accepted, Completed]);
        logs := logs[p.id := [Accepted, Completed]];
        return Decision(p.id, false, [accepted, completed]);
      }
      decision := Decision(p.id, true, [accepted]);
      MakePending(slug, p);
    }

    // A pending command is one of the device's, and its log is open.
    method MakePending(slug: string, p: Pending)
      requires Valid() && slug in devices && p.id !in logs && 1 <= p.id.sequence <= sequence
      requires devices[slug].status.Some? && !Confirms(devices[slug].status.value, p.parsed)
      modifies this`devices, this`logs, this`owner
      ensures Valid() && logs == old(logs)[p.id := [Accepted]] && owner == old(owner)[p.id := slug]
      ensures var d := old(devices)[slug];
              devices == old(devices)[slug := d.(pending := d.pending[p.id := p])]
    {
      hide Correlated, Cycles, Spaced, Grounded, Confirms, IsOpen;
      Dispatched(devices, logs, owner, sequence, slug, p);
      var d := devices[slug].(pending := devices[slug].pending[p.id := p]);
      TouchRest(devices, baseline, events, accepts, clock, debounce, slug, d);
      devices := devices[slug := d];
      logs, owner := logs[p.id := [Accepted]], owner[p.id := slug];
    }

    method KeepTime(slug: string, canonical: string, now: int)
      requires Valid() && slug in devices && clock == now
      requires steady ==> !RecentlyAccepted(accepts, slug, canonical, now, debounce)
      modifies this`devices, this`accepts
      ensures Valid() && slug in devices && accepts == old(accepts) + [Acceptance(slug, canonical, now)]
      ensures devices == old(devices)[slug := old(devices)[slug].(lastCommands := devices[slug].lastCommands)]
    {
      hide Correlated, Cycles, Spaced, Grounded, RecentlyAccepted;
      var d := devices[slug].(lastCommands := devices[slug].lastCommands[canonical := now]);
      AcceptKeepsSpaced(devices, accepts, now, debounce, slug, canonical);
      TouchCycles(devices, baseline, events, slug, d);
      TouchPending(devices, logs, owner, sequence, slug, d);
      devices := devices[slug := d];
      accepts := accepts + [Acceptance(slug, canonical, now)];
    }

    // The command was sent to the robot.
    method MarkRunning(slug: string, id: CommandId) returns (activity: Option<Activity>)
      requires Valid()
      modifies this`devices, this`logs
      ensures Valid() && devices == old(devices)[slug := Known(old(devices), slug)]
      ensures logs == Record(old(logs), Emitted(activity))
      ensures var d := Known(old(devices), slug);
              activity == if id in d.pending then Some(Outcome(d.pending[id], Running, "")) else None
      ensures id !in devices[slug].pending ==> logs == old(logs)
      ensures id in devices[slug].pending ==>
                id in old(logs) && IsOpen(old(logs)[id]) && logs == old(logs)[id := old(logs)[id] + [Running]]
    {
      hide Correlated, Cycles, Spaced, Grounded, IsOpen;
      EnsureDevice(slug);
      if id !in devices[slug].pending {
        return None;
      }
      PendingIsOpen(devices, logs, owner, sequence, slug, id);
      RunOne(devices, logs, owner, sequence, slug, id);
      activity := Some(Outcome(devices[slug].pending[id], Running, ""));
      RecordOne(logs, activity.value);
      logs := logs[id := logs[id] + [Running]];
    }

    // The end of a pending command; nothing if it has ended already.
    method MarkFailed(slug: string, id: CommandId, reason: string) returns (activity: Option<Activity>)
      requires Valid()
      modifies this`devices, this`logs
      ensures Valid()
      ensures Marked(old(devices), old(logs), devices, logs, slug, id, Failed, reason, activity)
    {
      hide Correlated, Cycles, Spaced, Grounded, Record, Events, Continues;
      EnsureDevice(slug);
      activity := MarkEnded(slug, id, Failed, reason);
    }

    method MarkCompleted(slug: string, id: CommandId) returns (activity: Option<Activity>)
      requires Valid()
      modifies this`devices, this`logs
      ensures Valid()
      ensures Marked(old(devices), old(logs), devices, logs, slug, id, Completed, "", activity)
    {
      hide Correlated, Cycles, Spaced, Grounded, Record, Events, Continues;
      EnsureDevice(slug);
      activity := MarkEnded(slug, id, Completed, "");
    }

    method MarkEnded(slug: string, id: CommandId, state: CommandState, reason: string)
        returns (activity: Option<Activity>)
      requires Valid() && slug in devices && (state == Completed || state == Failed)
      modifies this`devices, this`logs
      ensures Valid()
      ensures Marked(old(devices), old(logs), devices, logs, slug, id, state, reason, activity)
    {
      hide Correlated, Cycles, Spaced, Grounded, Continues, Ended, Record, Events, Recorded;
      EndedOnNone(devices, logs, slug, state);
      if id !in devices[slug].pending {
        assert devices[slug := devices[slug]] == devices;
        return None;
      }
      ghost var devices0, logs0 := devices, logs;
      var a := End(slug, id, state, reason);
      EndedOnMore(devices0, logs0, devices0, logs0, devices, logs, slug, {}, id, state, [], a);
      assert {} + {id} == {id} && [] + [a] == [a];
      assert devices0[slug := devices0[slug]] == devices0;
      activity := Some(a);
    }

    method ExpireCommand(slug: string, id: CommandId) returns (activity: Option<Activity>)
      requires Valid()
      modifies this`devices, this`logs
      ensures Valid()
      ensures Marked(old(devices), old(logs), devices, logs, slug, id, Failed, "confirmation timeout", activity)
    {
      activity := MarkFailed(slug, id, "confirmation timeout");
    }

    // Where a robot is: entering another room is an event only while it is cleaning.
    method UpdateRoom(slug: string, room: Option<CurrentRoom>) returns (activities: seq<Activity>)
      requires Valid()
      modifies this`devices, this`events
      ensures Valid()
      ensures var d := Known(old(devices), slug);
              && devices == old(devices)[slug := d.(room := room)]
              && (activities != [] <==>
                    && room.Some? && room.value.id != 0 && d.status.Some? && IsCleaning(d.status.value)
                    && (d.room.Some? ==> d.room.value.id != room.value.id))
              && (activities != [] ==> activities == [EventActivity(RoomEntered(room.value.id))])
              && events == old(events)[slug := EventsOf(old(events), slug) + Events(activities)]
      ensures Record(logs, activities) == logs
    {
      hide Correlated, Cycles, Spaced, Grounded, Follows;
      var d := Known(devices, slug);
      var previousId := if d.room.Some? then d.room.value.id else 0;
      activities := [];
      var cleaning := d.status.Some? && IsCleaning(d.status.value);
      if room.Some? && cleaning && room.value.id != 0 && room.value.id != previousId {
        activities := [EventActivity(RoomEntered(room.value.id))];
      }
      RoomFollows(d.cycleActive, logs, if room.Some? then room.value.id else 0);
      if d.status.None? {
        IdleUntilSeen(devices, baseline, events, slug);
      }
      TouchTimes(devices, accepts, clock, debounce, slug, d.(room := room));
      Publish(slug, d.(room := room), activities);
      devices := devices[slug := d.(room := room)];
    }

    // The events of a robot, published.
    ghost method Publish(slug: string, d: Device, activities: seq<Activity>)
      requires Correlated(devices, logs, owner, sequence) && Cycles(devices, baseline, events)
      requires Follows(Known(devices, slug).cycleActive, Events(activities)) == Some(d.cycleActive)
      requires d.status == Known(devices, slug).status && (d.status.None? ==> activities == [] && !d.cycleActive)
      requires d.pending == Known(devices, slug).pending
      modifies this`events
      ensures Correlated(devices[slug := d], logs, owner, sequence) && Cycles(devices[slug := d], baseline, events)
      ensures events == old(events)[slug := EventsOf(old(events), slug) + Events(activities)]
    {
      hide Correlated, Cycles, Follows;
      TouchPending(devices, logs, owner, sequence, slug, d);
      CyclesStep(devices, baseline, events, slug, d, Events(activities));
      events := events[slug := EventsOf(events, slug) + Events(activities)];
    }

    // What a robot reports. Its first status is only a baseline; after that, changes are events. Either way
    // it confirms the commands whose effect it shows.
    method UpdateStatus(slug: string, status: Option<Status>) returns (activities: seq<Activity>)
      requires Valid()
      modifies this`devices, this`logs, this`events, this`baseline
      ensures Valid() && logs == Record(old(logs), activities) && Continues(old(logs), logs)
      ensures logs.Keys == old(logs).Keys
      ensures status.None? ==>
                devices == old(devices) && logs == old(logs) && events == old(events) && baseline == old(baseline)
      ensures status.Some? && Known(old(devices), slug).status.None? ==>
                var d := Known(old(devices), slug);
                var cycle := IsCleaning(status.value) || NormalizeState(status.value.state) == Paused;
                && activities == [] && logs == old(logs) && events == old(events)
                && baseline == old(baseline)[slug := cycle]
                && devices == old(devices)[slug := d.(online := true, status := status, cycleActive := cycle)]
      ensures status.Some? && Known(old(devices), slug).status.Some? ==>
                && baseline == old(baseline)
                && Observed(Known(old(devices), slug).(online := true), old(logs), EventsOf(old(events), slug),
                            status.value, activities, Known(devices, slug), logs, EventsOf(events, slug))
                && devices == old(devices)[slug := Known(devices, slug)]
                && events == old(events)[slug := EventsOf(events, slug)]
      // Which events these are, in the words of the robot.
      ensures status.Some? && Known(old(devices), slug).status.Some? ==>
                var d, now, news := Known(old(devices), slug), status.value, Events(activities);
                var was := d.status.value;
                var wasCleaning := was.inCleaning
                                   || was.state in {"cleaning", "spot_cleaning", "zoned_cleaning", "segment_cleaning"};
                var cleaning := now.inCleaning
                                || now.state in {"cleaning", "spot_cleaning", "zoned_cleaning", "segment_cleaning"};
                var pauses := was.state != "paused" && now.state == "paused";
                var open := d.cycleActive || (!wasCleaning && cleaning) || pauses;
                && (Resumed in news <==> !wasCleaning && cleaning && was.state == "paused")
                && (CleaningStarted in news <==> !wasCleaning && cleaning && was.state != "paused" && !d.cycleActive)
                && (PausedCleaning in news <==> pauses)
                && (CleaningCompleted in news <==>
                      open && now.errorCode == 0
                      && now.state in {"returning_home", "docking", "idle", "charger_disconnected", "charging",
                                       "fully_charged"})
                && (ReturnedToDock in news <==>
                      was.state in {"returning_home", "docking"} && now.state in {"charging", "fully_charged"})
                && (forall code :: RobotError(code) in news <==>
                      && code == now.errorCode
                      && (|| (now.errorCode != 0 && now.errorCode != was.errorCode)
                          || (was.state !in {"error", "charging_problem"}
                              && now.state in {"error", "charging_problem"})))
                && (forall id :: RoomEntered(id) !in news) && InPlace(news)
    {
      hide Correlated, Cycles, Spaced, Grounded, Follows, Observed, IsCleaning, NormalizeState, Record, Continues;
      hide StatusEvents, InPlace, Events;
      RecordNothing(logs);
      ContinuesSame(logs);
      if status.None? {
        return [];
      }
      SetOnline(slug, true);
      if devices[slug].status.None? {
        activities := Baseline(slug, status.value);
      } else {
        activities := Observe(slug, status.value);
        StatusEventsTell(old(devices)[slug].status.value, status.value, old(devices)[slug].cycleActive);
        ObservedEvents(old(devices)[slug].(online := true), old(logs), EventsOf(old(events), slug), status.value,
                       activities, devices[slug], logs, EventsOf(events, slug));
      }
    }

    method Baseline(slug: string, status: Status) returns (activities: seq<Activity>)
      requires Valid() && slug in devices && devices[slug].status.None?
      modifies this`devices, this`logs, this`baseline
      ensures Valid() && activities == [] && logs == old(logs)
      ensures var d := old(devices)[slug];
              var cycle := IsCleaning(status) || NormalizeState(status.state) == Paused;
              && baseline == old(baseline)[slug := cycle]
              && devices == old(devices)[slug := d.(status := Some(status), cycleActive := cycle)]
    {
      hide Correlated, Cycles, Spaced, Grounded, IsCleaning, NormalizeState;
      NothingPending(devices, logs, owner, sequence, slug);
      var d := devices[slug].(status := Some(status),
                              cycleActive := IsCleaning(status) || NormalizeState(status.state) == Paused);
      Touch(devices, logs, owner, sequence, slug, d);
      TouchTimes(devices, accepts, clock, debounce, slug, d);
      CyclesBegin(devices, baseline, events, slug, d);
      devices := devices[slug := d];
      baseline := baseline[slug := d.cycleActive];
      activities := ConfirmPending(slug, status);
      assert activities == [];
    }

    method Observe(slug: string, status: Status) returns (activities: seq<Activity>)
      requires Valid() && slug in devices && devices[slug].status.Some?
      modifies this`devices, this`logs, this`events
      ensures Valid() && slug in devices && logs == Record(old(logs), activities) && Continues(old(logs), logs)
      ensures logs.Keys == old(logs).Keys
      ensures Observed(old(devices)[slug], old(logs), EventsOf(old(events), slug), status, activities,
                       devices[slug], logs, EventsOf(events, slug))
      ensures devices == old(devices)[slug := devices[slug]] && events == old(events)[slug := EventsOf(events, slug)]
    {
      hide Correlated, Cycles, Spaced, Grounded, StatusEvents, Continues, Ended, Record, Events, Confirms;
      ghost var logs0 := logs;
      EffectsNotShown(devices, logs, owner, sequence, slug);
      var changes := NoteEvents(slug, status);
      ghost var devices1 := devices;
      var confirmed := ConfirmPending(slug, status);
      EndedOnLogs(devices1, logs0, devices, logs, slug, Confirmed(devices1[slug], status), Completed, confirmed);
      RecordConcat(logs0, changes, confirmed);
      EventsConcat(changes, confirmed);
      activities := changes + confirmed;
      var d := devices[slug].(status := Some(status));
      NewStatus(devices, logs, owner, sequence, slug, d);
      TouchTimes(devices, accepts, clock, debounce, slug, d);
      CyclesNewStatus(devices, baseline, events, slug, d);
      devices := devices[slug := d];
    }

    // The events of a status change. The commands and the status are seen to afterwards.
    method NoteEvents(slug: string, status: Status) returns (activities: seq<Activity>)
      requires Valid() && slug in devices && devices[slug].status.Some?
      modifies this`devices, this`events
      ensures Valid() && Record(logs, activities) == logs
      ensures var d := old(devices)[slug];
              var (changes, cycle) := StatusEvents(d.status.value, status, d.cycleActive);
              && Events(activities) == changes && events == old(events)[slug := EventsOf(old(events), slug) + changes]
              && devices == old(devices)[slug := d.(cycleActive := cycle,
                                                    room := if CleaningStarted in changes then None else d.room)]
    {
      hide Correlated, Cycles, Spaced, Grounded, Follows, IsCleaning, NormalizeState;
      var d := devices[slug];
      var previous := d.status.value;
      var cycle, room: bool;
      activities, cycle, room := Transitions(previous, status, d.cycleActive);
      d := d.(cycleActive := cycle, room := if room then None else d.room);
      StatusEventsFollow(previous, status, devices[slug].cycleActive);
      EventsAreNotLogged(logs, activities);
      TouchTimes(devices, accepts, clock, debounce, slug, d);
      Publish(slug, d, activities);
      devices := devices[slug := d];
    }

    static method Transitions(previous: Status, status: Status, wasActive: bool)
        returns (activities: seq<Activity>, cycleActive: bool, leavesRoom: bool)
      ensures OnlyEvents(activities)
      ensures var (changes, cycle) := StatusEvents(previous, status, wasActive);
              Events(activities) == changes && cycleActive == cycle && (leavesRoom <==> CleaningStarted in changes)
    {
      hide Events, OnlyEvents;
      activities, cycleActive, leavesRoom := Going(previous, status, wasActive);
      activities, cycleActive := Ending(previous, status, activities, cycleActive);
    }

    // Cleaning starts, goes on after a pause, or is paused.
    static method Going(previous: Status, status: Status, wasActive: bool)
        returns (activities: seq<Activity>, cycleActive: bool, leavesRoom: bool)
      ensures OnlyEvents(activities)
      ensures var (changes, cycle) := CleaningEvents(previous, status, wasActive);
              Events(activities) == changes && cycleActive == cycle && (leavesRoom <==> CleaningStarted in changes)
    {
      hide IsCleaning, NormalizeState, Events, OnlyEvents;
      var prevState, state := NormalizeState(previous.state), NormalizeState(status.state);
      cycleActive, leavesRoom := wasActive, false;
      activities := [];
      assert Events([]) == [] && OnlyEvents([]) by { NoEvents(); }
      if !IsCleaning(previous) && IsCleaning(status) {
        if prevState == Paused {
          activities := Note(activities, Resumed);
        } else if !cycleActive {
          activities := Note(activities, CleaningStarted);
          leavesRoom := true;
        }
        cycleActive := true;
      }
      if prevState != Paused && state == Paused {
        activities := Note(activities, PausedCleaning);
        cycleActive := true;
      }
    }

    // Cleaning is completed, the robot is back at its dock, or there is an error.
    static method Ending(previous: Status, status: Status, before: seq<Activity>, wasActive: bool)
        returns (activities: seq<Activity>, cycleActive: bool)
      requires OnlyEvents(before)
      ensures OnlyEvents(activities)
      ensures var (changes, cycle) := EndingEvents(previous, status, wasActive);
              Events(activities) == Events(before) + changes && cycleActive == cycle
    {
      hide IsCleaning, NormalizeState, Events, OnlyEvents;
      var prevState, state := NormalizeState(previous.state), NormalizeState(status.state);
      activities, cycleActive := before, wasActive;
      if cycleActive && status.errorCode == 0 && state != Error && state in {Returning, Idle, Charging, Docked} {
        activities := Note(activities, CleaningCompleted);
        cycleActive := false;
      }
      if prevState == Returning && (state == Charging || state == Docked) {
        activities := Note(activities, ReturnedToDock);
      }
      if status.errorCode != 0 && (previous.errorCode != status.errorCode || (prevState != Error && state == Error)) {
        activities := Note(activities, RobotError(status.errorCode));
        cycleActive := false;
      } else if status.errorCode == 0 && prevState != Error && state == Error {
        activities := Note(activities, RobotError(0));
        cycleActive := false;
      }
    }

    static method Note(activities: seq<Activity>, e: Event) returns (more: seq<Activity>)
      requires OnlyEvents(activities)
      ensures Events(more) == Events(activities) + [e] && OnlyEvents(more)
    {
      more := activities + [EventActivity(e)];
      EventsOneMore(activities, EventActivity(e));
    }
  }
}
