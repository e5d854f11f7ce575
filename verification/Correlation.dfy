// How accepted commands are correlated with what the robots report later: the tracker's state, the events
// of a status change, and what holds of commands, cycles and repetitions between any two calls.
module Correlation {
  import opened Common
  import opened Text
  import opened LoxoneStatus
  import opened ActivityLog

  datatype Pending = Pending(id: CommandId, command: string, parsed: Command)

  datatype CurrentRoom = CurrentRoom(id: int, name: string)

  datatype Device = Device(
    online: bool, status: Option<Status>, room: Option<CurrentRoom>, cycleActive: bool,
    pending: map<CommandId, Pending>, lastCommands: map<string, int>)

  const NEW_DEVICE := Device(false, None, None, false, map[], map[])

  datatype Decision = Decision(id: CommandId, dispatch: bool, activities: seq<Activity>)

  function Outcome(p: Pending, state: CommandState, reason: string): Activity {
    CommandActivity(p.id, p.command, state, reason)
  }

  predicate Begins(previous: Status, status: Status) {
    !IsCleaning(previous) && IsCleaning(status)
  }

  predicate Pauses(previous: Status, status: Status) {
    NormalizeState(previous.state) != Paused && NormalizeState(status.state) == Paused
  }

  predicate EndsCleaning(status: Status) {
    status.errorCode == 0 && NormalizeState(status.state) in {Returning, Idle, Charging, Docked}
  }

  predicate Docks(previous: Status, status: Status) {
    NormalizeState(previous.state) == Returning && NormalizeState(status.state) in {Charging, Docked}
  }

  predicate Errs(previous: Status, status: Status) {
    var turnsToError := NormalizeState(previous.state) != Error && NormalizeState(status.state) == Error;
    if status.errorCode != 0 then previous.errorCode != status.errorCode || turnsToError else turnsToError
  }

  function Maybe(condition: bool, e: Event): seq<Event> {
    if condition then [e] else []
  }

  // The events of cleaning going on, and whether a cleaning cycle is open after them.
  function CleaningEvents(previous: Status, status: Status, cycleActive: bool): (seq<Event>, bool) {
    var begins, resumes := Begins(previous, status), NormalizeState(previous.state) == Paused;
    (Maybe(begins && resumes, Resumed) + Maybe(begins && !resumes && !cycleActive, CleaningStarted)
     + Maybe(Pauses(previous, status), PausedCleaning),
     cycleActive || begins || Pauses(previous, status))
  }

  // The events of cleaning coming to an end, and whether a cycle is open after them.
  function EndingEvents(previous: Status, status: Status, cycleActive: bool): (seq<Event>, bool) {
    var completes := cycleActive && EndsCleaning(status);
    (Maybe(completes, CleaningCompleted) + Maybe(Docks(previous, status), ReturnedToDock)
     + Maybe(Errs(previous, status), RobotError(status.errorCode)),
     cycleActive && !completes && !Errs(previous, status))
  }

  // The events of a status change, and whether a cleaning cycle is open after it.
  function StatusEvents(previous: Status, status: Status, cycleActive: bool): (seq<Event>, bool) {
    var (cleaning, open) := CleaningEvents(previous, status, cycleActive);
    var (ending, cycle) := EndingEvents(previous, status, open);
    (cleaning + ending, cycle)
  }

  lemma FollowsMaybe(open: bool, events: seq<Event>, condition: bool, e: Event)
    ensures Follows(open, events + Maybe(condition, e)) ==
            if condition then
              if Follows(open, events).None? then None else Follow(Follows(open, events).value, e)
            else Follows(open, events)
  {
    if condition {
      FollowsOneMore(open, events, e);
    } else {
      assert events + [] == events;
    }
  }

  function FollowIf(open: Option<bool>, condition: bool, e: Event): Option<bool> {
    if condition && open.Some? then Follow(open.value, e) else open
  }

  lemma FollowsThree(open: bool, c1: bool, e1: Event, c2: bool, e2: Event, c3: bool, e3: Event)
    ensures Follows(open, Maybe(c1, e1) + Maybe(c2, e2) + Maybe(c3, e3))
         == FollowIf(FollowIf(FollowIf(Some(open), c1, e1), c2, e2), c3, e3)
  {
    hide Follows, Follow, Maybe;
    FollowsNothing(open);
    assert [] + Maybe(c1, e1) == Maybe(c1, e1);
    FollowsMaybe(open, [], c1, e1);
    FollowsMaybe(open, Maybe(c1, e1), c2, e2);
    FollowsMaybe(open, Maybe(c1, e1) + Maybe(c2, e2), c3, e3);
  }

  // The events of a status change are acceptable where the cycle stands, and leave it where the device says.
  lemma StatusEventsFollow(previous: Status, status: Status, cycleActive: bool)
    ensures var (events, cycle) := StatusEvents(previous, status, cycleActive);
            Follows(cycleActive, events) == Some(cycle)
  {
    hide Follows, Begins, Pauses, EndsCleaning, Docks, Errs;
    var begins, resumes := Begins(previous, status), NormalizeState(previous.state) == Paused;
    var (cleaning, open) := CleaningEvents(previous, status, cycleActive);
    FollowsThree(cycleActive, begins && resumes, Resumed, begins && !resumes && !cycleActive, CleaningStarted,
                 Pauses(previous, status), PausedCleaning);
    var (ending, cycle) := EndingEvents(previous, status, open);
    FollowsThree(open, open && EndsCleaning(status), CleaningCompleted, Docks(previous, status), ReturnedToDock,
                 Errs(previous, status), RobotError(status.errorCode));
    FollowsConcat(cycleActive, cleaning, ending);
  }

  // The events of a status change come in this order, each at most once.
  function Place(e: Event): nat {
    match e
    case Resumed => 0
    case CleaningStarted => 0
    case PausedCleaning => 1
    case CleaningCompleted => 2
    case ReturnedToDock => 3
    case RobotError(_) => 4
    case RoomEntered(_) => 5
  }

  ghost predicate InPlace(events: seq<Event>) {
    forall i, j :: 0 <= i < j < |events| ==> Place(events[i]) < Place(events[j])
  }

  lemma ThreeMaybes(c1: bool, e1: Event, c2: bool, e2: Event, c3: bool, e3: Event)
    requires Place(e1) <= Place(e2) < Place(e3) && (c1 && c2 ==> Place(e1) < Place(e2))
    ensures var events := Maybe(c1, e1) + Maybe(c2, e2) + Maybe(c3, e3);
            && (forall e :: e in events <==> (c1 && e == e1) || (c2 && e == e2) || (c3 && e == e3))
            && InPlace(events)
  {
    var events := Maybe(c1, e1) + Maybe(c2, e2) + Maybe(c3, e3);
    assert |events| == (if c1 then 1 else 0) + (if c2 then 1 else 0) + (if c3 then 1 else 0);
    assert c1 ==> events[0] == e1;
    assert c2 ==> events[if c1 then 1 else 0] == e2;
    assert c3 ==> events[|events| - 1] == e3;
  }

  lemma InPlaceConcat(a: seq<Event>, b: seq<Event>, place: nat)
    requires InPlace(a) && InPlace(b)
    requires (forall e :: e in a ==> Place(e) < place) && (forall e :: e in b ==> place <= Place(e))
    ensures InPlace(a + b)
  {
    hide Place;
    forall i, j | 0 <= i < j < |a + b| ensures Place((a + b)[i]) < Place((a + b)[j]) {
      if i < |a| <= j {
        assert a[i] in a && b[j - |a|] in b;
      }
    }
  }

  lemma CleaningEventsAre(previous: Status, status: Status, cycleActive: bool)
    ensures var (events, open) := CleaningEvents(previous, status, cycleActive);
            var begins, resumes := Begins(previous, status), NormalizeState(previous.state) == Paused;
            && (forall e :: e in events <==>
                  || (begins && resumes && e == Resumed)
                  || (begins && !resumes && !cycleActive && e == CleaningStarted)
                  || (Pauses(previous, status) && e == PausedCleaning))
            && open == (cycleActive || begins || Pauses(previous, status)) && InPlace(events)
  {
    hide Begins, Pauses, NormalizeState, Maybe, InPlace;
    var begins, resumes := Begins(previous, status), NormalizeState(previous.state) == Paused;
    ThreeMaybes(begins && resumes, Resumed, begins && !resumes && !cycleActive, CleaningStarted,
                Pauses(previous, status), PausedCleaning);
  }

  lemma EndingEventsAre(previous: Status, status: Status, open: bool)
    ensures var (events, cycle) := EndingEvents(previous, status, open);
            && (forall e :: e in events <==>
                  || (open && EndsCleaning(status) && e == CleaningCompleted)
                  || (Docks(previous, status) && e == ReturnedToDock)
                  || (Errs(previous, status) && e == RobotError(status.errorCode)))
            && cycle == (open && !EndsCleaning(status) && !Errs(previous, status)) && InPlace(events)
  {
    hide EndsCleaning, Docks, Errs, Maybe, InPlace;
    ThreeMaybes(open && EndsCleaning(status), CleaningCompleted, Docks(previous, status), ReturnedToDock,
                Errs(previous, status), RobotError(status.errorCode));
  }

  lemma EventsAre(previous: Status, status: Status, cycleActive: bool)
    ensures var (events, cycle) := StatusEvents(previous, status, cycleActive);
            var begins, resumes := Begins(previous, status), NormalizeState(previous.state) == Paused;
            var open := cycleActive || begins || Pauses(previous, status);
            var completes := open && EndsCleaning(status);
            && (Resumed in events <==> begins && resumes)
            && (CleaningStarted in events <==> begins && !resumes && !cycleActive)
            && (PausedCleaning in events <==> Pauses(previous, status))
            && (CleaningCompleted in events <==> completes)
            && (ReturnedToDock in events <==> Docks(previous, status))
            && (forall code :: RobotError(code) in events <==> Errs(previous, status) && code == status.errorCode)
            && (forall id :: RoomEntered(id) !in events)
            && InPlace(events)
            && cycle == (open && !completes && !Errs(previous, status))
  {
    hide Begins, Pauses, EndsCleaning, Docks, Errs, NormalizeState, InPlace, CleaningEvents, EndingEvents;
    var (cleaning, open) := CleaningEvents(previous, status, cycleActive);
    CleaningEventsAre(previous, status, cycleActive);
    EndingEventsAre(previous, status, open);
    InPlaceConcat(cleaning, EndingEvents(previous, status, open).0, 2);
  }

  // Which change of status gives which event, in the words of the robot, and what it leaves of a cycle.
  lemma StatusEventsTell(previous: Status, status: Status, cycleActive: bool)
    ensures var (events, cycle) := StatusEvents(previous, status, cycleActive);
            var wasCleaning := previous.inCleaning
                               || previous.state in {"cleaning", "spot_cleaning", "zoned_cleaning", "segment_cleaning"};
            var cleaning := status.inCleaning
                            || status.state in {"cleaning", "spot_cleaning", "zoned_cleaning", "segment_cleaning"};
            var pauses := previous.state != "paused" && status.state == "paused";
            var open := cycleActive || (!wasCleaning && cleaning) || pauses;
            var completes := open && status.errorCode == 0
                             && status.state in {"returning_home", "docking", "idle", "charger_disconnected",
                                                 "charging", "fully_charged"};
            var turnsToError := previous.state !in {"error", "charging_problem"}
                                && status.state in {"error", "charging_problem"};
            var errs := turnsToError || (status.errorCode != 0 && status.errorCode != previous.errorCode);
            && (Resumed in events <==> !wasCleaning && cleaning && previous.state == "paused")
            && (CleaningStarted in events <==>
                  !wasCleaning && cleaning && previous.state != "paused" && !cycleActive)
            && (PausedCleaning in events <==> pauses)
            && (CleaningCompleted in events <==> completes)
            && (ReturnedToDock in events <==>
                  && previous.state in {"returning_home", "docking"}
                  && status.state in {"charging", "fully_charged"})
            && (forall code :: RobotError(code) in events <==> errs && code == status.errorCode)
            && (forall id :: RoomEntered(id) !in events)
            && InPlace(events)
            && cycle == (open && !completes && !errs)
  {
    EventsAre(previous, status, cycleActive);
    MovingTells(previous.state);
    MovingTells(status.state);
    RestingTells(previous.state);
    RestingTells(status.state);
    hide NormalizeState, InPlace, StatusEvents;
  }

  // What holds of every command, between any two calls.
  ghost predicate Correlated(devices: map<string, Device>, logs: Logs, owner: map<CommandId, string>, sequence: nat) {
    && (forall slug :: slug in devices ==> PendingSound(devices[slug], slug, logs, owner))
    && (forall id :: id in owner ==> PendingOrEnded(devices, owner[id], logs, id))
    && (forall id :: id in logs ==> LogSound(logs[id], id, owner, sequence))
  }

  // A pending command is one that was dispatched, still open, on a device with a status that does not show
  // its effect.
  ghost predicate PendingSound(d: Device, slug: string, logs: Logs, owner: map<CommandId, string>) {
    forall id :: id in d.pending ==>
      IsPending(d.pending[id], id, d.status) && id in owner && owner[id] == slug && id in logs && IsOpen(logs[id])
  }

  ghost predicate IsPending(p: Pending, id: CommandId, status: Option<Status>) {
    p.id == id && status.Some? && !Confirms(status.value, p.parsed)
  }

  // A dispatched command is pending or has ended.
  ghost predicate PendingOrEnded(devices: map<string, Device>, slug: string, logs: Logs, id: CommandId) {
    id in logs && (IsOpen(logs[id]) ==> id in Known(devices, slug).pending)
  }

  // Every log is a command's life; what was not dispatched ended at once.
  ghost predicate LogSound(log: seq<CommandState>, id: CommandId, owner: map<CommandId, string>, sequence: nat) {
    Lifecycle(log) && 1 <= id.sequence <= sequence && (id !in owner ==> !IsOpen(log))
  }

  function Known(devices: map<string, Device>, slug: string): Device {
    if slug in devices then devices[slug] else NEW_DEVICE
  }

  // A change of a device that concerns neither its pending commands nor what is seen of their effects.
  lemma Touch(devices: map<string, Device>, logs: Logs, owner: map<CommandId, string>, sequence: nat,
              slug: string, d: Device)
    requires Correlated(devices, logs, owner, sequence)
    requires d.pending == Known(devices, slug).pending
    requires forall id :: id in d.pending ==> IsPending(d.pending[id], id, d.status)
    ensures Correlated(devices[slug := d], logs, owner, sequence)
  {
    hide IsOpen, Lifecycle, IsPending;
  }

  lemma TouchPending(devices: map<string, Device>, logs: Logs, owner: map<CommandId, string>, sequence: nat,
                     slug: string, d: Device)
    requires Correlated(devices, logs, owner, sequence)
    requires d.pending == Known(devices, slug).pending && d.status == Known(devices, slug).status
    ensures Correlated(devices[slug := d], logs, owner, sequence)
  {
    hide IsOpen, Lifecycle, IsPending;
    assert slug in devices ==> PendingSound(devices[slug], slug, logs, owner);
    Touch(devices, logs, owner, sequence, slug, d);
  }

  lemma SoundAfterEnd(d: Device, slug: string, logs: Logs, owner: map<CommandId, string>, id: CommandId,
                      log: seq<CommandState>)
    requires PendingSound(d, slug, logs, owner) && id in owner
    ensures PendingSound(if owner[id] == slug then d.(pending := d.pending - {id}) else d, slug, logs[id := log], owner)
  {
    hide IsOpen, IsPending;
  }

  lemma SoundAfterRun(d: Device, slug: string, logs: Logs, owner: map<CommandId, string>, id: CommandId,
                      log: seq<CommandState>)
    requires PendingSound(d, slug, logs, owner) && IsOpen(log)
    ensures PendingSound(d, slug, logs[id := log], owner)
  {
    hide IsOpen, IsPending;
  }

  lemma PendingIsOpen(devices: map<string, Device>, logs: Logs, owner: map<CommandId, string>, sequence: nat,
                      slug: string, id: CommandId)
    requires Correlated(devices, logs, owner, sequence)
    requires slug in devices && id in devices[slug].pending
    ensures id in owner && owner[id] == slug && id in logs && IsOpen(logs[id])
    ensures devices[slug].pending[id].id == id
  {
    hide IsOpen, Lifecycle, Confirms;
    assert PendingSound(devices[slug], slug, logs, owner);
  }

  lemma EndOne(devices: map<string, Device>, logs: Logs, owner: map<CommandId, string>, sequence: nat,
               slug: string, id: CommandId, state: CommandState)
    requires Correlated(devices, logs, owner, sequence)
    requires slug in devices && id in devices[slug].pending && (state == Completed || state == Failed)
    ensures id in logs && IsOpen(logs[id]) && !IsOpen(logs[id] + [state])
    ensures var d := devices[slug];
            Correlated(devices[slug := d.(pending := d.pending - {id})], logs[id := logs[id] + [state]], owner,
                       sequence)
  {
    hide IsOpen, Lifecycle, PendingSound, IsPending;
    PendingIsOpen(devices, logs, owner, sequence, slug, id);
    EndOpen(logs[id], state);
    var d, log := devices[slug], logs[id] + [state];
    var devices' := devices[slug := d.(pending := d.pending - {id})];
    forall at | at in devices' ensures PendingSound(devices'[at], at, logs[id := log], owner) {
      SoundAfterEnd(devices[at], at, logs, owner, id, log);
    }
  }

  lemma RunOne(devices: map<string, Device>, logs: Logs, owner: map<CommandId, string>, sequence: nat,
               slug: string, id: CommandId)
    requires Correlated(devices, logs, owner, sequence)
    requires slug in devices && id in devices[slug].pending
    ensures id in logs && Correlated(devices, logs[id := logs[id] + [Running]], owner, sequence)
  {
    hide IsOpen, Lifecycle, PendingSound, IsPending;
    PendingIsOpen(devices, logs, owner, sequence, slug, id);
    RunOpen(logs[id]);
    forall at | at in devices ensures PendingSound(devices[at], at, logs[id := logs[id] + [Running]], owner) {
      SoundAfterRun(devices[at], at, logs, owner, id, logs[id] + [Running]);
    }
  }

  lemma NextId(devices: map<string, Device>, logs: Logs, owner: map<CommandId, string>, sequence: nat, millis: int)
    requires Correlated(devices, logs, owner, sequence)
    ensures Correlated(devices, logs, owner, sequence + 1) && CommandId(millis, sequence + 1) !in logs
  {
    hide Lifecycle, IsOpen, PendingSound;
  }

  // A new command that ends at once.
  lemma NotDispatched(devices: map<string, Device>, logs: Logs, owner: map<CommandId, string>, sequence: nat,
                      id: CommandId, log: seq<CommandState>)
    requires Correlated(devices, logs, owner, sequence)
    requires id !in logs && 1 <= id.sequence <= sequence && (log == [Failed] || log == [Accepted, Completed])
    ensures Correlated(devices, logs[id := log], owner, sequence)
  {
    hide IsOpen, Lifecycle, IsPending;
    FirstLogs();
  }

  lemma SoundAfterDispatch(d: Device, slug: string, logs: Logs, owner: map<CommandId, string>, to: string, p: Pending)
    requires PendingSound(d, slug, logs, owner) && p.id !in owner
    requires to == slug ==> IsPending(p, p.id, d.status)
    ensures PendingSound(if to == slug then d.(pending := d.pending[p.id := p]) else d, slug,
                         logs[p.id := [Accepted]], owner[p.id := to])
  {
    hide IsOpen, IsPending;
    FirstLogs();
  }

  lemma Dispatched(devices: map<string, Device>, logs: Logs, owner: map<CommandId, string>, sequence: nat,
                   slug: string, p: Pending)
    requires Correlated(devices, logs, owner, sequence)
    requires slug in devices && devices[slug].status.Some? && !Confirms(devices[slug].status.value, p.parsed)
    requires p.id !in logs && 1 <= p.id.sequence <= sequence
    ensures var d := devices[slug].(pending := devices[slug].pending[p.id := p]);
            && p.id !in owner
            && Correlated(devices[slug := d], logs[p.id := [Accepted]], owner[p.id := slug], sequence)
  {
    hide IsOpen, Lifecycle, PendingSound, Confirms;
    FirstLogs();
    assert p.id in owner ==> PendingOrEnded(devices, owner[p.id], logs, p.id);
    var devices' := devices[slug := devices[slug].(pending := devices[slug].pending[p.id := p])];
    forall at | at in devices' ensures PendingSound(devices'[at], at, logs[p.id := [Accepted]], owner[p.id := slug]) {
      SoundAfterDispatch(devices[at], at, logs, owner, slug, p);
    }
  }

  // Every log stays as it is, or is an open one that ends.
  ghost predicate Continues(before: Logs, after: Logs) {
    forall id :: id in before ==> id in after && StaysOrEnds(before[id], after[id])
  }

  predicate StaysOrEnds(before: seq<CommandState>, after: seq<CommandState>) {
    after == before || (IsOpen(before) && (after == before + [Completed] || after == before + [Failed]))
  }

  lemma ContinuesSame(logs: Logs)
    ensures Continues(logs, logs)
  {
  }

  lemma ContinuesOn(a: Logs, b: Logs, c: Logs)
    requires Continues(a, b) && Continues(b, c)
    ensures Continues(a, c)
  {
    hide IsOpen;
    forall id | id in a ensures id in c && StaysOrEnds(a[id], c[id]) {
      assert StaysOrEnds(a[id], b[id]) && StaysOrEnds(b[id], c[id]);
      if IsOpen(a[id]) {
        EndOpen(a[id], Completed);
        EndOpen(a[id], Failed);
      }
    }
  }

  type Streams = map<string, seq<Event>>

  function EventsOf(events: Streams, slug: string): seq<Event> {
    if slug in events then events[slug] else []
  }

  // The cycle a device had open when it was first seen: nothing is known before, so nothing is reported.
  function OpenAtFirst(baseline: map<string, bool>, slug: string): bool {
    slug in baseline && baseline[slug]
  }

  // Every robot's events are acceptable, and leave its cycle where the device says it is.
  ghost predicate Cycles(devices: map<string, Device>, baseline: map<string, bool>, events: Streams) {
    forall slug :: CycleKept(Known(devices, slug), OpenAtFirst(baseline, slug), EventsOf(events, slug))
  }

  ghost predicate CycleKept(d: Device, openAtFirst: bool, events: seq<Event>) {
    && Follows(openAtFirst, events) == Some(d.cycleActive)
    && (d.status.None? ==> events == [] && !d.cycleActive)
  }

  datatype Acceptance = Acceptance(slug: string, canonical: string, at: int)

  // The last accepted repetition of a command is too recent.
  ghost predicate RecentlyAccepted(accepts: seq<Acceptance>, slug: string, canonical: string, now: int, debounce: int) {
    exists i :: 0 <= i < |accepts| && Within(accepts[i], slug, canonical, now, debounce)
  }

  predicate Within(a: Acceptance, slug: string, canonical: string, now: int, debounce: int) {
    a.slug == slug && a.canonical == canonical && now - a.at < debounce
  }

  // While the clock does not go back, no command is accepted again within the anti-rebound time, and the
  // times kept are enough to tell.
  ghost predicate Spaced(devices: map<string, Device>, accepts: seq<Acceptance>, clock: int, debounce: int) {
    && (forall a :: a in accepts ==> a.at <= clock && (clock - a.at >= debounce || Kept(devices, a)))
    && (forall i, j :: 0 <= i < j < |accepts| ==>
          !Within(accepts[i], accepts[j].slug, accepts[j].canonical, accepts[j].at, debounce))
  }

  predicate Kept(devices: map<string, Device>, a: Acceptance) {
    && a.slug in devices && a.canonical in devices[a.slug].lastCommands
    && devices[a.slug].lastCommands[a.canonical] >= a.at
  }

  // Every time kept is the time of an acceptance.
  ghost predicate Grounded(devices: map<string, Device>, accepts: seq<Acceptance>) {
    forall slug, c :: slug in devices && c in devices[slug].lastCommands ==>
      Acceptance(slug, c, devices[slug].lastCommands[c]) in accepts
  }

  function Pruned(lastCommands: map<string, int>, now: int, debounce: int): map<string, int> {
    map c | c in lastCommands && now - lastCommands[c] < debounce :: lastCommands[c]
  }

  // What the kept times say about repetitions is what the whole history says.
  lemma KeptTimesTell(devices: map<string, Device>, accepts: seq<Acceptance>, clock: int, debounce: int,
                      slug: string, canonical: string, now: int)
    requires Spaced(devices, accepts, clock, debounce) && Grounded(devices, accepts) && clock <= now
    requires slug in devices
    ensures canonical in Pruned(devices[slug].lastCommands, now, debounce)
       <==> RecentlyAccepted(accepts, slug, canonical, now, debounce)
  {
    var kept := devices[slug].lastCommands;
    if canonical in kept && now - kept[canonical] < debounce {
      var a := Acceptance(slug, canonical, kept[canonical]);
      assert a in accepts;
      var i :| 0 <= i < |accepts| && accepts[i] == a;
      assert Within(accepts[i], slug, canonical, now, debounce);
    }
    if RecentlyAccepted(accepts, slug, canonical, now, debounce) {
      var i :| 0 <= i < |accepts| && Within(accepts[i], slug, canonical, now, debounce);
      assert accepts[i] in accepts && Kept(devices, accepts[i]);
    }
  }

  lemma PruneKeepsSpaced(devices: map<string, Device>, accepts: seq<Acceptance>, clock: int, debounce: int,
                         slug: string, now: int)
    requires slug in devices && Grounded(devices, accepts)
    ensures var d := devices[slug];
            var devices' := devices[slug := d.(lastCommands := Pruned(d.lastCommands, now, debounce))];
            && Grounded(devices', accepts)
            && (Spaced(devices, accepts, clock, debounce) && clock <= now ==> Spaced(devices', accepts, now, debounce))
  {
    var d := devices[slug];
    var devices' := devices[slug := d.(lastCommands := Pruned(d.lastCommands, now, debounce))];
    if Spaced(devices, accepts, clock, debounce) && clock <= now {
      forall a | a in accepts ensures a.at <= now && (now - a.at >= debounce || Kept(devices', a)) {
        assert a.at <= clock && (clock - a.at >= debounce || Kept(devices, a));
      }
    }
  }

  lemma AcceptKeepsSpaced(devices: map<string, Device>, accepts: seq<Acceptance>, now: int, debounce: int,
                          slug: string, canonical: string)
    requires slug in devices && Grounded(devices, accepts)
    ensures var d := devices[slug];
            var devices' := devices[slug := d.(lastCommands := d.lastCommands[canonical := now])];
            var accepts' := accepts + [Acceptance(slug, canonical, now)];
            && Grounded(devices', accepts')
            && (&& Spaced(devices, accepts, now, debounce)
                && !RecentlyAccepted(accepts, slug, canonical, now, debounce) ==>
                  Spaced(devices', accepts', now, debounce))
  {
    var d, a := devices[slug], Acceptance(slug, canonical, now);
    var devices' := devices[slug := d.(lastCommands := d.lastCommands[canonical := now])];
    assert (accepts + [a])[|accepts|] == a;
    assert forall b :: b in accepts ==> b in accepts + [a];
    if Spaced(devices, accepts, now, debounce) && !RecentlyAccepted(accepts, slug, canonical, now, debounce) {
      forall b | b in accepts + [a] ensures b.at <= now && (now - b.at >= debounce || Kept(devices', b)) {
        if b != a {
          assert b in accepts;
        }
      }
    }
  }

  lemma TouchCycles(devices: map<string, Device>, baseline: map<string, bool>, events: Streams, slug: string, d: Device)
    requires Cycles(devices, baseline, events)
    requires d.cycleActive == Known(devices, slug).cycleActive && d.status == Known(devices, slug).status
    ensures Cycles(devices[slug := d], baseline, events)
  {
    hide Follows;
    forall at ensures CycleKept(Known(devices[slug := d], at), OpenAtFirst(baseline, at), EventsOf(events, at)) {
      assert CycleKept(Known(devices, at), OpenAtFirst(baseline, at), EventsOf(events, at));
    }
  }

  // A robot's events go on from where its cycle stands.
  lemma CyclesStep(devices: map<string, Device>, baseline: map<string, bool>, events: Streams, slug: string,
                   d: Device, more: seq<Event>)
    requires Cycles(devices, baseline, events)
    requires Follows(Known(devices, slug).cycleActive, more) == Some(d.cycleActive)
    requires d.status == Known(devices, slug).status && (d.status.None? ==> more == [] && !d.cycleActive)
    ensures Cycles(devices[slug := d], baseline, events[slug := EventsOf(events, slug) + more])
  {
    hide Follows;
    assert CycleKept(Known(devices, slug), OpenAtFirst(baseline, slug), EventsOf(events, slug));
    FollowsConcat(OpenAtFirst(baseline, slug), EventsOf(events, slug), more);
    var events' := events[slug := EventsOf(events, slug) + more];
    forall at ensures CycleKept(Known(devices[slug := d], at), OpenAtFirst(baseline, at), EventsOf(events', at)) {
      assert CycleKept(Known(devices, at), OpenAtFirst(baseline, at), EventsOf(events, at));
    }
  }

  lemma IdleUntilSeen(devices: map<string, Device>, baseline: map<string, bool>, events: Streams, slug: string)
    requires Cycles(devices, baseline, events) && Known(devices, slug).status.None?
    ensures !Known(devices, slug).cycleActive
  {
    hide Follows;
    assert CycleKept(Known(devices, slug), OpenAtFirst(baseline, slug), EventsOf(events, slug));
  }

  // The first status of a robot says what cycle it has open; later ones follow the events.
  lemma CyclesBegin(devices: map<string, Device>, baseline: map<string, bool>, events: Streams, slug: string, d: Device)
    requires Cycles(devices, baseline, events) && Known(devices, slug).status.None? && d.status.Some?
    ensures Cycles(devices[slug := d], baseline[slug := d.cycleActive], events)
  {
    hide Follows;
    assert CycleKept(Known(devices, slug), OpenAtFirst(baseline, slug), EventsOf(events, slug));
    FollowsNothing(d.cycleActive);
    var baseline' := baseline[slug := d.cycleActive];
    forall at ensures CycleKept(Known(devices[slug := d], at), OpenAtFirst(baseline', at), EventsOf(events, at)) {
      assert CycleKept(Known(devices, at), OpenAtFirst(baseline, at), EventsOf(events, at));
    }
  }

  lemma CyclesNewStatus(devices: map<string, Device>, baseline: map<string, bool>, events: Streams, slug: string,
                        d: Device)
    requires Cycles(devices, baseline, events) && d.status.Some?
    requires d.cycleActive == Known(devices, slug).cycleActive
    ensures Cycles(devices[slug := d], baseline, events)
  {
    hide Follows;
    forall at ensures CycleKept(Known(devices[slug := d], at), OpenAtFirst(baseline, at), EventsOf(events, at)) {
      assert CycleKept(Known(devices, at), OpenAtFirst(baseline, at), EventsOf(events, at));
    }
  }

  lemma TouchTimes(devices: map<string, Device>, accepts: seq<Acceptance>, clock: int, debounce: int, slug: string,
                   d: Device)
    requires Grounded(devices, accepts) && d.lastCommands == Known(devices, slug).lastCommands
    ensures Grounded(devices[slug := d], accepts)
    ensures Spaced(devices, accepts, clock, debounce) ==> Spaced(devices[slug := d], accepts, clock, debounce)
  {
    assert forall a :: Kept(devices, a) ==> Kept(devices[slug := d], a);
  }

  // A change of a device that concerns neither its cycle nor the times kept.
  lemma TouchRest(devices: map<string, Device>, baseline: map<string, bool>, events: Streams,
                  accepts: seq<Acceptance>, clock: int, debounce: int, slug: string, d: Device)
    requires Cycles(devices, baseline, events) && Grounded(devices, accepts)
    requires d.cycleActive == Known(devices, slug).cycleActive && d.status == Known(devices, slug).status
    requires d.lastCommands == Known(devices, slug).lastCommands
    ensures Cycles(devices[slug := d], baseline, events) && Grounded(devices[slug := d], accepts)
    ensures Spaced(devices, accepts, clock, debounce) ==> Spaced(devices[slug := d], accepts, clock, debounce)
  {
    hide Spaced, Grounded, Cycles;
    TouchCycles(devices, baseline, events, slug, d);
    TouchTimes(devices, accepts, clock, debounce, slug, d);
  }

  // The commands in the set ended, and nothing else was logged.
  ghost predicate Ended(before: Logs, after: Logs, ids: set<CommandId>, state: CommandState) {
    && ids <= before.Keys && after.Keys == before.Keys
    && forall id :: id in before ==> after[id] == if id in ids then before[id] + [state] else before[id]
  }

  function Without(devices: map<string, Device>, slug: string, d: Device, ids: set<CommandId>): map<string, Device> {
    devices[slug := d.(pending := d.pending - ids)]
  }

  lemma EndedMore(a: Logs, b: Logs, c: Logs, ids: set<CommandId>, id: CommandId, state: CommandState)
    requires Ended(a, b, ids, state) && Ended(b, c, {id}, state) && id !in ids
    ensures Ended(a, c, ids + {id}, state)
  {
  }

  // Of one device's pending commands, those in the set ended, and the activities say so.
  ghost predicate EndedOn(devices: map<string, Device>, logs: Logs, devices': map<string, Device>, logs': Logs,
                          slug: string, ids: set<CommandId>, state: CommandState, activities: seq<Activity>) {
    && slug in devices && ids <= devices[slug].pending.Keys
    && devices' == Without(devices, slug, devices[slug], ids)
    && logs' == Record(logs, activities) && Events(activities) == []
    && Ended(logs, logs', ids, state) && Continues(logs, logs') && |activities| == |ids|
  }

  lemma EndedOnNone(devices: map<string, Device>, logs: Logs, slug: string, state: CommandState)
    requires slug in devices
    ensures EndedOn(devices, logs, devices, logs, slug, {}, state, [])
  {
    assert devices[slug].pending - {} == devices[slug].pending;
  }

  lemma EndedOnRest(devices: map<string, Device>, logs: Logs, devices': map<string, Device>, logs': Logs,
                    slug: string, ids: set<CommandId>, state: CommandState, activities: seq<Activity>)
    requires EndedOn(devices, logs, devices', logs', slug, ids, state, activities)
    ensures slug in devices && slug in devices' && ids <= devices[slug].pending.Keys
    ensures devices'[slug].pending == devices[slug].pending - ids
  {
    hide Continues, Ended, Record, Events;
  }

  lemma EndedOnLogs(devices: map<string, Device>, logs: Logs, devices': map<string, Device>, logs': Logs,
                    slug: string, ids: set<CommandId>, state: CommandState, activities: seq<Activity>)
    requires EndedOn(devices, logs, devices', logs', slug, ids, state, activities)
    ensures Ended(logs, logs', ids, state) && Continues(logs, logs') && logs'.Keys == logs.Keys
  {
    hide Continues, Record, Events;
  }

  lemma EndedOnMore(devices: map<string, Device>, logs: Logs, some: map<string, Device>, between: Logs,
                    more: map<string, Device>, after: Logs, slug: string, ids: set<CommandId>, id: CommandId,
                    state: CommandState, activities: seq<Activity>, a: Activity)
    requires EndedOn(devices, logs, some, between, slug, ids, state, activities)
    requires slug in some && id in some[slug].pending && a.CommandActivity?
    requires more == Without(some, slug, some[slug], {id}) && after == Recorded(between, a)
    requires Ended(between, after, {id}, state) && Continues(between, after)
    ensures EndedOn(devices, logs, more, after, slug, ids + {id}, state, activities + [a])
  {
    hide Continues, Ended, Record, Events;
    var d := devices[slug];
    assert d.pending - ids - {id} == d.pending - (ids + {id});
    RecordOneMore(logs, activities, a);
    EventsOneMore(activities, a);
    ContinuesOn(logs, between, after);
    EndedMore(logs, between, after, ids, id, state);
  }

  ghost function Confirmed(d: Device, status: Status): set<CommandId> {
    set id | id in d.pending && Confirms(status, d.pending[id].parsed)
  }

  function IncompatibleReason(c: Command): string {
    match c.action
    case Pause => "pause incompatible with current state"
    case SegmentClean => "cleaning command incompatible with current state"
    case Scene => "cleaning command incompatible with current state"
    case Start => "start incompatible with current state"
    case Dock => "dock incompatible with current state"
    case _ => "dock service command incompatible with current state"
  }

  lemma NothingPending(devices: map<string, Device>, logs: Logs, owner: map<CommandId, string>, sequence: nat,
                       slug: string)
    requires Correlated(devices, logs, owner, sequence) && slug in devices && devices[slug].status.None?
    ensures devices[slug].pending == map[]
  {
    hide IsOpen, Lifecycle, Confirms;
    assert PendingSound(devices[slug], slug, logs, owner);
  }

  lemma EffectsNotShown(devices: map<string, Device>, logs: Logs, owner: map<CommandId, string>, sequence: nat,
                        slug: string)
    requires Correlated(devices, logs, owner, sequence) && slug in devices && devices[slug].status.Some?
    ensures forall id :: id in devices[slug].pending ==>
              !Confirms(devices[slug].status.value, devices[slug].pending[id].parsed)
  {
    hide IsOpen, Lifecycle, Confirms;
    assert PendingSound(devices[slug], slug, logs, owner);
  }

  // A new status, once the commands whose effect it shows have ended.
  lemma NewStatus(devices: map<string, Device>, logs: Logs, owner: map<CommandId, string>, sequence: nat,
                  slug: string, d: Device)
    requires Correlated(devices, logs, owner, sequence) && slug in devices
    requires d.status.Some? && d.pending == devices[slug].pending
    requires forall id :: id in d.pending ==> !Confirms(d.status.value, d.pending[id].parsed)
    ensures Correlated(devices[slug := d], logs, owner, sequence)
  {
    hide IsOpen, Lifecycle, Confirms;
    assert PendingSound(devices[slug], slug, logs, owner);
    Touch(devices, logs, owner, sequence, slug, d);
  }

  lemma OwnersLogged(devices: map<string, Device>, logs: Logs, owner: map<CommandId, string>, sequence: nat)
    requires Correlated(devices, logs, owner, sequence)
    ensures owner.Keys <= logs.Keys
  {
    hide IsOpen, Lifecycle, PendingSound;
    forall id | id in owner ensures id in logs {
      assert PendingOrEnded(devices, owner[id], logs, id);
    }
  }

  // Of the dispatched commands, the pending ones are exactly those that are open.
  lemma PendingMeansOpen(devices: map<string, Device>, logs: Logs, owner: map<CommandId, string>, sequence: nat,
                         id: CommandId)
    requires Correlated(devices, logs, owner, sequence) && id in owner
    ensures id in logs && (IsOpen(logs[id]) <==> id in Known(devices, owner[id]).pending)
    ensures forall slug :: slug in devices && id in devices[slug].pending ==> slug == owner[id]
  {
    hide IsOpen, Lifecycle, IsPending;
    assert PendingOrEnded(devices, owner[id], logs, id);
    forall slug | slug in devices && id in devices[slug].pending ensures slug == owner[id] && IsOpen(logs[id]) {
      assert PendingSound(devices[slug], slug, logs, owner);
    }
  }
}
