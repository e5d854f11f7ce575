// The watchdog: what counts as healthy, and the escalation from a reconnect to a process exit.
module Watchdog {
  import opened Common
  import opened RestartGuard

  datatype Config = Config(
    staleAfter: nat, maxQueueDepth: nat,
    reconnectAfter: nat, rebuildAfter: nat, resetAfter: nat, restartAfter: nat,
    recoveryHysteresis: nat, maxRestarts: nat, restartWindow: nat)

  // Times are None when they were never set.
  datatype Observation = Observation(
    authenticated: bool, bridgeStarted: bool, loopLastActive: Option<int>,
    cloudConnected: bool, lastCloudMessage: Option<int>, lastRobotUpdate: Option<int>,
    dispatcherInFlight: nat, dispatcherOldest: Option<int>,
    localMqttEnabled: bool, localMqttConnected: bool,
    directEnabled: bool, directPending: nat, directLastSuccess: Option<int>, directLastError: string)

  datatype Part =
    | Process | RoborockLoop | Cloud | RobotUpdates | Dispatcher | DirectQueue | LocalMqtt | DirectLoxone
    | Authentication

  datatype Component = Component(healthy: bool, required: bool)

  datatype Health = Healthy | Degraded | Unhealthy

  datatype Report = Report(status: Health, live: bool, ready: bool, reasons: set<Part>)

  predicate Fresh(value: Option<int>, now: int, staleAfter: nat) {
    value.Some? && now - value.value <= staleAfter
  }

  function ComponentOf(part: Part, o: Observation, cfg: Config, now: int): Component {
    match part
    case Process => Component(true, true)
    case RoborockLoop => Component(!o.bridgeStarted || Fresh(o.loopLastActive, now, cfg.staleAfter), o.bridgeStarted)
    case Cloud =>
      Component(!o.bridgeStarted || (o.cloudConnected && Fresh(o.lastCloudMessage, now, cfg.staleAfter)),
                o.bridgeStarted)
    case RobotUpdates => Component(Fresh(o.lastRobotUpdate, now, cfg.staleAfter), o.bridgeStarted)
    case Dispatcher =>
      Component(
        && o.dispatcherInFlight <= cfg.maxQueueDepth
        && (o.dispatcherInFlight > 0 ==> o.dispatcherOldest.None? || now - o.dispatcherOldest.value <= cfg.staleAfter),
        o.bridgeStarted)
    case DirectQueue => Component(o.directPending <= cfg.maxQueueDepth, o.directEnabled)
    case LocalMqtt => Component(!o.localMqttEnabled || o.localMqttConnected, o.localMqttEnabled)
    case DirectLoxone => Component(!o.directEnabled || (o.directLastError == "" && o.directLastSuccess.Some?),
                                   o.directEnabled)
    case Authentication => Component(o.authenticated, true)
  }

  predicate Failing(part: Part, o: Observation, cfg: Config, now: int) {
    var c := ComponentOf(part, o, cfg, now);
    c.required && !c.healthy
  }

  const PARTS :=
    {Process, RoborockLoop, Cloud, RobotUpdates, Dispatcher, DirectQueue, LocalMqtt, DirectLoxone, Authentication}

  function Assess(o: Observation, cfg: Config, now: int): Report {
    var reasons := set part | part in PARTS && Failing(part, o, cfg, now);
    var live :=
      && ComponentOf(Process, o, cfg, now).healthy && ComponentOf(RoborockLoop, o, cfg, now).healthy
      && ComponentOf(Dispatcher, o, cfg, now).healthy && ComponentOf(DirectQueue, o, cfg, now).healthy;
    var ready := live && o.authenticated && o.bridgeStarted && |reasons| == 0;
    var status := if !live then Unhealthy else if !ready || |reasons| > 0 then Degraded else Healthy;
    Report(status, live, ready, reasons)
  }

  predicate NeedsRecovery(o: Observation, report: Report) {
    || !report.live || (o.bridgeStarted && !o.cloudConnected)
    || (o.localMqttEnabled && !o.localMqttConnected)
    || Cloud in report.reasons || RobotUpdates in report.reasons
  }

  // The report is healthy exactly when it is ready, ready only when nothing required is failing, and a
  // ready bridge is never recovered while one that is not live always is.
  lemma ReadyMeansNoRecovery(o: Observation, cfg: Config, now: int)
    ensures var report := Assess(o, cfg, now);
            && (report.status == Healthy <==> report.ready)
            && (report.status == Unhealthy <==> !report.live)
            && (report.ready <==>
                  && o.bridgeStarted && ComponentOf(Dispatcher, o, cfg, now).healthy
                  && ComponentOf(DirectQueue, o, cfg, now).healthy
                  && forall part :: !Failing(part, o, cfg, now))
            && (report.ready ==> !NeedsRecovery(o, report))
            && (!report.live ==> NeedsRecovery(o, report))
  {
    var report := Assess(o, cfg, now);
    if |report.reasons| == 0 {
      forall part ensures !Failing(part, o, cfg, now) {
        assert part in PARTS by {
          assert part.Process? || part.RoborockLoop? || part.Cloud? || part.RobotUpdates? || part.Dispatcher?
              || part.DirectQueue? || part.LocalMqtt? || part.DirectLoxone? || part.Authentication?;
        }
        assert part !in report.reasons;
      }
    }
    if forall part :: !Failing(part, o, cfg, now) {
      assert report.reasons == {};
      assert !Failing(RoborockLoop, o, cfg, now) && !Failing(Authentication, o, cfg, now);
      assert !Failing(Cloud, o, cfg, now) && !Failing(LocalMqtt, o, cfg, now);
    }
  }

  // What puts each part among the reasons.
  lemma FailingTells(o: Observation, cfg: Config, now: int)
    ensures !Failing(Process, o, cfg, now)
    ensures Failing(RoborockLoop, o, cfg, now) <==>
              o.bridgeStarted && (o.loopLastActive.None? || now - o.loopLastActive.value > cfg.staleAfter)
    ensures Failing(Cloud, o, cfg, now) <==>
              && o.bridgeStarted
              && (!o.cloudConnected || o.lastCloudMessage.None? || now - o.lastCloudMessage.value > cfg.staleAfter)
    ensures Failing(RobotUpdates, o, cfg, now) <==>
              o.bridgeStarted && (o.lastRobotUpdate.None? || now - o.lastRobotUpdate.value > cfg.staleAfter)
    ensures Failing(Dispatcher, o, cfg, now) <==>
              && o.bridgeStarted
              && (|| o.dispatcherInFlight > cfg.maxQueueDepth
                  || (o.dispatcherInFlight > 0 && o.dispatcherOldest.Some?
                      && now - o.dispatcherOldest.value > cfg.staleAfter))
    ensures Failing(DirectQueue, o, cfg, now) <==> o.directEnabled && o.directPending > cfg.maxQueueDepth
    ensures Failing(LocalMqtt, o, cfg, now) <==> o.localMqttEnabled && !o.localMqttConnected
    ensures Failing(DirectLoxone, o, cfg, now) <==>
              o.directEnabled && (o.directLastError != "" || o.directLastSuccess.None?)
    ensures Failing(Authentication, o, cfg, now) <==> !o.authenticated
  {
  }

  // What makes a report live, and what asks for recovery.
  lemma LiveTells(o: Observation, cfg: Config, now: int)
    ensures var report := Assess(o, cfg, now);
            var stale := (time: Option<int>) => time.None? || now - time.value > cfg.staleAfter;
            && (report.live <==>
                  && (o.bridgeStarted ==> !stale(o.loopLastActive))
                  && o.dispatcherInFlight <= cfg.maxQueueDepth && o.directPending <= cfg.maxQueueDepth
                  && (o.dispatcherInFlight > 0 && o.dispatcherOldest.Some? ==> !stale(o.dispatcherOldest)))
            && (NeedsRecovery(o, report) <==>
                  || !report.live
                  || (o.bridgeStarted
                      && (!o.cloudConnected || stale(o.lastCloudMessage) || stale(o.lastRobotUpdate)))
                  || (o.localMqttEnabled && !o.localMqttConnected))
  {
    FailingTells(o, cfg, now);
    assert Cloud in PARTS && RobotUpdates in PARTS;
  }

  // Never, or earlier than the other one.
  predicate NoLater(a: Option<int>, b: Option<int>) {
    a.None? || (b.Some? && a.value <= b.value)
  }

  // The report is no worse than the other one.
  predicate NoWorse(a: Report, b: Report) {
    && a.reasons <= b.reasons && (b.live ==> a.live) && (b.ready ==> a.ready)
    && (b.status == Healthy ==> a.status == Healthy) && (a.status == Unhealthy ==> b.status == Unhealthy)
  }

  // Newer activity never makes a report worse.
  lemma NewsIsGood(o: Observation, o': Observation, cfg: Config, now: int)
    requires NoLater(o.loopLastActive, o'.loopLastActive) && NoLater(o.lastCloudMessage, o'.lastCloudMessage)
    requires NoLater(o.lastRobotUpdate, o'.lastRobotUpdate) && NoLater(o.directLastSuccess, o'.directLastSuccess)
    requires o.dispatcherOldest.Some? ==> NoLater(o.dispatcherOldest, o'.dispatcherOldest)
    requires o.dispatcherOldest.None? ==> o'.dispatcherOldest.None?
    requires o' == o.(loopLastActive := o'.loopLastActive, lastCloudMessage := o'.lastCloudMessage,
                      lastRobotUpdate := o'.lastRobotUpdate, directLastSuccess := o'.directLastSuccess,
                      dispatcherOldest := o'.dispatcherOldest)
    ensures NoWorse(Assess(o', cfg, now), Assess(o, cfg, now))
    ensures NeedsRecovery(o', Assess(o', cfg, now)) ==> NeedsRecovery(o, Assess(o, cfg, now))
  {
    EachNoWorse(o, o', cfg, now, now);
    ReasonsNoWorse(o, o', cfg, now, now);
  }

  // And while nothing is heard a report never gets better.
  lemma NoNewsIsNoBetter(o: Observation, cfg: Config, now: int, later: int)
    requires now <= later
    ensures NoWorse(Assess(o, cfg, now), Assess(o, cfg, later))
    ensures NeedsRecovery(o, Assess(o, cfg, now)) ==> NeedsRecovery(o, Assess(o, cfg, later))
  {
    EachNoWorse(o, o, cfg, later, now);
    ReasonsNoWorse(o, o, cfg, later, now);
  }

  // Each part fails under `o'` at `now'` only if it fails under `o` at `now`.
  lemma EachNoWorse(o: Observation, o': Observation, cfg: Config, now: int, now': int)
    requires now' <= now
    requires NoLater(o.loopLastActive, o'.loopLastActive) && NoLater(o.lastCloudMessage, o'.lastCloudMessage)
    requires NoLater(o.lastRobotUpdate, o'.lastRobotUpdate) && NoLater(o.directLastSuccess, o'.directLastSuccess)
    requires o.dispatcherOldest.Some? ==> NoLater(o.dispatcherOldest, o'.dispatcherOldest)
    requires o.dispatcherOldest.None? ==> o'.dispatcherOldest.None?
    requires o' == o.(loopLastActive := o'.loopLastActive, lastCloudMessage := o'.lastCloudMessage,
                      lastRobotUpdate := o'.lastRobotUpdate, directLastSuccess := o'.directLastSuccess,
                      dispatcherOldest := o'.dispatcherOldest)
    ensures forall part :: ComponentOf(part, o, cfg, now).healthy ==> ComponentOf(part, o', cfg, now').healthy
    ensures forall part :: Failing(part, o', cfg, now') ==> Failing(part, o, cfg, now)
  {
  }

  lemma ReasonsNoWorse(o: Observation, o': Observation, cfg: Config, now: int, now': int)
    requires forall part :: ComponentOf(part, o, cfg, now).healthy ==> ComponentOf(part, o', cfg, now').healthy
    requires forall part :: Failing(part, o', cfg, now') ==> Failing(part, o, cfg, now)
    requires o'.authenticated == o.authenticated && o'.bridgeStarted == o.bridgeStarted
    requires o'.cloudConnected == o.cloudConnected
    requires o'.localMqttEnabled == o.localMqttEnabled && o'.localMqttConnected == o.localMqttConnected
    ensures NoWorse(Assess(o', cfg, now'), Assess(o, cfg, now))
    ensures NeedsRecovery(o', Assess(o', cfg, now')) ==> NeedsRecovery(o, Assess(o, cfg, now))
  {
    hide ComponentOf, Failing;
    var a, b := Assess(o', cfg, now'), Assess(o, cfg, now);
    assert a.reasons <= b.reasons;
    assert |b.reasons| == 0 ==> a.reasons == {};
  }

  datatype Action = Reconnect | Rebuild | Reset | Restart | RestartSuppressed

  function Level(action: Action): nat {
    match action
    case Reconnect => 1
    case Rebuild => 2
    case Reset => 3
    case Restart => 4
    case RestartSuppressed => 4
  }

  function Threshold(cfg: Config, level: nat): nat
    requires 1 <= level <= 4
  {
    if level == 1 then cfg.reconnectAfter else if level == 2 then cfg.rebuildAfter
    else if level == 3 then cfg.resetAfter else cfg.restartAfter
  }

  predicate Ascending(cfg: Config) {
    cfg.reconnectAfter <= cfg.rebuildAfter <= cfg.resetAfter <= cfg.restartAfter
  }

  datatype Incident = Incident(since: Option<int>, stage: nat, streak: nat)

  // What one step sees: whether recovery is needed, whether the bridge is live, and the time.
  datatype Reading = Reading(needsRecovery: bool, live: bool, now: int)

  // The level a step fires, 0 for none.
  function Fires(cfg: Config, m: Incident, r: Reading): nat {
    if !r.needsRecovery then 0
    else
      var elapsed := r.now - (if m.since.Some? then m.since.value else r.now);
      if m.stage < 1 && elapsed >= cfg.reconnectAfter then 1
      else if m.stage < 2 && elapsed >= cfg.rebuildAfter then 2
      else if m.stage < 3 && elapsed >= cfg.resetAfter then 3
      else if m.stage < 4 && elapsed >= cfg.restartAfter && !r.live then 4
      else 0
  }

  function Advance(cfg: Config, m: Incident, r: Reading): Incident {
    if !r.needsRecovery then
      if m.streak + 1 >= cfg.recoveryHysteresis then Incident(None, 0, m.streak + 1) else m.(streak := m.streak + 1)
    else
      var level := Fires(cfg, m, r);
      Incident(
        Some(if m.since.Some? then m.since.value else r.now),
        if level > 0 then level else m.stage,
        0)
  }

  function StateAfter(cfg: Config, readings: seq<Reading>): Incident {
    if readings == [] then Incident(None, 0, 0)
    else Advance(cfg, StateAfter(cfg, readings[..|readings| - 1]), readings[|readings| - 1])
  }

  // The level fired by step i of a run.
  function FiresAt(cfg: Config, readings: seq<Reading>, i: nat): nat
    requires i < |readings|
  {
    Fires(cfg, StateAfter(cfg, readings[..i]), readings[i])
  }

  // The issue open after step i is still open after step j: no full healthy streak in between.
  ghost predicate SameIncident(cfg: Config, readings: seq<Reading>, i: nat, j: nat)
    requires i <= j <= |readings|
  {
    forall k :: i <= k <= j ==> StateAfter(cfg, readings[..k]).since.Some?
  }

  lemma StepState(cfg: Config, readings: seq<Reading>, i: nat)
    requires i < |readings|
    ensures StateAfter(cfg, readings[..i + 1]) == Advance(cfg, StateAfter(cfg, readings[..i]), readings[i])
  {
    assert readings[..i + 1][..i] == readings[..i];
  }

  // Within an incident the timer is never restarted and the stage never falls.
  lemma {:induction false} IncidentKeepsTimer(cfg: Config, readings: seq<Reading>, i: nat, j: nat)
    requires i <= j <= |readings| && SameIncident(cfg, readings, i, j)
    ensures StateAfter(cfg, readings[..j]).since == StateAfter(cfg, readings[..i]).since
    ensures StateAfter(cfg, readings[..j]).stage >= StateAfter(cfg, readings[..i]).stage
    decreases j - i
  {
    if i < j {
      IncidentKeepsTimer(cfg, readings, i, j - 1);
      StepState(cfg, readings, j - 1);
      assert StateAfter(cfg, readings[..j]).since.Some? && StateAfter(cfg, readings[..j - 1]).since.Some?;
    }
  }

  // Within an incident every action fires at most once, and in increasing order.
  lemma OncePerIncident(cfg: Config, readings: seq<Reading>, i: nat, j: nat)
    requires i < j < |readings| && SameIncident(cfg, readings, i + 1, j)
    requires FiresAt(cfg, readings, i) > 0 && FiresAt(cfg, readings, j) > 0
    ensures FiresAt(cfg, readings, i) < FiresAt(cfg, readings, j)
  {
    StepState(cfg, readings, i);
    IncidentKeepsTimer(cfg, readings, i + 1, j);
  }

  // The open issue began at a step that needed recovery, when no issue was open.
  lemma {:induction false} IncidentBegan(cfg: Config, readings: seq<Reading>) returns (start: nat)
    requires StateAfter(cfg, readings).since.Some?
    ensures start < |readings| && readings[start].needsRecovery
    ensures StateAfter(cfg, readings[..start]).since.None?
    ensures SameIncident(cfg, readings, start + 1, |readings|)
    ensures StateAfter(cfg, readings).since == Some(readings[start].now)
  {
    var n := |readings| - 1;
    assert readings[..|readings|] == readings;
    if StateAfter(cfg, readings[..n]).since.None? {
      start := n;
    } else {
      start := IncidentBegan(cfg, readings[..n]);
      assert readings[..n][..start] == readings[..start];
      forall k | start + 1 <= k <= |readings| ensures StateAfter(cfg, readings[..k]).since.Some? {
        if k <= n {
          assert readings[..n][..k] == readings[..k];
        }
      }
    }
  }

  // No action fires before its threshold, counted from the step that opened the issue, and the process
  // is asked to exit only in a step that is not live.
  lemma NotBeforeThreshold(cfg: Config, readings: seq<Reading>, j: nat) returns (start: nat)
    requires j < |readings| && FiresAt(cfg, readings, j) > 0
    ensures start <= j && readings[start].needsRecovery && StateAfter(cfg, readings[..start]).since.None?
    ensures SameIncident(cfg, readings, start + 1, j + 1)
    ensures readings[j].now - readings[start].now >= Threshold(cfg, FiresAt(cfg, readings, j))
    ensures FiresAt(cfg, readings, j) == 4 ==> !readings[j].live
  {
    StepState(cfg, readings, j);
    start := IncidentBegan(cfg, readings[..j + 1]);
    assert readings[..j + 1][..start] == readings[..start];
    forall k | start + 1 <= k <= j + 1 ensures StateAfter(cfg, readings[..k]).since.Some? {
      assert readings[..j + 1][..k] == readings[..k];
    }
  }

  // A stage that has been reached was fired, in the incident that is still open.
  lemma {:induction false} StageWasFired(cfg: Config, readings: seq<Reading>, j: nat) returns (i: nat)
    requires j <= |readings| && StateAfter(cfg, readings[..j]).stage > 0
    ensures i < j && FiresAt(cfg, readings, i) == StateAfter(cfg, readings[..j]).stage
    ensures SameIncident(cfg, readings, i + 1, j)
    decreases j
  {
    assert readings[..0] == [];
    StepState(cfg, readings, j - 1);
    if FiresAt(cfg, readings, j - 1) > 0 {
      i := j - 1;
    } else {
      StageHasIssue(cfg, readings[..j]);
      i := StageWasFired(cfg, readings, j - 1);
    }
  }

  lemma {:induction false} StageHasIssue(cfg: Config, readings: seq<Reading>)
    requires StateAfter(cfg, readings).stage > 0
    ensures StateAfter(cfg, readings).since.Some?
  {
    if readings != [] && StateAfter(cfg, readings[..|readings| - 1]).stage > 0 {
      StageHasIssue(cfg, readings[..|readings| - 1]);
    }
  }

  // With ascending thresholds no stage is skipped: the level before was fired in the same incident.
  lemma NoStageSkipped(cfg: Config, readings: seq<Reading>, j: nat) returns (i: nat)
    requires Ascending(cfg) && j < |readings| && FiresAt(cfg, readings, j) > 1
    ensures i < j && FiresAt(cfg, readings, i) == FiresAt(cfg, readings, j) - 1
    ensures SameIncident(cfg, readings, i + 1, j + 1)
  {
    StepState(cfg, readings, j);
    i := StageWasFired(cfg, readings, j);
  }

  function HealthyTail(readings: seq<Reading>): nat {
    if readings == [] || readings[|readings| - 1].needsRecovery then 0 else HealthyTail(readings[..|readings| - 1]) + 1
  }

  lemma {:induction false} StreakIsHealthyTail(cfg: Config, readings: seq<Reading>)
    ensures StateAfter(cfg, readings).streak == HealthyTail(readings)
  {
    if readings != [] {
      StreakIsHealthyTail(cfg, readings[..|readings| - 1]);
    }
  }

  // An open issue is closed by exactly those steps that complete a healthy streak of the required length.
  lemma IssueClosesIff(cfg: Config, readings: seq<Reading>)
    requires readings != [] && StateAfter(cfg, readings[..|readings| - 1]).since.Some?
    ensures StateAfter(cfg, readings).since.None? <==>
              !readings[|readings| - 1].needsRecovery && HealthyTail(readings) >= cfg.recoveryHysteresis
  {
    StreakIsHealthyTail(cfg, readings);
    StreakIsHealthyTail(cfg, readings[..|readings| - 1]);
  }

  // An exit is due in exactly these steps.
  lemma ExitDueIff(cfg: Config, readings: seq<Reading>, j: nat)
    requires Ascending(cfg) && j < |readings|
    ensures FiresAt(cfg, readings, j) == 4 <==>
              var m := StateAfter(cfg, readings[..j]);
              && readings[j].needsRecovery && !readings[j].live && m.stage == 3 && m.since.Some?
              && readings[j].now - m.since.value >= cfg.restartAfter
  {
    if StateAfter(cfg, readings[..j]).stage > 0 {
      StageHasIssue(cfg, readings[..j]);
    }
    StageAtMostFour(cfg, readings[..j]);
  }

  lemma {:induction false} StageAtMostFour(cfg: Config, readings: seq<Reading>)
    ensures StateAfter(cfg, readings).stage <= 4
  {
    if readings != [] {
      StageAtMostFour(cfg, readings[..|readings| - 1]);
    }
  }

  // The reading is one at which the level is due, in an issue that began with reading `start`.
  predicate Due(cfg: Config, readings: seq<Reading>, start: nat, k: nat, level: nat)
    requires start < |readings| && k < |readings| && 1 <= level <= 4
  {
    && readings[k].needsRecovery && readings[k].now - readings[start].now >= Threshold(cfg, level)
    && (level == 4 ==> !readings[k].live)
  }

  // Before reading j there were, one after the other, readings at which levels 1 to `level` were due.
  ghost predicate Climbed(cfg: Config, readings: seq<Reading>, start: nat, j: nat, level: nat)
    requires start < |readings| && j <= |readings| && level <= 4
    decreases level
  {
    level == 0
    || exists k :: start <= k < j && Due(cfg, readings, start, k, level) && Climbed(cfg, readings, start, k, level - 1)
  }

  // The issue open before step j began with reading `start`.
  ghost predicate Opened(cfg: Config, readings: seq<Reading>, start: nat, j: nat)
    requires j <= |readings|
  {
    && start < j && readings[start].needsRecovery && StateAfter(cfg, readings[..start]).since.None?
    && SameIncident(cfg, readings, start + 1, j)
  }

  lemma ClimbedOneMore(cfg: Config, readings: seq<Reading>, start: nat, j: nat, level: nat)
    requires start <= j < |readings| && 1 <= level <= 4
    ensures Climbed(cfg, readings, start, j + 1, level) <==>
              || Climbed(cfg, readings, start, j, level)
              || (Due(cfg, readings, start, j, level) && Climbed(cfg, readings, start, j, level - 1))
  {
  }

  lemma OpenedState(cfg: Config, readings: seq<Reading>, start: nat, j: nat)
    requires j <= |readings| && Opened(cfg, readings, start, j)
    ensures StateAfter(cfg, readings[..j]).since == Some(readings[start].now)
  {
    StepState(cfg, readings, start);
    IncidentKeepsTimer(cfg, readings, start + 1, j);
  }

  // One step of an open issue: with ascending thresholds the stage rises by one or not at all.
  lemma StageRises(cfg: Config, m: Incident, r: Reading, since: int)
    requires Ascending(cfg) && m.stage <= 4
    requires m.since == Some(since) || (m.since.None? && m.stage == 0 && r.now == since)
    requires Advance(cfg, m, r).since.Some?
    ensures var due := m.stage < 4 && r.needsRecovery && r.now - since >= Threshold(cfg, m.stage + 1)
                       && (m.stage == 3 ==> !r.live);
            Advance(cfg, m, r).stage == if due then m.stage + 1 else m.stage
  {
  }

  // Which stage an issue has reached, from its readings alone.
  lemma {:induction false} StageIff(cfg: Config, readings: seq<Reading>, start: nat, j: nat, level: nat)
    requires Ascending(cfg) && j <= |readings| && Opened(cfg, readings, start, j) && level <= 4
    ensures StateAfter(cfg, readings[..j]).stage >= level <==> Climbed(cfg, readings, start, j, level)
    decreases j
  {
    hide StateAfter, Advance, Fires, Opened, Climbed, Due, Ascending;
    if level == 0 {
      LevelZero(cfg, readings, start, j);
    } else {
      StageStep(cfg, readings, start, j, level);
      if j - 1 == start {
        NothingClimbed(cfg, readings, start, level);
        NothingClimbed(cfg, readings, start, level - 1);
      } else {
        StageIff(cfg, readings, start, j - 1, level);
        StageIff(cfg, readings, start, j - 1, level - 1);
      }
      ClimbedOneMore(cfg, readings, start, j - 1, level);
    }
  }

  lemma StageStep(cfg: Config, readings: seq<Reading>, start: nat, j: nat, level: nat)
    requires Ascending(cfg) && j <= |readings| && Opened(cfg, readings, start, j) && 1 <= level <= 4
    ensures start < j && (start < j - 1 ==> Opened(cfg, readings, start, j - 1))
    ensures start == j - 1 ==> StateAfter(cfg, readings[..j - 1]).stage == 0
    ensures StateAfter(cfg, readings[..j]).stage >= level <==>
              || StateAfter(cfg, readings[..j - 1]).stage >= level
              || (Due(cfg, readings, start, j - 1, level) && StateAfter(cfg, readings[..j - 1]).stage >= level - 1)
  {
    hide StateAfter, Advance, Fires;
    StageAtMostFour(cfg, readings[..j - 1]);
    StepState(cfg, readings, j - 1);
    assert StateAfter(cfg, readings[..j]).since.Some?;
    if start == j - 1 {
      NoIssueNoStage(cfg, readings[..start]);
    } else {
      OpenedState(cfg, readings, start, j - 1);
    }
    StageRises(cfg, StateAfter(cfg, readings[..j - 1]), readings[j - 1], readings[start].now);
  }

  lemma NoIssueNoStage(cfg: Config, readings: seq<Reading>)
    requires StateAfter(cfg, readings).since.None?
    ensures StateAfter(cfg, readings).stage == 0
  {
    if StateAfter(cfg, readings).stage > 0 {
      StageHasIssue(cfg, readings);
    }
  }

  lemma LevelZero(cfg: Config, readings: seq<Reading>, start: nat, j: nat)
    requires j <= |readings| && Opened(cfg, readings, start, j)
    ensures start < |readings| && Climbed(cfg, readings, start, j, 0)
  {
  }

  lemma NothingClimbed(cfg: Config, readings: seq<Reading>, start: nat, level: nat)
    requires start < |readings| && level <= 4
    ensures Climbed(cfg, readings, start, start, level) <==> level == 0
  {
  }

  // An exit is due when the first three levels have been due one after the other, the last one has not, and
  // it is now.
  ghost predicate ExitPattern(cfg: Config, readings: seq<Reading>, start: nat, j: nat)
    requires start < |readings| && j < |readings|
  {
    Climbed(cfg, readings, start, j, 3) && !Climbed(cfg, readings, start, j, 4) && Due(cfg, readings, start, j, 4)
  }

  // Not live at any reading less than the restart threshold before reading j.
  predicate Blocked(cfg: Config, readings: seq<Reading>, j: nat)
    requires j < |readings|
  {
    forall k :: 0 <= k <= j && readings[j].now - readings[k].now < cfg.restartAfter ==> !readings[k].live
  }

  predicate InOrder(readings: seq<Reading>) {
    forall i, j :: 0 <= i < j < |readings| ==> readings[i].now <= readings[j].now
  }

  lemma ExitIffPattern(cfg: Config, readings: seq<Reading>, start: nat, j: nat)
    requires Ascending(cfg) && j < |readings| && Opened(cfg, readings, start, j)
    ensures FiresAt(cfg, readings, j) == 4 <==> ExitPattern(cfg, readings, start, j)
  {
    hide StateAfter, Climbed;
    ExitDueIff(cfg, readings, j);
    OpenedState(cfg, readings, start, j);
    StageIff(cfg, readings, start, j, 3);
    StageIff(cfg, readings, start, j, 4);
    StageAtMostFour(cfg, readings[..j]);
  }

  // The documented rule: an exit is due only where the bridge has been blocked for the restart threshold.
  // (The guard may still suppress it.)
  ghost predicate KeepsRule(cfg: Config, readings: seq<Reading>) {
    forall j :: 0 <= j < |readings| && FiresAt(cfg, readings, j) == 4 ==> Blocked(cfg, readings, j)
  }

  // A live reading of the issue, less than the threshold before its exit.
  ghost predicate Relieved(cfg: Config, readings: seq<Reading>, start: nat, k: nat, j: nat)
    requires start <= k < j < |readings|
  {
    && Opened(cfg, readings, start, j) && ExitPattern(cfg, readings, start, j)
    && readings[k].live && readings[j].now - readings[k].now < cfg.restartAfter
  }

  // Which runs keep it: on a clock that does not go back, those in which no issue shows a live reading and then,
  // before the threshold has passed again, completes the pattern of an exit.
  lemma KeepsRuleIff(cfg: Config, readings: seq<Reading>)
    requires Ascending(cfg) && InOrder(readings)
    ensures KeepsRule(cfg, readings) <==>
              forall start, k, j :: 0 <= start <= k < j < |readings| ==> !Relieved(cfg, readings, start, k, j)
  {
    hide StateAfter, Climbed, Opened, ExitPattern;
    if KeepsRule(cfg, readings) {
      forall start, k, j | 0 <= start <= k < j < |readings| ensures !Relieved(cfg, readings, start, k, j) {
        if Relieved(cfg, readings, start, k, j) {
          ExitIffPattern(cfg, readings, start, j);
        }
      }
    } else {
      var j :| 0 <= j < |readings| && FiresAt(cfg, readings, j) == 4 && !Blocked(cfg, readings, j);
      var start := ExitOpened(cfg, readings, j);
      var k :| 0 <= k <= j && readings[j].now - readings[k].now < cfg.restartAfter && readings[k].live;
      assert Relieved(cfg, readings, start, k, j);
    }
  }

  // An exit belongs to an issue that is at least as old as the threshold.
  lemma ExitOpened(cfg: Config, readings: seq<Reading>, j: nat) returns (start: nat)
    requires Ascending(cfg) && j < |readings| && FiresAt(cfg, readings, j) == 4
    ensures start < j && Opened(cfg, readings, start, j) && ExitPattern(cfg, readings, start, j)
    ensures !readings[j].live && readings[j].now - readings[start].now >= cfg.restartAfter
  {
    hide Climbed;
    ExitDueIff(cfg, readings, j);
    start := IncidentBegan(cfg, readings[..j]);
    assert readings[..j][..start] == readings[..start];
    forall k | start + 1 <= k <= j ensures StateAfter(cfg, readings[..k]).since.Some? {
      assert readings[..j][..k] == readings[..k];
    }
    ExitIffPattern(cfg, readings, start, j);
  }

  // The documentation says the process exits only when a loop or queue stays blocked for the whole
  // threshold. The timer starts with the issue, though, and a cloud outage is one: here everything was
  // live until the very step that asks for the exit.
  lemma ExitAfterLiveIncident()
    ensures var cfg := Config(120, 256, 120, 300, 480, 900, 2, 3, 3600);
            var outage := [Reading(true, true, 0), Reading(true, true, 120), Reading(true, true, 300),
                           Reading(true, true, 480)];
            var readings := outage + [Reading(true, false, 900)];
            && Ascending(cfg) && (forall i :: 0 <= i < 4 ==> readings[i].live)
            && FiresAt(cfg, readings, 4) == 4 && !KeepsRule(cfg, readings)
  {
    var cfg := Config(120, 256, 120, 300, 480, 900, 2, 3, 3600);
    var outage := [Reading(true, true, 0), Reading(true, true, 120), Reading(true, true, 300),
                   Reading(true, true, 480)];
    var readings := outage + [Reading(true, false, 900)];
    StepState(cfg, readings, 0);
    StepState(cfg, readings, 1);
    StepState(cfg, readings, 2);
    StepState(cfg, readings, 3);
    assert StateAfter(cfg, readings[..0]) == Incident(None, 0, 0);
    assert StateAfter(cfg, readings[..4]) == Incident(Some(0), 3, 0);
    assert !Blocked(cfg, readings, 4) by { assert readings[3].live; }
  }

  class Monitor {
    const cfg: Config
    const guard: RestartGuard?
    var incident: Incident
    ghost var readings: seq<Reading>

    constructor (cfg: Config, guard: RestartGuard?)
      ensures this.cfg == cfg && this.guard == guard && readings == [] && Valid()
    {
      this.cfg, this.guard := cfg, guard;
      incident := Incident(None, 0, 0);
      readings := [];
    }

    ghost predicate Valid()
      reads this
    {
      incident == StateAfter(cfg, readings)
    }

    ghost predicate Guarded()
      reads this, guard, if guard == null then {} else {guard.file}
    {
      guard != null ==> guard.Valid(cfg.maxRestarts, cfg.restartWindow)
    }

    // One check. The report is that of Assess; the action is what the step asked for. `reason` is the text
    // the guard keeps with it.
    method Step(o: Observation, now: int, reason: string) returns (report: Report, action: Option<Action>)
      requires Valid() && Guarded() && (guard != null ==> guard.file.clock == now)
      modifies this`incident, this`readings
      modifies guard, if guard == null then {} else {guard.file}
      ensures Valid() && Guarded() && report == Assess(o, cfg, now)
      ensures readings == old(readings) + [Reading(NeedsRecovery(o, report), report.live, now)]
      ensures action.Some? <==> FiresAt(cfg, readings, |old(readings)|) > 0
      ensures action.Some? ==> Level(action.value) == FiresAt(cfg, readings, |old(readings)|)
      ensures FiresAt(cfg, readings, |old(readings)|) == 1 <==> action == Some(Reconnect)
      ensures FiresAt(cfg, readings, |old(readings)|) == 2 <==> action == Some(Rebuild)
      ensures FiresAt(cfg, readings, |old(readings)|) == 3 <==> action == Some(Reset)
      ensures guard == null ==> action != Some(RestartSuppressed)
      ensures guard != null ==>
                && guard.file.clock == now
                && guard.file.history == old(guard.file.history) + (if action == Some(Restart) then [now] else [])
                && (FiresAt(cfg, readings, |old(readings)|) == 4 ==>
                      (action == Some(Restart) <==>
                         |Recent(old(guard.state.restarts), now - cfg.restartWindow)| < cfg.maxRestarts))
    {
      report := Assess(o, cfg, now);
      ghost var reading := Reading(NeedsRecovery(o, report), report.live, now);
      ghost var before := readings;
      readings := readings + [reading];
      assert readings[..|before|] == before;
      StepState(cfg, readings, |before|);
      assert readings[..|before| + 1] == readings;
      hide Assess, NeedsRecovery, Recent, Spread, Remembers, Ordered;
      var level := Escalate(NeedsRecovery(o, report), report.live, now);
      action := Act(level, now, reason);
    }

    // Move the incident on; the result is the level to act on, 0 for none.
    method Escalate(needsRecovery: bool, live: bool, now: int) returns (level: nat)
      modifies this`incident
      ensures level == Fires(cfg, old(incident), Reading(needsRecovery, live, now)) <= 4
      ensures incident == Advance(cfg, old(incident), Reading(needsRecovery, live, now))
    {
      level := 0;
      if !needsRecovery {
        incident := incident.(streak := incident.streak + 1);
        if incident.streak >= cfg.recoveryHysteresis {
          incident := incident.(since := None, stage := 0);
        }
        return;
      }
      incident := incident.(streak := 0);
      if incident.since.None? {
        incident := incident.(since := Some(now));
      }
      var elapsed := now - incident.since.value;
      if incident.stage < 1 && elapsed >= cfg.reconnectAfter {
        level := 1;
      } else if incident.stage < 2 && elapsed >= cfg.rebuildAfter {
        level := 2;
      } else if incident.stage < 3 && elapsed >= cfg.resetAfter {
        level := 3;
      } else if incident.stage < 4 && elapsed >= cfg.restartAfter && !live {
        level := 4;
      }
      if level > 0 {
        incident := incident.(stage := level);
      }
    }

    // What a level asks for. The last one asks for an exit if the guard still allows one.
    method Act(level: nat, now: int, reason: string) returns (action: Option<Action>)
      requires level <= 4 && Guarded() && (guard != null ==> guard.file.clock == now)
      modifies guard, if guard == null then {} else {guard.file}
      ensures Guarded()
      ensures action.Some? <==> level > 0
      ensures action.Some? ==> Level(action.value) == level
      ensures level == 1 <==> action == Some(Reconnect)
      ensures level == 2 <==> action == Some(Rebuild)
      ensures level == 3 <==> action == Some(Reset)
      ensures guard == null ==> action != Some(RestartSuppressed)
      ensures guard != null ==>
                && guard.file.clock == now
                && guard.file.history == old(guard.file.history) + (if action == Some(Restart) then [now] else [])
                && (level == 4 ==>
                      (action == Some(Restart) <==>
                         |Recent(old(guard.state.restarts), now - cfg.restartWindow)| < cfg.maxRestarts))
    {
      hide Recent, Spread, Remembers, Ordered;
      if level == 0 {
        return None;
      } else if level == 1 {
        action := Some(Reconnect);
      } else if level == 2 {
        action := Some(Rebuild);
      } else if level == 3 {
        action := Some(Reset);
      } else if guard == null {
        action := Some(Restart);
      } else {
        var allowed := guard.Allow(now, cfg.maxRestarts, cfg.restartWindow);
        action := Some(if allowed then Restart else RestartSuppressed);
      }
      if guard != null {
        guard.RecordReason(now, reason, cfg.maxRestarts, cfg.restartWindow);
        if action == Some(Restart) {
          guard.Record(now, reason, cfg.maxRestarts, cfg.restartWindow);
        }
      }
    }
  }

  // What outlives the processes: when they asked for an exit, and the time.
  datatype Past = Past(exits: seq<int>, clock: int)

  function ReadingOf(cfg: Config, o: Observation, now: int): Reading {
    var report := Assess(o, cfg, now);
    Reading(NeedsRecovery(o, report), report.live, now)
  }

  // One process, after some readings: it goes on until it exits or its observations end. An exit is due by the
  // readings of this process alone, and allowed by the exits of all.
  function Lived(cfg: Config, readings: seq<Reading>, life: seq<(Observation, int)>, past: Past): Past
    decreases |life|
  {
    if life == [] || life[0].1 < past.clock then past
    else
      var now := life[0].1;
      var more := readings + [ReadingOf(cfg, life[0].0, now)];
      if FiresAt(cfg, more, |readings|) == 4 && |Recent(past.exits, now - cfg.restartWindow)| < cfg.maxRestarts then
        Past(past.exits + [now], now)
      else Lived(cfg, more, life[1..], past.(clock := now))
  }

  function LivedAll(cfg: Config, lives: seq<seq<(Observation, int)>>, past: Past): Past {
    if lives == [] then past else LivedAll(cfg, lives[1..], Lived(cfg, [], lives[0], past))
  }

  // Any number of processes one after the other, each with a fresh monitor and a guard loaded from the
  // file, on a clock that does not go back: the exits are those due and allowed, and every interval as long
  // as the window holds at most the allowed number of them.
  method RunLives(file: StateFile, cfg: Config, lives: seq<seq<(Observation, int)>>)
    requires file.Valid(cfg.maxRestarts, cfg.restartWindow)
    modifies file
    ensures file.Valid(cfg.maxRestarts, cfg.restartWindow)
    ensures Past(file.history, file.clock) == LivedAll(cfg, lives, old(Past(file.history, file.clock)))
    ensures forall from :: InWindow(file.history, from, cfg.restartWindow) <= cfg.maxRestarts
  {
    for i := 0 to |lives|
      invariant file.Valid(cfg.maxRestarts, cfg.restartWindow)
      invariant LivedAll(cfg, lives, old(Past(file.history, file.clock))) ==
                LivedAll(cfg, lives[i..], Past(file.history, file.clock))
    {
      assert lives[i..][0] == lives[i] && lives[i..][1..] == lives[i + 1..];
      RunLife(file, cfg, lives[i]);
    }
    assert lives[|lives|..] == [];
    forall from ensures InWindow(file.history, from, cfg.restartWindow) <= cfg.maxRestarts {
      RestartBound(file.history, cfg.maxRestarts, cfg.restartWindow, from);
    }
  }

  method RunLife(file: StateFile, cfg: Config, life: seq<(Observation, int)>)
    requires file.Valid(cfg.maxRestarts, cfg.restartWindow)
    modifies file
    ensures file.Valid(cfg.maxRestarts, cfg.restartWindow)
    ensures Past(file.history, file.clock) == Lived(cfg, [], life, old(Past(file.history, file.clock)))
  {
    hide FiresAt, Recent, Assess, NeedsRecovery, Ordered, Spread;
    var guard := new RestartGuard(file);
    var monitor := new Monitor(cfg, guard);
    for j := 0 to |life|
      invariant monitor.Valid() && monitor.Guarded() && file.Valid(cfg.maxRestarts, cfg.restartWindow)
      invariant monitor.guard == guard && guard.file == file && monitor.cfg == cfg
      invariant Lived(cfg, [], life, old(Past(file.history, file.clock))) ==
                Lived(cfg, monitor.readings, life[j..], Past(file.history, file.clock))
    {
      var now := life[j].1;
      assert life[j..][0] == life[j] && life[j..][1..] == life[j + 1..];
      if now < file.clock {
        return;
      }
      RememberLonger(file.history, file.state.restarts, file.clock, now, cfg.restartWindow);
      RememberLonger(file.history, guard.state.restarts, file.clock, now, cfg.restartWindow);
      file.Tick(now);
      PrunedTells(file.history, guard.state.restarts, now, cfg.restartWindow);
      ghost var before, past := monitor.readings, Past(file.history, now);
      var report, action := monitor.Step(life[j].0, now, "watchdog health failure");
      assert monitor.readings == before + [ReadingOf(cfg, life[j].0, now)];
      assert action == Some(Restart) <==>
             && FiresAt(cfg, monitor.readings, |before|) == 4
             && |Recent(past.exits, now - cfg.restartWindow)| < cfg.maxRestarts;
      if action == Some(Restart) {
        return;
      }
      assert Past(file.history, file.clock) == past;
    }
    assert life[|life|..] == [];
  }
}
