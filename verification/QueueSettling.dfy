// Which value a key of the Direct HTTP queue ends with once the queue is left alone: whatever order the
// remaining steps take, and for which updates it is the updated one.
module QueueSettling {
  import opened Common
  import opened DirectQueue
  import opened QueueAlone
  import opened QueueOutlook

  predicate Delivers(s: State, key: Key, value: string) {
    key in s.delivered && s.delivered[key] == value
  }

  function FlightOf(w: Worker): Flight {
    match w
    case Taken(item) => Pushing(KeyOf(item.value), item.value.value)
    case Delivered(item) => Arrived(KeyOf(item.value), item.value.value)
    case _ => Grounded
  }

  function Values(pending: map<Key, Queued>): (values: map<Key, string>)
    ensures values.Keys == pending.Keys
  {
    map key | key in pending :: pending[key].value.value
  }

  function Plans(timers: map<nat, Queued>): map<nat, Planned> {
    map r | r in timers :: Planned(timers[r].value, timers[r].force)
  }

  // A failed push with a retry left is as good as planned.
  function Due(s: State, maxRetries: nat): map<nat, Planned> {
    if s.worker.Failed? && s.worker.item.attempts < maxRetries
    then Plans(s.timers)[s.worker.item.origin := Planned(s.worker.item.value, s.worker.item.force)]
    else Plans(s.timers)
  }

  function Coming(resends: map<nat, Resend>, latest: Latest): map<nat, seq<StateValue>> {
    map id | id in resends && ToCome(resends[id], latest) != [] :: ToCome(resends[id], latest)
  }

  function View(s: State, maxRetries: nat, latest: Latest): Outlook {
    Outlook(
      Values(s.pending), FlightOf(s.worker), Due(s, maxRetries), Coming(s.resends, latest),
      s.lastSuccess, s.delivered, Reconnecting(s))
  }

  // The move behind a step that is not a quiet one.
  ghost function MoveOf(s: State, step: Step): Move
    requires Enabled(s, step) && !IsQuiet(s, step) && !step.Enqueue? && !step.StartResend?
  {
    match step
    case TakeNext => Take(FirstOf(s.pending.Keys))
    case Push(_) => Arrive
    case RecordDelivery => Record(s.started)
    case Retry(origin) => Repeat(origin)
    case OfferNext(id) => Offer(id)
  }

  lemma ViewFits(s: State, maxRetries: nat, latest: Latest)
    requires Sound(s, maxRetries)
    ensures Fits(View(s, maxRetries, latest))
  {
    hide Accounted, Due, ToCome;
  }

  // A quiet step changes nothing that counts.
  lemma QuietKeepsView(s: State, maxRetries: nat, latest: Latest, step: Step)
    requires Enabled(s, step) && Drains(step, latest) && IsQuiet(s, step)
    ensures View(Next(s, maxRetries, step), maxRetries, latest) == View(s, maxRetries, latest)
  {
    hide ToCome, Values, Coming;
    match step {
      case Read(id, source, _) => ReadKeepsComing(s.resends, latest, id, source);
      case EndResend(id) => EndKeepsComing(s.resends, latest, id);
      case RecordFailure => FailureKeepsDue(s, maxRetries);
      case _ =>
    }
  }

  lemma ReadKeepsComing(resends: map<nat, Resend>, latest: Latest, id: nat, source: Source)
    requires id in resends && resends[id] == Resend([], source) && source != Nowhere
    ensures Coming(resends[id := Resend(Contents(latest, source), After(source))], latest) == Coming(resends, latest)
  {
    ReadKeeps(latest, source);
    hide ToCome;
  }

  lemma EndKeepsComing(resends: map<nat, Resend>, latest: Latest, id: nat)
    requires id in resends && resends[id] == Resend([], Nowhere)
    ensures Coming(resends - {id}, latest) == Coming(resends, latest)
  {
  }

  lemma FailureKeepsDue(s: State, maxRetries: nat)
    requires s.worker.Failed?
    ensures Due(FailureRecorded(s, maxRetries), maxRetries) == Due(s, maxRetries)
  {
    var item := s.worker.item;
    PlansWith(s.timers, item.(attempts := item.attempts + 1));
    hide Plans;
  }

  lemma PlansWith(timers: map<nat, Queued>, item: Queued)
    ensures Plans(timers[item.origin := item]) == Plans(timers)[item.origin := Planned(item.value, item.force)]
  {
  }

  // Any other step is a move.
  lemma StepMoves(s: State, maxRetries: nat, latest: Latest, step: Step)
    requires Sound(s, maxRetries) && Enabled(s, step) && Drains(step, latest) && !IsQuiet(s, step)
    ensures var o, full, move := View(s, maxRetries, latest), ToCome(NEW_RESEND, latest), MoveOf(s, step);
            Possible(o, move) && View(Next(s, maxRetries, step), maxRetries, latest) == Moved(o, full, move)
  {
    match step {
      case TakeNext => TakeMoves(s, maxRetries, latest);
      case Push(_) =>
      case RecordDelivery => DeliveryMoves(s, maxRetries, latest);
      case Retry(origin) => RetryMoves(s, maxRetries, latest, origin);
      case OfferNext(id) => OfferMoves(s, maxRetries, latest, id);
    }
  }

  lemma TakeMoves(s: State, maxRetries: nat, latest: Latest)
    requires Sound(s, maxRetries) && s.worker == Draining && s.pending != map[]
    ensures var o, full, move := View(s, maxRetries, latest), ToCome(NEW_RESEND, latest), Take(FirstOf(s.pending.Keys));
            Possible(o, move) && View(Next(s, maxRetries, TakeNext), maxRetries, latest) == Moved(o, full, move)
  {
    hide IsFirst, ToCome, Sound, Values, KeyOf, Coming;
    var first := FirstOf(s.pending.Keys);
    FirstIsIn(s.pending.Keys);
    PendingAccounted(s, maxRetries, first);
    ValuesWithout(s.pending, first);
    assert Due(Next(s, maxRetries, TakeNext), maxRetries) == Due(s, maxRetries);
  }

  lemma PendingAccounted(s: State, maxRetries: nat, key: Key)
    requires Sound(s, maxRetries) && key in s.pending
    ensures KeyOf(s.pending[key].value) == key
  {
  }

  lemma ValuesWithout(pending: map<Key, Queued>, key: Key)
    requires key in pending
    ensures Values(pending - {key}) == Values(pending) - {key} && Values(pending)[key] == pending[key].value.value
  {
  }

  lemma DeliveryMoves(s: State, maxRetries: nat, latest: Latest)
    requires Sound(s, maxRetries) && s.worker.Delivered?
    ensures var o, full, move := View(s, maxRetries, latest), ToCome(NEW_RESEND, latest), Record(s.started);
            Possible(o, move) && View(Next(s, maxRetries, RecordDelivery), maxRetries, latest) == Moved(o, full, move)
  {
    hide ToCome, Accounted, Cached;
    var full := ToCome(NEW_RESEND, latest);
    assert Coming(s.resends[s.started := NEW_RESEND], latest) == WithComing(Coming(s.resends, latest), s.started, full);
  }

  // A retry is stored only where nothing is pending, a request unless it repeats the last delivery.
  lemma RetryStored(s: State, item: Queued)
    requires item.attempts > 0
    ensures var key := KeyOf(item.value);
            Values(Offered(s, item).pending) ==
              if Repeats(s, item) || key in s.pending then Values(s.pending)
              else Values(s.pending)[key := item.value.value]
  {
    hide KeyOf;
  }

  lemma RequestStored(s: State, item: Queued)
    requires item.attempts == 0
    ensures Values(Offered(s, item).pending) ==
              if Repeats(s, item) then Values(s.pending) else Values(s.pending)[KeyOf(item.value) := item.value.value]
  {
    hide KeyOf;
    var key := KeyOf(item.value);
    if Stores(s, item) {
      assert Values(s.pending[key := item]) == Values(s.pending)[key := item.value.value];
    } else if !Repeats(s, item) {
      assert Values(s.pending) == Values(s.pending)[key := item.value.value];
    }
  }

  lemma SameDue(s: State, s': State, maxRetries: nat)
    requires s'.timers == s.timers && s'.worker == s.worker
    ensures Due(s', maxRetries) == Due(s, maxRetries)
  {
  }

  // An offer changes what is pending and no more.
  lemma OfferedView(s: State, maxRetries: nat, latest: Latest, item: Queued)
    ensures View(Offered(s, item), maxRetries, latest) ==
              View(s, maxRetries, latest).(pending := Values(Offered(s, item).pending))
  {
    hide Offered, Values, Due, Coming, FlightOf;
    OfferKeeps(s, item);
    SameDue(s, Offered(s, item), maxRetries);
  }

  lemma DueWithout(s: State, maxRetries: nat, origin: nat)
    requires origin in s.timers && (s.worker.Failed? ==> s.worker.item.origin != origin)
    ensures Due(s.(timers := s.timers - {origin}), maxRetries) == Due(s, maxRetries) - {origin}
    ensures origin in Due(s, maxRetries)
    ensures Due(s, maxRetries)[origin] == Planned(s.timers[origin].value, s.timers[origin].force)
  {
    assert Plans(s.timers - {origin}) == Plans(s.timers) - {origin};
  }

  lemma RetryMoves(s: State, maxRetries: nat, latest: Latest, origin: nat)
    requires Sound(s, maxRetries) && origin in s.timers
    ensures var o, full, move := View(s, maxRetries, latest), ToCome(NEW_RESEND, latest), Repeat(origin);
            Possible(o, move) && View(Next(s, maxRetries, Retry(origin)), maxRetries, latest) == Moved(o, full, move)
  {
    hide ToCome, Values, Due, Offered, Sound, Coming, KeyOf, FlightOf;
    var s' := s.(timers := s.timers - {origin});
    TimersAccounted(s, maxRetries, origin);
    DueWithout(s, maxRetries, origin);
    RetryStored(s', s.timers[origin]);
    OfferedView(s', maxRetries, latest, s.timers[origin]);
  }

  lemma TimersAccounted(s: State, maxRetries: nat, origin: nat)
    requires Sound(s, maxRetries) && origin in s.timers
    ensures s.timers[origin].attempts > 0 && (InFlight(s.worker) ==> s.worker.item.origin != origin)
  {
  }

  lemma OfferMoves(s: State, maxRetries: nat, latest: Latest, id: nat)
    requires Enabled(s, OfferNext(id))
    ensures var o, full, move := View(s, maxRetries, latest), ToCome(NEW_RESEND, latest), Offer(id);
            Possible(o, move) && View(Next(s, maxRetries, OfferNext(id)), maxRetries, latest) == Moved(o, full, move)
  {
    hide ToCome, Values, Plans, Offered, Due, KeyOf;
    var r := s.resends[id];
    var resends := s.resends[id := r.(values := r.values[1..])];
    OfferTakes(r, latest);
    assert Coming(resends, latest) == WithComing(Coming(s.resends, latest), id, ToCome(r, latest)[1..]);
    var s' := s.(resends := resends, origins := s.origins + 1, pushes := s.pushes[s.origins := 0]);
    RequestStored(s', Queued(r.values[0], 0, true, s.origins));
    OfferedView(s', maxRetries, latest, Queued(r.values[0], 0, true, s.origins));
    SameDue(s, s', maxRetries);
  }

  ghost predicate Settles(s: State, maxRetries: nat, latest: Latest, key: Key, value: string) {
    Settled(View(s, maxRetries, latest), Aim(key, value, ToCome(NEW_RESEND, latest)))
  }

  // Every step of a queue left alone keeps a key settled.
  lemma SettlesOn(s: State, maxRetries: nat, latest: Latest, key: Key, value: string, step: Step)
    requires Sound(s, maxRetries) && Drains(step, latest) && Settles(s, maxRetries, latest, key, value)
    ensures Settles(Next(s, maxRetries, step), maxRetries, latest, key, value)
  {
    hide Sound, Fits, Settled, View, Moved, Possible, ToCome, Drains;
    if Enabled(s, step) {
      if IsQuiet(s, step) {
        QuietKeepsView(s, maxRetries, latest, step);
      } else {
        DrainsToo(step, latest);
        ViewFits(s, maxRetries, latest);
        StepMoves(s, maxRetries, latest, step);
        SettledStays(
          View(s, maxRetries, latest), Aim(key, value, ToCome(NEW_RESEND, latest)), MoveOf(s, step));
      }
    }
  }

  lemma DrainsToo(step: Step, latest: Latest)
    requires Drains(step, latest)
    ensures !step.Enqueue? && !step.StartResend?
  {
  }

  lemma SettlesAtRest(s: State, maxRetries: nat, latest: Latest, key: Key, value: string)
    requires AtRest(s)
    ensures Settles(s, maxRetries, latest, key, value) <==> Delivers(s, key, value)
  {
    hide LastFor;
  }

  // The retry or the offer behind a move.
  lemma StepBehind(s: State, maxRetries: nat, latest: Latest, move: Move) returns (step: Step)
    requires Possible(View(s, maxRetries, latest), move) && (move.Repeat? || move.Offer?) && !s.worker.Failed?
    requires forall id :: id in s.resends ==> s.resends[id].values != []
    ensures Enabled(s, step) && Drains(step, latest) && !IsQuiet(s, step) && MoveOf(s, step) == move
  {
    step := if move.Repeat? then Retry(move.origin) else OfferNext(move.id);
  }

  // From a state that is not settled there is a step to one that is not.
  lemma UnsettledStep(s: State, maxRetries: nat, latest: Latest, key: Key, value: string) returns (step: Step)
    requires Sound(s, maxRetries) && !AtRest(s) && !Settles(s, maxRetries, latest, key, value)
    ensures Drains(step, latest) && Enabled(s, step)
    ensures !Settles(Next(s, maxRetries, step), maxRetries, latest, key, value)
  {
    hide Sound, Fits, Settled, View, Moved, Possible, ToCome, Next, Calm, Renews;
    SoundIsAttended(s, maxRetries);
    ViewFits(s, maxRetries, latest);
    step := AnyStep(s, latest);
    if IsQuiet(s, step) {
      QuietKeepsView(s, maxRetries, latest, step);
    } else {
      var o, aim := View(s, maxRetries, latest), Aim(key, value, ToCome(NEW_RESEND, latest));
      if Calm(o, aim) && !Renews(o, aim) && exists r :: r in o.due && KeyOf(o.due[r].value) == key {
        var r :| r in o.due && KeyOf(o.due[r].value) == key;
        assert Possible(o, Repeat(r)) by { RepeatPossible(o, r); }
        RepeatUnsettled(o, aim, r);
        step := StepBehind(s, maxRetries, latest, Repeat(r));
      } else if step.Retry? || step.OfferNext? {
        ViewOpen(s, maxRetries, latest, step);
        var move := OpenMove(o, aim);
        step := StepBehind(s, maxRetries, latest, move);
      } else {
        StepMoves(s, maxRetries, latest, step);
        WorkUnsettled(o, aim, MoveOf(s, step));
      }
      StepMoves(s, maxRetries, latest, step);
    }
  }

  lemma RepeatPossible(o: Outlook, r: nat)
    requires r in o.due
    ensures Possible(o, Repeat(r))
  {
  }

  lemma ViewOpen(s: State, maxRetries: nat, latest: Latest, step: Step)
    requires s.worker == Idle && s.pending == map[] && Enabled(s, step) && (step.Retry? || step.OfferNext?)
    ensures var o := View(s, maxRetries, latest);
            o.flight == Grounded && o.pending == map[] && (o.due != map[] || o.coming != map[])
  {
    if step.Retry? {
      assert step.origin in Plans(s.timers);
    } else {
      OfferTakes(s.resends[step.id], latest);
      hide ToCome;
      assert step.id in Coming(s.resends, latest);
    }
  }

  // So it has a run to rest that ends with another value, or with none.
  lemma {:induction false} UnsettledRuns(s: State, maxRetries: nat, latest: Latest, key: Key, value: string)
    returns (steps: seq<Step>)
    requires Sound(s, maxRetries) && !Settles(s, maxRetries, latest, key, value)
    ensures AllDrain(steps, latest) && InTurn(s, maxRetries, steps) && AtRest(RunFrom(s, maxRetries, steps))
    ensures !Delivers(RunFrom(s, maxRetries, steps), key, value)
    decreases Left(s, latest)
  {
    hide Sound, Settles, Next, Left;
    if AtRest(s) {
      SettlesAtRest(s, maxRetries, latest, key, value);
      steps := [];
    } else {
      var step := UnsettledStep(s, maxRetries, latest, key, value);
      NextIsSound(s, maxRetries, step);
      LeftDecreases(s, maxRetries, latest, step);
      var rest := UnsettledRuns(Next(s, maxRetries, step), maxRetries, latest, key, value);
      steps := [step] + rest;
      assert steps[1..] == rest;
    }
  }

  lemma {:induction false} SettledRuns(
      s: State, maxRetries: nat, latest: Latest, key: Key, value: string, steps: seq<Step>)
    requires Sound(s, maxRetries) && Settles(s, maxRetries, latest, key, value) && AllDrain(steps, latest)
    ensures Settles(RunFrom(s, maxRetries, steps), maxRetries, latest, key, value)
    decreases |steps|
  {
    if steps != [] {
      hide Sound, Settles, Next;
      SettlesOn(s, maxRetries, latest, key, value, steps[0]);
      NextIsSound(s, maxRetries, steps[0]);
      SettledRuns(Next(s, maxRetries, steps[0]), maxRetries, latest, key, value, steps[1..]);
    }
  }

  // Every run to rest ends with the value.
  ghost predicate AlwaysEndsWith(s: State, maxRetries: nat, latest: Latest, key: Key, value: string) {
    forall steps :: AllDrain(steps, latest) && AtRest(RunFrom(s, maxRetries, steps)) ==>
      Delivers(RunFrom(s, maxRetries, steps), key, value)
  }

  // However the remaining steps are interleaved, the key ends with the value exactly in the settled states.
  lemma SettlesIff(s: State, maxRetries: nat, latest: Latest, key: Key, value: string)
    requires Sound(s, maxRetries)
    ensures AlwaysEndsWith(s, maxRetries, latest, key, value) <==> Settles(s, maxRetries, latest, key, value)
  {
    hide Sound, Settles, RunFrom, AtRest, InTurn;
    if Settles(s, maxRetries, latest, key, value) {
      forall steps | AllDrain(steps, latest) && AtRest(RunFrom(s, maxRetries, steps))
        ensures Delivers(RunFrom(s, maxRetries, steps), key, value)
      {
        SettledRuns(s, maxRetries, latest, key, value, steps);
        SettlesAtRest(RunFrom(s, maxRetries, steps), maxRetries, latest, key, value);
      }
    } else {
      var steps := UnsettledRuns(s, maxRetries, latest, key, value);
      assert !Delivers(RunFrom(s, maxRetries, steps), key, value);
    }
  }

  lemma RequestView(s: State, maxRetries: nat, latest: Latest, value: StateValue, force: bool)
    ensures View(Requested(s, value, force), maxRetries, latest) ==
              Updated(View(s, maxRetries, latest), Planned(value, force))
  {
    hide Values, Coming, Due, KeyOf, Offered;
    var s' := s.(origins := s.origins + 1, pushes := s.pushes[s.origins := 0]);
    RequestStored(s', Queued(value, 0, force, s.origins));
    OfferedView(s', maxRetries, latest, Queued(value, 0, force, s.origins));
    SameDue(s, s', maxRetries);
  }

  // An update is what its key ends with, whatever happens to come in between, exactly if it stands: a
  // condition on the queue before the update.
  lemma UpdateSettlesIff(s: State, maxRetries: nat, latest: Latest, value: StateValue, force: bool)
    requires Sound(s, maxRetries)
    ensures var s', o := Next(s, maxRetries, Enqueue(value, force)), View(s, maxRetries, latest);
            var aim := Aim(KeyOf(value), value.value, ToCome(NEW_RESEND, latest));
            AlwaysEndsWith(s', maxRetries, latest, KeyOf(value), value.value) <==>
              UpdateStands(o, aim, Repeated(o, Planned(value, force)))
  {
    hide Sound, AlwaysEndsWith, Settled, View, Updated, Repeated, UpdateStands, Requested, ToCome;
    NextIsSound(s, maxRetries, Enqueue(value, force));
    SettlesIff(Next(s, maxRetries, Enqueue(value, force)), maxRetries, latest, KeyOf(value), value.value);
    RequestView(s, maxRetries, latest, value, force);
    UpdateStandsIff(
      View(s, maxRetries, latest), Aim(KeyOf(value), value.value, ToCome(NEW_RESEND, latest)), Planned(value, force));
  }
}
