// The Direct HTTP queue left alone: no further request comes and no further push fails, and what the resends
// read stays as it is. It always comes to rest.
module QueueAlone {
  import opened DirectQueue

  // What a resend reads.
  datatype Latest = Latest(robots: seq<StateValue>, installation: seq<StateValue>)

  function Contents(latest: Latest, source: Source): seq<StateValue> {
    match source
    case Robots => latest.robots
    case Installation => latest.installation
    case Nowhere => []
  }

  function ToRead(latest: Latest, source: Source): seq<StateValue> {
    match source
    case Robots => latest.robots + latest.installation
    case Installation => latest.installation
    case Nowhere => []
  }

  // What a resend under way still offers, in order.
  function ToCome(r: Resend, latest: Latest): seq<StateValue> {
    r.values + ToRead(latest, r.source)
  }

  // The steps of a queue left alone.
  predicate Drains(step: Step, latest: Latest) {
    && !step.Enqueue? && !step.StartResend? && step != Push(false)
    && (step.Read? ==> step.values == Contents(latest, step.source))
  }

  predicate AllDrain(steps: seq<Step>, latest: Latest) {
    forall i :: 0 <= i < |steps| ==> Drains(steps[i], latest)
  }

  predicate AtRest(s: State) {
    && s.worker == Idle && s.pending == map[] && s.timers == map[] && s.resends == map[]
    && !s.wake && s.signalling == 0
  }

  // Connected only once another push has succeeded; the success starts a resend.
  predicate Reconnecting(s: State) {
    s.disconnected || s.worker.Failed?
  }

  // What is left to do: every value that comes is stored, signalled, taken, pushed and recorded.
  function Phase(w: Worker): nat {
    match w
    case Idle => 0
    case Draining => 1
    case Delivered(_) => 2
    case Taken(_) => 3
    case Failed(_) => 9
  }

  function Rank(source: Source): nat {
    match source
    case Robots => 3
    case Installation => 2
    case Nowhere => 1
  }

  function Cost(r: Resend, latest: Latest): (cost: nat)
    ensures cost > 0
  {
    7 * |ToCome(r, latest)| + Rank(r.source)
  }

  function Costs(resends: map<nat, Resend>, n: nat, latest: Latest): nat {
    if n == 0 then 0
    else Costs(resends, n - 1, latest) + if n - 1 in resends then Cost(resends[n - 1], latest) else 0
  }

  function Left(s: State, latest: Latest): nat {
    7 * |s.timers| + 3 * |s.pending| + 3 * s.signalling + (if s.wake then 2 else 0) + Phase(s.worker)
    + (if Reconnecting(s) then Cost(NEW_RESEND, latest) else 0) + Costs(s.resends, s.started, latest)
  }

  // Changing one of the resends changes the sum by the difference.
  lemma {:induction false} OneCost(before: map<nat, Resend>, after: map<nat, Resend>, id: nat, n: nat, latest: Latest)
    requires forall i :: i != id ==> (i in before <==> i in after)
    requires forall i :: i != id && i in before ==> before[i] == after[i]
    ensures id >= n ==> Costs(after, n, latest) == Costs(before, n, latest)
    ensures id < n ==>
              && Costs(after, n, latest) - (if id in after then Cost(after[id], latest) else 0)
              == Costs(before, n, latest) - (if id in before then Cost(before[id], latest) else 0)
  {
    hide Cost;
    if n > 0 {
      OneCost(before, after, id, n - 1, latest);
    }
  }

  lemma AddOne<K, V>(m: map<K, V>, key: K, value: V)
    ensures |m[key := value]| <= |m| + 1
  {
    assert m[key := value].Keys == m.Keys + {key};
    assert |m[key := value]| == |m[key := value].Keys|;
  }

  lemma TakeOne<K, V>(m: map<K, V>, key: K)
    requires key in m
    ensures |m - {key}| == |m| - 1
  {
    assert (m - {key}).Keys == m.Keys - {key};
    assert |m - {key}| == |(m - {key}).Keys|;
  }

  lemma OfferAddsOne(s: State, item: Queued)
    ensures var s' := Offered(s, item); 3 * |s'.pending| + 3 * s'.signalling <= 3 * |s.pending| + 3 * s.signalling + 6
  {
    hide Stores;
    AddOne(s.pending, KeyOf(item.value), item);
  }

  // A read changes nothing in what is to come, an offer takes the first of it.
  lemma ReadKeeps(latest: Latest, source: Source)
    requires source != Nowhere
    ensures var read := Resend(Contents(latest, source), After(source));
            && ToCome(read, latest) == ToCome(Resend([], source), latest)
            && Cost(read, latest) < Cost(Resend([], source), latest)
  {
    assert ToCome(Resend(Contents(latest, source), After(source)), latest) == ToCome(Resend([], source), latest);
  }

  lemma OfferTakes(r: Resend, latest: Latest)
    requires r.values != []
    ensures var rest := r.(values := r.values[1..]);
            && ToCome(r, latest) != [] && ToCome(r, latest)[0] == r.values[0]
            && ToCome(rest, latest) == ToCome(r, latest)[1..]
            && Cost(rest, latest) == Cost(r, latest) - 7
  {
    assert ToCome(r.(values := r.values[1..]), latest) == ToCome(r, latest)[1..];
  }

  lemma OfferNextDecreases(s: State, latest: Latest, id: nat)
    requires Numbered(s) && id in s.resends && s.resends[id].values != []
    ensures Left(OfferedNext(s, id), latest) < Left(s, latest)
  {
    hide Cost, ToCome, Offered;
    var r := s.resends[id];
    var s' := s.(resends := s.resends[id := r.(values := r.values[1..])]);
    OneCost(s.resends, s'.resends, id, s.started, latest);
    OfferTakes(r, latest);
    OfferAddsOne(
      s'.(origins := s.origins + 1, pushes := s.pushes[s.origins := 0]), Queued(r.values[0], 0, true, s.origins));
    OfferKeeps(
      s'.(origins := s.origins + 1, pushes := s.pushes[s.origins := 0]), Queued(r.values[0], 0, true, s.origins));
  }

  lemma OfferKeeps(s: State, item: Queued)
    ensures Offered(s, item) == s.(pending := Offered(s, item).pending, signalling := Offered(s, item).signalling)
  {
    hide Stores, KeyOf;
  }

  lemma ResendDecreases(s: State, maxRetries: nat, latest: Latest, step: Step)
    requires Numbered(s) && Drains(step, latest) && Enabled(s, step) && (step.Read? || step.EndResend?)
    ensures Left(Next(s, maxRetries, step), latest) < Left(s, latest)
  {
    hide Cost, ToCome;
    OneCost(s.resends, Next(s, maxRetries, step).resends, step.id, s.started, latest);
    if step.Read? {
      ReadKeeps(latest, step.source);
    }
  }

  lemma RetryDecreases(s: State, maxRetries: nat, latest: Latest, origin: nat)
    requires origin in s.timers
    ensures Left(Next(s, maxRetries, Retry(origin)), latest) < Left(s, latest)
  {
    hide Offered, Cost, Costs;
    var s' := s.(timers := s.timers - {origin});
    TakeOne(s.timers, origin);
    OfferAddsOne(s', s.timers[origin]);
    OfferKeeps(s', s.timers[origin]);
  }

  lemma TakeDecreases(s: State, maxRetries: nat, latest: Latest)
    requires s.worker == Draining
    ensures Left(Next(s, maxRetries, TakeNext), latest) < Left(s, latest)
  {
    hide Cost, Costs, IsFirst;
    if s.pending != map[] {
      FirstIsIn(s.pending.Keys);
      TakeOne(s.pending, FirstOf(s.pending.Keys));
    }
  }

  lemma DeliveryDecreases(s: State, maxRetries: nat, latest: Latest)
    requires Numbered(s) && s.worker.Delivered?
    ensures Left(Next(s, maxRetries, RecordDelivery), latest) < Left(s, latest)
  {
    hide Cost;
    OneCost(s.resends, s.resends[s.started := NEW_RESEND], s.started, s.started, latest);
  }

  lemma FailureDecreases(s: State, maxRetries: nat, latest: Latest)
    requires s.worker.Failed?
    ensures Left(Next(s, maxRetries, RecordFailure), latest) < Left(s, latest)
  {
    hide Cost, Costs;
    AddOne(s.timers, s.worker.item.origin, s.worker.item.(attempts := s.worker.item.attempts + 1));
  }

  lemma LeftDecreases(s: State, maxRetries: nat, latest: Latest, step: Step)
    requires Sound(s, maxRetries) && Drains(step, latest) && Enabled(s, step)
    ensures Left(Next(s, maxRetries, step), latest) < Left(s, latest)
  {
    hide Accounted, Cached, Attended, Cost, Costs, Offered, FirstOf;
    match step {
      case Retry(origin) => RetryDecreases(s, maxRetries, latest, origin);
      case TakeNext => TakeDecreases(s, maxRetries, latest);
      case RecordDelivery => DeliveryDecreases(s, maxRetries, latest);
      case RecordFailure => FailureDecreases(s, maxRetries, latest);
      case OfferNext(id) => OfferNextDecreases(s, latest, id);
      case Read(_, _, _) => ResendDecreases(s, maxRetries, latest, step);
      case EndResend(_) => ResendDecreases(s, maxRetries, latest, step);
      case _ =>
    }
  }

  // A step of the worker, the wake-ups or a resend between its offers.
  predicate IsQuiet(s: State, step: Step) {
    || step.Signal? || step.WakeUp? || step.RecordFailure? || step.Read? || step.EndResend?
    || (step.TakeNext? && s.pending == map[])
  }

  // Unless the queue is at rest a step is possible; if no quiet one is, the worker is at work or all it has
  // to wait for is a retry or an offer.
  lemma AnyStep(s: State, latest: Latest) returns (step: Step)
    requires Attended(s) && !AtRest(s)
    ensures Drains(step, latest) && Enabled(s, step)
    ensures step.Retry? || step.OfferNext? ==> s.worker == Idle && s.pending == map[]
    ensures !IsQuiet(s, step) ==> !s.worker.Failed? && forall id :: id in s.resends ==> s.resends[id].values != []
  {
    if id :| id in s.resends && s.resends[id].values == [] {
      var source := s.resends[id].source;
      step := if source == Nowhere then EndResend(id) else Read(id, source, Contents(latest, source));
    } else {
      match s.worker
      case Taken(_) => step := Push(true);
      case Delivered(_) => step := RecordDelivery;
      case Failed(_) => step := RecordFailure;
      case Draining => step := TakeNext;
      case Idle =>
        if s.wake {
          step := WakeUp;
        } else if s.signalling > 0 {
          step := Signal;
        } else if o :| o in s.timers {
          step := Retry(o);
        } else {
          var id :| id in s.resends;
          step := OfferNext(id);
        }
    }
  }

  // Every step is possible where it comes.
  ghost predicate InTurn(s: State, maxRetries: nat, steps: seq<Step>)
    decreases |steps|
  {
    steps == [] || (Enabled(s, steps[0]) && InTurn(Next(s, maxRetries, steps[0]), maxRetries, steps[1..]))
  }

  // Left alone, with pushes that succeed, a queue stops after a bounded number of steps.
  lemma {:induction false} StopsSoon(s: State, maxRetries: nat, latest: Latest, steps: seq<Step>)
    requires Sound(s, maxRetries) && AllDrain(steps, latest) && InTurn(s, maxRetries, steps)
    ensures |steps| <= Left(s, latest)
    decreases |steps|
  {
    hide Sound, Next, Left;
    if steps != [] {
      NextIsSound(s, maxRetries, steps[0]);
      LeftDecreases(s, maxRetries, latest, steps[0]);
      StopsSoon(Next(s, maxRetries, steps[0]), maxRetries, latest, steps[1..]);
    }
  }

  // And where it stops it is at rest: until then a step is possible.
  lemma {:induction false} ComesToRest(s: State, maxRetries: nat, latest: Latest) returns (steps: seq<Step>)
    requires Sound(s, maxRetries)
    ensures AllDrain(steps, latest) && InTurn(s, maxRetries, steps) && AtRest(RunFrom(s, maxRetries, steps))
    decreases Left(s, latest)
  {
    if AtRest(s) {
      steps := [];
    } else {
      hide Sound, Next, Left;
      SoundIsAttended(s, maxRetries);
      var step := AnyStep(s, latest);
      NextIsSound(s, maxRetries, step);
      LeftDecreases(s, maxRetries, latest, step);
      var rest := ComesToRest(Next(s, maxRetries, step), maxRetries, latest);
      steps := [step] + rest;
      assert steps[1..] == rest;
    }
  }

  lemma SoundIsAttended(s: State, maxRetries: nat)
    requires Sound(s, maxRetries)
    ensures Attended(s)
  {
  }
}
