// The Direct HTTP queue as a state and its steps: one worker pushes pending values one by one, failed
// pushes come back after a delay, and a value equal to the last one delivered is not queued again.
//
// Every step runs under the lock, or outside it on its own; any interleaving of them is a run. `origin`
// numbers the requests that put a value into the queue, and a retry keeps the number of its request.
module DirectQueue {
  import opened Text

  type Key = string

  datatype StateValue = StateValue(robot: string, field: string, input: string, value: string)

  datatype Queued = Queued(value: StateValue, attempts: nat, force: bool, origin: nat)

  function KeyOf(v: StateValue): Key {
    v.robot + ['\0'] + v.field
  }

  // Waiting for a wake-up; about to take the next value; a value taken, pushed or failed.
  datatype Worker = Idle | Draining | Taken(item: Queued) | Delivered(item: Queued) | Failed(item: Queued)

  predicate InFlight(w: Worker) {
    w.Taken? || w.Delivered? || w.Failed?
  }

  // A resend reads the states of the robots first, and the values of the installation once it has offered
  // those.
  datatype Source = Robots | Installation | Nowhere

  // A resend under way: the values it has read and not offered yet, and what it reads when they are offered.
  datatype Resend = Resend(values: seq<StateValue>, source: Source)

  const NEW_RESEND := Resend([], Robots)

  function After(source: Source): Source {
    if source == Robots then Installation else Nowhere
  }

  // The queue. `signalling` counts the stores whose wake-up is still to be sent; `delivered` is what the
  // other side has, and `started`, `origins` and `pushes` count the resends, the requests and their pushes.
  datatype State = State(
    pending: map<Key, Queued>, lastSuccess: map<Key, string>, disconnected: bool, wake: bool, signalling: nat,
    worker: Worker, timers: map<nat, Queued>, resends: map<nat, Resend>, started: nat,
    delivered: map<Key, string>, origins: nat, pushes: map<nat, nat>)

  const START := State(map[], map[], false, false, 0, Idle, map[], map[], 0, map[], 0, map[])

  datatype Step =
    | Enqueue(value: StateValue, force: bool) | Signal | WakeUp | TakeNext | Push(ok: bool)
    | RecordDelivery | RecordFailure | Retry(origin: nat)
    | StartResend | Read(id: nat, source: Source, values: seq<StateValue>) | OfferNext(id: nat) | EndResend(id: nat)

  predicate Enabled(s: State, step: Step) {
    match step
    case Enqueue(_, _) => true
    case Signal => s.signalling > 0
    case WakeUp => s.worker == Idle && s.wake
    case TakeNext => s.worker == Draining
    case Push(_) => s.worker.Taken?
    case RecordDelivery => s.worker.Delivered?
    case RecordFailure => s.worker.Failed?
    case Retry(origin) => origin in s.timers
    case StartResend => true
    case Read(id, source, _) => id in s.resends && s.resends[id] == Resend([], source) && source != Nowhere
    case OfferNext(id) => id in s.resends && s.resends[id].values != []
    case EndResend(id) => id in s.resends && s.resends[id] == Resend([], Nowhere)
  }

  // The last value delivered for the key is the same, and the value is not forced.
  predicate Repeats(s: State, item: Queued) {
    !item.force && KeyOf(item.value) in s.lastSuccess && s.lastSuccess[KeyOf(item.value)] == item.value.value
  }

  // Whether a value offered to the queue is stored.
  predicate Stores(s: State, item: Queued) {
    var key := KeyOf(item.value);
    if Repeats(s, item) then false
    else if key !in s.pending then true
    else if item.attempts > 0 && s.pending[key].value.value != item.value.value then false
    else s.pending[key].value.value != item.value.value || item.force
  }

  function Offered(s: State, item: Queued): State {
    if Stores(s, item) then s.(pending := s.pending[KeyOf(item.value) := item], signalling := s.signalling + 1) else s
  }

  predicate IsFirst(key: Key, keys: set<Key>) {
    key in keys && forall k :: k in keys ==> k == key || Before(key, k)
  }

  lemma {:induction false} FirstExists(keys: set<Key>)
    requires keys != {}
    ensures exists first :: IsFirst(first, keys)
  {
    hide Before;
    var key :| key in keys;
    if keys == {key} {
      assert IsFirst(key, keys);
    } else {
      FirstExists(keys - {key});
      var other :| IsFirst(other, keys - {key});
      BeforeIsTotal(key, other);
      var first := if Before(key, other) then key else other;
      forall k | k in keys ensures k == first || Before(first, k) {
        if k != key && k != other && first == key {
          BeforeIsTransitive(key, other, k);
        }
      }
      assert IsFirst(first, keys);
    }
  }

  lemma FirstIsUnique(keys: set<Key>, a: Key, b: Key)
    requires IsFirst(a, keys) && IsFirst(b, keys)
    ensures a == b
  {
    hide Before;
    BeforeIsAsymmetric(a, b);
  }

  // The first of the keys in order.
  ghost function FirstOf(keys: set<Key>): (first: Key)
    requires keys != {}
    ensures IsFirst(first, keys)
  {
    FirstExists(keys);
    var first :| IsFirst(first, keys);
    first
  }

  lemma FirstIsIn(keys: set<Key>)
    requires keys != {}
    ensures FirstOf(keys) in keys
  {
  }

  // What a step does; one that is not possible does nothing.
  ghost function Next(s: State, maxRetries: nat, step: Step): State {
    if !Enabled(s, step) then s else
      match step
      case Enqueue(value, force) => Requested(s, value, force)
      case Signal => s.(wake := true, signalling := s.signalling - 1)
      case WakeUp => s.(wake := false, worker := Draining)
      case TakeNext =>
        if s.pending == map[] then s.(worker := Idle)
        else
          var key := FirstOf(s.pending.Keys);
          s.(worker := Taken(s.pending[key]), pending := s.pending - {key})
      case Push(ok) => Pushed(s, ok)
      case RecordDelivery => DeliveryRecorded(s)
      case RecordFailure => FailureRecorded(s, maxRetries)
      case Retry(origin) => Offered(s.(timers := s.timers - {origin}), s.timers[origin])
      case StartResend => Resending(s)
      case Read(id, source, values) => s.(resends := s.resends[id := Resend(values, After(source))])
      case OfferNext(id) => OfferedNext(s, id)
      case EndResend(id) => s.(resends := s.resends - {id})
  }

  // A new request.
  function Requested(s: State, value: StateValue, force: bool): State {
    Offered(s.(origins := s.origins + 1, pushes := s.pushes[s.origins := 0]), Queued(value, 0, force, s.origins))
  }

  // A resend has been started, in a goroutine of its own.
  function Resending(s: State): State {
    s.(resends := s.resends[s.started := NEW_RESEND], started := s.started + 1)
  }

  // A resend offers its next value, forced.
  function OfferedNext(s: State, id: nat): State
    requires id in s.resends && s.resends[id].values != []
  {
    var r := s.resends[id];
    Requested(s.(resends := s.resends[id := r.(values := r.values[1..])]), r.values[0], true)
  }

  // A push outside the lock: it is delivered or fails without effect.
  function Pushed(s: State, ok: bool): State
    requires s.worker.Taken?
  {
    var item := s.worker.item;
    var count := if item.origin in s.pushes then s.pushes[item.origin] else 0;
    var s' := s.(pushes := s.pushes[item.origin := count + 1]);
    if ok then s'.(worker := Delivered(item), delivered := s.delivered[KeyOf(item.value) := item.value.value])
    else s'.(worker := Failed(item))
  }

  // Everything is to be sent again if the connection had been lost.
  function DeliveryRecorded(s: State): State
    requires s.worker.Delivered?
  {
    var s' := if s.disconnected then Resending(s) else s;
    var value := s.worker.item.value;
    s'.(worker := Draining, disconnected := false, lastSuccess := s.lastSuccess[KeyOf(value) := value.value])
  }

  // A retry is planned if one is left.
  function FailureRecorded(s: State, maxRetries: nat): State
    requires s.worker.Failed?
  {
    var item := s.worker.item;
    var timers := if item.attempts < maxRetries then s.timers[item.origin := item.(attempts := item.attempts + 1)]
                  else s.timers;
    s.(worker := Draining, disconnected := true, timers := timers)
  }

  ghost function RunFrom(s: State, maxRetries: nat, steps: seq<Step>): State
    decreases |steps|
  {
    if steps == [] then s else RunFrom(Next(s, maxRetries, steps[0]), maxRetries, steps[1..])
  }

  // The pushes made so far for an item that has not been pushed since it was last queued.
  ghost predicate Counted(s: State, maxRetries: nat, item: Queued) {
    item.origin in s.pushes && s.pushes[item.origin] == item.attempts <= maxRetries
  }

  ghost predicate Waits(s: State, origin: nat) {
    exists key :: key in s.pending && s.pending[key].origin == origin
  }

  // Every item is in one place, under its own key, with its pushes counted.
  ghost predicate Accounted(s: State, maxRetries: nat) {
    && (forall key :: key in s.pending ==> KeyOf(s.pending[key].value) == key && Counted(s, maxRetries, s.pending[key]))
    && (forall t :: t in s.timers ==>
          Counted(s, maxRetries, s.timers[t]) && s.timers[t].attempts > 0 && s.timers[t].origin == t && !Waits(s, t))
    && (forall k, l :: k in s.pending && l in s.pending && s.pending[k].origin == s.pending[l].origin ==> k == l)
    && (InFlight(s.worker) ==> s.worker.item.origin !in s.timers && !Waits(s, s.worker.item.origin))
    && (s.worker.Taken? ==> Counted(s, maxRetries, s.worker.item))
    && (s.worker.Delivered? || s.worker.Failed? ==>
          && s.worker.item.attempts <= maxRetries
          && s.worker.item.origin in s.pushes && s.pushes[s.worker.item.origin] == s.worker.item.attempts + 1)
    && (forall o :: o in s.pushes ==> o < s.origins && s.pushes[o] <= maxRetries + 1)
  }

  // The cache holds what was delivered last, but for the key whose delivery is not recorded yet.
  ghost predicate Cached(s: State) {
    && (forall key :: !(s.worker.Delivered? && KeyOf(s.worker.item.value) == key) ==>
          && (key in s.lastSuccess <==> key in s.delivered)
          && (key in s.lastSuccess ==> s.lastSuccess[key] == s.delivered[key]))
    && (s.worker.Delivered? ==>
          && KeyOf(s.worker.item.value) in s.delivered
          && s.delivered[KeyOf(s.worker.item.value)] == s.worker.item.value.value)
  }

  // No stored value is stranded: the worker is at work, or will be woken.
  predicate Attended(s: State) {
    s.pending != map[] && s.worker == Idle ==> s.wake || s.signalling > 0
  }

  ghost predicate Numbered(s: State) {
    forall id :: id in s.resends ==> id < s.started
  }

  ghost predicate Sound(s: State, maxRetries: nat) {
    Accounted(s, maxRetries) && Cached(s) && Attended(s) && Numbered(s)
  }

  lemma StartIsSound(maxRetries: nat)
    ensures Sound(START, maxRetries)
  {
  }

  lemma OfferedIsSound(s: State, maxRetries: nat, item: Queued)
    requires Sound(s, maxRetries) && Counted(s, maxRetries, item) && item.origin !in s.timers && !Waits(s, item.origin)
    requires InFlight(s.worker) ==> s.worker.item.origin != item.origin
    ensures Sound(Offered(s, item), maxRetries)
  {
    hide Sound, Counted, Waits, Stores;
    StoredIsSound(s, maxRetries, item);
  }

  lemma StoredIsSound(s: State, maxRetries: nat, item: Queued)
    requires Sound(s, maxRetries) && Counted(s, maxRetries, item) && item.origin !in s.timers && !Waits(s, item.origin)
    requires InFlight(s.worker) ==> s.worker.item.origin != item.origin
    ensures Sound(s.(pending := s.pending[KeyOf(item.value) := item], signalling := s.signalling + 1), maxRetries)
  {
    hide KeyOf, Accounted, Counted, Waits;
    StoredIsAccounted(s, maxRetries, item);
  }

  lemma StoredIsAccounted(s: State, maxRetries: nat, item: Queued)
    requires Accounted(s, maxRetries) && Counted(s, maxRetries, item)
    requires item.origin !in s.timers && !Waits(s, item.origin)
    requires InFlight(s.worker) ==> s.worker.item.origin != item.origin
    ensures Accounted(s.(pending := s.pending[KeyOf(item.value) := item], signalling := s.signalling + 1), maxRetries)
  {
    hide KeyOf;
    var s' := s.(pending := s.pending[KeyOf(item.value) := item], signalling := s.signalling + 1);
    assert forall o :: Waits(s', o) ==> o == item.origin || Waits(s, o);
  }

  lemma NextIsSound(s: State, maxRetries: nat, step: Step)
    requires Sound(s, maxRetries)
    ensures Sound(Next(s, maxRetries, step), maxRetries)
  {
    hide Accounted, Cached, Attended, Offered, Pushed, FirstOf, Requested, OfferedNext;
    hide DeliveryRecorded, FailureRecorded;
    if Enabled(s, step) {
      match step {
        case Enqueue(value, force) => RequestIsSound(s, maxRetries, value, force);
        case Retry(origin) => RetryIsSound(s, maxRetries, origin);
        case TakeNext => TakenIsSound(s, maxRetries);
        case Push(ok) => PushedIsSound(s, maxRetries, ok);
        case RecordDelivery => DeliveryIsSound(s, maxRetries);
        case RecordFailure => FailureIsSound(s, maxRetries);
        case Signal => WakeIsSound(s, true, s.signalling - 1, s.worker, maxRetries);
        case WakeUp => WakeIsSound(s, false, s.signalling, Draining, maxRetries);
        case StartResend => ResendIsSound(s, Resending(s).resends, s.started + 1, maxRetries);
        case Read(id, source, values) =>
          ResendIsSound(s, s.resends[id := Resend(values, After(source))], s.started, maxRetries);
        case OfferNext(id) => OfferNextIsSound(s, maxRetries, id);
        case EndResend(id) => ResendIsSound(s, s.resends - {id}, s.started, maxRetries);
      }
    }
  }

  lemma RequestIsSound(s: State, maxRetries: nat, value: StateValue, force: bool)
    requires Sound(s, maxRetries)
    ensures Sound(Requested(s, value, force), maxRetries)
  {
    hide Offered, Sound, Counted, Waits;
    NumberedIsSound(s, maxRetries, Queued(value, 0, force, s.origins));
    OfferedIsSound(
      s.(origins := s.origins + 1, pushes := s.pushes[s.origins := 0]), maxRetries, Queued(value, 0, force, s.origins));
  }

  lemma NumberedIsSound(s: State, maxRetries: nat, item: Queued)
    requires Sound(s, maxRetries) && item.attempts == 0 && item.origin == s.origins
    ensures var s' := s.(origins := s.origins + 1, pushes := s.pushes[s.origins := 0]);
            && Sound(s', maxRetries) && Counted(s', maxRetries, item)
            && item.origin !in s'.timers && !Waits(s', item.origin)
            && (InFlight(s'.worker) ==> s'.worker.item.origin != item.origin)
  {
    var s' := s.(origins := s.origins + 1, pushes := s.pushes[s.origins := 0]);
    assert forall o :: Waits(s', o) == Waits(s, o);
  }

  lemma RetryIsSound(s: State, maxRetries: nat, origin: nat)
    requires Sound(s, maxRetries) && origin in s.timers
    ensures Sound(Offered(s.(timers := s.timers - {origin}), s.timers[origin]), maxRetries)
  {
    hide Offered;
    var s' := s.(timers := s.timers - {origin});
    assert forall o :: Waits(s', o) == Waits(s, o);
    OfferedIsSound(s', maxRetries, s.timers[origin]);
  }

  // The resends are on their own.
  lemma ResendIsSound(s: State, resends: map<nat, Resend>, started: nat, maxRetries: nat)
    requires Sound(s, maxRetries) && forall id :: id in resends ==> id < started
    ensures Sound(s.(resends := resends, started := started), maxRetries)
  {
    var s' := s.(resends := resends, started := started);
    assert forall o :: Waits(s', o) == Waits(s, o);
  }

  lemma OfferNextIsSound(s: State, maxRetries: nat, id: nat)
    requires Sound(s, maxRetries) && id in s.resends && s.resends[id].values != []
    ensures Sound(OfferedNext(s, id), maxRetries)
  {
    hide Requested, Accounted, Cached, Attended;
    var r := s.resends[id];
    var resends := s.resends[id := r.(values := r.values[1..])];
    ResendIsSound(s, resends, s.started, maxRetries);
    assert s.(resends := resends, started := s.started) == s.(resends := resends);
    RequestIsSound(s.(resends := resends), maxRetries, r.values[0], true);
  }

  // So are the wake-ups, as long as no stored value is left without one.
  lemma WakeIsSound(s: State, wake: bool, signalling: nat, worker: Worker, maxRetries: nat)
    requires Sound(s, maxRetries) && (worker == s.worker || (s.worker == Idle && worker == Draining))
    requires wake || worker != Idle
    ensures Sound(s.(wake := wake, signalling := signalling, worker := worker), maxRetries)
  {
    var s' := s.(wake := wake, signalling := signalling, worker := worker);
    assert forall o :: Waits(s', o) == Waits(s, o);
  }

  lemma TakenIsSound(s: State, maxRetries: nat)
    requires Sound(s, maxRetries) && s.worker == Draining
    ensures Sound(Next(s, maxRetries, TakeNext), maxRetries)
  {
    if s.pending != map[] {
      assert FirstOf(s.pending.Keys) in s.pending;
      hide IsFirst;
      KeyTaken(s, maxRetries, FirstOf(s.pending.Keys));
    }
  }

  lemma KeyTaken(s: State, maxRetries: nat, key: Key)
    requires Sound(s, maxRetries) && s.worker == Draining && key in s.pending
    ensures Sound(s.(worker := Taken(s.pending[key]), pending := s.pending - {key}), maxRetries)
  {
    var s' := s.(worker := Taken(s.pending[key]), pending := s.pending - {key});
    assert forall o :: Waits(s', o) ==> Waits(s, o);
    assert Waits(s, s.pending[key].origin);
    assert forall k :: k in s'.pending ==> s'.pending[k].origin != s.pending[key].origin;
  }

  lemma PushedIsSound(s: State, maxRetries: nat, ok: bool)
    requires Sound(s, maxRetries) && s.worker.Taken?
    ensures Sound(Pushed(s, ok), maxRetries)
  {
    hide KeyOf;
    var s' := Pushed(s, ok);
    assert forall o :: Waits(s', o) == Waits(s, o);
  }

  lemma DeliveryIsSound(s: State, maxRetries: nat)
    requires Sound(s, maxRetries) && s.worker.Delivered?
    ensures Sound(DeliveryRecorded(s), maxRetries)
  {
    hide Accounted, Cached, Attended;
    var value := s.worker.item.value;
    var s' := s.(worker := Draining, disconnected := false, lastSuccess := s.lastSuccess[KeyOf(value) := value.value]);
    RecordedIsSound(s, maxRetries);
    if s.disconnected {
      ResendIsSound(s', Resending(s).resends, s.started + 1, maxRetries);
    }
  }

  lemma RecordedIsSound(s: State, maxRetries: nat)
    requires Sound(s, maxRetries) && s.worker.Delivered?
    ensures var value := s.worker.item.value;
            var lastSuccess := s.lastSuccess[KeyOf(value) := value.value];
            Sound(s.(worker := Draining, disconnected := false, lastSuccess := lastSuccess), maxRetries)
  {
    var value := s.worker.item.value;
    var s' := s.(worker := Draining, disconnected := false, lastSuccess := s.lastSuccess[KeyOf(value) := value.value]);
    assert forall o :: Waits(s', o) == Waits(s, o);
  }

  lemma FailureIsSound(s: State, maxRetries: nat)
    requires Sound(s, maxRetries) && s.worker.Failed?
    ensures Sound(FailureRecorded(s, maxRetries), maxRetries)
  {
    hide KeyOf;
    var s' := FailureRecorded(s, maxRetries);
    assert forall o :: Waits(s', o) == Waits(s, o);
    assert s'.timers == s.timers || s'.timers.Keys == s.timers.Keys + {s.worker.item.origin};
  }

  lemma {:induction false} RunIsSound(s: State, maxRetries: nat, steps: seq<Step>)
    requires Sound(s, maxRetries)
    ensures Sound(RunFrom(s, maxRetries, steps), maxRetries)
    decreases |steps|
  {
    if steps != [] {
      NextIsSound(s, maxRetries, steps[0]);
      RunIsSound(Next(s, maxRetries, steps[0]), maxRetries, steps[1..]);
    }
  }

  lemma {:induction false} RunMore(s: State, maxRetries: nat, steps: seq<Step>, step: Step)
    ensures RunFrom(s, maxRetries, steps + [step]) == Next(RunFrom(s, maxRetries, steps), maxRetries, step)
    decreases |steps|
  {
    hide Next;
    if steps == [] {
      assert [step][1..] == [];
    } else {
      assert (steps + [step])[1..] == steps[1..] + [step];
      RunMore(Next(s, maxRetries, steps[0]), maxRetries, steps[1..], step);
    }
  }

  // Whenever no delivery waits to be recorded, the cache is exactly what was delivered.
  lemma RecordedMeansDelivered(s: State, maxRetries: nat)
    requires Sound(s, maxRetries) && !s.worker.Delivered?
    ensures s.lastSuccess == s.delivered
  {
    assert s.lastSuccess.Keys == s.delivered.Keys;
  }

  // Where nothing is left to do but planned retries and resends, nothing is pending either.
  lemma QuietMeansDelivered(s: State, maxRetries: nat)
    requires Sound(s, maxRetries) && s.worker == Idle && !s.wake && s.signalling == 0
    ensures s.pending == map[] && s.lastSuccess == s.delivered
  {
    RecordedMeansDelivered(s, maxRetries);
  }
}
