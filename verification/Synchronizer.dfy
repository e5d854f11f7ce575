// The synchronizer of the Direct HTTP queue: its fields, changed step by step.
module Synchronizer {
  import opened Text
  import opened DirectQueue
  import opened QueueAlone
  import opened QueueSettling

  method FirstKey(keys: set<Key>) returns (first: Key)
    requires keys != {}
    ensures IsFirst(first, keys)
  {
    first :| first in keys;
    var todo := keys - {first};
    while todo != {}
      invariant todo <= keys && IsFirst(first, keys - todo)
      decreases |todo|
    {
      hide Before;
      var key :| key in todo;
      ghost var seen := keys - todo;
      todo := todo - {key};
      assert keys - todo == seen + {key};
      BeforeIsTotal(key, first);
      if Before(key, first) {
        forall k | k in seen ensures k == key || Before(key, k) {
          if k != first {
            BeforeIsTransitive(key, first, k);
          }
        }
        first := key;
      }
    }
    assert keys - todo == keys;
  }

  class Synchronizer {
    const maxRetries: nat
    var pending: map<Key, Queued>
    var lastSuccess: map<Key, string>
    var disconnected: bool
    var wake: bool
    var signalling: nat
    var worker: Worker
    var timers: map<nat, Queued>
    var resends: map<nat, Resend>
    // Not in the program: what the other side has, and the resends, the requests and their pushes counted.
    var started: nat
    var delivered: map<Key, string>
    var origins: nat
    var pushes: map<nat, nat>

    ghost function Now(): State
      reads this
    {
      State(
        pending, lastSuccess, disconnected, wake, signalling, worker, timers, resends, started, delivered, origins,
        pushes)
    }

    ghost predicate Valid()
      reads this
    {
      Sound(Now(), maxRetries)
    }

    constructor (maxRetries: nat)
      ensures Valid() && this.maxRetries == maxRetries && Now() == START
    {
      this.maxRetries := maxRetries;
      pending, lastSuccess, timers, resends, started := map[], map[], map[], map[], 0;
      disconnected, wake, signalling, worker := false, false, 0, Idle;
      delivered, origins, pushes := map[], 0, map[];
      new;
      StartIsSound(maxRetries);
    }

    // Store under the lock; a stored value is followed by a signal.
    method Offer(item: Queued)
      modifies this`pending, this`signalling
      ensures Now() == Offered(old(Now()), item)
    {
      var key := KeyOf(item.value);
      if key in lastSuccess && !item.force && lastSuccess[key] == item.value.value {
        return;
      }
      if key in pending {
        if item.attempts > 0 && pending[key].value.value != item.value.value {
          return;
        }
        if pending[key].value.value == item.value.value && !item.force {
          return;
        }
      }
      pending := pending[key := item];
      signalling := signalling + 1;
    }

    // An update.
    method Enqueue(value: StateValue, force: bool)
      requires Valid()
      modifies this`pending, this`signalling, this`origins, this`pushes
      ensures Valid() && Now() == Next(old(Now()), maxRetries, Step.Enqueue(value, force))
    {
      hide Sound, Offered;
      NextIsSound(Now(), maxRetries, Step.Enqueue(value, force));
      var origin := origins;
      pushes := pushes[origins := 0];
      origins := origins + 1;
      Offer(Queued(value, 0, force, origin));
    }

    // After the store: the wake channel holds one signal and drops the rest.
    method Signal()
      requires Valid() && signalling > 0
      modifies this`wake, this`signalling
      ensures Valid() && Now() == Next(old(Now()), maxRetries, Step.Signal)
    {
      hide Sound;
      NextIsSound(Now(), maxRetries, Step.Signal);
      wake := true;
      signalling := signalling - 1;
    }

    method WakeUp()
      requires Valid() && worker == Idle && wake
      modifies this`wake, this`worker
      ensures Valid() && Now() == Next(old(Now()), maxRetries, Step.WakeUp)
    {
      hide Sound;
      NextIsSound(Now(), maxRetries, Step.WakeUp);
      wake := false;
      worker := Draining;
    }

    // Take the first pending value, or go back to waiting when there is none.
    method TakeNext() returns (found: bool)
      requires Valid() && worker == Draining
      modifies this`pending, this`worker
      ensures Valid() && Now() == Next(old(Now()), maxRetries, Step.TakeNext) && (found <==> old(pending) != map[])
    {
      hide Sound, IsFirst;
      NextIsSound(Now(), maxRetries, Step.TakeNext);
      if pending == map[] {
        worker := Idle;
        return false;
      }
      var key := FirstKey(pending.Keys);
      FirstIsUnique(pending.Keys, key, FirstOf(pending.Keys));
      FirstIsIn(pending.Keys);
      worker := Taken(pending[key]);
      pending := pending - {key};
      return true;
    }

    // The push itself, outside the lock: it is delivered or fails without effect.
    method Push(ok: bool)
      requires Valid() && worker.Taken?
      modifies this`worker, this`delivered, this`pushes
      ensures Valid() && Now() == Next(old(Now()), maxRetries, Step.Push(ok))
    {
      hide Sound;
      NextIsSound(Now(), maxRetries, Step.Push(ok));
      var item := worker.item;
      pushes := pushes[item.origin := (if item.origin in pushes then pushes[item.origin] else 0) + 1];
      if ok {
        delivered := delivered[KeyOf(item.value) := item.value.value];
        worker := Delivered(item);
      } else {
        worker := Failed(item);
      }
    }

    // Record a delivery. If the connection had been lost everything is sent again, in a goroutine of its own.
    method RecordDelivery()
      requires Valid() && worker.Delivered?
      modifies this`worker, this`lastSuccess, this`disconnected, this`resends, this`started
      ensures Valid() && Now() == Next(old(Now()), maxRetries, Step.RecordDelivery)
      ensures lastSuccess == delivered
    {
      hide Sound, KeyOf, Next;
      NextIsSound(Now(), maxRetries, Step.RecordDelivery);
      DeliveryNext(Now(), maxRetries);
      ghost var after := Next(Now(), maxRetries, Step.RecordDelivery);
      var wasDisconnected := disconnected;
      disconnected := false;
      lastSuccess := lastSuccess[KeyOf(worker.item.value) := worker.item.value.value];
      worker := Draining;
      if wasDisconnected {
        resends := resends[started := NEW_RESEND];
        started := started + 1;
      }
      RecordedMeansDelivered(after, maxRetries);
    }

    // Record a failure, and plan the retry if one is left.
    method RecordFailure() returns (retry: bool)
      requires Valid() && worker.Failed?
      modifies this`worker, this`disconnected, this`timers
      ensures Valid() && Now() == Next(old(Now()), maxRetries, Step.RecordFailure)
      ensures retry <==> old(worker).item.attempts < maxRetries
    {
      hide Sound, Next;
      NextIsSound(Now(), maxRetries, Step.RecordFailure);
      FailureNext(Now(), maxRetries);
      disconnected := true;
      var item := worker.item;
      retry := item.attempts < maxRetries;
      if retry {
        timers := timers[item.origin := item.(attempts := item.attempts + 1)];
      }
      worker := Draining;
    }

    // A retry timer fires.
    method Retry(origin: nat)
      requires Valid() && origin in timers
      modifies this`pending, this`signalling, this`timers
      ensures Valid() && Now() == Next(old(Now()), maxRetries, Step.Retry(origin))
    {
      hide Sound, Offered;
      NextIsSound(Now(), maxRetries, Step.Retry(origin));
      var item := timers[origin];
      timers := timers - {origin};
      Offer(item);
    }

    // A resend that was asked for.
    method StartResend()
      requires Valid()
      modifies this`resends, this`started
      ensures Valid() && Now() == Next(old(Now()), maxRetries, Step.StartResend)
    {
      hide Sound;
      NextIsSound(Now(), maxRetries, Step.StartResend);
      resends := resends[started := NEW_RESEND];
      started := started + 1;
    }

    // A resend reads what it offers next.
    method Read(id: nat, source: Source, values: seq<StateValue>)
      requires Valid() && id in resends && resends[id] == Resend([], source) && source != Nowhere
      modifies this`resends
      ensures Valid() && Now() == Next(old(Now()), maxRetries, Step.Read(id, source, values))
    {
      hide Sound;
      NextIsSound(Now(), maxRetries, Step.Read(id, source, values));
      resends := resends[id := Resend(values, After(source))];
    }

    method OfferNext(id: nat)
      requires Valid() && id in resends && resends[id].values != []
      modifies this`pending, this`signalling, this`resends, this`origins, this`pushes
      ensures Valid() && Now() == Next(old(Now()), maxRetries, Step.OfferNext(id))
    {
      hide Sound, Offered;
      NextIsSound(Now(), maxRetries, Step.OfferNext(id));
      var r, origin := resends[id], origins;
      resends := resends[id := r.(values := r.values[1..])];
      pushes := pushes[origins := 0];
      origins := origins + 1;
      Offer(Queued(r.values[0], 0, true, origin));
    }

    method EndResend(id: nat)
      requires Valid() && id in resends && resends[id] == Resend([], Nowhere)
      modifies this`resends
      ensures Valid() && Now() == Next(old(Now()), maxRetries, Step.EndResend(id))
    {
      hide Sound;
      NextIsSound(Now(), maxRetries, Step.EndResend(id));
      resends := resends - {id};
    }
  }

  lemma DeliveryNext(s: State, maxRetries: nat)
    requires s.worker.Delivered?
    ensures Next(s, maxRetries, Step.RecordDelivery) == DeliveryRecorded(s)
  {
  }

  lemma FailureNext(s: State, maxRetries: nat)
    requires s.worker.Failed?
    ensures Next(s, maxRetries, Step.RecordFailure) == FailureRecorded(s, maxRetries)
  {
  }

  // Any interleaving of the steps; one that is not possible where it stands is skipped. However it goes,
  // no request is pushed more often than its retries allow, but for the one delivery being recorded the
  // cache says what was delivered last, and no pending value is stranded.
  method RunAny(maxRetries: nat, steps: seq<Step>) returns (s: Synchronizer)
    ensures s.Valid() && s.maxRetries == maxRetries && s.Now() == RunFrom(START, maxRetries, steps)
    ensures forall o :: o in s.pushes ==> s.pushes[o] <= maxRetries + 1
    ensures forall key :: !(s.worker.Delivered? && KeyOf(s.worker.item.value) == key) ==>
              && (key in s.lastSuccess <==> key in s.delivered)
              && (key in s.lastSuccess ==> s.lastSuccess[key] == s.delivered[key])
    ensures s.pending != map[] ==> s.worker != Idle || s.wake || s.signalling > 0
  {
    s := new Synchronizer(maxRetries);
    for i := 0 to |steps|
      invariant fresh(s) && s.Valid() && s.maxRetries == maxRetries && s.Now() == RunFrom(START, maxRetries, steps[..i])
    {
      assert steps[..i + 1] == steps[..i] + [steps[i]];
      RunMore(START, maxRetries, steps[..i], steps[i]);
      TakeStep(s, steps[i]);
    }
    assert steps[..|steps|] == steps;
  }

  method TakeStep(s: Synchronizer, step: Step)
    requires s.Valid()
    modifies s
    ensures s.Valid() && s.Now() == Next(old(s.Now()), s.maxRetries, step)
  {
    hide Sound, Offered, Pushed;
    match step
    case Enqueue(value, force) => s.Enqueue(value, force);
    case Signal => if s.signalling > 0 { s.Signal(); }
    case WakeUp => if s.worker == Idle && s.wake { s.WakeUp(); }
    case TakeNext => if s.worker == Draining { var _ := s.TakeNext(); }
    case Push(ok) => if s.worker.Taken? { s.Push(ok); }
    case RecordDelivery => if s.worker.Delivered? { s.RecordDelivery(); }
    case RecordFailure => if s.worker.Failed? { var _ := s.RecordFailure(); }
    case Retry(origin) => if origin in s.timers { s.Retry(origin); }
    case StartResend => s.StartResend();
    case Read(id, source, values) =>
      if id in s.resends && s.resends[id] == Resend([], source) && source != Nowhere { s.Read(id, source, values); }
    case OfferNext(id) => if id in s.resends && s.resends[id].values != [] { s.OfferNext(id); }
    case EndResend(id) => if id in s.resends && s.resends[id] == Resend([], Nowhere) { s.EndResend(id); }
  }

  const ON := StateValue("robot", "power", "RR_power", "1")
  const OFF := StateValue("robot", "power", "RR_power", "0")

  // The idle worker is woken for the one value stored.
  method Wake(s: Synchronizer)
    requires s.Valid() && s.worker == Idle && s.signalling == 1
    modifies s`wake, s`signalling, s`worker
    ensures s.Valid() && s.worker == Draining && !s.wake && s.signalling == 0
  {
    hide Sound;
    s.Signal();
    s.WakeUp();
  }

  // A value is stored where none is pending.
  method StoreOnly(s: Synchronizer, value: StateValue)
    requires s.Valid() && s.pending == map[]
    requires KeyOf(value) in s.lastSuccess ==> s.lastSuccess[KeyOf(value)] != value.value
    modifies s`pending, s`signalling, s`origins, s`pushes
    ensures s.Valid() && s.pending == map[KeyOf(value) := Queued(value, 0, false, old(s.origins))]
    ensures s.signalling == old(s.signalling) + 1 && s.origins == old(s.origins) + 1
  {
    hide Sound;
    s.Enqueue(value, false);
  }

  method FailOnly(s: Synchronizer, item: Queued)
    requires s.Valid() && s.worker == Taken(item) && item.attempts < s.maxRetries
    modifies s`worker, s`delivered, s`pushes, s`disconnected, s`timers
    ensures s.Valid() && s.worker == Draining && s.delivered == old(s.delivered) && s.disconnected
    ensures s.timers == old(s.timers)[item.origin := item.(attempts := item.attempts + 1)]
  {
    hide Sound;
    s.Push(false);
    var _ := s.RecordFailure();
  }

  method RetryOnly(s: Synchronizer, origin: nat)
    requires s.Valid() && s.pending == map[] && origin in s.timers && !Repeats(s.Now(), s.timers[origin])
    modifies s`pending, s`signalling, s`timers
    ensures s.Valid() && s.timers == old(s.timers) - {origin}
    ensures s.pending == map[KeyOf(old(s.timers)[origin].value) := old(s.timers)[origin]]
  {
    hide Sound;
    s.Retry(origin);
  }

  // The only pending value is taken.
  method TakeOnly(s: Synchronizer, item: Queued)
    requires s.Valid() && s.worker == Draining && s.pending == map[KeyOf(item.value) := item]
    modifies s`pending, s`worker
    ensures s.Valid() && s.worker == Taken(item) && s.pending == map[]
  {
    hide Sound;
    var key := KeyOf(item.value);
    OnlyFirst(key);
    assert s.pending.Keys == {key};
    var _ := s.TakeNext();
    assert map[key := item] - {key} == map[];
  }

  // It is delivered, which starts a resend if the connection had been lost.
  method DeliverOnly(s: Synchronizer, item: Queued)
    requires s.Valid() && s.worker == Draining && s.pending == map[KeyOf(item.value) := item]
    modifies s`pending, s`worker, s`delivered, s`pushes, s`lastSuccess, s`disconnected, s`resends, s`started
    ensures s.Valid() && s.worker == Draining && s.pending == map[] && s.lastSuccess == s.delivered && !s.disconnected
    ensures s.delivered == old(s.delivered)[KeyOf(item.value) := item.value.value]
    ensures s.resends == if old(s.disconnected) then old(s.resends)[old(s.started) := NEW_RESEND] else old(s.resends)
  {
    hide Sound, KeyOf;
    TakeOnly(s, item);
    s.Push(true);
    s.RecordDelivery();
  }

  // A queue that has delivered ON and is draining.
  method OnDelivered(maxRetries: nat) returns (s: Synchronizer)
    ensures fresh(s) && s.Valid() && s.maxRetries == maxRetries && s.worker == Draining
    ensures s.pending == map[] && s.timers == map[] && !s.wake && s.signalling == 0
    ensures s.lastSuccess == s.delivered == map[KeyOf(ON) := "1"] && s.origins == 1
    ensures s.resends == map[] && !s.disconnected
  {
    hide Sound;
    s := new Synchronizer(maxRetries);
    StoreOnly(s, ON);
    Wake(s);
    DeliverOnly(s, Queued(ON, 0, false, 0));
  }

  lemma OnlyFirst(key: Key)
    ensures FirstOf({key}) == key
  {
  }

  // Only OFF is left, in flight.
  method FinishOff(s: Synchronizer)
    requires s.Valid() && s.worker.Taken? && s.worker.item.value == OFF
    requires s.pending == map[] && s.timers == map[] && s.resends == map[] && !s.wake && !s.disconnected
    modifies s
    ensures AtRest(s.Now()) && Delivers(s.Now(), KeyOf(OFF), "0")
  {
    hide Sound, KeyOf;
    s.Push(true);
    s.RecordDelivery();
    var _ := s.TakeNext();
    while s.signalling > 0
      invariant s.Valid() && s.pending == map[] && s.timers == map[] && s.resends == map[] && s.worker == Idle
      invariant Delivers(s.Now(), KeyOf(OFF), "0")
      decreases s.signalling
    {
      s.Signal();
    }
    if s.wake {
      s.WakeUp();
      var _ := s.TakeNext();
    }
  }

  // Updates ON, OFF and ON again: the last one is dropped while OFF is still pending, and OFF stays.
  method UpdateCanBeLost(maxRetries: nat) returns (s: Synchronizer)
    ensures AtRest(s.Now()) && Delivers(s.Now(), KeyOf(ON), "0")
  {
    s := OnDelivered(maxRetries);
    hide Sound;
    StoreOnly(s, OFF);
    s.Enqueue(ON, false);
    TakeOnly(s, Queued(OFF, 0, false, 1));
    FinishOff(s);
  }

  // The same while OFF is in flight: nothing is pending when the update is dropped.
  method UpdateCanBeLostInFlight(maxRetries: nat) returns (s: Synchronizer)
    ensures AtRest(s.Now()) && Delivers(s.Now(), KeyOf(ON), "0")
  {
    s := OnDelivered(maxRetries);
    hide Sound;
    StoreOnly(s, OFF);
    TakeOnly(s, Queued(OFF, 0, false, 1));
    s.Enqueue(ON, false);
    FinishOff(s);
  }

  // A queue whose push of OFF has failed, and is to be repeated.
  method OffFailed(maxRetries: nat) returns (s: Synchronizer)
    requires maxRetries > 0
    ensures fresh(s) && s.Valid() && s.maxRetries == maxRetries && s.worker == Draining && s.disconnected
    ensures s.pending == map[] && s.timers == map[0 := Queued(OFF, 1, false, 0)] && !s.wake && s.signalling == 0
    ensures s.lastSuccess == map[] && s.origins == 1 && s.resends == map[] && s.started == 0
  {
    hide Sound;
    s := new Synchronizer(maxRetries);
    StoreOnly(s, OFF);
    Wake(s);
    TakeOnly(s, Queued(OFF, 0, false, 0));
    FailOnly(s, Queued(OFF, 0, false, 0));
  }

  // The one resend under way reads one value and offers it.
  method ReadOnly(s: Synchronizer, value: StateValue)
    requires s.Valid() && s.resends == map[0 := NEW_RESEND]
    modifies s`resends
    ensures s.Valid() && s.resends == map[0 := Resend([value], Installation)]
  {
    hide Sound;
    s.Read(0, Robots, [value]);
  }

  method OfferOnly(s: Synchronizer, value: StateValue)
    requires s.Valid() && s.pending == map[] && s.resends == map[0 := Resend([value], Installation)]
    modifies s`pending, s`signalling, s`resends, s`origins, s`pushes
    ensures s.Valid() && s.pending == map[KeyOf(value) := Queued(value, 0, true, old(s.origins))]
    ensures s.resends == map[0 := Resend([], Installation)] && s.origins == old(s.origins) + 1
  {
    hide Sound, KeyOf;
    assert [value][1..] == [];
    s.OfferNext(0);
  }

  // It finds nothing more to offer and ends.
  method EndOnly(s: Synchronizer)
    requires s.Valid() && s.resends == map[0 := Resend([], Installation)]
    modifies s`resends
    ensures s.Valid() && s.resends == map[]
  {
    hide Sound;
    s.Read(0, Installation, []);
    s.EndResend(0);
  }

  // The value it reads is delivered before anything else happens.
  method ResendOnly(s: Synchronizer, value: StateValue)
    requires s.Valid() && s.worker == Draining && s.pending == map[] && s.resends == map[0 := NEW_RESEND]
    requires !s.disconnected
    modifies s`pending, s`signalling, s`worker, s`delivered, s`pushes, s`origins, s`lastSuccess, s`disconnected,
             s`resends, s`started
    ensures s.Valid() && s.worker == Draining && s.pending == map[] && s.resends == map[] && !s.disconnected
    ensures s.lastSuccess == s.delivered == old(s.delivered)[KeyOf(value) := value.value]
  {
    hide Sound, KeyOf;
    ReadOnly(s, value);
    var item := Queued(value, 0, true, s.origins);
    OfferOnly(s, value);
    DeliverOnly(s, item);
    EndOnly(s);
  }

  // OFF fails and ON is delivered; as the connection is back, a resend begins.
  method OnAfterOff(maxRetries: nat) returns (s: Synchronizer)
    requires maxRetries > 0
    ensures fresh(s) && s.Valid() && s.worker == Draining && s.pending == map[] && !s.wake && !s.disconnected
    ensures s.timers == map[0 := Queued(OFF, 1, false, 0)] && s.resends == map[0 := NEW_RESEND]
  {
    s := OffFailed(maxRetries);
    hide Sound, KeyOf;
    StoreOnly(s, ON);
    DeliverOnly(s, Queued(ON, 0, false, 1));
  }

  // It sends ON once more, and then the retry of OFF comes.
  method UpdateCanBeLostToRetry(maxRetries: nat) returns (s: Synchronizer)
    requires maxRetries > 0
    ensures AtRest(s.Now()) && Delivers(s.Now(), KeyOf(ON), "0")
  {
    s := OnAfterOff(maxRetries);
    hide Sound;
    ResendOnly(s, ON);
    RetryOnly(s, 0);
    assert map[0 := Queued(OFF, 1, false, 0)] - {0} == map[];
    TakeOnly(s, Queued(OFF, 1, false, 0));
    FinishOff(s);
  }

  // OFF fails and its retry is delivered; the resend that begins reads OFF.
  method OffResent(maxRetries: nat) returns (s: Synchronizer)
    requires maxRetries > 0
    ensures fresh(s) && s.Valid() && s.worker == Draining && s.pending == map[] && !s.wake && !s.disconnected
    ensures s.timers == map[] && s.resends == map[0 := Resend([OFF], Installation)]
    ensures s.lastSuccess == s.delivered == map[KeyOf(OFF) := "0"]
  {
    s := OffFailed(maxRetries);
    hide Sound, KeyOf;
    RetryOnly(s, 0);
    assert map[0 := Queued(OFF, 1, false, 0)] - {0} == map[];
    DeliverOnly(s, Queued(OFF, 1, false, 0));
    ReadOnly(s, OFF);
  }

  // Then ON is delivered.
  method OnAfterRead(maxRetries: nat) returns (s: Synchronizer)
    requires maxRetries > 0
    ensures fresh(s) && s.Valid() && s.worker == Draining && s.pending == map[] && !s.wake && !s.disconnected
    ensures s.timers == map[] && s.resends == map[0 := Resend([OFF], Installation)]
    ensures s.delivered == map[KeyOf(OFF) := "0"][KeyOf(ON) := "1"]
  {
    s := OffResent(maxRetries);
    hide Sound, KeyOf;
    var on := Queued(ON, 0, false, s.origins);
    StoreOnly(s, ON);
    DeliverOnly(s, on);
  }

  // And the resend offers OFF.
  method UpdateCanBeLostToResend(maxRetries: nat) returns (s: Synchronizer)
    requires maxRetries > 0
    ensures AtRest(s.Now()) && Delivers(s.Now(), KeyOf(ON), "0")
  {
    s := OnAfterRead(maxRetries);
    hide Sound;
    var off := Queued(OFF, 0, true, s.origins);
    OfferOnly(s, OFF);
    TakeOnly(s, off);
    EndOnly(s);
    FinishOff(s);
  }
}
