// The Direct HTTP queue by robot and field: every pair has a place of its own, which nothing done for another
// pair touches.
module QueuePairs {
  import opened DirectQueue

  // Values share a key exactly if they are for the same field of the same robot.
  lemma SameKeyIff(v: StateValue, w: StateValue)
    requires '\0' !in v.robot && '\0' !in w.robot
    ensures KeyOf(v) == KeyOf(w) <==> v.robot == w.robot && v.field == w.field
  {
    KeySplits(v.robot, v.field);
    KeySplits(w.robot, w.field);
    if KeyOf(v) == KeyOf(w) {
      var key := KeyOf(v);
      assert key[|v.robot|] == '\0' && key[|w.robot|] == '\0';
      assert forall k :: 0 <= k < |v.robot| ==> key[k] == v.robot[k] && key[k] != '\0';
      assert forall k :: 0 <= k < |w.robot| ==> key[k] == w.robot[k] && key[k] != '\0';
      assert v.robot == key[..|v.robot|] == w.robot;
      assert v.field == key[|v.robot| + 1..] == w.field;
    }
  }

  lemma KeySplits(robot: string, field: string)
    ensures var key := robot + ['\0'] + field;
            && key == KeyOf(StateValue(robot, field, "", ""))
            && key[..|robot|] == robot && key[|robot|] == '\0' && key[|robot| + 1..] == field
  {
  }

  // The value a step is about.
  ghost function Handled(s: State, step: Step): set<StateValue> {
    match step
    case Enqueue(value, _) => {value}
    case TakeNext => if s.pending != map[] then {s.pending[FirstOf(s.pending.Keys)].value} else {}
    case Push(_) => if InFlight(s.worker) then {s.worker.item.value} else {}
    case RecordDelivery => if InFlight(s.worker) then {s.worker.item.value} else {}
    case Retry(origin) => if origin in s.timers then {s.timers[origin].value} else {}
    case OfferNext(id) => if id in s.resends && s.resends[id].values != [] then {s.resends[id].values[0]} else {}
    case _ => {}
  }

  // The maps hold the same under the key.
  predicate Agree<K(==), V(==)>(m: map<K, V>, m': map<K, V>, key: K) {
    (key in m <==> key in m') && (key in m ==> m[key] == m'[key])
  }

  lemma UpdateAgrees<K, V>(m: map<K, V>, key: K, value: V, other: K)
    requires other != key
    ensures Agree(m, m[key := value], other)
  {
  }

  lemma RemoveAgrees<K, V>(m: map<K, V>, key: K, other: K)
    requires other != key
    ensures Agree(m, m - {key}, other)
  {
  }

  // What is pending, recorded and delivered for the key.
  ghost predicate SameAt(s: State, s': State, key: string) {
    && Agree(s.pending, s'.pending, key) && Agree(s.lastSuccess, s'.lastSuccess, key)
    && Agree(s.delivered, s'.delivered, key)
  }

  lemma OfferKeepsKey(s: State, item: Queued, key: string)
    requires KeyOf(item.value) != key
    ensures SameAt(s, Offered(s, item), key)
  {
    UpdateAgrees(s.pending, KeyOf(item.value), item, key);
    assert SameAt(s, s, key);
    hide KeyOf, Stores, Agree;
  }

  lemma TakeKeepsKey(s: State, maxRetries: nat, key: string)
    requires Sound(s, maxRetries) && s.worker == Draining && s.pending != map[]
    requires forall v :: v in Handled(s, TakeNext) ==> KeyOf(v) != key
    ensures SameAt(s, Next(s, maxRetries, TakeNext), key)
  {
    var first := FirstOf(s.pending.Keys);
    FirstIsIn(s.pending.Keys);
    assert s.pending[first].value in Handled(s, TakeNext);
    assert KeyOf(s.pending[first].value) == first;
    RemoveAgrees(s.pending, first, key);
    assert SameAt(s, s, key);
    hide KeyOf, Sound, IsFirst, Agree;
  }

  lemma StoreKeepsKey(s: State, maxRetries: nat, step: Step, key: string)
    requires Enabled(s, step) && (step.Enqueue? || step.Retry? || step.OfferNext?)
    requires forall v :: v in Handled(s, step) ==> KeyOf(v) != key
    ensures SameAt(s, Next(s, maxRetries, step), key)
  {
    hide KeyOf, Offered, Agree;
    match step
    case Enqueue(value, force) =>
      var s' := s.(origins := s.origins + 1, pushes := s.pushes[s.origins := 0]);
      OfferKeepsKey(s', Queued(value, 0, force, s.origins), key);
    case Retry(origin) =>
      var s' := s.(timers := s.timers - {origin});
      OfferKeepsKey(s', s.timers[origin], key);
    case OfferNext(id) =>
      var r := s.resends[id];
      var s' := s.(resends := s.resends[id := r.(values := r.values[1..])], origins := s.origins + 1,
                   pushes := s.pushes[s.origins := 0]);
      OfferKeepsKey(s', Queued(r.values[0], 0, true, s.origins), key);
  }

  lemma PushKeepsKey(s: State, maxRetries: nat, step: Step, key: string)
    requires Enabled(s, step) && (step.Push? || step.RecordDelivery?)
    requires forall v :: v in Handled(s, step) ==> KeyOf(v) != key
    ensures SameAt(s, Next(s, maxRetries, step), key)
  {
    var value := s.worker.item.value;
    assert value in Handled(s, step);
    UpdateAgrees(s.delivered, KeyOf(value), value.value, key);
    UpdateAgrees(s.lastSuccess, KeyOf(value), value.value, key);
    assert SameAt(s, s, key);
    hide KeyOf, Agree;
  }

  lemma StepKeepsKey(s: State, maxRetries: nat, step: Step, key: string)
    requires Sound(s, maxRetries) && forall v :: v in Handled(s, step) ==> KeyOf(v) != key
    ensures SameAt(s, Next(s, maxRetries, step), key)
  {
    assert SameAt(s, s, key);
    hide Sound, KeyOf, Handled, Agree;
    if Enabled(s, step) {
      if step.Enqueue? || step.Retry? || step.OfferNext? {
        hide Next;
        StoreKeepsKey(s, maxRetries, step, key);
      } else if step.Push? || step.RecordDelivery? {
        hide Next;
        PushKeepsKey(s, maxRetries, step, key);
      } else if step.TakeNext? && s.pending != map[] {
        hide Next;
        TakeKeepsKey(s, maxRetries, key);
      }
    }
  }

  // A step for one field of a robot leaves what is pending, recorded and delivered for every other field, and for
  // every other robot, alone.
  lemma StepKeepsOthers(s: State, maxRetries: nat, step: Step, robot: string, field: string)
    requires Sound(s, maxRetries) && '\0' !in robot
    requires forall v :: v in Handled(s, step) ==> '\0' !in v.robot && (v.robot != robot || v.field != field)
    ensures var s', key := Next(s, maxRetries, step), robot + ['\0'] + field;
            && (key in s.pending <==> key in s'.pending) && (key in s.pending ==> s.pending[key] == s'.pending[key])
            && (key in s.lastSuccess <==> key in s'.lastSuccess)
            && (key in s.lastSuccess ==> s.lastSuccess[key] == s'.lastSuccess[key])
            && (key in s.delivered <==> key in s'.delivered)
            && (key in s.delivered ==> s.delivered[key] == s'.delivered[key])
  {
    hide Sound, Next, KeyOf;
    var own := StateValue(robot, field, "", "");
    KeySplits(robot, field);
    forall v | v in Handled(s, step) ensures KeyOf(v) != KeyOf(own) {
      SameKeyIff(v, own);
    }
    StepKeepsKey(s, maxRetries, step, KeyOf(own));
  }

  // An update is stored under its robot and field, unless it is not forced and the value is the last one recorded
  // for them, or waits for them already.
  lemma UpdateStoredIff(s: State, maxRetries: nat, value: StateValue, force: bool)
    ensures var s', key := Next(s, maxRetries, Enqueue(value, force)), value.robot + ['\0'] + value.field;
            var recorded := key in s.lastSuccess && s.lastSuccess[key] == value.value;
            var waits := key in s.pending && s.pending[key].value.value == value.value;
            && s'.pending == (if !force && (recorded || waits) then s.pending
                              else s.pending[key := Queued(value, 0, force, s.origins)])
            && s'.lastSuccess == s.lastSuccess && s'.delivered == s.delivered
  {
    hide IsFirst;
    assert KeyOf(value) == value.robot + ['\0'] + value.field;
  }

  // A retry is stored only where no other value waits, and not if its value is the last one recorded.
  lemma RetryStoredIff(s: State, maxRetries: nat, origin: nat)
    requires Sound(s, maxRetries) && origin in s.timers
    ensures var s', item := Next(s, maxRetries, Retry(origin)), s.timers[origin];
            var key := item.value.robot + ['\0'] + item.value.field;
            var recorded := key in s.lastSuccess && s.lastSuccess[key] == item.value.value;
            && s'.pending == (if (!item.force && recorded)
                                 || (key in s.pending
                                     && (!item.force || s.pending[key].value.value != item.value.value))
                              then s.pending else s.pending[key := item])
            && s'.lastSuccess == s.lastSuccess && s'.delivered == s.delivered
  {
    hide Cached, Attended, Numbered, Counted, Waits, IsFirst;
    var item := s.timers[origin];
    assert KeyOf(item.value) == item.value.robot + ['\0'] + item.value.field;
    assert item.attempts > 0;
  }

  // A push that succeeds delivers its value to its robot and field, and recording it says so.
  lemma DeliveredUnderPair(s: State, maxRetries: nat)
    requires s.worker.Taken? || s.worker.Delivered?
    ensures var value := s.worker.item.value;
            var key := value.robot + ['\0'] + value.field;
            && (s.worker.Taken? ==>
                  && Next(s, maxRetries, Push(true)).delivered == s.delivered[key := value.value]
                  && Next(s, maxRetries, Push(false)).delivered == s.delivered)
            && (s.worker.Delivered? ==>
                  Next(s, maxRetries, RecordDelivery).lastSuccess == s.lastSuccess[key := value.value])
  {
    hide IsFirst;
    var value := s.worker.item.value;
    assert KeyOf(value) == value.robot + ['\0'] + value.field;
  }
}
