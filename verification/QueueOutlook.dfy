// What of a Direct HTTP queue that is left alone counts for the value a key ends with, and when that value
// is settled.
module QueueOutlook {
  import opened Common
  import opened DirectQueue

  // The value on its way to the other side: being pushed, or delivered and not recorded yet.
  datatype Flight = Grounded | Pushing(key: Key, value: string) | Arrived(key: Key, value: string)

  // A planned retry, counting the failed push that will become one.
  datatype Planned = Planned(value: StateValue, force: bool)

  // `due` holds the planned retries and `coming` what the resends under way still offer, for those that do.
  datatype Outlook = Outlook(
    pending: map<Key, string>, flight: Flight, due: map<nat, Planned>, coming: map<nat, seq<StateValue>>,
    cache: map<Key, string>, delivered: map<Key, string>, reconnecting: bool)

  datatype Move = Take(key: Key) | Arrive | Record(id: nat) | Repeat(origin: nat) | Offer(id: nat)

  // What is asked: whether a key ends with a value, if a resend started from now on offers `full`.
  datatype Aim = Aim(key: Key, value: string, full: seq<StateValue>)

  predicate Repeated(o: Outlook, item: Planned) {
    !item.force && KeyOf(item.value) in o.cache && o.cache[KeyOf(item.value)] == item.value.value
  }

  predicate Possible(o: Outlook, move: Move) {
    match move
    case Take(key) => o.flight == Grounded && key in o.pending
    case Arrive => o.flight.Pushing?
    case Record(id) => o.flight.Arrived? && id !in o.coming
    case Repeat(origin) => origin in o.due
    case Offer(id) => id in o.coming && o.coming[id] != []
  }

  // A resend that has nothing left to offer counts no more.
  function WithComing(coming: map<nat, seq<StateValue>>, id: nat, values: seq<StateValue>): map<nat, seq<StateValue>> {
    if values == [] then coming - {id} else coming[id := values]
  }

  function Moved(o: Outlook, full: seq<StateValue>, move: Move): Outlook
    requires Possible(o, move)
  {
    match move
    case Take(key) => o.(pending := o.pending - {key}, flight := Pushing(key, o.pending[key]))
    case Arrive =>
      o.(flight := Arrived(o.flight.key, o.flight.value), delivered := o.delivered[o.flight.key := o.flight.value])
    case Record(id) =>
      o.(flight := Grounded, cache := o.cache[o.flight.key := o.flight.value], reconnecting := false,
      coming := if o.reconnecting then WithComing(o.coming, id, full) else o.coming)
    case Repeat(origin) =>
      var item := o.due[origin];
      var key := KeyOf(item.value);
      o.(due := o.due - {origin},
      pending := if Repeated(o, item) || key in o.pending then o.pending else o.pending[key := item.value.value])
    case Offer(id) =>
      var values := o.coming[id];
      o.(coming := WithComing(o.coming, id, values[1..]),
      pending := o.pending[KeyOf(values[0]) := values[0].value])
  }

  // The cache is what was delivered, but for a delivery not recorded yet; resends counted offer something.
  ghost predicate Fits(o: Outlook) {
    && (forall id :: id in o.coming ==> o.coming[id] != [])
    && (o.flight.Arrived? ==> o.flight.key in o.delivered && o.delivered[o.flight.key] == o.flight.value)
    && (forall key :: !(o.flight.Arrived? && o.flight.key == key) ==>
          && (key in o.cache <==> key in o.delivered)
          && (key in o.cache ==> o.cache[key] == o.delivered[key]))
  }

  // The last of the values that is for the key.
  function LastFor(values: seq<StateValue>, key: Key): Option<string> {
    if values == [] then None
    else
      var last := LastFor(values[1..], key);
      if last.None? && KeyOf(values[0]) == key then Some(values[0].value) else last
  }

  // A retry for the key with another value, and a resend that offers another one last.
  predicate Disturbs(item: Planned, aim: Aim) {
    KeyOf(item.value) == aim.key && item.value.value != aim.value
  }

  predicate Overrides(values: seq<StateValue>, aim: Aim) {
    LastFor(values, aim.key).Some? && LastFor(values, aim.key).value != aim.value
  }

  ghost predicate NoneDisturbs(o: Outlook, aim: Aim) {
    forall r :: r in o.due ==> !Disturbs(o.due[r], aim)
  }

  ghost predicate NoneOverrides(o: Outlook, aim: Aim) {
    forall id :: id in o.coming ==> !Overrides(o.coming[id], aim)
  }

  // Nothing that is still offered can leave another value behind.
  ghost predicate Calm(o: Outlook, aim: Aim) {
    NoneDisturbs(o, aim) && NoneOverrides(o, aim)
  }

  // A resend under way offers the value last, whatever else happens.
  ghost predicate SureResend(o: Outlook, aim: Aim) {
    exists id :: id in o.coming && LastFor(o.coming[id], aim.key) == Some(aim.value)
  }

  // A retry comes that is stored whenever nothing else is pending for the key.
  ghost predicate SureRetry(o: Outlook, key: Key) {
    exists r :: r in o.due && KeyOf(o.due[r].value) == key && !Repeated(o, o.due[r])
  }

  // The value the other side has, or is about to get.
  predicate Holds(o: Outlook, key: Key, value: string) {
    if o.flight.Pushing? && o.flight.key == key then o.flight.value == value
    else key in o.delivered && o.delivered[key] == value
  }

  // Pending, or else held or sure to be repeated.
  ghost predicate InHand(o: Outlook, aim: Aim) {
    if aim.key in o.pending then o.pending[aim.key] == aim.value
    else Holds(o, aim.key, aim.value) || SureRetry(o, aim.key)
  }

  // A delivery is still to come.
  ghost predicate Stirs(o: Outlook) {
    || o.pending != map[] || o.flight != Grounded || o.coming != map[]
    || exists r :: r in o.due && !Repeated(o, o.due[r])
  }

  // The delivery to come ends a loss of the connection, and the resend it starts reads the key.
  ghost predicate Renews(o: Outlook, aim: Aim) {
    o.reconnecting && Stirs(o) && LastFor(aim.full, aim.key).Some?
  }

  // The delivery to come can only be that of the one retry that disturbs.
  ghost predicate OnlyRetryStirs(o: Outlook, aim: Aim) {
    && o.pending == map[] && o.flight == Grounded && o.coming == map[]
    && exists r :: r in o.due && Disturbs(o.due[r], aim)
                   && forall q :: q in o.due && q != r ==> Repeated(o, o.due[q]) && !Disturbs(o.due[q], aim)
  }

  // Or that of the next value of the one resend that overrides, which overrides with that value.
  ghost predicate OnlyOfferStirs(o: Outlook, aim: Aim) {
    && o.pending == map[] && o.flight == Grounded
    && (forall r :: r in o.due ==> Repeated(o, o.due[r]) && !Disturbs(o.due[r], aim))
    && exists id :: id in o.coming && o.coming.Keys == {id} && o.coming[id] != []
                    && Overrides(o.coming[id], aim) && LastFor(o.coming[id][1..], aim.key) == None
  }

  // The key is bound to end with the value.
  ghost predicate Settled(o: Outlook, aim: Aim) {
    if Renews(o, aim) then
      && LastFor(aim.full, aim.key) == Some(aim.value)
      && (Calm(o, aim) || OnlyRetryStirs(o, aim) || OnlyOfferStirs(o, aim))
    else Calm(o, aim) && (SureResend(o, aim) || InHand(o, aim))
  }

  // Every move keeps it that way.
  lemma SettledStays(o: Outlook, aim: Aim, move: Move)
    requires Fits(o) && Possible(o, move) && Settled(o, aim)
    ensures Settled(Moved(o, aim.full, move), aim)
  {
    hide Fits, Settled;
    match move {
      case Take(key) => TakeSettled(o, aim, key);
      case Arrive => ArriveSettled(o, aim);
      case Record(id) => RecordSettled(o, aim, id);
      case Repeat(origin) => RepeatSettled(o, aim, origin);
      case Offer(id) => OfferSettled(o, aim, id);
    }
  }

  // A retry that is sure to come still is where the plans and the cache are the same.
  lemma SureStays(o: Outlook, o': Outlook, key: Key)
    requires SureRetry(o, key) && o'.cache == o.cache
    requires forall r :: r in o.due && KeyOf(o.due[r].value) == key && !Repeated(o, o.due[r]) ==>
               r in o'.due && o'.due[r] == o.due[r]
    ensures SureRetry(o', key)
  {
    var r :| r in o.due && KeyOf(o.due[r].value) == key && !Repeated(o, o.due[r]);
    assert !Repeated(o', o'.due[r]);
  }

  lemma TakeSettled(o: Outlook, aim: Aim, key: Key)
    requires Fits(o) && Possible(o, Take(key)) && Settled(o, aim)
    ensures Settled(Moved(o, aim.full, Take(key)), aim)
  {
    hide LastFor, Overrides;
    var o' := Moved(o, aim.full, Take(key));
    if !Renews(o, aim) && !SureResend(o, aim) && SureRetry(o, aim.key) {
      SureStays(o, o', aim.key);
    }
  }

  lemma ArriveSettled(o: Outlook, aim: Aim)
    requires Fits(o) && Possible(o, Arrive) && Settled(o, aim)
    ensures Settled(Moved(o, aim.full, Arrive), aim)
  {
    hide LastFor, Overrides;
    var o' := Moved(o, aim.full, Arrive);
    if !Renews(o, aim) && !SureResend(o, aim) && SureRetry(o, aim.key) {
      SureStays(o, o', aim.key);
    }
  }

  lemma RecordSettled(o: Outlook, aim: Aim, id: nat)
    requires Fits(o) && Possible(o, Record(id)) && Settled(o, aim)
    ensures Settled(Moved(o, aim.full, Record(id)), aim)
  {
    var o' := Moved(o, aim.full, Record(id));
    assert Calm(o', aim);
    if Renews(o, aim) {
      assert o'.coming[id] == aim.full;
    } else if SureResend(o, aim) {
      SureResendStays(o, o', aim);
    } else if aim.key !in o.pending && !Holds(o, aim.key, aim.value) {
      var r :| r in o.due && KeyOf(o.due[r].value) == aim.key && !Repeated(o, o.due[r]);
      assert !Repeated(o', o'.due[r]);
    }
  }

  lemma SureResendStays(o: Outlook, o': Outlook, aim: Aim)
    requires SureResend(o, aim)
    requires forall id :: id in o.coming && LastFor(o.coming[id], aim.key) == Some(aim.value) ==>
               id in o'.coming && LastFor(o'.coming[id], aim.key) == Some(aim.value)
    ensures SureResend(o', aim)
  {
  }

  lemma RepeatStirs(o: Outlook, full: seq<StateValue>, origin: nat)
    requires origin in o.due && Stirs(o)
    ensures Stirs(Moved(o, full, Repeat(origin)))
  {
    var o' := Moved(o, full, Repeat(origin));
    if o.pending == map[] && o.flight == Grounded && o.coming == map[] {
      var r :| r in o.due && !Repeated(o, o.due[r]);
      assert if r == origin then KeyOf(o.due[r].value) in o'.pending else !Repeated(o', o'.due[r]);
    }
  }

  lemma RepeatSettled(o: Outlook, aim: Aim, origin: nat)
    requires Fits(o) && Possible(o, Repeat(origin)) && Settled(o, aim)
    ensures Settled(Moved(o, aim.full, Repeat(origin)), aim)
  {
    hide LastFor, Overrides, SureResend, InHand, OnlyRetryStirs, OnlyOfferStirs, Calm, Stirs, Moved, Fits, KeyOf;
    if Renews(o, aim) {
      RepeatStirs(o, aim.full, origin);
      RepeatStaysLone(o, aim, origin);
    } else {
      NeverRenews(o, aim, Repeat(origin));
      RepeatInHand(o, aim, origin);
    }
  }

  lemma RepeatStaysLone(o: Outlook, aim: Aim, origin: nat)
    requires Possible(o, Repeat(origin)) && (Calm(o, aim) || OnlyRetryStirs(o, aim) || OnlyOfferStirs(o, aim))
    ensures var o' := Moved(o, aim.full, Repeat(origin));
            && o'.reconnecting == o.reconnecting
            && (Calm(o', aim) || OnlyRetryStirs(o', aim) || OnlyOfferStirs(o', aim))
  {
    hide LastFor, Overrides, KeyOf;
  }

  lemma RepeatInHand(o: Outlook, aim: Aim, origin: nat)
    requires Possible(o, Repeat(origin)) && Calm(o, aim) && (SureResend(o, aim) || InHand(o, aim))
    ensures var o' := Moved(o, aim.full, Repeat(origin)); Calm(o', aim) && (SureResend(o', aim) || InHand(o', aim))
  {
    hide LastFor, Overrides, KeyOf;
    var o' := Moved(o, aim.full, Repeat(origin));
    if SureResend(o, aim) {
      SureResendStays(o, o', aim);
    } else if aim.key !in o.pending && !Holds(o, aim.key, aim.value) {
      var r :| r in o.due && KeyOf(o.due[r].value) == aim.key && !Repeated(o, o.due[r]);
      assert r != origin ==> !Repeated(o', o'.due[r]);
    }
  }

  lemma OfferSettled(o: Outlook, aim: Aim, id: nat)
    requires Fits(o) && Possible(o, Offer(id)) && Settled(o, aim)
    ensures Settled(Moved(o, aim.full, Offer(id)), aim)
  {
    hide LastFor, Overrides, SureResend, InHand, OnlyRetryStirs, OnlyOfferStirs, Calm, Moved, Fits, KeyOf;
    OfferStirs(o, aim.full, id);
    if Renews(o, aim) {
      OfferCalms(o, aim, id);
    } else {
      NeverRenews(o, aim, Offer(id));
      OfferInHand(o, aim, id);
    }
  }

  lemma OfferStirs(o: Outlook, full: seq<StateValue>, id: nat)
    requires id in o.coming && o.coming[id] != []
    ensures var o' := Moved(o, full, Offer(id)); o'.pending != map[] && o'.reconnecting == o.reconnecting
  {
    assert KeyOf(o.coming[id][0]) in Moved(o, full, Offer(id)).pending;
  }

  lemma OfferCalms(o: Outlook, aim: Aim, id: nat)
    requires Possible(o, Offer(id)) && (Calm(o, aim) || OnlyRetryStirs(o, aim) || OnlyOfferStirs(o, aim))
    ensures Calm(Moved(o, aim.full, Offer(id)), aim)
  {
    hide KeyOf, Repeated;
  }

  lemma OfferInHand(o: Outlook, aim: Aim, id: nat)
    requires Possible(o, Offer(id)) && Calm(o, aim) && (SureResend(o, aim) || InHand(o, aim))
    ensures var o' := Moved(o, aim.full, Offer(id)); Calm(o', aim) && (SureResend(o', aim) || InHand(o', aim))
  {
    hide KeyOf;
    var o', values := Moved(o, aim.full, Offer(id)), o.coming[id];
    OfferCalms(o, aim, id);
    hide Calm;
    if SureResend(o, aim) {
      var i :| i in o.coming && LastFor(o.coming[i], aim.key) == Some(aim.value);
      assert i != id ==> i in o'.coming;
      assert LastFor(values[1..], aim.key).Some? ==> id in o'.coming && o'.coming[id] == values[1..];
    } else if aim.key !in o.pending && !Holds(o, aim.key, aim.value) {
      SureStays(o, o', aim.key);
    }
  }

  // No move loses the connection.
  lemma NeverRenews(o: Outlook, aim: Aim, move: Move)
    requires Fits(o) && Possible(o, move) && !Renews(o, aim)
    ensures !Renews(Moved(o, aim.full, move), aim)
  {
  }

  lemma DisturbedUnsettled(o: Outlook, aim: Aim, r: nat)
    requires !Renews(o, aim) && r in o.due && Disturbs(o.due[r], aim)
    ensures !Settled(o, aim)
  {
  }

  lemma OverriddenUnsettled(o: Outlook, aim: Aim, id: nat)
    requires !Renews(o, aim) && id in o.coming && Overrides(o.coming[id], aim)
    ensures !Settled(o, aim)
  {
  }

  // A move of the worker keeps a key unsettled, as long as no retry is held back by the move.
  lemma WorkUnsettled(o: Outlook, aim: Aim, move: Move)
    requires Fits(o) && Possible(o, move) && !Settled(o, aim) && !move.Repeat? && !move.Offer?
    requires Calm(o, aim) && !Renews(o, aim) ==> forall r :: r in o.due ==> KeyOf(o.due[r].value) != aim.key
    ensures !Settled(Moved(o, aim.full, move), aim)
  {
    match move {
      case Take(key) => TakeUnsettled(o, aim, key);
      case Arrive =>
      case Record(id) => RecordUnsettled(o, aim, id);
    }
  }

  lemma TakeUnsettled(o: Outlook, aim: Aim, key: Key)
    requires Fits(o) && Possible(o, Take(key)) && !Settled(o, aim)
    requires Calm(o, aim) && !Renews(o, aim) ==> forall r :: r in o.due ==> KeyOf(o.due[r].value) != aim.key
    ensures !Settled(Moved(o, aim.full, Take(key)), aim)
  {
  }

  lemma RecordUnsettled(o: Outlook, aim: Aim, id: nat)
    requires Fits(o) && Possible(o, Record(id)) && !Settled(o, aim)
    requires Calm(o, aim) && !Renews(o, aim) ==> forall r :: r in o.due ==> KeyOf(o.due[r].value) != aim.key
    ensures !Settled(Moved(o, aim.full, Record(id)), aim)
  {
    var o' := Moved(o, aim.full, Record(id));
    if !NoneDisturbs(o, aim) {
      var r :| r in o.due && Disturbs(o.due[r], aim);
      DisturbedUnsettled(o', aim, r);
    } else if !NoneOverrides(o, aim) {
      var i :| i in o.coming && Overrides(o.coming[i], aim);
      OverriddenUnsettled(o', aim, i);
    } else if Renews(o, aim) {
      assert o'.coming[id] == aim.full;
    }
  }

  // A retry of the value that cannot be stored yet is dropped if it comes now.
  lemma RepeatUnsettled(o: Outlook, aim: Aim, origin: nat)
    requires Fits(o) && Calm(o, aim) && !Renews(o, aim) && !Settled(o, aim)
    requires origin in o.due && KeyOf(o.due[origin].value) == aim.key
    ensures !Settled(Moved(o, aim.full, Repeat(origin)), aim)
  {
    var o' := Moved(o, aim.full, Repeat(origin));
    assert o' == o.(due := o.due - {origin});
    if SureRetry(o', aim.key) {
      SureStays(o', o, aim.key);
    }
  }

  // With nothing pending or in flight, a move that leaves something behind that can come last.
  lemma OpenMove(o: Outlook, aim: Aim) returns (move: Move)
    requires Fits(o) && !Settled(o, aim) && o.flight == Grounded && o.pending == map[]
    requires o.due != map[] || o.coming != map[]
    requires Calm(o, aim) && !Renews(o, aim) ==> forall r :: r in o.due ==> KeyOf(o.due[r].value) != aim.key
    ensures Possible(o, move) && (move.Repeat? || move.Offer?) && !Settled(Moved(o, aim.full, move), aim)
  {
    if Renews(o, aim) {
      move := RenewingMove(o, aim);
    } else if Calm(o, aim) {
      move := AnyMove(o);
      CalmUnsettled(o, aim, move);
    } else if r :| r in o.due && Disturbs(o.due[r], aim) {
      move := DisturbingMove(o, aim, r);
    } else {
      var id :| id in o.coming && Overrides(o.coming[id], aim);
      move := OverridingMove(o, aim, id);
    }
  }

  lemma AnyMove(o: Outlook) returns (move: Move)
    requires Fits(o) && (o.due != map[] || o.coming != map[])
    ensures Possible(o, move) && (move.Repeat? || move.Offer?)
  {
    if r :| r in o.due {
      move := Repeat(r);
    } else {
      var id :| id in o.coming;
      move := Offer(id);
    }
  }

  lemma CalmUnsettled(o: Outlook, aim: Aim, move: Move)
    requires Fits(o) && Calm(o, aim) && !Renews(o, aim) && !Settled(o, aim)
    requires Possible(o, move) && (move.Repeat? || move.Offer?)
    requires forall r :: r in o.due ==> KeyOf(o.due[r].value) != aim.key
    ensures !Settled(Moved(o, aim.full, move), aim)
  {
  }

  lemma DisturbingMove(o: Outlook, aim: Aim, r: nat) returns (move: Move)
    requires Fits(o) && !Renews(o, aim) && o.flight == Grounded && o.pending == map[]
    requires r in o.due && Disturbs(o.due[r], aim)
    ensures Possible(o, move) && (move.Repeat? || move.Offer?) && !Settled(Moved(o, aim.full, move), aim)
  {
    if id :| id in o.coming {
      move := Offer(id);
    } else if q :| q in o.due && q != r {
      move := Repeat(q);
    } else {
      move := Repeat(r);
    }
    NeverRenews(o, aim, move);
    if move != Repeat(r) {
      DisturbedUnsettled(Moved(o, aim.full, move), aim, r);
    }
  }

  lemma OverridingMove(o: Outlook, aim: Aim, id: nat) returns (move: Move)
    requires Fits(o) && !Renews(o, aim) && o.flight == Grounded && o.pending == map[]
    requires id in o.coming && Overrides(o.coming[id], aim)
    ensures Possible(o, move) && (move.Repeat? || move.Offer?) && !Settled(Moved(o, aim.full, move), aim)
  {
    if i :| i in o.coming && i != id {
      move := Offer(i);
    } else if q :| q in o.due {
      move := Repeat(q);
    } else {
      move := Offer(id);
    }
    NeverRenews(o, aim, move);
    var o' := Moved(o, aim.full, move);
    if move != Offer(id) || Overrides(o.coming[id][1..], aim) {
      OverriddenUnsettled(o', aim, id);
    } else {
      assert LastFor(o.coming[id][1..], aim.key) == None && o.coming.Keys == {id};
    }
  }

  // What the resend to come reads is the value, but something can come after it.
  lemma RenewingMove(o: Outlook, aim: Aim) returns (move: Move)
    requires Fits(o) && Renews(o, aim) && !Settled(o, aim) && o.flight == Grounded && o.pending == map[]
    ensures Possible(o, move) && (move.Repeat? || move.Offer?) && !Settled(Moved(o, aim.full, move), aim)
  {
    if LastFor(aim.full, aim.key) != Some(aim.value) {
      move := AnyMove(o);
      if move.Repeat? {
        RepeatStirs(o, aim.full, move.origin);
      } else {
        OfferStirs(o, aim.full, move.id);
      }
    } else if r :| r in o.due && Disturbs(o.due[r], aim) {
      move := RenewingRetry(o, aim, r);
    } else {
      var id :| id in o.coming && Overrides(o.coming[id], aim);
      move := RenewingOffer(o, aim, id);
    }
  }

  // A retry or an offer that is stored makes sure of a delivery; whatever else can come last still can.
  lemma StoredUnsettled(o: Outlook, aim: Aim)
    requires o.reconnecting && LastFor(aim.full, aim.key).Some? && o.pending != map[] && !Calm(o, aim)
    ensures !Settled(o, aim)
  {
  }

  lemma RenewingRetry(o: Outlook, aim: Aim, r: nat) returns (move: Move)
    requires Fits(o) && Renews(o, aim) && !Settled(o, aim) && o.flight == Grounded && o.pending == map[]
    requires LastFor(aim.full, aim.key) == Some(aim.value) && r in o.due && Disturbs(o.due[r], aim)
    ensures Possible(o, move) && (move.Repeat? || move.Offer?) && !Settled(Moved(o, aim.full, move), aim)
  {
    if id :| id in o.coming {
      move := Offer(id);
      OfferStirs(o, aim.full, id);
      assert Disturbs(Moved(o, aim.full, move).due[r], aim);
    } else {
      var q :| q in o.due && q != r && (!Repeated(o, o.due[q]) || Disturbs(o.due[q], aim));
      var first, left := q, r;
      if Repeated(o, o.due[q]) {
        first, left :| first in o.due && !Repeated(o, o.due[first]) && left == q;
      }
      move := Repeat(first);
      assert KeyOf(o.due[first].value) in Moved(o, aim.full, move).pending;
      assert Disturbs(Moved(o, aim.full, move).due[left], aim);
    }
    StoredUnsettled(Moved(o, aim.full, move), aim);
  }

  lemma RenewingOffer(o: Outlook, aim: Aim, id: nat) returns (move: Move)
    requires Fits(o) && Renews(o, aim) && !Settled(o, aim) && o.flight == Grounded && o.pending == map[]
    requires LastFor(aim.full, aim.key) == Some(aim.value) && NoneDisturbs(o, aim)
    requires id in o.coming && Overrides(o.coming[id], aim)
    ensures Possible(o, move) && (move.Repeat? || move.Offer?) && !Settled(Moved(o, aim.full, move), aim)
  {
    if q :| q in o.due && !Repeated(o, o.due[q]) {
      move := Repeat(q);
      assert KeyOf(o.due[q].value) in Moved(o, aim.full, move).pending;
    } else {
      if i :| i in o.coming && i != id {
        move := Offer(i);
      } else {
        move := Offer(id);
        assert o.coming.Keys == {id};
      }
      OfferStirs(o, aim.full, move.id);
    }
    assert Overrides(Moved(o, aim.full, move).coming[id], aim);
    StoredUnsettled(Moved(o, aim.full, move), aim);
  }

  // A request is pending afterwards unless it repeats, unforced, the last recorded delivery.
  function Updated(o: Outlook, item: Planned): Outlook {
    if Repeated(o, item) then o else o.(pending := o.pending[KeyOf(item.value) := item.value.value])
  }

  // An update that is kept settles its key unless something can come after it. One that is dropped needs the
  // value in hand. Where a resend is sure to follow, what it reads decides.
  ghost predicate UpdateStands(o: Outlook, aim: Aim, dropped: bool) {
    if o.reconnecting && (!dropped || Stirs(o)) && LastFor(aim.full, aim.key).Some? then
      && LastFor(aim.full, aim.key) == Some(aim.value)
      && (Calm(o, aim) || (dropped && (OnlyRetryStirs(o, aim) || OnlyOfferStirs(o, aim))))
    else Calm(o, aim) && (dropped ==> SureResend(o, aim) || InHand(o, aim))
  }

  lemma UpdateStandsIff(o: Outlook, aim: Aim, item: Planned)
    requires aim.key == KeyOf(item.value) && aim.value == item.value.value
    ensures Settled(Updated(o, item), aim) <==> UpdateStands(o, aim, Repeated(o, item))
  {
    hide LastFor, Overrides;
    assert !Repeated(o, item) ==> aim.key in Updated(o, item).pending;
  }
}
