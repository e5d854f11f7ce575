// What the activity stream may say: the life of a command, and the grammar of robot events.
module ActivityLog {
  import opened Common
  import opened Text

  datatype CommandId = CommandId(millis: int, sequence: nat)

  function Render(id: CommandId): string {
    "cmd-" + Integer(id.millis) + "-" + Decimal(id.sequence)
  }

  lemma IntegerInjective(m: int, n: int)
    requires Integer(m) == Integer(n)
    ensures m == n
  {
    DecimalDigits(if m < 0 then -m else m);
    DecimalDigits(if n < 0 then -n else n);
    assert (Integer(m)[0] == '-') == (m < 0) && (Integer(n)[0] == '-') == (n < 0);
    if m < 0 {
      assert Integer(m)[1..] == Decimal(-m) && Integer(n)[1..] == Decimal(-n);
      DecimalInjective(-m, -n);
    } else {
      DecimalInjective(m, n);
    }
  }

  // Two texts that end in a dash and digits are equal only if both their parts are.
  lemma SplitAtLastDash(a: string, b: string, a': string, b': string)
    requires a + "-" + b == a' + "-" + b'
    requires forall i :: 0 <= i < |b| ==> IsDigit(b[i])
    requires forall i :: 0 <= i < |b'| ==> IsDigit(b'[i])
    ensures a == a' && b == b'
  {
    var s := a + "-" + b;
    assert s == a' + "-" + b';
    assert s[|a|] == '-' && s[|a'|] == '-';
    assert forall i :: |a| < i < |s| ==> s[i] == b[i - |a| - 1];
    assert forall i :: |a'| < i < |s| ==> s[i] == b'[i - |a'| - 1];
    assert |a| == |a'|;
    assert a == s[..|a|] == a' && b == s[|a| + 1..] == b';
  }

  // Command IDs are told apart by their text.
  lemma RenderInjective(a: CommandId, b: CommandId)
    requires Render(a) == Render(b)
    ensures a == b
  {
    var x, y := "cmd-" + Integer(a.millis), "cmd-" + Integer(b.millis);
    DecimalDigits(a.sequence);
    DecimalDigits(b.sequence);
    assert Render(a) == x + "-" + Decimal(a.sequence) && Render(b) == y + "-" + Decimal(b.sequence);
    SplitAtLastDash(x, Decimal(a.sequence), y, Decimal(b.sequence));
    assert x[4..] == Integer(a.millis) && y[4..] == Integer(b.millis);
    IntegerInjective(a.millis, b.millis);
    DecimalInjective(a.sequence, b.sequence);
  }

  datatype CommandState = Accepted | Running | Completed | Failed

  datatype Event =
    | CleaningStarted | Resumed | PausedCleaning | CleaningCompleted | ReturnedToDock
    | RobotError(code: int) | RoomEntered(roomId: int)

  datatype Activity =
    | CommandActivity(id: CommandId, command: string, state: CommandState, reason: string)
    | EventActivity(event: Event)

  // Accepted, and perhaps running.
  predicate IsOpen(log: seq<CommandState>) {
    |log| > 0 && log[0] == Accepted && forall i :: 0 < i < |log| ==> log[i] == Running
  }

  // Refused at once, or accepted, then running any number of times, then ended at most once.
  predicate Lifecycle(log: seq<CommandState>) {
    || log == [Failed]
    || IsOpen(log)
    || (|log| > 1 && IsOpen(log[..|log| - 1]) && (log[|log| - 1] == Completed || log[|log| - 1] == Failed))
  }

  lemma EndOpen(log: seq<CommandState>, state: CommandState)
    requires IsOpen(log) && (state == Completed || state == Failed)
    ensures !IsOpen(log + [state]) && Lifecycle(log + [state])
  {
    var ended := log + [state];
    assert ended[..|ended| - 1] == log && ended[|ended| - 1] == state;
  }

  lemma RunOpen(log: seq<CommandState>)
    requires IsOpen(log)
    ensures IsOpen(log + [Running]) && Lifecycle(log + [Running])
  {
  }

  lemma FirstLogs()
    ensures Lifecycle([Failed]) && !IsOpen([Failed])
    ensures Lifecycle([Accepted, Completed]) && !IsOpen([Accepted, Completed])
    ensures Lifecycle([Accepted]) && IsOpen([Accepted])
  {
    assert [Accepted, Completed][..1] == [Accepted];
  }

  type Logs = map<CommandId, seq<CommandState>>

  function Recorded(logs: Logs, a: Activity): Logs {
    if a.CommandActivity? then logs[a.id := (if a.id in logs then logs[a.id] else []) + [a.state]] else logs
  }

  // The logs after publishing the activities in order.
  function Record(logs: Logs, activities: seq<Activity>): Logs {
    if activities == [] then logs
    else Recorded(Record(logs, activities[..|activities| - 1]), activities[|activities| - 1])
  }

  lemma RecordOneMore(logs: Logs, activities: seq<Activity>, a: Activity)
    ensures Record(logs, activities + [a]) == Recorded(Record(logs, activities), a)
  {
    assert (activities + [a])[..|activities|] == activities;
  }

  function Events(activities: seq<Activity>): seq<Event> {
    if activities == [] then []
    else
      var last := activities[|activities| - 1];
      Events(activities[..|activities| - 1]) + (if last.EventActivity? then [last.event] else [])
  }

  lemma RecordNothing(logs: Logs)
    ensures Record(logs, []) == logs && Events([]) == []
  {
  }

  lemma RecordOne(logs: Logs, a: Activity)
    ensures Record(logs, [a]) == Recorded(logs, a)
  {
    RecordOneMore(logs, [], a);
    assert [] + [a] == [a];
  }

  lemma RecordFresh(logs: Logs, a: Activity, b: Activity)
    requires a.CommandActivity? && b.CommandActivity? && a.id == b.id && a.id !in logs
    ensures Record(logs, [a]) == logs[a.id := [a.state]]
    ensures Record(logs, [a, b]) == logs[a.id := [a.state, b.state]]
  {
    RecordOne(logs, a);
    RecordOneMore(logs, [a], b);
    assert [a] + [b] == [a, b] && [] + [a.state] == [a.state];
    assert [a.state] + [b.state] == [a.state, b.state];
  }

  lemma EventsOneMore(activities: seq<Activity>, a: Activity)
    ensures Events(activities + [a]) == Events(activities) + (if a.EventActivity? then [a.event] else [])
  {
    assert (activities + [a])[..|activities|] == activities;
  }

  lemma {:induction false} RecordConcat(logs: Logs, a: seq<Activity>, b: seq<Activity>)
    ensures Record(logs, a + b) == Record(Record(logs, a), b)
  {
    hide Recorded;
    if b == [] {
      assert a + b == a;
    } else {
      var front, last := b[..|b| - 1], b[|b| - 1];
      RecordConcat(logs, a, front);
      assert a + b == (a + front) + [last];
      RecordOneMore(logs, a + front, last);
    }
  }

  lemma {:induction false} EventsConcat(a: seq<Activity>, b: seq<Activity>)
    ensures Events(a + b) == Events(a) + Events(b)
  {
    if b == [] {
      assert a + b == a;
    } else {
      var front, last := b[..|b| - 1], b[|b| - 1];
      EventsConcat(a, front);
      assert a + b == (a + front) + [last];
      EventsOneMore(a + front, last);
    }
  }

  predicate OnlyEvents(activities: seq<Activity>) {
    forall a :: a in activities ==> a.EventActivity?
  }

  lemma NoEvents()
    ensures Events([]) == [] && OnlyEvents([])
  {
  }

  lemma {:induction false} EventsAreNotLogged(logs: Logs, activities: seq<Activity>)
    requires OnlyEvents(activities)
    ensures Record(logs, activities) == logs
  {
    if activities != [] {
      assert activities[|activities| - 1] in activities;
      EventsAreNotLogged(logs, activities[..|activities| - 1]);
    }
  }

  // Whether a cleaning cycle is open after an event; None if the event may not come then.
  function Follow(open: bool, e: Event): Option<bool> {
    match e
    case CleaningStarted => if open then None else Some(true)
    case Resumed => Some(true)
    case PausedCleaning => Some(true)
    case CleaningCompleted => if open then Some(false) else None
    case RobotError(_) => Some(false)
    case ReturnedToDock => Some(open)
    case RoomEntered(_) => Some(open)
  }

  function Follows(open: bool, events: seq<Event>): Option<bool> {
    if events == [] then Some(open)
    else
      var before := Follows(open, events[..|events| - 1]);
      if before.None? then None else Follow(before.value, events[|events| - 1])
  }

  lemma {:induction false} FollowsConcat(open: bool, a: seq<Event>, b: seq<Event>)
    ensures Follows(open, a + b)
         == if Follows(open, a).None? then None else Follows(Follows(open, a).value, b)
  {
    if b == [] {
      assert a + b == a;
    } else {
      FollowsConcat(open, a, b[..|b| - 1]);
      assert (a + b)[..|a + b| - 1] == a + b[..|b| - 1];
    }
  }

  lemma FollowsNothing(open: bool)
    ensures Follows(open, []) == Some(open)
  {
  }

  // Entering a room is acceptable at any time.
  lemma RoomFollows(open: bool, logs: Logs, roomId: int)
    ensures var a := EventActivity(RoomEntered(roomId));
            Follows(open, Events([a])) == Some(open) && Record(logs, [a]) == logs
    ensures Follows(open, Events([])) == Some(open) && Record(logs, []) == logs
  {
    hide Follows;
    var a := EventActivity(RoomEntered(roomId));
    RecordOne(logs, a);
    EventsOneMore([], a);
    assert [] + [a] == [a] && [] + [a.event] == [a.event];
    FollowsNothing(open);
    FollowsOneMore(open, [], a.event);
  }

  lemma FollowsOneMore(open: bool, events: seq<Event>, e: Event)
    ensures Follows(open, events + [e])
         == if Follows(open, events).None? then None else Follow(Follows(open, events).value, e)
  {
    assert (events + [e])[..|events|] == events;
  }

  predicate Opens(e: Event) {
    e == CleaningStarted || e == Resumed || e == PausedCleaning
  }

  predicate Closes(e: Event) {
    e == CleaningCompleted || e.RobotError?
  }

  // A stretch that changes whether a cycle is open has an event that does it.
  lemma {:induction false} ChangeHasCause(open: bool, events: seq<Event>)
    requires Follows(open, events).Some?
    ensures !open && Follows(open, events).value ==> exists k :: 0 <= k < |events| && Opens(events[k])
    ensures open && !Follows(open, events).value ==> exists k :: 0 <= k < |events| && Closes(events[k])
  {
    if events != [] {
      var front, last := events[..|events| - 1], events[|events| - 1];
      ChangeHasCause(open, front);
      if Opens(last) || Closes(last) {
        assert events[|events| - 1] == last;
      } else {
        if exists k :: 0 <= k < |front| && Opens(front[k]) {
          var k :| 0 <= k < |front| && Opens(front[k]);
          assert Opens(events[k]);
        }
        if exists k :: 0 <= k < |front| && Closes(front[k]) {
          var k :| 0 <= k < |front| && Closes(front[k]);
          assert Closes(events[k]);
        }
      }
    }
  }

  // In an acceptable stream every prefix is acceptable, and so is every stretch from where it starts.
  lemma StretchFollows(open: bool, events: seq<Event>, i: nat, j: nat)
    requires Follows(open, events).Some? && i <= j <= |events|
    ensures Follows(open, events[..i]).Some? && Follows(open, events[..j]).Some?
    ensures Follows(Follows(open, events[..i]).value, events[i..j]) == Follows(open, events[..j])
  {
    assert events == events[..j] + events[j..] && events[..j] == events[..i] + events[i..j];
    FollowsConcat(open, events[..j], events[j..]);
    FollowsConcat(open, events[..i], events[i..j]);
  }

  lemma AroundEvent(open: bool, events: seq<Event>, i: nat)
    requires Follows(open, events).Some? && i < |events|
    ensures Follows(open, events[..i]).Some?
    ensures Follow(Follows(open, events[..i]).value, events[i]) == Follows(open, events[..i + 1]) != None
  {
    StretchFollows(open, events, i, i + 1);
    assert events[..i + 1][..i] == events[..i];
  }

  // Between a closing event and a completion the cycle was opened again.
  lemma CompletionNeedsOpening(open: bool, events: seq<Event>, i: nat, j: nat)
    requires Follows(open, events).Some? && i < j < |events|
    requires Closes(events[i]) && events[j] == CleaningCompleted
    ensures exists k :: i < k < j && Opens(events[k])
  {
    AroundEvent(open, events, i);
    AroundEvent(open, events, j);
    StretchFollows(open, events, i + 1, j);
    ChangeHasCause(false, events[i + 1..j]);
    var k :| 0 <= k < |events[i + 1..j]| && Opens(events[i + 1..j][k]);
    assert Opens(events[i + 1 + k]);
  }

  // Between an opening event and a start the cycle was completed or ended in an error.
  lemma StartNeedsClosing(open: bool, events: seq<Event>, i: nat, j: nat)
    requires Follows(open, events).Some? && i < j < |events|
    requires Opens(events[i]) && events[j] == CleaningStarted
    ensures exists k :: i < k < j && Closes(events[k])
  {
    AroundEvent(open, events, i);
    AroundEvent(open, events, j);
    StretchFollows(open, events, i + 1, j);
    ChangeHasCause(true, events[i + 1..j]);
    var k :| 0 <= k < |events[i + 1..j]| && Closes(events[i + 1..j][k]);
    assert Closes(events[i + 1 + k]);
  }
}
