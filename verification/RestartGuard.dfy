// The limit on watchdog restarts: a log of restart times kept in a file that outlives the process.
module RestartGuard {
  import opened Common

  datatype RestartState = RestartState(restarts: seq<int>, lastReason: string, lastAt: Option<int>)

  predicate Ordered(times: seq<int>) {
    forall i, j :: 0 <= i < j < |times| ==> times[i] <= times[j]
  }

  function Recent(times: seq<int>, cutoff: int): seq<int> {
    if times == [] then []
    else Recent(times[..|times| - 1], cutoff) + (if times[|times| - 1] >= cutoff then [times[|times| - 1]] else [])
  }

  // The log holds the whole history but for a prefix that ended before the window of `now`.
  ghost predicate Remembers(history: seq<int>, log: seq<int>, now: int, window: nat) {
    && |log| <= |history|
    && log == history[|history| - |log|..]
    && forall i :: 0 <= i < |history| - |log| ==> history[i] < now - window
  }

  // No max + 1 consecutive entries fit in a window.
  ghost predicate Spread(history: seq<int>, max: nat, window: nat) {
    forall i :: 0 <= i && i + max < |history| ==> history[i + max] - history[i] > window
  }

  function CountWithin(history: seq<int>, from: int, to: int): nat {
    if history == [] then 0
    else CountWithin(history[..|history| - 1], from, to)
         + (if from <= history[|history| - 1] <= to then 1 else 0)
  }

  // How many entries the closed interval of length `window` from `from` on holds.
  function InWindow(history: seq<int>, from: int, window: nat): nat {
    CountWithin(history, from, from + window)
  }

  // What outlives the process: the saved state, and for the proof every recorded restart.
  class StateFile {
    var state: RestartState
    ghost var history: seq<int>
    var clock: int

    constructor (clock: int)
      ensures state == RestartState([], "", None) && history == [] && this.clock == clock
    {
      state := RestartState([], "", None);
      history := [];
      this.clock := clock;
    }

    ghost predicate Valid(max: nat, window: nat)
      reads this
    {
      && Ordered(history) && (forall i :: 0 <= i < |history| ==> history[i] <= clock)
      && Remembers(history, state.restarts, clock, window)
      && Spread(history, max, window)
    }

    // The clock never goes back.
    method Tick(now: int)
      requires clock <= now
      modifies this`clock
      ensures clock == now
    {
      clock := now;
    }
  }

  lemma RememberLonger(history: seq<int>, log: seq<int>, clock: int, now: int, window: nat)
    requires Remembers(history, log, clock, window) && clock <= now
    ensures Remembers(history, log, now, window)
  {
  }

  lemma FrontIsOrdered(times: seq<int>)
    requires Ordered(times) && times != []
    ensures var front := times[..|times| - 1]; Ordered(front) && forall t :: t in front ==> t <= times[|times| - 1]
  {
  }

  // What is recent in an ordered log is its tail.
  lemma {:induction false} RecentIsTail(times: seq<int>, cutoff: int)
    requires Ordered(times)
    ensures var recent := Recent(times, cutoff);
            && |recent| <= |times| && recent == times[|times| - |recent|..]
            && (forall i :: 0 <= i < |times| - |recent| ==> times[i] < cutoff)
            && (forall i :: |times| - |recent| <= i < |times| ==> times[i] >= cutoff)
  {
    if times != [] {
      var front, last := times[..|times| - 1], times[|times| - 1];
      FrontIsOrdered(times);
      hide Ordered;
      RecentIsTail(front, cutoff);
      var recent := Recent(front, cutoff);
      var n := |front| - |recent|;
      if recent != [] {
        assert front[n] <= last;
      }
      if last >= cutoff {
        assert recent + [last] == times[n..];
      }
    }
  }

  // The log tells what is recent in the whole history.
  lemma PrunedTells(history: seq<int>, log: seq<int>, now: int, window: nat)
    requires Ordered(history) && Remembers(history, log, now, window)
    ensures Recent(log, now - window) == Recent(history, now - window)
  {
    RecentIsTail(history, now - window);
    RecentIsTail(log, now - window);
    var a, b := |Recent(log, now - window)|, |Recent(history, now - window)|;
    assert a > 0 ==> log[|log| - a] == history[|history| - a];
    assert b > 0 ==> history[|history| - b] >= now - window;
    assert 0 < b <= |log| ==> log[|log| - b] == history[|history| - b];
  }

  lemma PruneRemembers(history: seq<int>, log: seq<int>, now: int, window: nat)
    requires Ordered(history) && Remembers(history, log, now, window)
    ensures Remembers(history, Recent(log, now - window), now, window)
  {
    RecentIsTail(log, now - window);
    var recent := Recent(log, now - window);
    var a, k := |history| - |log|, |log| - |recent|;
    forall i | 0 <= i < |history| - |recent| ensures history[i] < now - window {
      if i >= a {
        assert log[i - a] == history[i];
      }
    }
  }

  // A restart allowed now keeps the history spread: the entry max places back is older than the window.
  lemma AllowedKeepsSpread(history: seq<int>, log: seq<int>, now: int, max: nat, window: nat)
    requires Ordered(history) && Spread(history, max, window) && Remembers(history, log, now, window)
    requires |Recent(log, now - window)| < max
    ensures Spread(history + [now], max, window)
  {
    PruneRemembers(history, log, now, window);
    var more, recent := history + [now], Recent(log, now - window);
    if max <= |history| {
      var i := |history| - max;
      assert i < |history| - |recent|;
      assert more[i] == history[i] < now - window;
    }
  }

  class RestartGuard {
    const file: StateFile
    var state: RestartState

    ghost predicate Valid(max: nat, window: nat)
      reads this, file
    {
      && file.Valid(max, window)
      && Remembers(file.history, state.restarts, file.clock, window)
    }

    // A new process: the guard starts from the file.
    constructor (file: StateFile)
      ensures this.file == file && state == file.state
    {
      this.file := file;
      state := file.state;
    }

    method Prune(now: int, window: nat)
      modifies this`state
      ensures state == old(state).(restarts := Recent(old(state.restarts), now - window))
    {
      var cutoff := now - window;
      var log := state.restarts;
      var kept := [];
      for i := 0 to |log|
        invariant kept == Recent(log[..i], cutoff)
      {
        assert log[..i + 1][..i] == log[..i];
        if log[i] >= cutoff {
          kept := kept + [log[i]];
        }
      }
      assert log[..|log|] == log;
      state := state.(restarts := kept);
    }

    // Whether one more restart fits in the window that ends now.
    method Allow(now: int, max: nat, window: nat) returns (allowed: bool)
      requires Valid(max, window) && file.clock == now
      modifies this`state
      ensures Valid(max, window)
      ensures state.restarts == Recent(old(state.restarts), now - window)
      ensures allowed <==> |state.restarts| < max
      ensures allowed ==> Spread(file.history + [now], max, window)
    {
      PruneRemembers(file.history, state.restarts, now, window);
      if |Recent(state.restarts, now - window)| < max {
        AllowedKeepsSpread(file.history, state.restarts, now, max, window);
      }
      Prune(now, window);
      allowed := |state.restarts| < max;
    }

    // Log a restart and save. Callers ask Allow first, at the same time.
    method Record(now: int, reason: string, ghost max: nat, ghost window: nat)
      requires Valid(max, window) && file.clock == now && Spread(file.history + [now], max, window)
      modifies this`state, file`state, file`history
      ensures Valid(max, window) && file.history == old(file.history) + [now]
      ensures file.state == state == RestartState(old(state.restarts) + [now], reason, Some(now))
    {
      state := RestartState(state.restarts + [now], reason, Some(now));
      file.history := file.history + [now];
      file.state := state;
    }

    // Save the reason of a recovery action that is not a restart.
    method RecordReason(now: int, reason: string, ghost max: nat, ghost window: nat)
      requires Valid(max, window)
      modifies this`state, file`state
      ensures Valid(max, window) && file.state == state
      ensures state == old(state).(lastReason := reason, lastAt := Some(now))
    {
      state := state.(lastReason := reason, lastAt := Some(now));
      file.state := state;
    }
  }

  lemma {:induction false} CountIsRecent(history: seq<int>, from: int, to: int)
    requires forall i :: 0 <= i < |history| ==> history[i] <= to
    ensures CountWithin(history, from, to) == |Recent(history, from)|
  {
    if history != [] {
      CountIsRecent(history[..|history| - 1], from, to);
    }
  }

  // A spread history has at most max entries in any closed interval as long as the window.
  lemma {:induction false} RestartBound(history: seq<int>, max: nat, window: nat, from: int)
    requires Ordered(history) && Spread(history, max, window)
    ensures InWindow(history, from, window) <= max
  {
    if history != [] {
      var front, n := history[..|history| - 1], |history|;
      if history[n - 1] > from + window {
        assert forall i :: 0 <= i && i + max < |front| ==> front[i + max] - front[i] > window by {
          forall i | 0 <= i && i + max < |front| ensures front[i + max] - front[i] > window {
            assert history[i + max] - history[i] > window;
          }
        }
        RestartBound(front, max, window, from);
      } else {
        CountIsRecent(history, from, from + window);
        RecentIsTail(history, from);
        if n > max {
          assert history[n - 1 - max + max] - history[n - 1 - max] > window;
        }
      }
    }
  }

  // The bound is not looser than it need be: a history within it in every interval is spread.
  lemma {:induction false} BoundedIsSpread(history: seq<int>, max: nat, window: nat)
    requires Ordered(history)
    requires forall from :: InWindow(history, from, window) <= max
    ensures Spread(history, max, window)
  {
    hide CountWithin;
    forall i | 0 <= i && i + max < |history| ensures history[i + max] - history[i] > window {
      var from := history[i];
      assert InWindow(history, from, window) <= max;
      CountPrefix(history, i + max + 1, from, from + window);
      if history[i + max] <= from + window {
        CountIsRecent(history[..i + max + 1], from, from + window);
        RecentIsTail(history[..i + max + 1], from);
      }
    }
  }

  lemma {:induction false} CountPrefix(history: seq<int>, n: nat, from: int, to: int)
    requires n <= |history|
    ensures CountWithin(history[..n], from, to) <= CountWithin(history, from, to)
  {
    if n < |history| {
      CountPrefix(history[..|history| - 1], n, from, to);
      assert history[..|history| - 1][..n] == history[..n];
    } else {
      assert history[..n] == history;
    }
  }
}
