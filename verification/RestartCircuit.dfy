/** The watcher of the app-server daemon: how often it may restart a daemon that keeps dying. */
module RestartCircuit {
  import opened Common

  /** Nanoseconds on the monotonic clock. */
  type Instant = int

  const RESTART_WINDOW: int := 60 * SECOND
  const MAX_RESTARTS: nat := 3

  /** What becomes of a restart attempt. */
  datatype Attempt =
    | SpawnFailed
    | BecameReady
    | DiedStarting
    | NeverReady
    | KilledStarting

  /** One exit of the daemon as the watcher sees it: whether the supervisor was shut down before
      the decision, whether the port is already served, when the decision falls, and what
      a restart would lead to. */
  datatype Round = Round(killed: bool, served: bool, now: Instant, attempt: Attempt)

  datatype Stop = Killed | Deferred | CircuitOpen | Unready

  /** The restart attempts so far, and why the watcher gave up, if it did. */
  datatype Log = Log(attempts: seq<Instant>, stop: Option<Stop>)

  /** The attempts less than a window ago. */
  function Within(attempts: seq<Instant>, now: Instant): seq<Instant> {
    if attempts == [] then []
    else (if now - attempts[0] < RESTART_WINDOW then [attempts[0]] else []) + Within(attempts[1..], now)
  }

  // ---------------------------------------------------------------------
  // Reference: the policy on the whole list of attempts.
  // ---------------------------------------------------------------------

  function Decide(log: Log, r: Round): Log {
    if log.stop.Some? then log
    else if r.killed then log.(stop := Some(Killed))
    else if r.served then log.(stop := Some(Deferred))
    else if |Within(log.attempts, r.now)| >= MAX_RESTARTS then log.(stop := Some(CircuitOpen))
    else
      Log(log.attempts + [r.now],
          if r.attempt.NeverReady? then Some(Unready)
          else if r.attempt.KilledStarting? then Some(Killed)
          else None)
  }

  function Watch(log: Log, rounds: seq<Round>): Log
    decreases |rounds|
  {
    if rounds == [] then log else Watch(Decide(log, rounds[0]), rounds[1..])
  }

  predicate IsOrdered(s: seq<Instant>) {
    forall i, j :: 0 <= i < j < |s| ==> s[i] <= s[j]
  }

  /** The clock never runs backwards, from `since` on. */
  predicate IsMonotone(since: Instant, rounds: seq<Round>) {
    && (forall i :: 0 <= i < |rounds| ==> since <= rounds[i].now)
    && forall i, j :: 0 <= i < j < |rounds| ==> rounds[i].now <= rounds[j].now
  }

  predicate IsUpTo(s: seq<Instant>, now: Instant) {
    IsOrdered(s) && forall i :: 0 <= i < |s| ==> s[i] <= now
  }

  // ---------------------------------------------------------------------
  // The window.
  // ---------------------------------------------------------------------

  lemma {:induction false} WithinSplits(s: seq<Instant>, t: seq<Instant>, now: Instant)
    ensures Within(s + t, now) == Within(s, now) + Within(t, now)
    decreases |s|
  {
    if s == [] {
      assert s + t == t;
    } else {
      WithinSplits(s[1..], t, now);
      assert (s + t)[1..] == s[1..] + t && (s + t)[0] == s[0];
      ConcatAssoc(if now - s[0] < RESTART_WINDOW then [s[0]] else [], Within(s[1..], now), Within(t, now));
    }
  }

  /** Attempts forgotten at `then` are too old at any later `now`. */
  lemma {:induction false} WithinForgets(s: seq<Instant>, before: Instant, now: Instant)
    requires before <= now
    ensures Within(Within(s, before), now) == Within(s, now)
    decreases |s|
  {
    if s != [] {
      WithinForgets(s[1..], before, now);
      var head := if before - s[0] < RESTART_WINDOW then [s[0]] else [];
      WithinSplits(head, Within(s[1..], before), now);
    }
  }

  /** Nothing is dropped from an ordered list whose oldest entry is recent. */
  lemma {:induction false} RecentAll(s: seq<Instant>, now: Instant)
    requires IsOrdered(s) && (s != [] ==> now - s[0] < RESTART_WINDOW)
    ensures Within(s, now) == s
    decreases |s|
  {
    if s != [] {
      RecentAll(s[1..], now);
    }
  }

  lemma {:induction false} WithinShape(s: seq<Instant>, now: Instant)
    requires IsUpTo(s, now)
    ensures |Within(s, now)| <= |s| && IsUpTo(Within(s, now), now)
    ensures forall i :: 0 <= i < |Within(s, now)| ==> s[0] <= Within(s, now)[i]
    decreases |s|
  {
    if s != [] {
      WithinShape(s[1..], now);
    }
  }

  /** Three attempts lie in the window exactly when the third last one does. */
  lemma FullWindow(s: seq<Instant>, now: Instant)
    requires IsUpTo(s, now)
    ensures |Within(s, now)| >= MAX_RESTARTS <==> |s| >= MAX_RESTARTS && now - s[|s| - MAX_RESTARTS] < RESTART_WINDOW
  {
    WithinShape(s, now);
    if |s| >= MAX_RESTARTS {
      var k := |s| - MAX_RESTARTS;
      var a, b := s[..k], s[k..];
      assert s == a + b;
      WithinSplits(a, b, now);
      if now - s[k] < RESTART_WINDOW {
        RecentAll(b, now);
      } else {
        NoneRecent(a, now);
        WithinShape(b[1..], now);
      }
    }
  }

  lemma {:induction false} NoneRecent(s: seq<Instant>, now: Instant)
    requires forall i :: 0 <= i < |s| ==> now - s[i] >= RESTART_WINDOW
    ensures Within(s, now) == []
    decreases |s|
  {
    if s != [] {
      NoneRecent(s[1..], now);
    }
  }

  // ---------------------------------------------------------------------
  // Whole runs.
  // ---------------------------------------------------------------------

  /** Any four consecutive attempts span at least a window. */
  predicate IsSpread(attempts: seq<Instant>) {
    forall i :: 0 <= i < |attempts| - MAX_RESTARTS ==> attempts[i + MAX_RESTARTS] - attempts[i] >= RESTART_WINDOW
  }

  lemma DecideKeepsSpread(log: Log, r: Round)
    requires IsUpTo(log.attempts, r.now) && IsSpread(log.attempts)
    ensures IsUpTo(Decide(log, r).attempts, r.now) && IsSpread(Decide(log, r).attempts)
  {
    FullWindow(log.attempts, r.now);
  }

  lemma {:induction false} AttemptsAreSpread(log: Log, rounds: seq<Round>, since: Instant)
    requires IsUpTo(log.attempts, since) && IsSpread(log.attempts) && IsMonotone(since, rounds)
    ensures IsSpread(Watch(log, rounds).attempts) && IsOrdered(Watch(log, rounds).attempts)
    decreases |rounds|
  {
    if rounds != [] {
      DecideKeepsSpread(log, rounds[0]);
      AttemptsAreSpread(Decide(log, rounds[0]), rounds[1..], rounds[0].now);
    }
  }

  /** Once the watcher has stopped, no later exit makes it restart anything. */
  lemma {:induction false} StoppedIsFinal(log: Log, rounds: seq<Round>, more: seq<Round>)
    requires Watch(log, rounds).stop.Some?
    ensures Watch(log, rounds + more) == Watch(log, rounds)
    decreases |rounds| + |more|
  {
    if rounds != [] {
      assert (rounds + more)[1..] == rounds[1..] + more;
      StoppedIsFinal(Decide(log, rounds[0]), rounds[1..], more);
    } else if more != [] {
      assert rounds + more == more && [] + more[1..] == more[1..];
      StoppedIsFinal(log, [], more[1..]);
    }
  }

  /** An exit opens the circuit exactly when the third last attempt is less than a window ago. */
  lemma OpensIff(log: Log, r: Round)
    requires log.stop.None? && !r.killed && !r.served && IsUpTo(log.attempts, r.now)
    ensures var n := |log.attempts|;
            Decide(log, r).stop == Some(CircuitOpen)
            <==> n >= MAX_RESTARTS && r.now - log.attempts[n - MAX_RESTARTS] < RESTART_WINDOW
  {
    FullWindow(log.attempts, r.now);
  }

  /** Everything that an exit of the daemon leads to: the watcher restarts it unless it was shut
      down, the port is served, or three attempts lie within the last 60 seconds; and it gives up
      for exactly these reasons. */
  lemma DecisionMeaning(log: Log, r: Round)
    requires log.stop.None? && IsUpTo(log.attempts, r.now)
    ensures var n, log' := |log.attempts|, Decide(log, r);
            var full := n >= 3 && r.now - log.attempts[n - 3] < 60 * SECOND;
            var restarts := !r.killed && !r.served && !full;
            && log'.attempts == (if restarts then log.attempts + [r.now] else log.attempts)
            && (log'.stop == Some(Killed) <==> r.killed || (restarts && r.attempt.KilledStarting?))
            && (log'.stop == Some(Deferred) <==> !r.killed && r.served)
            && (log'.stop == Some(CircuitOpen) <==> !r.killed && !r.served && full)
            && (log'.stop == Some(Unready) <==> restarts && r.attempt.NeverReady?)
  {
    FullWindow(log.attempts, r.now);
  }

  // ---------------------------------------------------------------------
  // The watcher as it runs.
  // ---------------------------------------------------------------------

  /** The deque `restarts` holds exactly the attempts of the window that ends at `now`. */
  ghost predicate Remembers(restarts: seq<Instant>, attempts: seq<Instant>, now: Instant) {
    IsUpTo(attempts, now) && restarts == Within(attempts, now) && |restarts| <= MAX_RESTARTS
  }

  /** Drops what has left the window from the front of the deque. */
  method PopExpired(deque: seq<Instant>, ghost attempts: seq<Instant>, ghost before: Instant, now: Instant)
      returns (restarts: seq<Instant>)
    requires Remembers(deque, attempts, before) && before <= now
    ensures Remembers(restarts, attempts, now)
  {
    WithinShape(attempts, before);
    WithinForgets(attempts, before, now);
    restarts := deque;
    while restarts != [] && now - restarts[0] >= RESTART_WINDOW
      invariant IsOrdered(restarts) && |restarts| <= MAX_RESTARTS
      invariant Within(restarts, now) == Within(deque, now)
      decreases |restarts|
    {
      restarts := restarts[1..];
    }
    RecentAll(restarts, now);
  }

  lemma PushKeeps(restarts: seq<Instant>, attempts: seq<Instant>, now: Instant)
    requires Remembers(restarts, attempts, now) && |restarts| < MAX_RESTARTS
    ensures Remembers(restarts + [now], attempts + [now], now)
  {
    WithinSplits(attempts, [now], now);
  }

  class Supervisor {
    var shutdown: bool

    constructor ()
      ensures !shutdown
    {
      shutdown := false;
    }

    /** The watcher over the exits `rounds`. It remembers only the deque, yet decides as the
        policy on all attempts does; what it remembers is the attempts of the last window. */
    method SpawnWatcher(rounds: seq<Round>, since: Instant)
        returns (restarts: seq<Instant>, stop: Option<Stop>, ghost attempts: seq<Instant>, ghost now: Instant)
      requires IsMonotone(since, rounds)
      modifies this
      ensures old(shutdown) ==> attempts == [] && stop == Some(Killed)
      ensures !old(shutdown) ==> Log(attempts, stop) == Watch(Log([], None), rounds)
      ensures shutdown == (stop.Some? && !stop.value.Deferred?)
      ensures Remembers(restarts, attempts, now)
    {
      restarts, stop, attempts, now := [], None, [], since;
      if shutdown {
        stop := Some(Killed);
        return;
      }
      var i := 0;
      while i < |rounds|
        invariant i <= |rounds| && stop.None? && !shutdown
        invariant Remembers(restarts, attempts, now) && IsMonotone(now, rounds[i..])
        invariant Watch(Log(attempts, stop), rounds[i..]) == Watch(Log([], None), rounds)
      {
        var r := rounds[i];
        assert r == rounds[i..][0] && rounds[i..][1..] == rounds[i + 1..];
        StopsAt(Log(attempts, stop), r, rounds[i + 1..]);
        if r.killed {
          shutdown, stop := true, Some(Killed);
          return;
        }
        if r.served {
          stop := Some(Deferred);
          return;
        }
        restarts := PopExpired(restarts, attempts, now, r.now);
        now := r.now;
        if |restarts| == MAX_RESTARTS {
          shutdown, stop := true, Some(CircuitOpen);
          return;
        }
        PushKeeps(restarts, attempts, now);
        restarts, attempts := restarts + [r.now], attempts + [r.now];
        match r.attempt {
          case NeverReady =>
            shutdown, stop := true, Some(Unready);
            return;
          case KilledStarting =>
            shutdown, stop := true, Some(Killed);
            return;
          case SpawnFailed | BecameReady | DiedStarting =>
        }
        i := i + 1;
      }
    }
  }

  lemma StopsAt(log: Log, r: Round, rest: seq<Round>)
    ensures Decide(log, r).stop.Some? ==> Watch(Decide(log, r), rest) == Decide(log, r)
  {
    if Decide(log, r).stop.Some? {
      StoppedIsFinal(Decide(log, r), [], rest);
      assert [] + rest == rest;
    }
  }
}
