/**
 The heartbeat loop of the agent. The clock gives the time of each pass; each
 sleep lasts at least as long as asked, and overshoots by at most `delay`.
 */
module Agent {
  import opened Timing

  const MAX_SLEEP: int := SECOND
  const FALLBACK_SLEEP: int := SECOND / 10

  datatype LifecycleState = Starting | Running | ShuttingDown

  /** The deadline of the next heartbeat as pass `i` finds it; the first one is due at once. */
  function Deadline(start: Time, clock: nat -> Time, interval: int, i: nat): Time {
    if i == 0 then start
    else
      var before := Deadline(start, clock, interval, i - 1);
      if clock(i - 1) >= before then clock(i - 1) + interval else before
  }

  predicate Beats(start: Time, clock: nat -> Time, interval: int, i: nat) {
    clock(i) >= Deadline(start, clock, interval, i)
  }

  /** The deadline as pass `i` leaves it. */
  function DeadlineAfter(start: Time, clock: nat -> Time, interval: int, i: nat): Time {
    Deadline(start, clock, interval, i + 1)
  }

  /** How long pass `i` asks to sleep. */
  function Sleep(start: Time, clock: nat -> Time, interval: int, i: nat): int {
    var remaining := DeadlineAfter(start, clock, interval, i) - clock(i);
    if remaining > 0 then (if remaining < MAX_SLEEP then remaining else MAX_SLEEP) else FALLBACK_SLEEP
  }

  /** The clock moves from pass to pass as the sleeps say. */
  ghost predicate Paced(start: Time, clock: nat -> Time, interval: int, delay: int) {
    && start <= clock(0)
    && forall i: nat ::
         clock(i) + Sleep(start, clock, interval, i) <= clock(i + 1)
           <= clock(i) + Sleep(start, clock, interval, i) + delay
  }

  /** Pass `i` takes the branch that sleeps for 100 ms. */
  predicate FallsBack(start: Time, clock: nat -> Time, interval: int, i: nat) {
    DeadlineAfter(start, clock, interval, i) - clock(i) <= 0
  }

  /** The 100 ms branch is taken in a run exactly when the interval is not positive. */
  lemma FallbackIffBadInterval(start: Time, clock: nat -> Time, interval: int)
    requires start <= clock(0)
    ensures (exists i: nat :: FallsBack(start, clock, interval, i)) <==> interval <= 0
  {
    if interval <= 0 {
      assert Deadline(start, clock, interval, 0) == start;
      assert FallsBack(start, clock, interval, 0);
    }
  }

  /** Time passes in every pass, but never far beyond the deadline. */
  lemma TimePasses(start: Time, clock: nat -> Time, interval: int, delay: int, i: nat)
    requires interval > 0 && Paced(start, clock, interval, delay)
    ensures clock(i) + 1 <= clock(i + 1) <= clock(i) + MAX_SLEEP + delay
    ensures clock(i + 1) <= DeadlineAfter(start, clock, interval, i) + delay
  {
    assert !FallsBack(start, clock, interval, i);
  }

  /** Between two beats the deadline stays where the first one put it. */
  lemma {:induction false} DeadlineStays(start: Time, clock: nat -> Time, interval: int, a: nat, i: nat)
    requires a < i && Beats(start, clock, interval, a)
    requires forall k | a < k < i :: !Beats(start, clock, interval, k)
    ensures Deadline(start, clock, interval, i) == clock(a) + interval
  {
    if a < i - 1 {
      DeadlineStays(start, clock, interval, a, i - 1);
      assert !Beats(start, clock, interval, i - 1);
    }
  }

  /** Consecutive heartbeats are between `interval` and `interval + delay` apart. */
  lemma ConsecutiveBeats(start: Time, clock: nat -> Time, interval: int, delay: int, a: nat, b: nat)
    requires interval > 0 && Paced(start, clock, interval, delay)
    requires a < b && Beats(start, clock, interval, a) && Beats(start, clock, interval, b)
    requires forall k | a < k < b :: !Beats(start, clock, interval, k)
    ensures interval <= clock(b) - clock(a) <= interval + delay
  {
    DeadlineStays(start, clock, interval, a, b);
    TimePasses(start, clock, interval, delay, b - 1);
  }

  /** Between two heartbeats, every pass but the last one sleeps for a full second. */
  lemma {:induction false} FullSeconds(start: Time, clock: nat -> Time, interval: int, delay: int, a: nat, i: nat)
    requires Paced(start, clock, interval, delay) && a <= i && Beats(start, clock, interval, a)
    requires forall k | a < k <= i :: !Beats(start, clock, interval, k)
    ensures Span(i - a, SECOND) <= clock(i) - clock(a)
  {
    if a < i {
      FullSeconds(start, clock, interval, delay, a, i - 1);
      assert !Beats(start, clock, interval, i);
      assert Sleep(start, clock, interval, i - 1) >= SECOND;
    }
  }

  lemma NotDueYet(start: Time, clock: nat -> Time, interval: int, a: nat, i: nat)
    requires a < i && Beats(start, clock, interval, a)
    requires forall k | a < k <= i :: !Beats(start, clock, interval, k)
    ensures clock(i) < clock(a) + interval
  {
    DeadlineStays(start, clock, interval, a, i);
    assert !Beats(start, clock, interval, i);
  }

  /** The loop is not busy: between two heartbeats it makes as many passes as seconds fit, and one more. */
  lemma PassesBetweenBeats(start: Time, clock: nat -> Time, interval: int, delay: int, a: nat, b: nat)
    requires interval > 0 && Paced(start, clock, interval, delay)
    requires a < b && Beats(start, clock, interval, a)
    requires forall k | a < k < b :: !Beats(start, clock, interval, k)
    ensures Span(b - a - 1, SECOND) < interval
  {
    assert Span(0, SECOND) == 0;
    hide *;
    if a < b - 1 {
      FullSeconds(start, clock, interval, delay, a, b - 1);
      NotDueYet(start, clock, interval, a, b - 1);
    }
  }

  /** With an interval that is not positive, every pass is a heartbeat, a tenth of a second after the one before. */
  lemma {:induction false} FallbackPace(start: Time, clock: nat -> Time, interval: int, delay: int, i: nat)
    requires interval <= 0 && Paced(start, clock, interval, delay)
    ensures Beats(start, clock, interval, i)
    ensures SECOND <= 10 * (clock(i + 1) - clock(i)) <= SECOND + 10 * delay
  {
    if i > 0 {
      FallbackPace(start, clock, interval, delay, i - 1);
    }
  }

  lemma {:induction false} DeadlineUntilDue(start: Time, clock: nat -> Time, interval: int, a: nat, i: nat)
    requires a < i && Beats(start, clock, interval, a)
    requires forall k | a < k < i :: clock(k) < clock(a) + interval
    ensures Deadline(start, clock, interval, i) == clock(a) + interval
  {
    if a < i - 1 {
      DeadlineUntilDue(start, clock, interval, a, i - 1);
    }
  }

  /** After every heartbeat there is another one. */
  lemma NextBeat(start: Time, clock: nat -> Time, interval: int, delay: int, a: nat) returns (b: nat)
    requires interval > 0 && Paced(start, clock, interval, delay) && Beats(start, clock, interval, a)
    ensures a < b && Beats(start, clock, interval, b)
    ensures forall k | a < k < b :: !Beats(start, clock, interval, k)
  {
    var due := clock(a) + interval;
    b := FirstPassAt(start, clock, interval, delay, a + 1, due);
    DeadlineUntilDue(start, clock, interval, a, b);
    forall k | a < k < b
      ensures !Beats(start, clock, interval, k)
    {
      DeadlineUntilDue(start, clock, interval, a, k);
    }
  }

  /** The first pass from `from` on that is not before a moment. */
  lemma FirstPassAt(start: Time, clock: nat -> Time, interval: int, delay: int, from: nat, moment: Time) returns (b: nat)
    requires interval > 0 && Paced(start, clock, interval, delay)
    ensures from <= b && clock(b) >= moment && forall k | from <= k < b :: clock(k) < moment
    ensures from < b ==> clock(b) <= clock(b - 1) + MAX_SLEEP + delay
  {
    b := from;
    while clock(b) < moment
      invariant from <= b && forall k | from <= k < b :: clock(k) < moment
      invariant from < b ==> clock(b) <= clock(b - 1) + MAX_SLEEP + delay
      decreases moment - clock(b)
    {
      TimePasses(start, clock, interval, delay, b);
      b := b + 1;
    }
  }

  /** A list of successive heartbeats, from pass 0 on. */
  ghost predicate AreBeats(start: Time, clock: nat -> Time, interval: int, passes: seq<nat>) {
    && passes != [] && passes[0] == 0
    && (forall k | 0 <= k < |passes| :: Beats(start, clock, interval, passes[k]))
    && (forall k | 0 <= k < |passes| - 1 :: passes[k] < passes[k + 1]
          && forall i | passes[k] < i < passes[k + 1] :: !Beats(start, clock, interval, i))
  }

  /** The `k`-th heartbeat after the first one drifts by at most `k` times the delay. */
  lemma {:induction false} HeartbeatDrift(start: Time, clock: nat -> Time, interval: int, delay: int, passes: seq<nat>, k: nat)
    requires interval > 0 && Paced(start, clock, interval, delay)
    requires AreBeats(start, clock, interval, passes) && k < |passes|
    ensures Span(k, interval) <= clock(passes[k]) - clock(0) <= Span(k, interval + delay)
  {
    if k > 0 {
      HeartbeatDrift(start, clock, interval, delay, passes, k - 1);
      assert passes[k - 1] < passes[k - 1 + 1];
      ConsecutiveBeats(start, clock, interval, delay, passes[k - 1], passes[k]);
    }
  }

  lemma AppendBeat(start: Time, clock: nat -> Time, interval: int, passes: seq<nat>, next: nat) returns (more: seq<nat>)
    requires AreBeats(start, clock, interval, passes)
    requires passes[|passes| - 1] < next && Beats(start, clock, interval, next)
    requires forall i | passes[|passes| - 1] < i < next :: !Beats(start, clock, interval, i)
    ensures AreBeats(start, clock, interval, more) && more == passes + [next]
  {
    hide Beats;
    more := passes + [next];
    forall k | 0 <= k < |more| - 1
      ensures more[k] < more[k + 1] && forall i | more[k] < i < more[k + 1] :: !Beats(start, clock, interval, i)
    {
      assert more[k] == passes[k];
      if k < |passes| - 1 {
        assert more[k + 1] == passes[k + 1];
      }
    }
  }

  /** Any number of heartbeats happens, and the first one is in the first pass. */
  lemma {:induction false} HeartbeatsContinue(start: Time, clock: nat -> Time, interval: int, delay: int, n: nat)
    returns (passes: seq<nat>)
    requires interval > 0 && Paced(start, clock, interval, delay)
    ensures AreBeats(start, clock, interval, passes) && |passes| == n + 1
  {
    if n == 0 {
      passes := [0];
    } else {
      hide Beats, Paced;
      passes := HeartbeatsContinue(start, clock, interval, delay, n - 1);
      var next := NextBeat(start, clock, interval, delay, passes[n - 1]);
      passes := AppendBeat(start, clock, interval, passes, next);
    }
  }

  /**
   Pass `i` loads the shutdown flag at `loads(i)`, after the sleep before it and before its own
   reading of the clock; from one load to the next it takes its sleep and `delay` at most.
   */
  ghost predicate LoadsPaced(start: Time, clock: nat -> Time, loads: nat -> Time, interval: int, delay: int) {
    forall i: nat ::
      && loads(i) <= clock(i)
      && clock(i) + Sleep(start, clock, interval, i) <= loads(i + 1)
           <= loads(i) + Sleep(start, clock, interval, i) + delay
  }

  lemma LoadStep(start: Time, clock: nat -> Time, loads: nat -> Time, interval: int, delay: int, i: nat)
    requires interval > 0 && LoadsPaced(start, clock, loads, interval, delay)
    ensures loads(i) + 1 <= loads(i + 1) <= loads(i) + MAX_SLEEP + delay
  {
    assert !FallsBack(start, clock, interval, i);
  }

  /** The loop sees the flag, at once or soon after the moment at which it was set. */
  lemma ShutdownLatency(start: Time, clock: nat -> Time, loads: nat -> Time, interval: int, delay: int, flag: Time)
    returns (exit: nat)
    requires interval > 0 && LoadsPaced(start, clock, loads, interval, delay)
    ensures loads(exit) >= flag && forall i: nat | i < exit :: loads(i) < flag
    ensures exit > 0 ==> loads(exit) <= flag + MAX_SLEEP + delay
  {
    exit := 0;
    while loads(exit) < flag
      invariant forall i: nat | i < exit :: loads(i) < flag
      invariant exit > 0 ==> loads(exit) <= flag + MAX_SLEEP + delay
      decreases flag - loads(exit)
    {
      LoadStep(start, clock, loads, interval, delay, exit);
      exit := exit + 1;
    }
  }

  /** The times of the heartbeats in the first `n` passes. */
  function BeatTimes(start: Time, clock: nat -> Time, interval: int, n: nat): seq<Time> {
    if n == 0 then []
    else BeatTimes(start, clock, interval, n - 1) + if Beats(start, clock, interval, n - 1) then [clock(n - 1)] else []
  }

  lemma NoBeatBefore(start: Time, clock: nat -> Time, interval: int)
    requires start <= clock(0)
    ensures BeatTimes(start, clock, interval, 1) == [clock(0)] && AreBeats(start, clock, interval, [0])
  {
    assert Deadline(start, clock, interval, 0) == start;
    assert BeatTimes(start, clock, interval, 0) == [];
  }

  /** The heartbeats of the first `n` passes are successive ones. */
  lemma {:induction false} BeatTimesAreBeats(start: Time, clock: nat -> Time, interval: int, n: nat)
    returns (passes: seq<nat>)
    requires start <= clock(0) && n > 0
    ensures AreBeats(start, clock, interval, passes) && passes[|passes| - 1] < n
    ensures forall i | passes[|passes| - 1] < i < n :: !Beats(start, clock, interval, i)
    ensures var beats := BeatTimes(start, clock, interval, n);
            |beats| == |passes| && forall k | 0 <= k < |passes| :: beats[k] == clock(passes[k])
  {
    if n == 1 {
      NoBeatBefore(start, clock, interval);
      passes := [0];
    } else {
      hide AreBeats, Beats;
      passes := BeatTimesAreBeats(start, clock, interval, n - 1);
      if Beats(start, clock, interval, n - 1) {
        passes := AppendBeat(start, clock, interval, passes, n - 1);
      }
    }
  }

  /** The heartbeats that the loop has made are on time, with the drift that the delays allow. */
  lemma BeatTimesDrift(start: Time, clock: nat -> Time, interval: int, delay: int, n: nat, k: nat)
    requires interval > 0 && Paced(start, clock, interval, delay) && k < |BeatTimes(start, clock, interval, n)|
    ensures Span(k, interval) <= BeatTimes(start, clock, interval, n)[k] - clock(0) <= Span(k, interval + delay)
  {
    var passes := BeatTimesAreBeats(start, clock, interval, n);
    HeartbeatDrift(start, clock, interval, delay, passes, k);
  }

  class Agent {
    var state: LifecycleState
    const heartbeatInterval: int

    constructor (interval: int)
      ensures heartbeatInterval == interval && state == Starting
    {
      heartbeatInterval := interval;
      state := Starting;
    }

    /**
     The loop of `run`, for a shutdown flag that is seen before pass `last` at the latest.
     It returns the times of the heartbeats and the sleeps asked for.
     */
    method Run(start: Time, clock: nat -> Time, shutdown: nat -> bool, ghost last: nat)
      returns (beats: seq<Time>, sleeps: seq<int>)
      requires shutdown(last)
      modifies `state
      ensures state == ShuttingDown
      ensures shutdown(|sleeps|) && forall i: nat | i < |sleeps| :: !shutdown(i)
      ensures beats == BeatTimes(start, clock, heartbeatInterval, |sleeps|)
      ensures forall i: nat | i < |sleeps| :: sleeps[i] == Sleep(start, clock, heartbeatInterval, i)
    {
      state := Starting;
      state := Running;
      beats, sleeps := [], [];
      var nextHeartbeat := start;
      var i: nat := 0;
      while !shutdown(i)
        invariant i <= last && |sleeps| == i && forall k: nat | k < i :: !shutdown(k)
        invariant nextHeartbeat == Deadline(start, clock, heartbeatInterval, i)
        invariant beats == BeatTimes(start, clock, heartbeatInterval, i)
        invariant forall k: nat | k < i :: sleeps[k] == Sleep(start, clock, heartbeatInterval, k)
        decreases last - i
      {
        var now := clock(i);
        if now >= nextHeartbeat {
          beats := beats + [now];
          nextHeartbeat := now + heartbeatInterval;
        }
        var remaining := nextHeartbeat - now;
        if remaining > 0 {
          sleeps := sleeps + [if remaining < MAX_SLEEP then remaining else MAX_SLEEP];
        } else {
          sleeps := sleeps + [FALLBACK_SLEEP];
        }
        i := i + 1;
      }
      state := ShuttingDown;
    }

    /**
     The loop under its timing assumptions, for a flag that is set at the moment `flag`: it ends soon
     after that moment, and the heartbeats until then are on time.
     */
    method RunUntilFlag(start: Time, clock: nat -> Time, loads: nat -> Time, flag: Time, ghost delay: int)
      returns (beats: seq<Time>, sleeps: seq<int>)
      requires heartbeatInterval > 0 && Paced(start, clock, heartbeatInterval, delay)
      requires LoadsPaced(start, clock, loads, heartbeatInterval, delay)
      modifies `state
      ensures state == ShuttingDown
      ensures loads(|sleeps|) >= flag && forall i: nat | i < |sleeps| :: loads(i) < flag
      ensures sleeps != [] ==> loads(|sleeps|) <= flag + MAX_SLEEP + delay
      ensures forall k: nat | k < |beats| ::
                Span(k, heartbeatInterval) <= beats[k] - clock(0) <= Span(k, heartbeatInterval + delay)
    {
      hide Paced, LoadsPaced, BeatTimes, Sleep;
      ghost var exit := ShutdownLatency(start, clock, loads, heartbeatInterval, delay, flag);
      beats, sleeps := Run(start, clock, (i: nat) => loads(i) >= flag, exit);
      assert |sleeps| == exit;
      forall k: nat | k < |beats|
        ensures Span(k, heartbeatInterval) <= beats[k] - clock(0) <= Span(k, heartbeatInterval + delay)
      {
        BeatTimesDrift(start, clock, heartbeatInterval, delay, |sleeps|, k);
      }
    }
  }
}
