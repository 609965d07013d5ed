/** The clipboard deadline machine of `run_clipboard_hook`. */
module Clipboard {
  import opened Timing
  import opened Wrappers

  datatype ClipboardState = ClipboardState(deadline: Option<Time>, disabled: bool)

  const INITIAL := ClipboardState(None, false)

  /** What one call of the hook reads: the scan time, the policy, and what `clear()` would answer. */
  datatype Tick = Tick(now: Time, enabled: bool, debug: bool, interval: int, succeeds: bool)

  /** The state after the hook, and whether it called `clear()`. */
  function Hook(state: ClipboardState, tick: Tick): (ClipboardState, bool) {
    if !tick.enabled then (state.(deadline := None), false)
    else if state.deadline.None? then (state.(deadline := Some(tick.now + tick.interval)), false)
    else if tick.now < state.deadline.value then (state, false)
    else
      var next := state.(deadline := Some(tick.now + tick.interval));
      if state.disabled then (next, false)
      else if tick.debug then (next, false)
      else (next.(disabled := !tick.succeeds), true)
  }

  /** The state after a run of hook calls on a fresh enforcer. */
  function After(ticks: seq<Tick>): ClipboardState {
    if ticks == [] then INITIAL
    else Hook(After(ticks[..|ticks| - 1]), ticks[|ticks| - 1]).0
  }

  /** Whether the hook call number `i` of the run cleared the clipboard. */
  predicate Clears(ticks: seq<Tick>, i: nat)
    requires i < |ticks|
  {
    Hook(After(ticks[..i]), ticks[i]).1
  }

  /** The number of `clear()` calls of a run. */
  function Calls(ticks: seq<Tick>): nat {
    if ticks == [] then 0
    else Calls(ticks[..|ticks| - 1]) + if Clears(ticks, |ticks| - 1) then 1 else 0
  }

  predicate Chronological(ticks: seq<Tick>) {
    forall i, j | 0 <= i < j < |ticks| :: ticks[i].now <= ticks[j].now
  }

  predicate FixedInterval(ticks: seq<Tick>, interval: int) {
    forall i | 0 <= i < |ticks| :: ticks[i].interval == interval
  }

  lemma AfterStep(ticks: seq<Tick>, i: nat)
    requires i < |ticks|
    ensures After(ticks[..i + 1]) == Hook(After(ticks[..i]), ticks[i]).0
  {
    assert ticks[..i + 1][..i] == ticks[..i];
  }

  lemma ClearsInFront(ticks: seq<Tick>, i: nat, n: nat)
    requires i < n <= |ticks|
    ensures Clears(ticks[..n], i) == Clears(ticks, i)
  {
    assert ticks[..n][..i] == ticks[..i];
  }

  /** A pending deadline lies at least one interval after the last call, and after the first scan. */
  lemma {:induction false} DeadlineIsLate(ticks: seq<Tick>, interval: int, i: nat, n: nat)
    requires Chronological(ticks) && FixedInterval(ticks, interval)
    requires i < n <= |ticks|
    ensures After(ticks[..n]).deadline.Some? ==>
              ticks[0].now + interval <= After(ticks[..n]).deadline.value
    ensures Clears(ticks, i) && After(ticks[..n]).deadline.Some? ==>
              ticks[i].now + interval <= After(ticks[..n]).deadline.value
    decreases n
  {
    AfterStep(ticks, n - 1);
    assert ticks[0].now <= ticks[n - 1].now && ticks[i].now <= ticks[n - 1].now;
    if i < n - 1 {
      DeadlineIsLate(ticks, interval, i, n - 1);
    } else if 0 < n - 1 {
      DeadlineIsLate(ticks, interval, 0, n - 1);
    } else {
      assert ticks[..0] == [];
    }
  }

  /** Two calls are at least one interval apart, whatever the policy does in between. */
  lemma CallsAreSpaced(ticks: seq<Tick>, interval: int, i: nat, j: nat)
    requires Chronological(ticks) && FixedInterval(ticks, interval)
    requires i < j < |ticks| && Clears(ticks, i) && Clears(ticks, j)
    ensures ticks[j].now - ticks[i].now >= interval
  {
    DeadlineIsLate(ticks, interval, i, j);
  }

  /** The last hook call of the run that cleared the clipboard. */
  function LastCall(ticks: seq<Tick>): (r: Option<nat>)
    ensures r.Some? <==> Calls(ticks) > 0
    ensures r.Some? ==> r.value < |ticks| && Clears(ticks, r.value)
  {
    if ticks == [] then None
    else
      var n := |ticks| - 1;
      if Clears(ticks, n) then Some(n)
      else
        var r := LastCall(ticks[..n]);
        assert r.Some? ==> ticks[..n][..r.value] == ticks[..r.value];
        r
  }

  /** The first scan only arms the deadline, so any call comes an interval later. */
  lemma CallsAreLate(ticks: seq<Tick>, interval: int, j: nat)
    requires Chronological(ticks) && FixedInterval(ticks, interval)
    requires j < |ticks| && Clears(ticks, j)
    ensures j > 0 && ticks[j].now - ticks[0].now >= interval
  {
    assert ticks[..0] == [];
    DeadlineIsLate(ticks, interval, 0, j);
  }

  /** The calls made so far fit between the first scan and the last call. */
  lemma {:induction false} CallsNeedRoom(ticks: seq<Tick>, interval: nat)
    requires Chronological(ticks) && FixedInterval(ticks, interval)
    ensures Calls(ticks) > 0 ==>
              Span(Calls(ticks), interval) <= ticks[LastCall(ticks).value].now - ticks[0].now
  {
    if ticks != [] {
      var n := |ticks| - 1;
      CallsNeedRoom(ticks[..n], interval);
      if Clears(ticks, n) {
        CallsAreLate(ticks, interval, n);
        var earlier := LastCall(ticks[..n]);
        if earlier.Some? {
          ClearsInFront(ticks, earlier.value, n);
          CallsAreSpaced(ticks, interval, earlier.value, n);
        }
        assert LastCall(ticks) == Some(n);
      }
    }
  }

  /** A run that spans `T` ticks clears the clipboard at most `T / interval` times. */
  lemma CallBound(ticks: seq<Tick>, interval: int)
    requires Chronological(ticks) && FixedInterval(ticks, interval) && interval > 0 && ticks != []
    ensures Calls(ticks) <= (ticks[|ticks| - 1].now - ticks[0].now) / interval
  {
    CallsNeedRoom(ticks, interval);
    HowManyFit(Calls(ticks), interval, ticks[|ticks| - 1].now - ticks[0].now);
  }

  lemma {:induction false} DisabledForGood(ticks: seq<Tick>, m: nat, n: nat)
    requires m <= n <= |ticks| && After(ticks[..m]).disabled
    ensures After(ticks[..n]).disabled
    decreases n - m
  {
    if m < n {
      AfterStep(ticks, m);
      DisabledForGood(ticks, m + 1, n);
    }
  }

  /** After one failed call the clipboard is never touched again; debug mode never touches it. */
  lemma NoCallAfterFailure(ticks: seq<Tick>, i: nat, j: nat)
    requires i < j < |ticks| && Clears(ticks, i) && !ticks[i].succeeds
    ensures !Clears(ticks, j)
  {
    AfterStep(ticks, i);
    DisabledForGood(ticks, i + 1, j);
  }

  lemma {:induction false} NoFailureSoEnabled(ticks: seq<Tick>, n: nat)
    requires n <= |ticks| && forall i | 0 <= i < n && Clears(ticks, i) :: ticks[i].succeeds
    ensures !After(ticks[..n]).disabled
  {
    if n == 0 {
      assert ticks[..0] == [];
    } else {
      NoFailureSoEnabled(ticks, n - 1);
      AfterStep(ticks, n - 1);
    }
  }

  /** Between a call and the next one, the deadline stays one interval after the call. */
  lemma {:induction false} DeadlineHolds(ticks: seq<Tick>, interval: int, i: nat, j: nat)
    requires i < j <= |ticks| && FixedInterval(ticks, interval)
    requires forall k | i <= k < j :: ticks[k].enabled && !ticks[k].debug
    requires forall k | 0 <= k < j && Clears(ticks, k) :: ticks[k].succeeds
    requires Clears(ticks, i) && forall k | i < k < j :: !Clears(ticks, k)
    ensures After(ticks[..j]).deadline == Some(ticks[i].now + interval)
  {
    AfterStep(ticks, j - 1);
    hide After;
    if i < j - 1 {
      DeadlineHolds(ticks, interval, i, j - 1);
      NoFailureSoEnabled(ticks, j - 1);
      assert !Clears(ticks, j - 1);
    }
  }

  /**
   The machine is no lazier than it must be: while the policy stays on, outside
   debug mode and without failures, the first scan at least one interval after
   a call calls again.
   */
  lemma CallsAgainWhenDue(ticks: seq<Tick>, interval: int, i: nat, j: nat)
    requires i < j < |ticks| && FixedInterval(ticks, interval)
    requires forall k | i <= k <= j :: ticks[k].enabled && !ticks[k].debug
    requires forall k | 0 <= k < j && Clears(ticks, k) :: ticks[k].succeeds
    requires Clears(ticks, i) && ticks[j].now - ticks[i].now >= interval
    ensures exists k | i < k <= j :: Clears(ticks, k)
  {
    if forall k | i < k < j :: !Clears(ticks, k) {
      DeadlineHolds(ticks, interval, i, j);
      NoFailureSoEnabled(ticks, j);
      assert Clears(ticks, j);
    }
  }

  /** No call in debug mode or while the policy is off. */
  lemma NoCallInDebugMode(ticks: seq<Tick>, i: nat)
    requires i < |ticks| && (ticks[i].debug || !ticks[i].enabled)
    ensures !Clears(ticks, i)
  {
  }

  // ----- the machine without its state

  /** A scan at which an interval begins: the first one with the policy on, or one that is due. */
  ghost predicate IsArmed(ticks: seq<Tick>, m: nat)
    requires m < |ticks|
    decreases m, 1
  {
    ticks[m].enabled && (m == 0 || !ticks[m - 1].enabled || IsDue(ticks, m))
  }

  /** The interval that began at `m` has not been interrupted, and scan `n` is the first one at its end or later. */
  predicate Running(ticks: seq<Tick>, m: nat, n: nat)
    requires m < n <= |ticks|
  {
    forall k | m < k < n :: ticks[k].enabled && ticks[k].now < ticks[m].now + ticks[m].interval
  }

  ghost predicate IsDue(ticks: seq<Tick>, i: nat)
    requires i < |ticks|
    decreases i, 0
  {
    ticks[i].enabled
    && exists m: nat | m < i :: IsArmed(ticks, m) && Running(ticks, m, i) && ticks[i].now >= ticks[m].now + ticks[m].interval
  }

  lemma {:induction false} DeadlineOfInterval(ticks: seq<Tick>, m: nat, n: nat)
    requires m < n <= |ticks| && IsArmed(ticks, m) && Running(ticks, m, n)
    ensures After(ticks[..n]).deadline == Some(ticks[m].now + ticks[m].interval)
    decreases n
  {
    AfterStep(ticks, n - 1);
    if m < n - 1 {
      DeadlineOfInterval(ticks, m, n - 1);
    } else if m == 0 {
      assert ticks[..0] == [];
    } else if !ticks[m - 1].enabled {
      AfterStep(ticks, m - 1);
    } else {
      var before: nat :| before < m && IsArmed(ticks, before) && Running(ticks, before, m)
        && ticks[m].now >= ticks[before].now + ticks[before].interval;
      DeadlineOfInterval(ticks, before, m);
    }
  }

  lemma DeadlineAfterHook(state: ClipboardState, tick: Tick)
    ensures Hook(state, tick).0.deadline ==
            if !tick.enabled then None
            else if state.deadline.Some? && tick.now < state.deadline.value then state.deadline
            else Some(tick.now + tick.interval)
  {
  }

  lemma NoDeadlineSoOff(ticks: seq<Tick>, n: nat)
    requires n <= |ticks| && After(ticks[..n]).deadline.None?
    ensures n == 0 || !ticks[n - 1].enabled
  {
    if n > 0 {
      AfterStep(ticks, n - 1);
    }
  }

  lemma IntervalGoesOn(ticks: seq<Tick>, m: nat, n: nat)
    requires m < n < |ticks| && Running(ticks, m, n) && IsArmed(ticks, m) && ticks[n].enabled
    ensures if ticks[n].now < ticks[m].now + ticks[m].interval then Running(ticks, m, n + 1) else IsArmed(ticks, n)
  {
  }

  lemma IntervalBegins(ticks: seq<Tick>, n: nat)
    requires n < |ticks| && ticks[n].enabled && (n == 0 || !ticks[n - 1].enabled)
    ensures IsArmed(ticks, n)
  {
  }

  /** Behind every deadline there is an interval. */
  lemma {:induction false} IntervalOfDeadline(ticks: seq<Tick>, n: nat) returns (m: nat)
    requires n <= |ticks| && After(ticks[..n]).deadline.Some?
    ensures m < n && IsArmed(ticks, m) && Running(ticks, m, n) && ticks[n - 1].enabled
    ensures After(ticks[..n]).deadline == Some(ticks[m].now + ticks[m].interval)
    decreases n
  {
    assert n > 0 by {
      assert ticks[..0] == [];
    }
    hide After, Hook, IsArmed, IsDue;
    AfterStep(ticks, n - 1);
    var before := After(ticks[..n - 1]);
    DeadlineAfterHook(before, ticks[n - 1]);
    if before.deadline.None? {
      m := n - 1;
      NoDeadlineSoOff(ticks, m);
      IntervalBegins(ticks, m);
    } else {
      m := IntervalOfDeadline(ticks, n - 1);
      IntervalGoesOn(ticks, m, n - 1);
      if ticks[n - 1].now >= before.deadline.value {
        m := n - 1;
      }
    }
  }

  lemma DueIffDeadline(ticks: seq<Tick>, i: nat)
    requires i < |ticks|
    ensures var deadline := After(ticks[..i]).deadline;
            IsDue(ticks, i) <==> ticks[i].enabled && deadline.Some? && ticks[i].now >= deadline.value
  {
    hide After, Hook, IsArmed, Running;
    var deadline := After(ticks[..i]).deadline;
    if IsDue(ticks, i) {
      var m: nat :| m < i && IsArmed(ticks, m) && Running(ticks, m, i) && ticks[i].now >= ticks[m].now + ticks[m].interval;
      DeadlineOfInterval(ticks, m, i);
    }
    if ticks[i].enabled && deadline.Some? && ticks[i].now >= deadline.value {
      var m := IntervalOfDeadline(ticks, i);
    }
  }

  /**
   Exactly when a scan clears the clipboard, for any clock and any intervals: an uninterrupted interval
   with the policy on has ended, the scan is not made in debug mode, and no earlier call has failed.
   */
  lemma ClearsIffDue(ticks: seq<Tick>, i: nat)
    requires i < |ticks|
    ensures Clears(ticks, i) <==>
              && IsDue(ticks, i) && !ticks[i].debug
              && forall k | 0 <= k < i && Clears(ticks, k) :: ticks[k].succeeds
  {
    hide After, IsDue, IsArmed;
    DueIffDeadline(ticks, i);
    if forall k | 0 <= k < i && Clears(ticks, k) :: ticks[k].succeeds {
      NoFailureSoEnabled(ticks, i);
    } else {
      var k :| 0 <= k < i && Clears(ticks, k) && !ticks[k].succeeds;
      NoCallAfterFailure(ticks, k, i);
    }
  }
}
