/**
 How old the enforcer's knowledge of the mounts can get: when the last attempt to
 list them, and the last successful one, are 60 s old after a scan.
 */
module MountFreshness {
  import opened Paths
  import Clipboard
  import opened Policy
  import opened RateLimiter
  import opened Scan
  import opened ScanRuns
  import opened Timing
  import opened Wrappers

  /** The time of the last scan of a run that tried to list the mounts. */
  function LastAttempt(host: Host, ops: seq<Op>): Option<Time> {
    if ops == [] then None
    else
      var front, last := ops[..|ops| - 1], ops[|ops| - 1];
      var st := Run(host, FRESH, front);
      if last.PerformScan? && ListsMounts(host, st) then Some(ScanTime(host, st)) else LastAttempt(host, front)
  }

  /** The time of the last scan of a run that has listed the mounts. */
  function LastSuccess(host: Host, ops: seq<Op>): Option<Time> {
    if ops == [] then None
    else
      var front, last := ops[..|ops| - 1], ops[|ops| - 1];
      var st := Run(host, FRESH, front);
      if last.PerformScan? && ListsMounts(host, st) && last.input.listing.Listed? then Some(ScanTime(host, st))
      else LastSuccess(host, front)
  }

  /** Less than 60 s old. */
  predicate IsRecent(last: Option<Time>, now: Time) {
    last.Some? && now - last.value < VOLUME_RESYNC_INTERVAL
  }

  // ----- why the stamp was set

  /** A scan sets the stamp without an attempt: the mounts are known, no volume event is pending, and there is no stamp. */
  predicate StampsUnlisted(st: EnforcerState) {
    st.backend && st.mounts.Some? && !st.volumesPending && st.resync.None?
  }

  datatype Cause = Unlisted | Failed | Succeeded

  datatype Stamp = Stamp(at: Time, cause: Cause)

  /** The resync stamp with its cause: the branch without an attempt, a failed attempt, or a listing. */
  function StampOf(host: Host, ops: seq<Op>): Option<Stamp> {
    if ops == [] then None
    else
      var front, last := ops[..|ops| - 1], ops[|ops| - 1];
      var st := Run(host, FRESH, front);
      if last.PerformScan? && StampsUnlisted(st) then Some(Stamp(ScanTime(host, st), Unlisted))
      else if last.PerformScan? && st.backend && ListsMounts(host, st) then
        Some(Stamp(ScanTime(host, st), if last.input.listing.Listed? then Succeeded else Failed))
      else StampOf(host, front)
  }

  /** The stamp is as its cause says, and all the times lie in order. */
  ghost predicate StampExplained(host: Host, ops: seq<Op>) {
    var st, attempt, success, stamp :=
      Run(host, FRESH, ops), LastAttempt(host, ops), LastSuccess(host, ops), StampOf(host, ops);
    && st.resync == (if stamp.Some? then Some(stamp.value.at) else None)
    && (st.mounts.Some? <==> success.Some?)
    && (success.Some? ==> attempt.Some? && success.value <= attempt.value)
    && (attempt.Some? ==> attempt.value <= ScanTime(host, st))
    && (stamp.Some? ==>
          && attempt.Some? && stamp.value.at <= ScanTime(host, st)
          && (stamp.value.cause.Unlisted? ==> success.Some?)
          && (stamp.value.cause.Failed? ==> stamp.value.at <= attempt.value)
          && (stamp.value.cause.Succeeded? ==> success.Some? && stamp.value.at <= success.value))
  }

  lemma StampStep(host: Host, st: EnforcerState, op: Op)
    ensures var t := Step(host, st, op);
            && st.readings <= t.readings
            && (op.PerformScan? ==> t.resync == ResyncAfter(host, st))
            && (!op.PerformScan? ==> t.resync == st.resync && t.mounts == st.mounts)
            && (t.mounts.Some? <==> st.mounts.Some? || (op.PerformScan? && ListsMounts(host, st) && op.input.listing.Listed?))
  {
    hide LastAfter, Polled, OffersOf, Clipboard.Hook, ListsMounts, MountsIn;
  }

  lemma {:induction false} StampStaysExplained(host: Host, ops: seq<Op>)
    requires SteadyClock(host)
    ensures StampExplained(host, ops)
  {
    if ops != [] {
      hide Step;
      var n := |ops| - 1;
      StampStaysExplained(host, ops[..n]);
      var st := Run(host, FRESH, ops[..n]);
      StampStep(host, st, ops[n]);
      assert host.clock(st.readings) <= host.clock(Run(host, FRESH, ops).readings);
    }
  }

  /** The stamp is later than the last attempt exactly if it was set without one, after it. */
  lemma StampAheadIffUnlisted(host: Host, ops: seq<Op>)
    requires SteadyClock(host)
    ensures var st, attempt, stamp := Run(host, FRESH, ops), LastAttempt(host, ops), StampOf(host, ops);
            st.resync.Some? ==>
              && attempt.Some? && stamp.Some? && stamp.value.at == st.resync.value
              && (st.resync.value > attempt.value <==> stamp.value.cause.Unlisted? && stamp.value.at > attempt.value)
  {
    StampStaysExplained(host, ops);
  }

  lemma NextScan(host: Host, ops: seq<Op>, input: ScanInput)
    ensures var st, all := Run(host, FRESH, ops), ops + [PerformScan(input)];
            var lists := ListsMounts(host, st);
            && LastAttempt(host, all) == (if lists then Some(ScanTime(host, st)) else LastAttempt(host, ops))
            && LastSuccess(host, all)
               == if lists && input.listing.Listed? then Some(ScanTime(host, st)) else LastSuccess(host, ops)
  {
    assert (ops + [PerformScan(input)])[..|ops|] == ops;
  }

  // ----- after a scan

  /** Nothing asks for a listing, and the stamp was set for one of the causes less than 60 s ago. */
  predicate HeldBack(st: EnforcerState, stamp: Option<Stamp>, causes: set<Cause>, now: Time) {
    && st.backend && st.mounts.Some? && !st.volumesPending
    && stamp.Some? && stamp.value.cause in causes && now - stamp.value.at < VOLUME_RESYNC_INTERVAL
  }

  /**
   A scan leaves the last attempt 60 s old or older exactly if the one before it is that old, and
   the scan sets the stamp without an attempt, or is held back by a stamp that was set so.
   */
  lemma AttemptOldIffStampedUnlisted(host: Host, ops: seq<Op>, input: ScanInput)
    requires SteadyClock(host)
    ensures var st := Run(host, FRESH, ops);
            var now := ScanTime(host, st);
            !IsRecent(LastAttempt(host, ops + [PerformScan(input)]), now) <==>
              && !IsRecent(LastAttempt(host, ops), now)
              && (StampsUnlisted(st) || HeldBack(st, StampOf(host, ops), {Unlisted}, now))
  {
    StampStaysExplained(host, ops);
    hide Run, LastAttempt, LastSuccess, StampOf;
    NextScan(host, ops, input);
  }

  /**
   A scan leaves the knowledge of the mounts 60 s old or older exactly if it was that old before, and
   the listing fails, or there is no attempt: either because the scan sets the stamp without one, or
   because it is held back by a stamp that was set so or at a failed attempt.
   */
  lemma MountsStaleIff(host: Host, ops: seq<Op>, input: ScanInput)
    requires SteadyClock(host)
    ensures var st := Run(host, FRESH, ops);
            var now := ScanTime(host, st);
            !IsRecent(LastSuccess(host, ops + [PerformScan(input)]), now) <==>
              && !IsRecent(LastSuccess(host, ops), now)
              && (|| (ListsMounts(host, st) && input.listing.ListingFailed?)
                  || StampsUnlisted(st)
                  || HeldBack(st, StampOf(host, ops), {Unlisted, Failed}, now))
    ensures var st := Run(host, FRESH, ops);
            var now := ScanTime(host, st);
            !IsRecent(LastSuccess(host, ops + [PerformScan(input)]), now) <==>
              && !IsRecent(LastSuccess(host, ops), now)
              && (|| (ListsMounts(host, st) && input.listing.ListingFailed?)
                  || (st.backend && st.mounts.Some? && !st.volumesPending
                      && (st.resync.Some? ==> now - st.resync.value < VOLUME_RESYNC_INTERVAL)))
  {
    StampStaysExplained(host, ops);
    hide Run, LastAttempt, LastSuccess, StampOf;
    NextScan(host, ops, input);
  }

  // ----- whenever the next scan comes

  /** A scan at `now` tries to list the mounts. */
  predicate DueAt(st: EnforcerState, now: Time) {
    ListingDue(st.backend, st.mounts.Some?, st.volumesPending, st.resync, now)
  }

  lemma DueOrRecent(st: EnforcerState, last: Time, from: Time)
    ensures (forall now | now >= from :: DueAt(st, now) || IsRecent(Some(last), now)) <==>
              || !st.backend || st.mounts.None? || st.volumesPending
              || (st.resync.Some? && (st.resync.value > last ==> from - st.resync.value >= VOLUME_RESYNC_INTERVAL))
  {
    var now := Max(from, last + VOLUME_RESYNC_INTERVAL);
    assert now >= from && !IsRecent(Some(last), now);
    assert DueAt(st, now) || !DueAt(st, now);
  }

  /**
   The next scan leaves a recent attempt, whenever it comes, exactly if it lists in any case, or a stamp
   is set and was not set without an attempt after the last one, unless that was 60 s ago.
   */
  lemma AttemptRecentWheneverScanned(host: Host, ops: seq<Op>)
    requires SteadyClock(host)
    ensures var st, attempt, stamp := Run(host, FRESH, ops), LastAttempt(host, ops), StampOf(host, ops);
            (forall now | now >= ScanTime(host, st) :: DueAt(st, now) || IsRecent(attempt, now)) <==>
              || !st.backend || st.mounts.None? || st.volumesPending
              || (stamp.Some?
                  && (stamp.value.cause.Unlisted? && attempt.Some? && stamp.value.at > attempt.value ==>
                        ScanTime(host, st) - stamp.value.at >= VOLUME_RESYNC_INTERVAL))
  {
    StampStaysExplained(host, ops);
    hide Run, LastAttempt, LastSuccess, StampOf, IsRecent;
    var st, last := Run(host, FRESH, ops), LastAttempt(host, ops);
    if last.Some? {
      hide DueAt;
      DueOrRecent(st, last.value, ScanTime(host, st));
    } else {
      assert forall now :: DueAt(st, now);
    }
  }

  /**
   If its listing does not fail, the next scan leaves the mounts known as of the last 60 s, whenever it comes, exactly
   if it lists in any case, or a stamp is set and was not set without a listing after the last one, unless that was 60 s ago.
   */
  lemma MountsFreshWheneverScanned(host: Host, ops: seq<Op>)
    requires SteadyClock(host)
    ensures var st, success, stamp := Run(host, FRESH, ops), LastSuccess(host, ops), StampOf(host, ops);
            (forall now | now >= ScanTime(host, st) :: DueAt(st, now) || IsRecent(success, now)) <==>
              || !st.backend || st.mounts.None? || st.volumesPending
              || (stamp.Some?
                  && (!stamp.value.cause.Succeeded? && success.Some? && stamp.value.at > success.value ==>
                        ScanTime(host, st) - stamp.value.at >= VOLUME_RESYNC_INTERVAL))
  {
    StampStaysExplained(host, ops);
    hide Run, LastAttempt, LastSuccess, StampOf, IsRecent;
    var st, last := Run(host, FRESH, ops), LastSuccess(host, ops);
    if last.Some? {
      hide DueAt;
      DueOrRecent(st, last.value, ScanTime(host, st));
    } else {
      assert forall now :: DueAt(st, now);
    }
  }

  // ----- runs that start in event mode

  predicate HasScan(ops: seq<Op>) {
    exists i | 0 <= i < |ops| :: ops[i].PerformScan?
  }

  /** The first scan of the run, if any, is made while the event stream is up. */
  ghost predicate StartsInEventMode(host: Host, ops: seq<Op>) {
    forall i | 0 <= i < |ops| && ops[i].PerformScan? && !HasScan(ops[..i]) :: Before(host, FRESH, ops, i).backend
  }

  lemma StartsInFront(host: Host, ops: seq<Op>)
    requires ops != [] && StartsInEventMode(host, ops)
    ensures StartsInEventMode(host, ops[..|ops| - 1])
  {
    hide Run;
    var n := |ops| - 1;
    forall i | 0 <= i < n && ops[..n][i].PerformScan? && !HasScan(ops[..n][..i])
      ensures Before(host, FRESH, ops[..n], i).backend
    {
      assert ops[..n][..i] == ops[..i];
    }
  }

  /** A run that starts in event mode never sets the stamp without an attempt. */
  lemma {:induction false} NeverStampsUnlisted(host: Host, ops: seq<Op>)
    requires StartsInEventMode(host, ops)
    ensures StampOf(host, ops).Some? ==> !StampOf(host, ops).value.cause.Unlisted?
    ensures var st := Run(host, FRESH, ops); st.resync.None? ==> !HasScan(ops) && st.mounts.None?
  {
    if ops != [] {
      var n := |ops| - 1;
      StartsInFront(host, ops);
      NeverStampsUnlisted(host, ops[..n]);
      hide Step;
      var st := Run(host, FRESH, ops[..n]);
      StampStep(host, st, ops[n]);
      assert ops[n].PerformScan? && st.resync.None? ==> st.backend by {
        assert st == Before(host, FRESH, ops, n);
      }
    }
  }

  /**
   When the first scan is made in event mode, every event-mode scan ends with
   the last attempt to list the mounts less than 60 s old.
   */
  lemma AttemptsAreRecent(host: Host, ops: seq<Op>, input: ScanInput)
    requires SteadyClock(host) && StartsInEventMode(host, ops) && Run(host, FRESH, ops).backend
    ensures IsRecent(LastAttempt(host, ops + [PerformScan(input)]), ScanTime(host, Run(host, FRESH, ops)))
  {
    hide Run, LastAttempt, StampOf, IsRecent;
    NeverStampsUnlisted(host, ops);
    AttemptOldIffStampedUnlisted(host, ops, input);
  }

  /** No attempt of the run has failed. */
  predicate NeverFails(host: Host, ops: seq<Op>) {
    ops != [] ==>
      var front, last := ops[..|ops| - 1], ops[|ops| - 1];
      && NeverFails(host, front)
      && (last.PerformScan? && ListsMounts(host, Run(host, FRESH, front)) ==> last.input.listing.Listed?)
  }

  lemma {:induction false} NoFailureNoFailedStamp(host: Host, ops: seq<Op>)
    requires NeverFails(host, ops)
    ensures StampOf(host, ops).Some? ==> !StampOf(host, ops).value.cause.Failed?
  {
    if ops != [] {
      hide Run, ListsMounts;
      NoFailureNoFailedStamp(host, ops[..|ops| - 1]);
    }
  }

  /**
   When the first scan is made in event mode and no listing fails, every event-mode scan
   ends with the mounts known as of the last 60 s.
   */
  lemma MountsAreFresh(host: Host, ops: seq<Op>, input: ScanInput)
    requires SteadyClock(host) && StartsInEventMode(host, ops) && Run(host, FRESH, ops).backend
    requires NeverFails(host, ops + [PerformScan(input)])
    ensures IsRecent(LastSuccess(host, ops + [PerformScan(input)]), ScanTime(host, Run(host, FRESH, ops)))
  {
    assert (ops + [PerformScan(input)])[..|ops|] == ops;
    assert NeverFails(host, ops);
    NeverStampsUnlisted(host, ops);
    NoFailureNoFailedStamp(host, ops);
    hide Run, LastAttempt, StampOf, IsRecent, LastSuccess, ListsMounts;
    MountsStaleIff(host, ops, input);
  }

  // ----- inputs for which the mounts get stale

  /**
   After a polling scan at time 0 the event stream starts, and the scan 1000 s later
   only sets the stamp.
   */
  lemma StaleAfterPolling(input: ScanInput)
    requires input.listing.Listed? && !input.policy.settings.notifications
    ensures var host := Host("/Volumes", i => i * 1000 * SECOND);
            var ops := [PerformScan(input), StreamStart(true)];
            && SteadyClock(host)
            && LastAttempt(host, ops + [PerformScan(input)]) == Some(0)
            && LastSuccess(host, ops + [PerformScan(input)]) == Some(0)
            && ScanTime(host, Run(host, FRESH, ops)) == 1000 * SECOND
  {
    var host := Host("/Volumes", i => i * 1000 * SECOND);
    var first := PerformScan(input);
    var ops := [first, StreamStart(true)];
    assert [first][..0] == [];
    assert ops[..1] == [first];
    var one := Run(host, FRESH, [first]);
    assert Run(host, FRESH, [first][..0]) == FRESH;
    assert one == Step(host, FRESH, first);
    assert one.readings == 1 && one.mounts.Some? && one.resync.None?;
    assert LastAttempt(host, [first]) == Some(0) == LastSuccess(host, [first]);
    assert LastAttempt(host, ops) == Some(0) == LastSuccess(host, ops);
    NextScan(host, ops, input);
  }

  function ThreeTimes(i: nat): Time {
    if i == 0 then 0 else if i == 1 then 60 * SECOND else 119 * SECOND
  }

  lemma QuietScan(host: Host, st: EnforcerState, input: ScanInput)
    requires !input.policy.settings.notifications
    ensures AfterScan(host, st, input).readings == st.readings + 1
  {
  }

  /**
   In event mode from the start, the listing at 60 s fails, and the scan 59 s after
   it is held back by the stamp of the failed attempt.
   */
  lemma StaleAfterFailure(good: ScanInput, bad: ScanInput)
    requires good.listing.Listed? && !good.policy.settings.notifications
    requires bad.listing.ListingFailed? && !bad.policy.settings.notifications
    ensures var host := Host("/Volumes", ThreeTimes);
            var ops := [StreamStart(true), PerformScan(good), PerformScan(bad)];
            && SteadyClock(host)
            && LastSuccess(host, ops + [PerformScan(good)]) == Some(0)
            && LastAttempt(host, ops + [PerformScan(good)]) == Some(60 * SECOND)
            && ScanTime(host, Run(host, FRESH, ops)) == 119 * SECOND
  {
    var host := Host("/Volumes", ThreeTimes);
    var none: seq<Op> := [];
    var one := none + [StreamStart(true)];
    RunStep(host, FRESH, none, StreamStart(true));
    assert one[..0] == none;
    var first := Run(host, FRESH, one);
    assert first == FRESH.(backend := true);
    assert LastAttempt(host, none) == None && LastSuccess(host, none) == None;
    assert LastAttempt(host, one) == LastAttempt(host, one[..0]) && LastSuccess(host, one) == LastSuccess(host, one[..0]);
    hide Run, LastAttempt, LastSuccess;
    var two := one + [PerformScan(good)];
    RunStep(host, FRESH, one, PerformScan(good));
    NextScan(host, one, good);
    QuietScan(host, first, good);
    var second := Run(host, FRESH, two);
    assert second.readings == 1 && second.mounts.Some? && second.resync == Some(0) && second.backend;
    var three := two + [PerformScan(bad)];
    RunStep(host, FRESH, two, PerformScan(bad));
    NextScan(host, two, bad);
    QuietScan(host, second, bad);
    var third := Run(host, FRESH, three);
    assert third.readings == 2 && third.mounts.Some? && third.resync == Some(60 * SECOND) && third.backend;
    NextScan(host, three, good);
    assert three == [StreamStart(true), PerformScan(good), PerformScan(bad)];
  }
}
