/**
 Whole runs of the filesystem enforcer: any sequence of callbacks, stream starts
 and stops, and scans, with any answers of the operating system.
 */
module ScanRuns {
  import Clipboard
  import opened Lists
  import opened Paths
  import opened Policy
  import opened RateLimiter
  import opened Scan
  import opened Snapshots
  import opened Timing
  import opened Wrappers

  function Run(host: Host, st: EnforcerState, ops: seq<Op>): EnforcerState {
    if ops == [] then st
    else Step(host, Run(host, st, ops[..|ops| - 1]), ops[|ops| - 1])
  }

  /** The clock of the host never goes back. */
  ghost predicate SteadyClock(host: Host) {
    forall i: nat, j: nat | i <= j :: host.clock(i) <= host.clock(j)
  }

  /** The state in which operation `i` of a run starts. */
  function Before(host: Host, st: EnforcerState, ops: seq<Op>, i: nat): EnforcerState
    requires i <= |ops|
  {
    Run(host, st, ops[..i])
  }

  // ----- the event queue

  /** The non-empty paths that callbacks enqueue, in order. */
  function EnqueuedPaths(ops: seq<Op>): seq<Path> {
    if ops == [] then []
    else
      var last := ops[|ops| - 1];
      EnqueuedPaths(ops[..|ops| - 1]) + if last.Callback? && last.path != "" then [last.path] else []
  }

  /** The paths taken off the queue, by scans that drain it and by stream stops that drop it. */
  function RemovedPaths(host: Host, ops: seq<Op>): seq<Path> {
    if ops == [] then []
    else
      var front, last := ops[..|ops| - 1], ops[|ops| - 1];
      var st := Run(host, FRESH, front);
      RemovedPaths(host, front)
      + if last.PerformScan? || (last.StreamStop? && st.backend) then st.pending else []
  }

  lemma QueueStep(host: Host, st: EnforcerState, op: Op)
    ensures Step(host, st, op).pending ==
              if op.PerformScan? || (op.StreamStop? && st.backend) then []
              else st.pending + if op.Callback? && op.path != "" then [op.path] else []
  {
  }

  /** Nothing is lost, invented or reordered in the queue. */
  lemma {:induction false} QueueConservation(host: Host, ops: seq<Op>)
    ensures EnqueuedPaths(ops) == RemovedPaths(host, ops) + Run(host, FRESH, ops).pending
  {
    if ops != [] {
      hide Step;
      QueueConservation(host, ops[..|ops| - 1]);
      QueueStep(host, Run(host, FRESH, ops[..|ops| - 1]), ops[|ops| - 1]);
    }
  }

  lemma DrainsQueue(host: Host)
    ensures forall st, input :: AfterScan(host, st, input).pending == []
    ensures forall st, input :: !AfterScan(host, st, input).volumesPending && !AfterScan(host, st, input).hasPending
  {
  }

  /** The two flags say exactly what is pending. */
  predicate QueueFlagsExact(host: Host, st: EnforcerState) {
    && (st.hasPending <==> st.pending != [])
    && (st.volumesPending <==> exists p | p in st.pending :: HasDirectoryPrefix(p, host.volumesRoot))
    && "" !in st.pending
  }

  lemma {:induction false} QueueFlags(host: Host, ops: seq<Op>)
    ensures QueueFlagsExact(host, Run(host, FRESH, ops))
  {
    if ops != [] {
      hide AfterScan, HasDirectoryPrefix;
      QueueFlags(host, ops[..|ops| - 1]);
      DrainsQueue(host);
    }
  }

  /** A scan that drains an event under the volumes root lists the mounts in that same scan. */
  lemma VolumeEventListsMounts(host: Host, ops: seq<Op>, p: Path)
    requires p in Run(host, FRESH, ops).pending && HasDirectoryPrefix(p, host.volumesRoot)
    ensures ListsMounts(host, Run(host, FRESH, ops))
  {
    QueueFlags(host, ops);
  }

  // ----- the resync of the mounts

  /** After a scan in event mode the resync stamp is set and less than 60 s old. */
  lemma ResyncStampIsRecent(host: Host, st: EnforcerState, input: ScanInput)
    requires st.backend
    ensures var after := AfterScan(host, st, input);
            after.resync.Some? && ScanTime(host, st) - after.resync.value < VOLUME_RESYNC_INTERVAL
  {
  }

  /** A listing that nothing asked for comes at least 60 s after the previous stamp. */
  lemma UnaskedListingIsPeriodic(host: Host, ops: seq<Op>)
    requires var st := Run(host, FRESH, ops);
             st.backend && st.mounts.Some? && (forall p | p in st.pending :: !HasDirectoryPrefix(p, host.volumesRoot))
    ensures var st := Run(host, FRESH, ops);
            ListsMounts(host, st) <==>
              st.resync.Some? && ScanTime(host, st) - st.resync.value >= VOLUME_RESYNC_INTERVAL
  {
    QueueFlags(host, ops);
  }

  // ----- notifications

  /** All offers of a run to the rate limiter, in order. */
  function RunOffers(host: Host, ops: seq<Op>): seq<Offer> {
    if ops == [] then []
    else
      var front, last := ops[..|ops| - 1], ops[|ops| - 1];
      RunOffers(host, front) + if last.PerformScan? then OffersOf(host, Run(host, FRESH, front), last.input) else []
  }

  /** The sum of the published numbers of notifications. */
  function NotificationsEmitted(host: Host, ops: seq<Op>): nat {
    if ops == [] then 0
    else
      var front, last := ops[..|ops| - 1], ops[|ops| - 1];
      NotificationsEmitted(host, front)
      + if last.PerformScan? then StatsOf(host, Run(host, FRESH, front), last.input).notificationsEmitted else 0
  }

  lemma LimiterInStep(host: Host, st: EnforcerState, op: Op)
    ensures op.PerformScan? ==>
              && Step(host, st, op).lastNotice == LastAfter(st.lastNotice, OffersOf(host, st, op.input))
              && StatsOf(host, st, op.input).notificationsEmitted
                 == Count(Verdicts(st.lastNotice, OffersOf(host, st, op.input)))
    ensures !op.PerformScan? ==> Step(host, st, op).lastNotice == st.lastNotice
  {
    hide OffersOf, Polled, Clipboard.Hook, MountsAfter, NewMountsOf, MatchedOf, ChangesOf, ListsMounts, ResyncAfter,
         TreeErrors, ListingErrors, LastAfter, Verdicts, Count, Monitored;
  }

  lemma RunStep(host: Host, st: EnforcerState, front: seq<Op>, last: Op)
    ensures Run(host, st, front + [last]) == Step(host, Run(host, st, front), last)
  {
    assert (front + [last])[..|front|] == front;
  }

  lemma OffersStep(host: Host, front: seq<Op>, last: Op)
    ensures last.PerformScan? ==>
              var st := Run(host, FRESH, front);
              && RunOffers(host, front + [last]) == RunOffers(host, front) + OffersOf(host, st, last.input)
              && NotificationsEmitted(host, front + [last])
                 == NotificationsEmitted(host, front) + StatsOf(host, st, last.input).notificationsEmitted
    ensures !last.PerformScan? ==>
              && RunOffers(host, front + [last]) == RunOffers(host, front)
              && NotificationsEmitted(host, front + [last]) == NotificationsEmitted(host, front)
  {
    hide Run, StatsOf, OffersOf;
    assert (front + [last])[..|front|] == front;
  }

  /** Scans, mount alerts and path events of the whole run feed one limiter. */
  lemma {:induction false} OneLimiter(host: Host, ops: seq<Op>)
    ensures Run(host, FRESH, ops).lastNotice == LastAfter(None, RunOffers(host, ops))
    ensures NotificationsEmitted(host, ops) == Count(Verdicts(None, RunOffers(host, ops)))
  {
    if ops != [] {
      var front, last := ops[..|ops| - 1], ops[|ops| - 1];
      hide *;
      assert ops == front + [last];
      OneLimiter(host, front);
      var st := Run(host, FRESH, front);
      RunStep(host, FRESH, front, last);
      OffersStep(host, front, last);
      LimiterInStep(host, st, last);
      if last.PerformScan? {
        var before, offers := RunOffers(host, front), OffersOf(host, st, last.input);
        OffersCompose(None, before, offers);
        CountAdds(Verdicts(None, before), Verdicts(st.lastNotice, offers));
      }
    }
  }

  /** All scans of a run use one rate limit. */
  predicate FixedRateLimit(ops: seq<Op>, interval: int) {
    forall i | 0 <= i < |ops| && ops[i].PerformScan? :: RateLimit(ops[i].input.policy) == interval
  }

  lemma ScanOffers(host: Host, st: EnforcerState, input: ScanInput)
    ensures var offers := OffersOf(host, st, input);
            && st.readings + 1 + |offers| == Step(host, st, PerformScan(input)).readings
            && forall i | 0 <= i < |offers| :: offers[i] == Offer(host.clock(st.readings + 1 + i), RateLimit(input.policy))
  {
    hide NewMountsOf, MatchedOf, ChangesOf, Polled, RateLimit, Clipboard.Hook, MountsAfter, ListsMounts, ResyncAfter,
         LastAfter, TickOf;
  }

  lemma ReadingsOnlyInScans(host: Host, st: EnforcerState, op: Op)
    requires !op.PerformScan?
    ensures Step(host, st, op).readings == st.readings
  {
  }

  /** The offers are in order, of one interval, and made before reading `k` of the clock. */
  ghost predicate OffersUpTo(host: Host, offers: seq<Offer>, interval: int, readings: nat) {
    && Chronological(offers)
    && FixedInterval(offers, interval)
    && forall i | 0 <= i < |offers| :: offers[i].at <= host.clock(readings)
  }

  lemma OffersAppend(host: Host, a: seq<Offer>, b: seq<Offer>, interval: int, readings: nat)
    requires SteadyClock(host) && OffersUpTo(host, a, interval, readings)
    requires forall i | 0 <= i < |b| :: b[i] == Offer(host.clock(readings + 1 + i), interval)
    ensures OffersUpTo(host, a + b, interval, readings + 1 + |b|)
  {
    var all := a + b;
    assert host.clock(readings) <= host.clock(readings + 1 + |b|);
    forall i, j | 0 <= i < j < |all|
      ensures all[i].at <= all[j].at
    {
      if i < |a| <= j {
        assert host.clock(readings) <= host.clock(readings + 1 + j - |a|);
      }
    }
  }

  lemma {:induction false} RunOffersAreChronological(host: Host, ops: seq<Op>, interval: int)
    requires SteadyClock(host) && FixedRateLimit(ops, interval)
    ensures OffersUpTo(host, RunOffers(host, ops), interval, Run(host, FRESH, ops).readings)
  {
    if ops != [] {
      hide Step, OffersOf, RateLimit, OffersUpTo;
      var front, last := ops[..|ops| - 1], ops[|ops| - 1];
      RunOffersAreChronological(host, front, interval);
      var st := Run(host, FRESH, front);
      if last.PerformScan? {
        ScanOffers(host, st, last.input);
        OffersAppend(host, RunOffers(host, front), OffersOf(host, st, last.input), interval, st.readings);
      } else {
        ReadingsOnlyInScans(host, st, last);
        assert RunOffers(host, ops) == RunOffers(host, front);
      }
    } else {
      assert RunOffers(host, ops) == [];
    }
  }

  /**
   The notifications of a run are a largest possible selection of what was offered
   with gaps of at least the rate limit: no other spaced selection is larger.
   */
  lemma NotificationsAreOptimal(host: Host, ops: seq<Op>, interval: int, mask: seq<bool>)
    requires SteadyClock(host) && FixedRateLimit(ops, interval)
    requires |mask| == |RunOffers(host, ops)| && Spaced(RunOffers(host, ops), mask, interval)
    ensures Spaced(RunOffers(host, ops), Verdicts(None, RunOffers(host, ops)), interval)
    ensures Count(mask) <= NotificationsEmitted(host, ops)
  {
    OneLimiter(host, ops);
    RunOffersAreChronological(host, ops, interval);
    LimiterIsOptimal(RunOffers(host, ops), interval, mask);
  }

  /** Any stretch of the offers that spans at most `width` ticks holds at most `width / interval + 1` notifications. */
  lemma NotificationsInWindow(host: Host, ops: seq<Op>, interval: int, lo: nat, hi: nat, width: int)
    requires SteadyClock(host) && FixedRateLimit(ops, interval) && interval > 0
    requires var offers := RunOffers(host, ops);
             lo < hi <= |offers| && offers[hi - 1].at - offers[lo].at <= width
    ensures Count(Verdicts(None, RunOffers(host, ops))[lo..hi]) <= width / interval + 1
  {
    RunOffersAreChronological(host, ops, interval);
    WindowBound(RunOffers(host, ops), interval, lo, hi, width);
  }

  lemma {:induction false} RunOffersHaveOneInterval(host: Host, ops: seq<Op>, interval: int)
    requires FixedRateLimit(ops, interval)
    ensures FixedInterval(RunOffers(host, ops), interval)
  {
    if ops != [] {
      hide OffersOf, RateLimit, Run;
      var front, last := ops[..|ops| - 1], ops[|ops| - 1];
      RunOffersHaveOneInterval(host, front, interval);
      if last.PerformScan? {
        ScanOffers(host, Run(host, FRESH, front), last.input);
      }
    }
  }

  /**
   Whatever the clock does, any stretch of the offers holds at most as many notifications as intervals
   fit into the clock's advance in it, one more, and one for each time the clock was seen to step back.
   */
  lemma NotificationsUnderAnyClock(host: Host, ops: seq<Op>, interval: int, lo: nat, hi: nat)
    requires FixedRateLimit(ops, interval) && interval > 0 && lo < hi <= |RunOffers(host, ops)|
    ensures var offers := RunOffers(host, ops);
            Count(Verdicts(None, offers)[lo..hi])
              <= Advance(offers[lo..hi]) / interval + 1 + StepBacks(LastAfter(None, offers[..lo]), offers[lo..hi])
  {
    RunOffersHaveOneInterval(host, ops, interval);
    WindowBoundWithStepBacks(RunOffers(host, ops), interval, lo, hi);
  }

  // ----- monitored trees

  /** A list of all changes reported in a run, scan by scan, each scan's in any order. */
  ghost predicate IsChangeLog(host: Host, st: EnforcerState, ops: seq<Op>, log: seq<Change>) {
    if ops == [] then log == []
    else
      var front, last := ops[..|ops| - 1], ops[|ops| - 1];
      if last.PerformScan? then
        exists k | 0 <= k <= |log| ::
          && IsChangeLog(host, st, front, log[..k])
          && IsListingOf(log[k..], ChangesOf(Run(host, st, front), last.input))
      else IsChangeLog(host, st, front, log)
  }

  /** Where the last event's share of a change log begins. */
  lemma ChangeLogSplits(host: Host, st: EnforcerState, front: seq<Op>, last: Op, log: seq<Change>) returns (k: nat)
    requires IsChangeLog(host, st, front + [last], log)
    ensures k <= |log| && IsChangeLog(host, st, front, log[..k])
    ensures if last.PerformScan? then IsListingOf(log[k..], ChangesOf(Run(host, st, front), last.input)) else k == |log|
  {
    hide Run, ChangesOf, IsListingOf;
    assert (front + [last])[..|front|] == front;
    if last.PerformScan? {
      k :| 0 <= k <= |log| && IsChangeLog(host, st, front, log[..k])
           && IsListingOf(log[k..], ChangesOf(Run(host, st, front), last.input));
    } else {
      k := |log|;
      assert log[..k] == log;
    }
  }

  lemma ReplayNothing(host: Host, st: EnforcerState, log: seq<Change>)
    requires st.snapshot.Some? && IsChangeLog(host, st, [], log)
    ensures Run(host, st, []).snapshot == Some(Replay(st.snapshot.value, log))
  {
  }

  /** Replaying all reports since a baseline rebuilds the known snapshot, with event scans in between or not. */
  lemma {:induction false} ReportsRebuildSnapshot(host: Host, st: EnforcerState, ops: seq<Op>, log: seq<Change>)
    requires st.snapshot.Some? && IsChangeLog(host, st, ops, log)
    ensures Run(host, st, ops).snapshot == Some(Replay(st.snapshot.value, log))
  {
    hide *;
    if ops == [] {
      ReplayNothing(host, st, log);
    } else {
      var front, last := ops[..|ops| - 1], ops[|ops| - 1];
      assert ops == front + [last];
      var before := Run(host, st, front);
      RunStep(host, st, front, last);
      var k := ChangeLogSplits(host, st, front, last, log);
      ReportsRebuildSnapshot(host, st, front, log[..k]);
      if last.PerformScan? {
        ScanReportsRebuild(host, before, last.input, log[k..]);
        ReplayComposes(st.snapshot.value, log[..k], log[k..]);
        assert log == log[..k] + log[k..];
        assert last == PerformScan(last.input);
      } else {
        assert log[..k] == log;
        OnlyScansChangeSnapshot(host, before, last);
      }
    }
  }

  /**
   Over a whole run, each report says what happened at its path since the report before: it is created
   when it was missing, modified when it was there and differed, deleted when it was there.
   */
  lemma {:induction false} RunReportsAreLegal(host: Host, st: EnforcerState, ops: seq<Op>, log: seq<Change>, i: nat)
    requires st.snapshot.Some? && IsChangeLog(host, st, ops, log) && i < |log|
    ensures Legal(Replay(st.snapshot.value, log[..i]), log[i])
  {
    hide *;
    if ops == [] {
      NothingLogged(host, st, log);
    } else {
      var front, last := ops[..|ops| - 1], ops[|ops| - 1];
      assert ops == front + [last];
      var k := ChangeLogSplits(host, st, front, last, log);
      if i < k {
        RunReportsAreLegal(host, st, front, log[..k], i);
        assert log[..k][..i] == log[..i];
      } else {
        ReportsRebuildSnapshot(host, st, front, log[..k]);
        ReplayComposes(st.snapshot.value, log[..k], log[k..][..i - k]);
        assert log[..i] == log[..k] + log[k..][..i - k];
        ScanReportsAreLegal(Run(host, st, front), last.input, log[k..], i - k);
      }
    }
  }

  lemma NothingLogged(host: Host, st: EnforcerState, log: seq<Change>)
    requires IsChangeLog(host, st, [], log)
    ensures log == []
  {
  }

  lemma ScanReportsAreLegal(st: EnforcerState, input: ScanInput, changes: seq<Change>, i: nat)
    requires st.snapshot.Some? && IsListingOf(changes, ChangesOf(st, input)) && i < |changes|
    ensures Legal(Replay(st.snapshot.value, changes[..i]), changes[i])
  {
    hide Polled, Diff;
    if UsesEvents(st) {
      ListingSize(changes, {});
    } else {
      ReportsAreLegal(st.snapshot.value, Polled(input), changes, i);
    }
  }

  lemma OnlyScansChangeSnapshot(host: Host, st: EnforcerState, op: Op)
    requires !op.PerformScan?
    ensures Step(host, st, op).snapshot == st.snapshot
  {
  }

  /** One scan's share, whether it polls or not. */
  lemma ScanReportsRebuild(host: Host, st: EnforcerState, input: ScanInput, changes: seq<Change>)
    requires st.snapshot.Some? && IsListingOf(changes, ChangesOf(st, input))
    ensures Step(host, st, PerformScan(input)).snapshot == Some(Replay(st.snapshot.value, changes))
  {
    hide Polled, Diff;
    if UsesEvents(st) {
      ListingSize(changes, {});
    } else {
      ReplayRebuilds(st.snapshot.value, Polled(input), changes);
    }
  }

  // ----- mounts

  datatype Observation = Observation(listing: seq<Path>, policy: Policy)

  /** The successful listings of a run, in order. */
  function Observations(host: Host, ops: seq<Op>): seq<Observation> {
    if ops == [] then []
    else
      var front, last := ops[..|ops| - 1], ops[|ops| - 1];
      Observations(host, front)
      + if last.PerformScan? && ListsMounts(host, Run(host, FRESH, front)) && last.input.listing.Listed?
        then [Observation(last.input.listing.mounts, last.input.policy)] else []
  }

  /** How often a run raises an alert for a mount. */
  function Alerts(host: Host, ops: seq<Op>, mount: Path): nat {
    if ops == [] then 0
    else
      var front, last := ops[..|ops| - 1], ops[|ops| - 1];
      Alerts(host, front, mount)
      + if last.PerformScan? && mount in NewMountsOf(host, Run(host, FRESH, front), last.input) then 1 else 0
  }

  /** At listing `k` the mount is new, and not allowed. */
  predicate Appears(seen: seq<Observation>, mount: Path, k: nat)
    requires k < |seen|
  {
    && 0 < k && mount != ""
    && mount in seen[k].listing && mount !in seen[k - 1].listing && !MountAllowed(seen[k].policy, mount)
  }

  /** The listings after the first at which the mount has appeared and is not allowed. */
  function Appearances(seen: seq<Observation>, mount: Path): set<nat> {
    set k: nat | k < |seen| && Appears(seen, mount, k)
  }

  lemma AppearancesGrow(seen: seq<Observation>, next: Observation, mount: Path)
    ensures var more := Appears(seen + [next], mount, |seen|);
            |Appearances(seen + [next], mount)| == |Appearances(seen, mount)| + if more then 1 else 0
  {
    var n, all := |seen|, seen + [next];
    forall k: nat | k < n
      ensures Appears(all, mount, k) == Appears(seen, mount, k)
    {
      assert all[k] == seen[k];
    }
    hide Appears;
    assert Appearances(all, mount) == Appearances(seen, mount) + if Appears(all, mount, n) then {n} else {};
  }

  lemma MountsStep(host: Host, st: EnforcerState, op: Op)
    ensures Step(host, st, op).mounts ==
              if op.PerformScan? && ListsMounts(host, st) && op.input.listing.Listed?
              then Some(MountsIn(op.input.listing.mounts)) else st.mounts
  {
    hide MountsIn;
  }

  /** The enforcer knows the last successful listing, and alerts count the appearances; failed listings do nothing. */
  lemma {:induction false} AlertsAreAppearances(host: Host, ops: seq<Op>, mount: Path)
    ensures var seen := Observations(host, ops);
            var known := Run(host, FRESH, ops).mounts;
            && (known.Some? <==> seen != [])
            && (known.Some? ==> forall m :: m in known.value <==> m != "" && m in seen[|seen| - 1].listing)
    ensures Alerts(host, ops, mount) == |Appearances(Observations(host, ops), mount)|
  {
    if ops != [] {
      hide Step, MountAllowed, ListsMounts, Appearances;
      var front, last := ops[..|ops| - 1], ops[|ops| - 1];
      AlertsAreAppearances(host, front, mount);
      MountsStep(host, Run(host, FRESH, front), last);
      if last.PerformScan? && ListsMounts(host, Run(host, FRESH, front)) && last.input.listing.Listed? {
        var next := Observation(last.input.listing.mounts, last.input.policy);
        var seen := Observations(host, front);
        AppearancesGrow(seen, next, mount);
        assert Appears(seen + [next], mount, |seen|) <==>
                 seen != [] && mount != "" && mount in next.listing && mount !in seen[|seen| - 1].listing
                 && !MountAllowed(next.policy, mount);
      } else {
        assert Observations(host, ops) == Observations(host, front);
      }
    } else {
      assert Appearances([], mount) == {};
    }
  }

  // ----- clipboard

  /** What the clipboard hook sees in a run. */
  function Ticks(host: Host, ops: seq<Op>): seq<Clipboard.Tick> {
    if ops == [] then []
    else
      var front, last := ops[..|ops| - 1], ops[|ops| - 1];
      Ticks(host, front) + if last.PerformScan? then [TickOf(host, Run(host, FRESH, front), last.input)] else []
  }

  lemma {:induction false} ClipboardFollowsTicks(host: Host, ops: seq<Op>)
    ensures Run(host, FRESH, ops).clipboard == Clipboard.After(Ticks(host, ops))
  {
    if ops != [] {
      hide Polled, LastAfter, OffersOf, MountsAfter, TickOf, Clipboard.Hook;
      var front, last := ops[..|ops| - 1], ops[|ops| - 1];
      ClipboardFollowsTicks(host, front);
      var ticks := Ticks(host, front);
      if last.PerformScan? {
        var tick := TickOf(host, Run(host, FRESH, front), last.input);
        assert (ticks + [tick])[..|ticks|] == ticks;
      } else {
        assert Ticks(host, ops) == ticks;
      }
    }
  }

  /** All scans of a run use one clipboard interval. */
  predicate FixedClipboardInterval(ops: seq<Op>, interval: int) {
    forall i | 0 <= i < |ops| && ops[i].PerformScan? :: ClipboardInterval(ops[i].input.policy) == interval
  }

  lemma {:induction false} TicksAreChronological(host: Host, ops: seq<Op>, interval: int)
    requires SteadyClock(host) && FixedClipboardInterval(ops, interval)
    ensures var ticks := Ticks(host, ops);
            && Clipboard.Chronological(ticks) && Clipboard.FixedInterval(ticks, interval)
            && forall i, k: nat | 0 <= i < |ticks| && Run(host, FRESH, ops).readings <= k :: ticks[i].now <= host.clock(k)
  {
    if ops != [] {
      hide Polled, Clipboard.Hook, MountsAfter, OffersOf, ListsMounts, ClipboardInterval, LastAfter;
      var front, last := ops[..|ops| - 1], ops[|ops| - 1];
      TicksAreChronological(host, front, interval);
    }
  }

  /** Over a run, the clipboard is cleared at most once per interval of its time span. */
  lemma ClipboardRunBound(host: Host, ops: seq<Op>, interval: int)
    requires SteadyClock(host) && FixedClipboardInterval(ops, interval) && interval > 0
    requires Ticks(host, ops) != []
    ensures var ticks := Ticks(host, ops);
            Clipboard.Calls(ticks) <= (ticks[|ticks| - 1].now - ticks[0].now) / interval
  {
    TicksAreChronological(host, ops, interval);
    Clipboard.CallBound(Ticks(host, ops), interval);
  }

  // ----- what one event adds

  /** The notifications that an event sends. */
  function SentBy(host: Host, st: EnforcerState, op: Op): nat {
    if op.PerformScan? then StatsOf(host, st, op.input).notificationsEmitted else 0
  }

  /** The calls of `clear()` that an event makes. */
  function CallsBy(host: Host, st: EnforcerState, op: Op): nat {
    if op.PerformScan? && Clipboard.Hook(st.clipboard, TickOf(host, st, op.input)).1 then 1 else 0
  }

  lemma NothingRun(host: Host, st: EnforcerState)
    ensures Run(host, st, []) == st && IsChangeLog(host, st, [], [])
    ensures NotificationsEmitted(host, []) == 0 && Clipboard.Calls(Ticks(host, [])) == 0
    ensures forall mount :: Alerts(host, [], mount) == 0
  {
  }

  lemma SentAndCallsStep(host: Host, ops: seq<Op>, op: Op)
    ensures var st := Run(host, FRESH, ops);
            && NotificationsEmitted(host, ops + [op]) == NotificationsEmitted(host, ops) + SentBy(host, st, op)
            && Clipboard.Calls(Ticks(host, ops + [op])) == Clipboard.Calls(Ticks(host, ops)) + CallsBy(host, st, op)
  {
    hide Run, StatsOf, TickOf, Clipboard.Hook;
    assert (ops + [op])[..|ops|] == ops;
    ClipboardFollowsTicks(host, ops);
    var ticks := Ticks(host, ops);
    if op.PerformScan? {
      var tick := TickOf(host, Run(host, FRESH, ops), op.input);
      assert (ticks + [tick])[..|ticks|] == ticks;
      assert Ticks(host, ops + [op]) == ticks + [tick];
    } else {
      assert Ticks(host, ops + [op]) == ticks;
    }
  }
}
