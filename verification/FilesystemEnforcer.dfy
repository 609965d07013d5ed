/**
 The filesystem enforcer: its fields, and the methods that a scan is made of.
 Each method is proved against the functions of `Scan`; sets and maps are visited
 in any order, and the orders chosen are returned.
 */
module FilesystemEnforcer {
  import opened Clipboard
  import opened Lists
  import opened Paths
  import opened Policy
  import opened RateLimiter
  import opened Scan
  import ScanRuns
  import opened Snapshots
  import opened Timing
  import opened Wrappers

  /** What one scan raised alerts for, in the order of the alerts. */
  datatype ScanLog = ScanLog(mounts: seq<Path>, matched: seq<Path>, changes: seq<Change>)

  function VolumeNotices(mounts: seq<Path>): (notices: seq<Notice>)
    ensures |notices| == |mounts|
  {
    seq(|mounts|, i requires 0 <= i < |mounts| => VolumeNotice(mounts[i]))
  }

  function PathNotices(paths: seq<Path>): (notices: seq<Notice>)
    ensures |notices| == |paths|
  {
    seq(|paths|, i requires 0 <= i < |paths| => PathNotice(paths[i]))
  }

  lemma EmitNone(clock: nat -> Time, policy: Policy, e: Emission)
    ensures EmitAll(clock, policy, e, VolumeNotices([])) == e == EmitAll(clock, policy, e, PathNotices([]))
  {
  }

  function NoticesOf(log: ScanLog): seq<Notice> {
    VolumeNotices(log.mounts) + PathNotices(log.matched) + PathNotices(PathsOf(log.changes))
  }

  /** A scan offers one notice for each alert: its mounts, its matched paths and its changed paths. */
  lemma NoticesAreAlerts(log: ScanLog)
    ensures |NoticesOf(log)| == |log.mounts| + |log.matched| + |log.changes|
    ensures forall m :: VolumeNotice(m) in NoticesOf(log) <==> m in log.mounts
    ensures forall p :: PathNotice(p) in NoticesOf(log) <==> p in log.matched || exists c | c in log.changes :: c.path == p
  {
    var v, a, b := VolumeNotices(log.mounts), PathNotices(log.matched), PathNotices(PathsOf(log.changes));
    forall m
      ensures VolumeNotice(m) in v <==> m in log.mounts
    {
      if m in log.mounts {
        var i :| 0 <= i < |log.mounts| && log.mounts[i] == m;
        assert v[i] == VolumeNotice(m);
      }
    }
    forall p
      ensures PathNotice(p) in a <==> p in log.matched
      ensures PathNotice(p) in b <==> exists c | c in log.changes :: c.path == p
    {
      if p in log.matched {
        var i :| 0 <= i < |log.matched| && log.matched[i] == p;
        assert a[i] == PathNotice(p);
      }
      if c :| c in log.changes && c.path == p {
        var i :| 0 <= i < |log.changes| && log.changes[i] == c;
        assert b[i] == PathNotice(p);
      }
      if PathNotice(p) in b {
        var i :| 0 <= i < |b| && b[i] == PathNotice(p);
        assert log.changes[i] in log.changes;
      }
    }
  }

  lemma NoneMonitored()
    ensures forall keep: Path -> bool :: Dedupe(Filter([], keep)) == []
  {
  }

  lemma NextMonitored(paths: seq<Path>, i: nat, keep: Path -> bool)
    requires i < |paths|
    ensures var kept := Filter(paths[..i], keep);
            Dedupe(Filter(paths[..i + 1], keep)) ==
            Dedupe(kept) + if keep(paths[i]) && paths[i] !in Dedupe(kept) then [paths[i]] else []
  {
    var kept := Filter(paths[..i], keep);
    assert paths[..i + 1][..i] == paths[..i];
    DedupeHasSameElements(kept);
    if keep(paths[i]) {
      assert (kept + [paths[i]])[..|kept|] == kept;
    }
  }

  /** The loops of `load_monitored_paths`. */
  method ReadMonitoredPaths(roots: Roots) returns (monitored: seq<Path>)
    ensures monitored == Monitored(roots)
  {
    hide Dedupe, Filter, ShouldIgnore;
    NoneMonitored();
    monitored := [];
    var seen := {};
    var paths := roots.protectedPaths + roots.monitorPaths;
    ghost var keep := path => path != "" && !ShouldIgnore(path, roots.ignorePaths);
    for i := 0 to |paths|
      invariant monitored == Dedupe(Filter(paths[..i], keep))
      invariant forall p :: p in seen <==> p in monitored
    {
      NextMonitored(paths, i, keep);
      if paths[i] == "" {
        continue;
      }
      var ignored := ShouldIgnorePath(paths[i], roots.ignorePaths);
      if ignored {
        continue;
      }
      if paths[i] !in seen {
        seen := seen + {paths[i]};
        monitored := monitored + [paths[i]];
      }
    }
    assert paths[..|paths|] == paths;
  }

  /** The set of the listed mounts. */
  method CollectMounts(mounts: seq<Path>) returns (current: set<Path>)
    ensures current == MountsIn(mounts)
  {
    current := {};
    for i := 0 to |mounts|
      invariant current == MountsIn(mounts[..i])
    {
      assert mounts[..i + 1] == mounts[..i] + [mounts[i]];
      if mounts[i] != "" {
        current := current + {mounts[i]};
      }
    }
    assert mounts[..|mounts|] == mounts;
  }

  class FilesystemEnforcer {
    const volumesRoot: Path
    const clock: nat -> Time

    var eventBackend: bool
    var pendingEventPaths: seq<Path>
    var volumesEventPending: bool
    var hasPendingEvents: bool

    var knownMountsInitialized: bool
    var knownMounts: set<Path>

    var knownPathSnapshotInitialized: bool
    var knownPathSnapshot: Snapshot

    var hasLastVolumeResync: bool
    var lastVolumeResync: Time

    var hasNotificationTime: bool
    var lastNotificationTime: Time

    var hasNextClipboardDeadline: bool
    var nextClipboardDeadline: Time
    var clipboardHookDisabled: bool

    var lastScanStats: ScanStats

    // The clock's position, the notification sink, and the number of clipboard calls.
    var clockReadings: nat
    var sent: seq<Notice>
    var clipboardCalls: nat

    function HostOf(): Host {
      Host(volumesRoot, clock)
    }

    function Mounts(): Option<set<Path>>
      reads `knownMountsInitialized, `knownMounts
    {
      if knownMountsInitialized then Some(knownMounts) else None
    }

    function KnownSnapshot(): Option<Snapshot>
      reads `knownPathSnapshotInitialized, `knownPathSnapshot
    {
      if knownPathSnapshotInitialized then Some(knownPathSnapshot) else None
    }

    function Resync(): Option<Time>
      reads `hasLastVolumeResync, `lastVolumeResync
    {
      if hasLastVolumeResync then Some(lastVolumeResync) else None
    }

    function LastNotice(): Option<Time>
      reads `hasNotificationTime, `lastNotificationTime
    {
      if hasNotificationTime then Some(lastNotificationTime) else None
    }

    function ClipboardPart(): ClipboardState
      reads `hasNextClipboardDeadline, `nextClipboardDeadline, `clipboardHookDisabled
    {
      ClipboardState(if hasNextClipboardDeadline then Some(nextClipboardDeadline) else None, clipboardHookDisabled)
    }

    function EmissionPart(): Emission
      reads `hasNotificationTime, `lastNotificationTime, `clockReadings, `sent
    {
      Emission(LastNotice(), clockReadings, sent)
    }

    function State(): EnforcerState
      reads this
    {
      EnforcerState(eventBackend, pendingEventPaths, volumesEventPending, hasPendingEvents, Mounts(),
                    KnownSnapshot(), Resync(), LastNotice(), ClipboardPart(), clockReadings)
    }

    constructor (root: Path, clock: nat -> Time)
      ensures State() == FRESH && sent == [] && clipboardCalls == 0
      ensures volumesRoot == (if root == "" then "/Volumes" else root) && this.clock == clock
    {
      volumesRoot := if root == "" then "/Volumes" else root;
      this.clock := clock;
      eventBackend := false;
      pendingEventPaths, volumesEventPending, hasPendingEvents := [], false, false;
      knownMountsInitialized, knownMounts := false, {};
      knownPathSnapshotInitialized, knownPathSnapshot := false, map[];
      hasLastVolumeResync, lastVolumeResync := false, 0;
      hasNotificationTime, lastNotificationTime := false, 0;
      hasNextClipboardDeadline, nextClipboardDeadline, clipboardHookDisabled := false, 0, false;
      lastScanStats := ScanStats(0, 0, 0, 0, 0, 0);
      clockReadings, sent, clipboardCalls := 0, [], 0;
    }

    // ----- the event queue

    method EnqueuePathEvent(path: Path)
      modifies `pendingEventPaths, `volumesEventPending, `hasPendingEvents
      ensures pendingEventPaths == old(pendingEventPaths) + if path == "" then [] else [path]
      ensures volumesEventPending == (old(volumesEventPending) || (path != "" && HasDirectoryPrefix(path, volumesRoot)))
      ensures hasPendingEvents == (old(hasPendingEvents) || path != "")
      ensures State() == Enqueued(HostOf(), old(State()), path)
    {
      if path == "" {
        return;
      }
      pendingEventPaths := pendingEventPaths + [path];
      if HasDirectoryPrefix(path, volumesRoot) {
        volumesEventPending := true;
      }
      hasPendingEvents := true;
    }

    method DrainPendingEvents() returns (batch: seq<Path>, volumeEvent: bool)
      modifies `pendingEventPaths, `volumesEventPending, `hasPendingEvents
      ensures batch == old(pendingEventPaths) && volumeEvent == old(volumesEventPending)
      ensures pendingEventPaths == [] && !volumesEventPending && !hasPendingEvents
    {
      batch, pendingEventPaths := pendingEventPaths, [];
      volumeEvent := volumesEventPending;
      volumesEventPending := false;
      hasPendingEvents := false;
    }

    /** `created` is whether the system grants a stream. */
    method StartEventStream(created: bool) returns (enabled: bool)
      modifies `eventBackend
      ensures enabled == eventBackend == (old(eventBackend) || created)
      ensures State() == old(State()).(backend := enabled)
    {
      if eventBackend {
        return true;
      }
      eventBackend := created;
      return created;
    }

    method StopEventStream()
      modifies `eventBackend, `pendingEventPaths, `volumesEventPending, `hasPendingEvents
      ensures State() == StreamStopped(old(State()))
    {
      if !eventBackend {
        return;
      }
      eventBackend := false;
      pendingEventPaths := [];
      volumesEventPending := false;
      hasPendingEvents := false;
    }

    // ----- notifications

    method Now() returns (now: Time)
      modifies `clockReadings
      ensures now == clock(old(clockReadings)) && clockReadings == old(clockReadings) + 1
    {
      now := clock(clockReadings);
      clockReadings := clockReadings + 1;
    }

    method ShouldEmitNotification(now: Time, minimumInterval: int) returns (emit: bool)
      modifies `hasNotificationTime, `lastNotificationTime
      ensures emit == LetThrough(old(LastNotice()), Offer(now, minimumInterval))
      ensures LastNotice() == if emit then Some(now) else old(LastNotice())
    {
      if !hasNotificationTime {
        hasNotificationTime := true;
        lastNotificationTime := now;
        return true;
      }
      if now < lastNotificationTime {
        lastNotificationTime := now;
        return true;
      }
      if now - lastNotificationTime >= minimumInterval {
        lastNotificationTime := now;
        return true;
      }
      return false;
    }

    method EmitNotificationIfAllowed(policy: Policy, notice: Notice, before: ScanStats) returns (stats: ScanStats)
      modifies `hasNotificationTime, `lastNotificationTime, `clockReadings, `sent
      ensures EmissionPart() == Emit(clock, policy, old(EmissionPart()), notice)
      ensures stats == before.(notificationsEmitted := before.notificationsEmitted + |sent| - |old(sent)|)
    {
      stats := before;
      if !policy.settings.notifications {
        return;
      }
      var now := Now();
      var emit := ShouldEmitNotification(now, RateLimit(policy));
      if emit {
        sent := sent + [notice];
        stats := stats.(notificationsEmitted := stats.notificationsEmitted + 1);
      }
    }

    // ----- mounts

    method MonitorVolumes(policy: Policy, listing: Listing, before: ScanStats) returns (stats: ScanStats, order: seq<Path>)
      requires before.mountsSeen == 0
      modifies `knownMountsInitialized, `knownMounts,
               `hasNotificationTime, `lastNotificationTime, `clockReadings, `sent
      ensures Mounts() == MountsAfter(old(Mounts()), listing)
      ensures IsListingOf(order, NewMounts(old(Mounts()), listing, policy))
      ensures EmissionPart() == EmitAll(clock, policy, old(EmissionPart()), VolumeNotices(order))
      ensures |old(sent)| <= |sent|
      ensures stats == before.(
                mountsSeen := if listing.Listed? then |MountsIn(listing.mounts)| else 0,
                newMountsDetected := before.newMountsDetected + |order|,
                notificationsEmitted := before.notificationsEmitted + |sent| - |old(sent)|,
                permissionErrors := before.permissionErrors + ListingErrors(listing))
    {
      order := [];
      stats := before.(permissionErrors := before.permissionErrors + listing.denied);
      if listing.ListingFailed? {
        if IsPermissionError(listing.errorCode) {
          stats := stats.(permissionErrors := stats.permissionErrors + 1);
        }
        return;
      }
      var current := CollectMounts(listing.mounts);
      stats := stats.(mountsSeen := |current|);
      if !knownMountsInitialized {
        knownMounts := current;
        knownMountsInitialized := true;
        return;
      }
      stats, order := AlertNewMounts(policy, current, stats);
      knownMounts := current;
    }

    /** The loop over the current mounts. */
    method AlertNewMounts(policy: Policy, current: set<Path>, before: ScanStats)
      returns (stats: ScanStats, order: seq<Path>)
      modifies `hasNotificationTime, `lastNotificationTime, `clockReadings, `sent
      ensures IsListingOf(order, set m | m in current && m !in knownMounts && !MountAllowed(policy, m))
      ensures EmissionPart() == EmitAll(clock, policy, old(EmissionPart()), VolumeNotices(order))
      ensures |old(sent)| <= |sent|
      ensures stats == before.(
                newMountsDetected := before.newMountsDetected + |order|,
                notificationsEmitted := before.notificationsEmitted + |sent| - |old(sent)|)
    {
      hide MountAllowed, RateLimit, LetThrough, EmitAll, VolumeNotices;
      EmitNone(clock, policy, EmissionPart());
      order := [];
      stats := before;
      var rest := current;
      while rest != {}
        invariant rest <= current
        invariant NoDuplicates(order)
        invariant forall m :: m in order <==> m in current && m !in rest && m !in knownMounts && !MountAllowed(policy, m)
        invariant EmissionPart() == EmitAll(clock, policy, old(EmissionPart()), VolumeNotices(order))
        invariant |old(sent)| <= |sent|
        invariant stats == before.(
                    newMountsDetected := before.newMountsDetected + |order|,
                    notificationsEmitted := before.notificationsEmitted + |sent| - |old(sent)|)
        decreases |rest|
      {
        var mount :| mount in rest;
        rest := rest - {mount};
        if mount in knownMounts {
          continue;
        }
        var allowed := IsMountAllowed(policy, mount);
        if allowed {
          continue;
        }
        stats, order := RaiseMountAlert(policy, mount, stats, order);
      }
    }

    /** Counts and offers one mount alert. */
    method RaiseMountAlert(policy: Policy, mount: Path, before: ScanStats, raised: seq<Path>)
      returns (stats: ScanStats, order: seq<Path>)
      modifies `hasNotificationTime, `lastNotificationTime, `clockReadings, `sent
      ensures order == raised + [mount]
      ensures forall start :: old(EmissionPart()) == EmitAll(clock, policy, start, VolumeNotices(raised)) ==>
                EmissionPart() == EmitAll(clock, policy, start, VolumeNotices(order))
      ensures |old(sent)| <= |sent|
      ensures stats == before.(
                newMountsDetected := before.newMountsDetected + 1,
                notificationsEmitted := before.notificationsEmitted + |sent| - |old(sent)|)
    {
      stats := before.(newMountsDetected := before.newMountsDetected + 1);
      stats := EmitNotificationIfAllowed(policy, VolumeNotice(mount), stats);
      order := raised + [mount];
      assert VolumeNotices(order)[..|raised|] == VolumeNotices(raised);
    }

    // ----- path events

    method MonitorPathsFromEvents(policy: Policy, batch: seq<Path>, before: ScanStats)
      returns (stats: ScanStats, order: seq<Path>, logged: nat, suppressed: nat)
      modifies `hasNotificationTime, `lastNotificationTime, `clockReadings, `sent
      ensures IsListingOf(order, Matched(batch, volumesRoot, policy.roots))
      ensures EmissionPart() == EmitAll(clock, policy, old(EmissionPart()), PathNotices(order))
      ensures |old(sent)| <= |sent|
      ensures stats == before.(
                pathEventsDetected := before.pathEventsDetected + |order|,
                notificationsEmitted := before.notificationsEmitted + |sent| - |old(sent)|)
      ensures logged <= 32 && logged + suppressed == |order|
      ensures suppressed > 0 ==> logged == 32
    {
      hide Monitored, ShouldIgnore, HasDirectoryPrefix, InsideMonitored, RateLimit, LetThrough, EmitAll, PathNotices;
      EmitNone(clock, policy, EmissionPart());
      stats, order, logged, suppressed := before, [], 0, 0;
      var monitored := ReadMonitoredPaths(policy.roots);
      if monitored == [] || batch == [] {
        NothingMatches(batch, volumesRoot, policy.roots);
        return;
      }
      var seen := {};
      var roots := policy.roots;
      for i := 0 to |batch|
        invariant forall p :: p in seen <==> p in batch[..i] && p != ""
        invariant NoDuplicates(order)
        invariant forall p :: p in order <==> p in seen && IsMatch(p, volumesRoot, roots)
        invariant EmissionPart() == EmitAll(clock, policy, old(EmissionPart()), PathNotices(order))
        invariant |old(sent)| <= |sent|
        invariant stats == before.(
                    pathEventsDetected := before.pathEventsDetected + |order|,
                    notificationsEmitted := before.notificationsEmitted + |sent| - |old(sent)|)
        invariant logged == if |order| <= MAX_PATH_EVENTS_LOGGED then |order| else MAX_PATH_EVENTS_LOGGED
      {
        var path := batch[i];
        assert batch[..i + 1] == batch[..i] + [path];
        if path == "" || path in seen {
          continue;
        }
        seen := seen + {path};
        var matches := Matches(path, monitored, roots);
        if !matches {
          continue;
        }
        stats, order, logged := RaisePathEvent(policy, path, stats, order, logged);
      }
      assert batch[..|batch|] == batch;
      if |order| > MAX_PATH_EVENTS_LOGGED {
        suppressed := |order| - MAX_PATH_EVENTS_LOGGED;
      }
    }

    /** Counts, logs and offers one path, as the loops over events and over changes both do. */
    method RaisePathEvent(policy: Policy, path: Path, before: ScanStats, raised: seq<Path>, loggedBefore: nat)
      returns (stats: ScanStats, order: seq<Path>, logged: nat)
      modifies `hasNotificationTime, `lastNotificationTime, `clockReadings, `sent
      ensures order == raised + [path]
      ensures logged == if loggedBefore < MAX_PATH_EVENTS_LOGGED then loggedBefore + 1 else loggedBefore
      ensures forall start :: old(EmissionPart()) == EmitAll(clock, policy, start, PathNotices(raised)) ==>
                EmissionPart() == EmitAll(clock, policy, start, PathNotices(order))
      ensures |old(sent)| <= |sent|
      ensures stats == before.(
                pathEventsDetected := before.pathEventsDetected + 1,
                notificationsEmitted := before.notificationsEmitted + |sent| - |old(sent)|)
    {
      stats := before.(pathEventsDetected := before.pathEventsDetected + 1);
      logged := loggedBefore;
      if logged < MAX_PATH_EVENTS_LOGGED {
        logged := logged + 1;
      }
      stats := EmitNotificationIfAllowed(policy, PathNotice(path), stats);
      order := raised + [path];
      assert PathNotices(order)[..|raised|] == PathNotices(raised);
    }

    /** The three filters of an event path. */
    method Matches(path: Path, monitored: seq<Path>, roots: Roots) returns (matches: bool)
      requires path != "" && monitored == Monitored(roots)
      ensures matches == IsMatch(path, volumesRoot, roots)
    {
      if HasDirectoryPrefix(path, volumesRoot) {
        return false;
      }
      var ignored := ShouldIgnorePath(path, roots.ignorePaths);
      if ignored {
        return false;
      }
      for k := 0 to |monitored|
        invariant !InsideMonitored(path, monitored[..k])
      {
        if HasDirectoryPrefix(path, monitored[k]) {
          return true;
        }
      }
      assert monitored[..|monitored|] == monitored;
      return false;
    }

    // ----- polling

    method MonitorPathsPolling(input: ScanInput, before: ScanStats) returns (stats: ScanStats, events: seq<Change>)
      modifies `knownPathSnapshotInitialized, `knownPathSnapshot,
               `hasNotificationTime, `lastNotificationTime, `clockReadings, `sent
      ensures KnownSnapshot() == Some(Polled(input))
      ensures var known := old(KnownSnapshot());
              IsListingOf(events, if known.None? then {} else Diff(known.value, Polled(input)))
      ensures EmissionPart() == EmitAll(clock, input.policy, old(EmissionPart()), PathNotices(PathsOf(events)))
      ensures |old(sent)| <= |sent|
      ensures var roots := Monitored(input.policy.roots);
              stats == before.(
                pathEventsDetected := before.pathEventsDetected + |events|,
                notificationsEmitted := before.notificationsEmitted + |sent| - |old(sent)|,
                permissionErrors := before.permissionErrors
                  + TreeErrors(roots, input.trees, Reached(input.stopSeen, 0, |roots|)))
    {
      hide Monitored, TreeErrors, Diff, Reached, PathsOf;
      var current, errors := AssembleSnapshot(input);
      stats := before.(permissionErrors := before.permissionErrors + errors);
      events := [];
      if !knownPathSnapshotInitialized {
        knownPathSnapshot := current;
        knownPathSnapshotInitialized := true;
        return;
      }
      events := CompareSnapshots(knownPathSnapshot, current);
      var logged, suppressed;
      stats, logged, suppressed := ReportEvents(input.policy, events, stats);
      knownPathSnapshot := current;
    }

    /** The loop over the monitored roots, left early when a stop is seen. */
    method AssembleSnapshot(input: ScanInput) returns (current: Snapshot, errors: nat)
      ensures current == Polled(input)
      ensures var roots := Monitored(input.policy.roots);
              errors == TreeErrors(roots, input.trees, Reached(input.stopSeen, 0, |roots|))
    {
      var roots := ReadMonitoredPaths(input.policy.roots);
      current, errors := map[], 0;
      var i := 0;
      while i < |roots|
        invariant i <= |roots| && Reached(input.stopSeen, 0, |roots|) == Reached(input.stopSeen, i, |roots|)
        invariant current == Assemble(roots, input.trees, i)
        invariant errors == TreeErrors(roots, input.trees, i)
      {
        if input.stopSeen(i) {
          break;
        }
        var tree := input.trees(roots[i]);
        i := i + 1;
        errors := errors + tree.denied;
        if tree.TreeFailed? {
          if IsPermissionError(tree.errorCode) {
            errors := errors + 1;
          }
          continue;
        }
        current := tree.snapshot + current;
      }
    }

    /** The two loops that compare a snapshot with the known one. */
    method CompareSnapshots(known: Snapshot, current: Snapshot) returns (events: seq<Change>)
      ensures IsListingOf(events, Diff(known, current))
    {
      var updates := CompareCurrent(known, current);
      var deletions := CompareKnown(known, current);
      events := updates + deletions;
      ListingUnion(updates, deletions, Updates(known, current), Deletions(known, current));
    }

    method CompareCurrent(known: Snapshot, current: Snapshot) returns (events: seq<Change>)
      ensures IsListingOf(events, Updates(known, current))
    {
      events := [];
      var rest := current.Keys;
      while rest != {}
        invariant rest <= current.Keys
        invariant NoDuplicates(events)
        invariant forall c | c in events :: c in Updates(known, current) && c.path !in rest
        invariant forall c | c in Updates(known, current) && c.path !in rest :: c in events
        decreases |rest|
      {
        var p :| p in rest;
        rest := rest - {p};
        if p !in known {
          events := events + [Created(p, current[p])];
        } else if known[p] != current[p] {
          events := events + [Modified(p, current[p])];
        }
      }
    }

    method CompareKnown(known: Snapshot, current: Snapshot) returns (events: seq<Change>)
      ensures IsListingOf(events, Deletions(known, current))
    {
      events := [];
      var rest := known.Keys;
      while rest != {}
        invariant rest <= known.Keys
        invariant NoDuplicates(events)
        invariant forall c | c in events :: c in Deletions(known, current) && c.path !in rest
        invariant forall c | c in Deletions(known, current) && c.path !in rest :: c in events
        decreases |rest|
      {
        var p :| p in rest;
        rest := rest - {p};
        if p !in current {
          events := events + [Deleted(p)];
        }
      }
    }

    method ReportEvents(policy: Policy, events: seq<Change>, before: ScanStats)
      returns (stats: ScanStats, logged: nat, suppressed: nat)
      modifies `hasNotificationTime, `lastNotificationTime, `clockReadings, `sent
      ensures EmissionPart() == EmitAll(clock, policy, old(EmissionPart()), PathNotices(PathsOf(events)))
      ensures |old(sent)| <= |sent|
      ensures stats == before.(
                pathEventsDetected := before.pathEventsDetected + |events|,
                notificationsEmitted := before.notificationsEmitted + |sent| - |old(sent)|)
      ensures logged <= 32 && logged + suppressed == |events|
      ensures suppressed > 0 ==> logged == 32
    {
      hide EmitAll, RateLimit, LetThrough, PathNotices;
      EmitNone(clock, policy, EmissionPart());
      stats, logged, suppressed := before, 0, 0;
      var order := [];
      for i := 0 to |events|
        invariant order == PathsOf(events)[..i]
        invariant EmissionPart() == EmitAll(clock, policy, old(EmissionPart()), PathNotices(order))
        invariant |old(sent)| <= |sent|
        invariant stats == before.(
                    pathEventsDetected := before.pathEventsDetected + i,
                    notificationsEmitted := before.notificationsEmitted + |sent| - |old(sent)|)
        invariant logged == if i <= MAX_PATH_EVENTS_LOGGED then i else MAX_PATH_EVENTS_LOGGED
      {
        stats, order, logged := RaisePathEvent(policy, events[i].path, stats, order, logged);
      }
      assert order == PathsOf(events);
      if |events| > MAX_PATH_EVENTS_LOGGED {
        suppressed := |events| - MAX_PATH_EVENTS_LOGGED;
      }
    }

    // ----- clipboard

    method RunClipboardHook(tick: Tick)
      modifies `hasNextClipboardDeadline, `nextClipboardDeadline, `clipboardHookDisabled, `clipboardCalls
      ensures ClipboardPart() == Hook(old(ClipboardPart()), tick).0
      ensures clipboardCalls == old(clipboardCalls) + if Hook(old(ClipboardPart()), tick).1 then 1 else 0
    {
      if !tick.enabled {
        hasNextClipboardDeadline := false;
        return;
      }
      if !hasNextClipboardDeadline {
        hasNextClipboardDeadline := true;
        nextClipboardDeadline := tick.now + tick.interval;
        return;
      }
      if tick.now < nextClipboardDeadline {
        return;
      }
      nextClipboardDeadline := tick.now + tick.interval;
      if clipboardHookDisabled || tick.debug {
        return;
      }
      clipboardCalls := clipboardCalls + 1;
      if !tick.succeeds {
        clipboardHookDisabled := true;
      }
    }

    // ----- the scan

    /** Decides in event mode on a listing of the mounts, and keeps the resync stamp. */
    method ResyncDue(now: Time, volumeEvent: bool) returns (list: bool)
      modifies `hasLastVolumeResync, `lastVolumeResync
      ensures list == ListingDue(true, knownMountsInitialized, volumeEvent, old(Resync()), now)
      ensures Resync() == if list || old(Resync()).None? then Some(now) else old(Resync())
    {
      list := !knownMountsInitialized || volumeEvent;
      if !list {
        if !hasLastVolumeResync {
          hasLastVolumeResync := true;
          lastVolumeResync := now;
        } else if now - lastVolumeResync >= VOLUME_RESYNC_INTERVAL {
          list := true;
        }
      }
      if list {
        hasLastVolumeResync := true;
        lastVolumeResync := now;
      }
    }

    /** The mounts' part of `perform_scan`. */
    method ScanMounts(input: ScanInput, volumeEvent: bool, before: ScanStats)
      returns (stats: ScanStats, order: seq<Path>, list: bool)
      requires before.mountsSeen == 0
      modifies `hasLastVolumeResync, `lastVolumeResync, `knownMountsInitialized, `knownMounts,
               `hasNotificationTime, `lastNotificationTime, `clockReadings, `sent
      ensures list == old(ListingDue(eventBackend, knownMountsInitialized, volumeEvent, Resync(), before.timestamp))
      ensures Mounts() == if list then MountsAfter(old(Mounts()), input.listing) else old(Mounts())
      ensures Resync() == if eventBackend && (list || old(Resync()).None?) then Some(before.timestamp) else old(Resync())
      ensures IsListingOf(order, if list then NewMounts(old(Mounts()), input.listing, input.policy) else {})
      ensures EmissionPart() == EmitAll(clock, input.policy, old(EmissionPart()), VolumeNotices(order))
      ensures |old(sent)| <= |sent|
      ensures stats == before.(
                mountsSeen := if list && input.listing.Listed? then |MountsIn(input.listing.mounts)| else 0,
                newMountsDetected := before.newMountsDetected + |order|,
                notificationsEmitted := before.notificationsEmitted + |sent| - |old(sent)|,
                permissionErrors := before.permissionErrors + if list then ListingErrors(input.listing) else 0)
    {
      list := true;
      if eventBackend {
        list := ResyncDue(before.timestamp, volumeEvent);
      }
      if list {
        stats, order := MonitorVolumes(input.policy, input.listing, before);
      } else {
        stats, order := before, [];
      }
    }

    /** The paths' part of `perform_scan`. */
    method ScanPaths(input: ScanInput, batch: seq<Path>, before: ScanStats)
      returns (stats: ScanStats, matched: seq<Path>, changes: seq<Change>)
      modifies `knownPathSnapshotInitialized, `knownPathSnapshot,
               `hasNotificationTime, `lastNotificationTime, `clockReadings, `sent
      ensures var events := eventBackend || batch != [];
              && KnownSnapshot() == (if events then old(KnownSnapshot()) else Some(Polled(input)))
              && IsListingOf(matched, if events then Matched(batch, volumesRoot, input.policy.roots) else {})
              && IsListingOf(changes, if events || old(KnownSnapshot()).None? then {}
                                      else Diff(old(KnownSnapshot()).value, Polled(input)))
      ensures EmissionPart() == EmitAll(clock, input.policy, old(EmissionPart()),
                                        PathNotices(matched) + PathNotices(PathsOf(changes)))
      ensures |old(sent)| <= |sent|
      ensures var roots := Monitored(input.policy.roots);
              stats == before.(
                pathEventsDetected := before.pathEventsDetected + |matched| + |changes|,
                notificationsEmitted := before.notificationsEmitted + |sent| - |old(sent)|,
                permissionErrors := before.permissionErrors
                  + if eventBackend || batch != [] then 0
                    else TreeErrors(roots, input.trees, Reached(input.stopSeen, 0, |roots|)))
    {
      hide Monitored, Matched, Polled, TreeErrors, Diff, EmitAll, Reached;
      matched, changes := [], [];
      if eventBackend || batch != [] {
        var logged, suppressed;
        stats, matched, logged, suppressed := MonitorPathsFromEvents(input.policy, batch, before);
        assert PathNotices(matched) + PathNotices(PathsOf(changes)) == PathNotices(matched);
      } else {
        stats, changes := MonitorPathsPolling(input, before);
        assert PathNotices(matched) + PathNotices(PathsOf(changes)) == PathNotices(PathsOf(changes));
      }
    }

    /** The mounts, then the paths. */
    method ScanMountsAndPaths(input: ScanInput, batch: seq<Path>, volumeEvent: bool, now: Time)
      returns (stats: ScanStats, log: ScanLog)
      modifies `hasLastVolumeResync, `lastVolumeResync, `knownMountsInitialized, `knownMounts,
               `knownPathSnapshotInitialized, `knownPathSnapshot,
               `hasNotificationTime, `lastNotificationTime, `clockReadings, `sent
      ensures var list := old(ListingDue(eventBackend, knownMountsInitialized, volumeEvent, Resync(), now));
              && Mounts() == (if list then MountsAfter(old(Mounts()), input.listing) else old(Mounts()))
              && Resync() == (if eventBackend && (list || old(Resync()).None?) then Some(now) else old(Resync()))
              && IsListingOf(log.mounts, if list then NewMounts(old(Mounts()), input.listing, input.policy) else {})
      ensures var events := eventBackend || batch != [];
              && KnownSnapshot() == (if events then old(KnownSnapshot()) else Some(Polled(input)))
              && IsListingOf(log.matched, if events then Matched(batch, volumesRoot, input.policy.roots) else {})
              && IsListingOf(log.changes, if events || old(KnownSnapshot()).None? then {}
                                          else Diff(old(KnownSnapshot()).value, Polled(input)))
      ensures EmissionPart() == EmitAll(clock, input.policy, old(EmissionPart()), NoticesOf(log))
      ensures |old(sent)| <= |sent|
      ensures var list := old(ListingDue(eventBackend, knownMountsInitialized, volumeEvent, Resync(), now));
              var roots := Monitored(input.policy.roots);
              stats == ScanStats(
                now,
                if list && input.listing.Listed? then |MountsIn(input.listing.mounts)| else 0,
                |log.mounts|,
                |log.matched| + |log.changes|,
                |sent| - |old(sent)|,
                (if list then ListingErrors(input.listing) else 0)
                + if eventBackend || batch != [] then 0
                  else TreeErrors(roots, input.trees, Reached(input.stopSeen, 0, |roots|)))
    {
      hide Monitored, Matched, MountsAfter, MountsIn, NewMounts, Polled, TreeErrors, ListingErrors, Diff, ListingDue,
           EmitAll, VolumeNotices, PathNotices, PathsOf, Reached;
      ghost var start := EmissionPart();
      var mounts, list;
      stats, mounts, list := ScanMounts(input, volumeEvent, ScanStats(now, 0, 0, 0, 0, 0));
      var matched, changes;
      stats, matched, changes := ScanPaths(input, batch, stats);
      log := ScanLog(mounts, matched, changes);
      var v, p := VolumeNotices(mounts), PathNotices(matched) + PathNotices(PathsOf(changes));
      assert NoticesOf(log) == v + p;
      EmitAllComposes(clock, input.policy, start, v, p);
    }

    /** Reads the clock and empties the event queue. */
    method BeginScan() returns (now: Time, batch: seq<Path>, volumeEvent: bool)
      modifies `clockReadings, `pendingEventPaths, `volumesEventPending, `hasPendingEvents
      ensures now == clock(old(clockReadings)) && clockReadings == old(clockReadings) + 1
      ensures batch == old(pendingEventPaths) && volumeEvent == old(volumesEventPending)
      ensures pendingEventPaths == [] && !volumesEventPending && !hasPendingEvents
    {
      now := Now();
      batch, volumeEvent := DrainPendingEvents();
    }

    /** All of the scan but the clipboard hook and the publication of the statistics. */
    method ScanBeforeClipboard(input: ScanInput) returns (now: Time, stats: ScanStats, log: ScanLog)
      modifies `clockReadings, `pendingEventPaths, `volumesEventPending, `hasPendingEvents,
               `hasLastVolumeResync, `lastVolumeResync, `knownMountsInitialized, `knownMounts,
               `knownPathSnapshotInitialized, `knownPathSnapshot,
               `hasNotificationTime, `lastNotificationTime, `sent
      ensures now == ScanTime(HostOf(), old(State()))
      ensures var clipboard := Hook(old(ClipboardPart()), TickOf(HostOf(), old(State()), input)).0;
              IsScan(HostOf(), old(State()), input, State().(clipboard := clipboard), stats, log)
      ensures sent == EmitAll(clock, input.policy, Emission(old(LastNotice()), old(clockReadings) + 1, old(sent)),
                              NoticesOf(log)).sent
      ensures |sent| == |old(sent)| + stats.notificationsEmitted
    {
      hide Monitored, Matched, MountsAfter, MountsIn, NewMounts, Polled, TreeErrors, ListingErrors, Diff, ListingDue,
           EmitAll, NoticesOf, Reached, Hook, RateLimit, ClipboardInterval, IsListingOf, IsScan;
      ghost var st := State();
      var batch, volumeEvent;
      now, batch, volumeEvent := BeginScan();
      ghost var start := EmissionPart();
      stats, log := ScanMountsAndPaths(input, batch, volumeEvent, now);
      ScanAssembles(HostOf(), st, input, log, start, EmissionPart(), Mounts(), KnownSnapshot(), Resync(), stats);
    }

    method PerformScan(input: ScanInput) returns (log: ScanLog)
      modifies this
      ensures IsScan(HostOf(), old(State()), input, State(), lastScanStats, log)
      ensures sent == EmitAll(clock, input.policy, Emission(old(LastNotice()), old(clockReadings) + 1, old(sent)),
                              NoticesOf(log)).sent
      ensures |sent| == |old(sent)| + lastScanStats.notificationsEmitted
      ensures clipboardCalls == old(clipboardCalls)
                + if Hook(old(ClipboardPart()), TickOf(HostOf(), old(State()), input)).1 then 1 else 0
    {
      hide Monitored, Matched, MountsAfter, MountsIn, NewMounts, Polled, TreeErrors, ListingErrors, Diff, ListingDue,
           EmitAll, NoticesOf, Reached, Hook, RateLimit, ClipboardInterval, IsListingOf, IsScan;
      var now, stats;
      now, stats, log := ScanBeforeClipboard(input);
      ClipboardAndStats(Tick(now, input.policy.settings.clearClipboard, input.policy.settings.debug,
                             ClipboardInterval(input.policy), input.clearSucceeds),
                        stats);
    }

    /** Any event, as a step of the state machine, with what it sends, clears and reports. */
    method Execute(op: Op) returns (log: ScanLog)
      modifies this
      ensures State() == Step(HostOf(), old(State()), op)
      ensures IsLogOf(HostOf(), old(State()), op, log)
      ensures |sent| == |old(sent)| + ScanRuns.SentBy(HostOf(), old(State()), op)
      ensures clipboardCalls == old(clipboardCalls) + ScanRuns.CallsBy(HostOf(), old(State()), op)
    {
      log := ScanLog([], [], []);
      match op {
        case Callback(path) => EnqueuePathEvent(path);
        case StreamStart(created) => var _ := StartEventStream(created);
        case StreamStop => StopEventStream();
        case PerformScan(input) =>
          hide AfterScan, StatsOf, IsListingOf, TickOf, NewMountsOf, MatchedOf, ChangesOf;
          log := PerformScan(input);
      }
    }

    /**
     Any run. From a fresh enforcer, the notices sent, the clipboard calls, the alerts for each mount and
     the reported changes are those that the theorems about runs speak of.
     */
    method ExecuteAll(ops: seq<Op>) returns (alerts: seq<Path>, changes: seq<Change>)
      modifies this
      ensures State() == ScanRuns.Run(HostOf(), old(State()), ops)
      ensures ScanRuns.IsChangeLog(HostOf(), old(State()), ops, changes)
      ensures old(State()) == FRESH ==>
                && |sent| == |old(sent)| + ScanRuns.NotificationsEmitted(HostOf(), ops)
                && clipboardCalls == old(clipboardCalls) + Calls(ScanRuns.Ticks(HostOf(), ops))
                && forall mount :: multiset(alerts)[mount] == ScanRuns.Alerts(HostOf(), ops, mount)
    {
      hide *;
      alerts, changes := [], [];
      ghost var start, host := State(), HostOf();
      ScanRuns.NothingRun(host, start);
      var none: seq<Path> := [];
      assert ops[..0] == [] && alerts == none && forall mount :: multiset(none)[mount] == 0;
      for i := 0 to |ops|
        invariant HostOf() == host
        invariant State() == ScanRuns.Run(host, start, ops[..i])
        invariant ScanRuns.IsChangeLog(host, start, ops[..i], changes)
        invariant start == FRESH ==>
                    && |sent| == |old(sent)| + ScanRuns.NotificationsEmitted(host, ops[..i])
                    && clipboardCalls == old(clipboardCalls) + Calls(ScanRuns.Ticks(host, ops[..i]))
                    && forall mount :: multiset(alerts)[mount] == ScanRuns.Alerts(host, ops[..i], mount)
      {
        ghost var st := State();
        var log := Execute(ops[i]);
        assert ops[..i + 1] == ops[..i] + [ops[i]];
        ScanRuns.RunStep(host, start, ops[..i], ops[i]);
        LogStep(host, start, ops[..i], ops[i], changes, log);
        ScanRuns.SentAndCallsStep(host, ops[..i], ops[i]);
        if start == FRESH {
          AlertsStep(host, ops[..i], ops[i], alerts, log);
        }
        alerts, changes := alerts + log.mounts, changes + log.changes;
      }
      assert ops[..|ops|] == ops;
    }

    method ClipboardAndStats(tick: Tick, stats: ScanStats)
      modifies `hasNextClipboardDeadline, `nextClipboardDeadline, `clipboardHookDisabled, `clipboardCalls, `lastScanStats
      ensures ClipboardPart() == Hook(old(ClipboardPart()), tick).0
      ensures clipboardCalls == old(clipboardCalls) + if Hook(old(ClipboardPart()), tick).1 then 1 else 0
      ensures lastScanStats == stats
    {
      RunClipboardHook(tick);
      lastScanStats := stats;
    }
  }

  /** All that one scan does to the enforcer, and what it raises alerts for. */
  ghost predicate IsScan(
      host: Host, before: EnforcerState, input: ScanInput, after: EnforcerState, stats: ScanStats, log: ScanLog)
  {
    && after == AfterScan(host, before, input)
    && stats == StatsOf(host, before, input)
    && IsListingOf(log.mounts, NewMountsOf(host, before, input))
    && IsListingOf(log.matched, MatchedOf(host, before, input))
    && IsListingOf(log.changes, ChangesOf(before, input))
  }

  /** What an event raises alerts for: nothing, unless it is a scan. */
  ghost predicate IsLogOf(host: Host, before: EnforcerState, op: Op, log: ScanLog) {
    if op.PerformScan? then
      && IsListingOf(log.mounts, NewMountsOf(host, before, op.input))
      && IsListingOf(log.matched, MatchedOf(host, before, op.input))
      && IsListingOf(log.changes, ChangesOf(before, op.input))
    else log == ScanLog([], [], [])
  }

  lemma LogStep(host: Host, start: EnforcerState, ops: seq<Op>, op: Op, changes: seq<Change>, log: ScanLog)
    requires ScanRuns.IsChangeLog(host, start, ops, changes)
    requires IsLogOf(host, ScanRuns.Run(host, start, ops), op, log)
    ensures ScanRuns.IsChangeLog(host, start, ops + [op], changes + log.changes)
  {
    hide ScanRuns.Run, IsListingOf, ChangesOf, NewMountsOf, MatchedOf;
    var all, more := ops + [op], changes + log.changes;
    assert all[..|ops|] == ops;
    assert more[..|changes|] == changes && more[|changes|..] == log.changes;
    if !op.PerformScan? {
      assert more == changes;
    }
  }

  lemma {:induction false} ListingCounts<T>(list: seq<T>, s: set<T>, x: T)
    requires IsListingOf(list, s)
    ensures multiset(list)[x] == if x in s then 1 else 0
  {
    if list != [] {
      var n := |list| - 1;
      assert list == list[..n] + [list[n]];
      assert list[n] in list;
      assert forall y | y in list[..n] :: y in list && y != list[n];
      ListingCounts(list[..n], s - {list[n]}, x);
    }
  }

  lemma AlertsStep(host: Host, ops: seq<Op>, op: Op, alerts: seq<Path>, log: ScanLog)
    requires IsLogOf(host, ScanRuns.Run(host, FRESH, ops), op, log)
    ensures forall mount ::
              multiset(alerts + log.mounts)[mount] - multiset(alerts)[mount]
              == ScanRuns.Alerts(host, ops + [op], mount) - ScanRuns.Alerts(host, ops, mount)
  {
    hide ScanRuns.Run, IsListingOf, ChangesOf, NewMountsOf, MatchedOf;
    assert (ops + [op])[..|ops|] == ops;
    forall mount
      ensures multiset(alerts + log.mounts)[mount] - multiset(alerts)[mount]
              == ScanRuns.Alerts(host, ops + [op], mount) - ScanRuns.Alerts(host, ops, mount)
    {
      if op.PerformScan? {
        ListingCounts(log.mounts, NewMountsOf(host, ScanRuns.Run(host, FRESH, ops), op.input), mount);
      }
    }
  }

  /** The parts of a scan, put together. */
  lemma ScanAssembles(
      host: Host, st: EnforcerState, input: ScanInput, log: ScanLog, start: Emission, end: Emission,
      mounts: Option<set<Path>>, snapshot: Option<Snapshot>, resync: Option<Time>, stats: ScanStats)
    requires start.last == st.lastNotice && start.readings == st.readings + 1
    requires end == EmitAll(host.clock, input.policy, start, NoticesOf(log))
    requires var list := ListsMounts(host, st);
             && mounts == (if list then MountsAfter(st.mounts, input.listing) else st.mounts)
             && resync == (if st.backend && (list || st.resync.None?) then Some(ScanTime(host, st)) else st.resync)
             && IsListingOf(log.mounts, if list then NewMounts(st.mounts, input.listing, input.policy) else {})
    requires var events := st.backend || st.pending != [];
             && snapshot == (if events then st.snapshot else Some(Polled(input)))
             && IsListingOf(log.matched, if events then Matched(st.pending, host.volumesRoot, input.policy.roots) else {})
             && IsListingOf(log.changes, if events || st.snapshot.None? then {}
                                         else Diff(st.snapshot.value, Polled(input)))
    requires |start.sent| <= |end.sent|
    requires var list := ListsMounts(host, st);
             var roots := Monitored(input.policy.roots);
             stats == ScanStats(
               ScanTime(host, st),
               if list && input.listing.Listed? then |MountsIn(input.listing.mounts)| else 0,
               |log.mounts|,
               |log.matched| + |log.changes|,
               |end.sent| - |start.sent|,
               (if list then ListingErrors(input.listing) else 0)
               + if st.backend || st.pending != [] then 0
                 else TreeErrors(roots, input.trees, Reached(input.stopSeen, 0, |roots|)))
    ensures var clipboard := Hook(st.clipboard, TickOf(host, st, input)).0;
            IsScan(host, st, input,
                   EnforcerState(st.backend, [], false, false, mounts, snapshot, resync, end.last, clipboard, end.readings),
                   stats, log)
  {
    hide Monitored, Matched, MountsAfter, MountsIn, NewMounts, Polled, TreeErrors, ListingErrors, Diff, ListingDue,
         EmitAll, NoticesOf, Reached, Hook, LastAfter, Verdicts, Count, RateLimit, ClipboardInterval, OffersFrom,
         IsListingOf;
    ScanEmission(host, st, input, log, start);
  }

  /** What the notices of a scan do to the limiter does not depend on their order. */
  lemma ScanEmission(host: Host, st: EnforcerState, input: ScanInput, log: ScanLog, start: Emission)
    requires IsListingOf(log.mounts, NewMountsOf(host, st, input))
    requires IsListingOf(log.matched, MatchedOf(host, st, input))
    requires IsListingOf(log.changes, ChangesOf(st, input))
    requires start.last == st.lastNotice && start.readings == st.readings + 1
    ensures var end := EmitAll(host.clock, input.policy, start, NoticesOf(log));
            && end.last == LastAfter(st.lastNotice, OffersOf(host, st, input))
            && end.readings == st.readings + 1 + |OffersOf(host, st, input)|
            && |end.sent| - |start.sent| == Count(Verdicts(st.lastNotice, OffersOf(host, st, input)))
    ensures |log.mounts| == |NewMountsOf(host, st, input)|
    ensures |log.matched| == |MatchedOf(host, st, input)| && |log.changes| == |ChangesOf(st, input)|
  {
    hide ListsMounts, Monitored, Matched, NewMounts, Polled, Diff, EmitAll, LastAfter, Verdicts, Chosen, RateLimit;
    ListingSize(log.mounts, NewMountsOf(host, st, input));
    ListingSize(log.matched, MatchedOf(host, st, input));
    ListingSize(log.changes, ChangesOf(st, input));
    var notices := NoticesOf(log);
    var offers := OffersOf(host, st, input);
    NoOffers(st.lastNotice);
    if input.policy.settings.notifications {
      EmissionIsLimiterRun(host.clock, input.policy, start, notices);
      ChosenSize(notices, Verdicts(st.lastNotice, offers));
    } else {
      EmissionWhenDisabled(host.clock, input.policy, start, notices);
    }
  }
}
