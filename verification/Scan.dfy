/**
 One scan of the filesystem enforcer, as a function of the enforcer's state and
 of what the operating system and the policy answer during the scan.
 */
module Scan {
  import opened Clipboard
  import opened Config
  import opened Lists
  import opened Paths
  import opened Policy
  import opened RateLimiter
  import opened Snapshots
  import opened Timing
  import opened Wrappers

  const VOLUME_RESYNC_INTERVAL: int := 60 * SECOND
  const MAX_PATH_EVENTS_LOGGED: nat := 32
  const EACCES := 13
  const EPERM := 1

  /** The clock, by number of the reading, and the directory that holds the mounts. */
  datatype Host = Host(volumesRoot: Path, clock: nat -> Time)

  /** The outcome of listing the mounts. */
  datatype Listing =
    | ListingFailed(errorCode: int, denied: nat)
    | Listed(mounts: seq<Path>, denied: nat)

  /** What a scan is given: the policy, and the answers of the operating system. */
  datatype ScanInput = ScanInput(
    policy: Policy,
    listing: Listing,
    trees: Path -> TreeResult,
    stopSeen: nat -> bool,
    clearSucceeds: bool)

  datatype EnforcerState = EnforcerState(
    backend: bool,
    pending: seq<Path>,
    volumesPending: bool,
    hasPending: bool,
    mounts: Option<set<Path>>,
    snapshot: Option<Snapshot>,
    resync: Option<Time>,
    lastNotice: Option<Time>,
    clipboard: ClipboardState,
    readings: nat)

  const FRESH := EnforcerState(false, [], false, false, None, None, None, None, Clipboard.INITIAL, 0)

  datatype ScanStats = ScanStats(
    timestamp: Time,
    mountsSeen: nat,
    newMountsDetected: nat,
    pathEventsDetected: nat,
    notificationsEmitted: nat,
    permissionErrors: nat)

  predicate IsPermissionError(code: int) {
    code == EACCES || code == EPERM
  }

  function Max(a: int, b: int): int {
    if a < b then b else a
  }

  /** `resolve_notification_rate_limit`, in ticks. */
  function RateLimit(policy: Policy): int {
    var configured := Max(policy.settings.rateLimitSeconds, 1);
    SECOND * if configured <= 0 then 5 else Max(1, configured)
  }

  /** `resolve_clipboard_clear_interval`, in ticks. */
  function ClipboardInterval(policy: Policy): int {
    var configured := Max(policy.settings.clipboardSeconds, 5);
    SECOND * if configured <= 0 then 15 else Max(5, configured)
  }

  /** `resolve_scan_interval`, in milliseconds. */
  function ScanIntervalMs(policy: Policy): int {
    var configured := Max(policy.settings.filesystemScanMs, 250);
    if configured <= 0 then 2000 else Max(250, configured)
  }

  /** The getters' floors and the enforcer's own floors and defaults change nothing in a loaded policy. */
  lemma LoadedIntervalsAreUsed(file: File, normalize: Normalizer)
    ensures var policy := Loaded(file, normalize);
            && RateLimit(policy) == SECOND * policy.settings.rateLimitSeconds
            && ClipboardInterval(policy) == SECOND * policy.settings.clipboardSeconds
            && ScanIntervalMs(policy) == policy.settings.filesystemScanMs
  {
    IntervalFloors(file, normalize);
  }

  // ----- mounts

  function MountsIn(mounts: seq<Path>): set<Path> {
    set m | m in mounts && m != ""
  }

  /** The mounts a listing raises an alert for. */
  function NewMounts(known: Option<set<Path>>, listing: Listing, policy: Policy): set<Path> {
    if known.None? || listing.ListingFailed? then {}
    else set m | m in MountsIn(listing.mounts) && m !in known.value && !MountAllowed(policy, m)
  }

  function MountsAfter(known: Option<set<Path>>, listing: Listing): Option<set<Path>> {
    if listing.ListingFailed? then known else Some(MountsIn(listing.mounts))
  }

  // ----- monitored roots and path events

  /** `load_monitored_paths`. */
  function Monitored(roots: Roots): seq<Path> {
    Dedupe(Filter(roots.protectedPaths + roots.monitorPaths,
                  path => path != "" && !ShouldIgnore(path, roots.ignorePaths)))
  }

  /** On non-empty patterns, the enforcer ignores what the loader filters out. */
  lemma IgnoredIsUnderAny(path: Path, patterns: seq<Path>)
    ensures ShouldIgnore(path, patterns) ==> UnderAny(path, patterns)
    ensures "" !in patterns && UnderAny(path, patterns) ==> ShouldIgnore(path, patterns)
  {
    forall r | r in patterns
      ensures HasDirectoryPrefix(path, r) == HasPrefixPath(path, r)
    {
      PrefixTestsAgree(path, r);
    }
  }

  /** The loader's filter leaves nothing for the enforcer's own filter to remove. */
  lemma MonitoredOfLoadedPolicy(file: File, normalize: Normalizer)
    ensures var roots := Loaded(file, normalize).roots;
            Monitored(roots) == Dedupe(roots.protectedPaths + roots.monitorPaths)
  {
    var roots := Loaded(file, normalize).roots;
    LoadedIsWellFormed(file, normalize);
    var all := roots.protectedPaths + roots.monitorPaths;
    forall p | p in all
      ensures p != "" && !ShouldIgnore(p, roots.ignorePaths)
    {
      IgnoredIsUnderAny(p, roots.ignorePaths);
    }
    FilterOfAll(all, path => path != "" && !ShouldIgnore(path, roots.ignorePaths));
  }

  predicate InsideMonitored(path: Path, monitored: seq<Path>) {
    exists r | r in monitored :: HasDirectoryPrefix(path, r)
  }

  predicate IsMatch(path: Path, volumesRoot: Path, roots: Roots) {
    && path != ""
    && !HasDirectoryPrefix(path, volumesRoot)
    && !ShouldIgnore(path, roots.ignorePaths)
    && InsideMonitored(path, Monitored(roots))
  }

  /** The distinct event paths of a batch that a scan counts and reports. */
  function Matched(batch: seq<Path>, volumesRoot: Path, roots: Roots): set<Path> {
    set p | p in batch && IsMatch(p, volumesRoot, roots)
  }

  lemma NothingMatches(batch: seq<Path>, volumesRoot: Path, roots: Roots)
    requires batch == [] || Monitored(roots) == []
    ensures Matched(batch, volumesRoot, roots) == {}
  {
    forall p
      ensures p !in batch || !InsideMonitored(p, Monitored(roots))
    {
    }
  }

  // ----- notifications

  datatype Notice = VolumeNotice(mount: Path) | PathNotice(path: Path)

  /** The limiter's memory, the position of the clock, and the notifications delivered so far. */
  datatype Emission = Emission(last: Option<Time>, readings: nat, sent: seq<Notice>)

  /** `emit_notification_if_allowed`: the clock is read once for each offer. */
  function Emit(clock: nat -> Time, policy: Policy, e: Emission, notice: Notice): Emission {
    if !policy.settings.notifications then e
    else
      var offer := Offer(clock(e.readings), RateLimit(policy));
      if LetThrough(e.last, offer) then Emission(Some(offer.at), e.readings + 1, e.sent + [notice])
      else e.(readings := e.readings + 1)
  }

  function EmitAll(clock: nat -> Time, policy: Policy, e: Emission, notices: seq<Notice>): Emission {
    if notices == [] then e
    else Emit(clock, policy, EmitAll(clock, policy, e, notices[..|notices| - 1]), notices[|notices| - 1])
  }

  lemma {:induction false} EmitAllComposes(
      clock: nat -> Time, policy: Policy, e: Emission, a: seq<Notice>, b: seq<Notice>)
    ensures EmitAll(clock, policy, e, a + b) == EmitAll(clock, policy, EmitAll(clock, policy, e, a), b)
  {
    if b == [] {
      assert a + b == a;
    } else {
      EmitAllComposes(clock, policy, e, a, b[..|b| - 1]);
      assert (a + b)[..|a + b| - 1] == a + b[..|b| - 1];
    }
  }

  /** `n` offers at consecutive readings of the clock. */
  function OffersFrom(clock: nat -> Time, from: nat, n: nat, interval: int): (offers: seq<Offer>)
    ensures |offers| == n
  {
    seq(n, i requires 0 <= i < n => Offer(clock(from + i), interval))
  }

  function Chosen<T>(items: seq<T>, mask: seq<bool>): seq<T>
    requires |items| == |mask|
  {
    if items == [] then []
    else
      var n := |items| - 1;
      if mask[n] then Chosen(items[..n], mask[..n]) + [items[n]] else Chosen(items[..n], mask[..n])
  }

  lemma {:induction false} ChosenSize<T>(items: seq<T>, mask: seq<bool>)
    requires |items| == |mask|
    ensures |Chosen(items, mask)| == Count(mask)
  {
    if items != [] {
      ChosenSize(items[..|items| - 1], mask[..|items| - 1]);
    }
  }

  lemma EmitAllStep(clock: nat -> Time, policy: Policy, e: Emission, notices: seq<Notice>)
    ensures EmitAll(clock, policy, e, notices) ==
            if notices == [] then e
            else Emit(clock, policy, EmitAll(clock, policy, e, notices[..|notices| - 1]), notices[|notices| - 1])
  {
  }

  lemma NoEmission<T>(last: Option<Time>, offers: seq<Offer>, items: seq<T>)
    requires offers == [] && items == []
    ensures LastAfter(last, offers) == last && Chosen(items, Verdicts(last, offers)) == []
  {
  }

  lemma ChosenStep<T>(items: seq<T>, mask: seq<bool>)
    requires |items| == |mask| > 0
    ensures var n := |items| - 1;
            Chosen(items, mask) == Chosen(items[..n], mask[..n]) + if mask[n] then [items[n]] else []
  {
  }

  /** Emission is the rate limiter run on the offers; the delivered notices are those it lets through. */
  lemma {:induction false} EmissionIsLimiterRun(
      clock: nat -> Time, policy: Policy, e: Emission, notices: seq<Notice>)
    requires policy.settings.notifications
    ensures var offers := OffersFrom(clock, e.readings, |notices|, RateLimit(policy));
            EmitAll(clock, policy, e, notices) ==
            Emission(LastAfter(e.last, offers), e.readings + |notices|, e.sent + Chosen(notices, Verdicts(e.last, offers)))
  {
    hide RateLimit, LetThrough, LastAfter, Verdicts, Chosen, EmitAll;
    var offers := OffersFrom(clock, e.readings, |notices|, RateLimit(policy));
    EmitAllStep(clock, policy, e, notices);
    if notices == [] {
      NoEmission(e.last, offers, notices);
    } else {
      var n := |notices| - 1;
      EmissionIsLimiterRun(clock, policy, e, notices[..n]);
      assert offers[..n] == OffersFrom(clock, e.readings, n, RateLimit(policy));
      LimiterStep(e.last, offers);
      ChosenStep(notices, Verdicts(e.last, offers));
    }
  }

  lemma {:induction false} EmissionWhenDisabled(
      clock: nat -> Time, policy: Policy, e: Emission, notices: seq<Notice>)
    requires !policy.settings.notifications
    ensures EmitAll(clock, policy, e, notices) == e
  {
    if notices != [] {
      EmissionWhenDisabled(clock, policy, e, notices[..|notices| - 1]);
    }
  }

  // ----- the scan

  function ScanTime(host: Host, st: EnforcerState): Time {
    host.clock(st.readings)
  }

  /** Whether a scan at `now` lists the mounts. */
  predicate ListingDue(backend: bool, initialized: bool, volumeEvent: bool, resync: Option<Time>, now: Time) {
    if !backend then true
    else if !initialized || volumeEvent then true
    else resync.Some? && now - resync.value >= VOLUME_RESYNC_INTERVAL
  }

  predicate ListsMounts(host: Host, st: EnforcerState) {
    ListingDue(st.backend, st.mounts.Some?, st.volumesPending, st.resync, ScanTime(host, st))
  }

  /** Whether the scan works on events instead of polling the trees. */
  predicate UsesEvents(st: EnforcerState) {
    st.backend || st.pending != []
  }

  function NewMountsOf(host: Host, st: EnforcerState, input: ScanInput): set<Path> {
    if ListsMounts(host, st) then NewMounts(st.mounts, input.listing, input.policy) else {}
  }

  function MatchedOf(host: Host, st: EnforcerState, input: ScanInput): set<Path> {
    if UsesEvents(st) then Matched(st.pending, host.volumesRoot, input.policy.roots) else {}
  }

  /** The snapshot a polling scan assembles. */
  function Polled(input: ScanInput): Snapshot {
    var roots := Monitored(input.policy.roots);
    Assemble(roots, input.trees, Reached(input.stopSeen, 0, |roots|))
  }

  function ChangesOf(st: EnforcerState, input: ScanInput): set<Change> {
    if UsesEvents(st) || st.snapshot.None? then {} else Diff(st.snapshot.value, Polled(input))
  }

  /** The offers a scan makes to the rate limiter. */
  function OffersOf(host: Host, st: EnforcerState, input: ScanInput): seq<Offer> {
    if input.policy.settings.notifications then
      OffersFrom(host.clock, st.readings + 1,
                 |NewMountsOf(host, st, input)| + |MatchedOf(host, st, input)| + |ChangesOf(st, input)|,
                 RateLimit(input.policy))
    else []
  }

  function TickOf(host: Host, st: EnforcerState, input: ScanInput): Tick {
    Tick(ScanTime(host, st), input.policy.settings.clearClipboard, input.policy.settings.debug,
         ClipboardInterval(input.policy), input.clearSucceeds)
  }

  function ResyncAfter(host: Host, st: EnforcerState): Option<Time> {
    if st.backend && (ListsMounts(host, st) || st.resync.None?) then Some(ScanTime(host, st)) else st.resync
  }

  /** The state after `perform_scan`. */
  function AfterScan(host: Host, st: EnforcerState, input: ScanInput): EnforcerState {
    EnforcerState(
      st.backend,
      [],
      false,
      false,
      if ListsMounts(host, st) then MountsAfter(st.mounts, input.listing) else st.mounts,
      if UsesEvents(st) then st.snapshot else Some(Polled(input)),
      ResyncAfter(host, st),
      LastAfter(st.lastNotice, OffersOf(host, st, input)),
      Hook(st.clipboard, TickOf(host, st, input)).0,
      st.readings + 1 + |OffersOf(host, st, input)|)
  }

  function TreeErrors(roots: seq<Path>, trees: Path -> TreeResult, n: nat): nat
    requires n <= |roots|
  {
    if n == 0 then 0
    else
      var tree := trees(roots[n - 1]);
      TreeErrors(roots, trees, n - 1) + tree.denied
      + if tree.TreeFailed? && IsPermissionError(tree.errorCode) then 1 else 0
  }

  function ListingErrors(listing: Listing): nat {
    listing.denied + if listing.ListingFailed? && IsPermissionError(listing.errorCode) then 1 else 0
  }

  /** The statistics a scan publishes. */
  function StatsOf(host: Host, st: EnforcerState, input: ScanInput): ScanStats {
    var roots := Monitored(input.policy.roots);
    ScanStats(
      ScanTime(host, st),
      if ListsMounts(host, st) && input.listing.Listed? then |MountsIn(input.listing.mounts)| else 0,
      |NewMountsOf(host, st, input)|,
      |MatchedOf(host, st, input)| + |ChangesOf(st, input)|,
      Count(Verdicts(st.lastNotice, OffersOf(host, st, input))),
      (if ListsMounts(host, st) then ListingErrors(input.listing) else 0)
      + if UsesEvents(st) then 0 else TreeErrors(roots, input.trees, Reached(input.stopSeen, 0, |roots|)))
  }

  /**
   A scan depends only on which paths are pending: permuting or duplicating the batch
   changes neither what it counts nor what it leaves.
   */
  lemma EventOrderIsIrrelevant(host: Host, st: EnforcerState, batch: seq<Path>, input: ScanInput)
    requires forall p :: p in batch <==> p in st.pending
    ensures StatsOf(host, st.(pending := batch), input) == StatsOf(host, st, input)
    ensures AfterScan(host, st.(pending := batch), input) == AfterScan(host, st, input)
  {
    hide IsMatch, Monitored, Polled, Diff, ListingDue, NewMounts, LastAfter, Verdicts, Count, Hook, MountsAfter,
         RateLimit, ClipboardInterval, TreeErrors, Reached, ListingErrors, MountsIn, OffersFrom;
    var other := st.(pending := batch);
    assert batch == [] <==> st.pending == [] by {
      if batch != [] {
        assert batch[0] in st.pending;
      }
      if st.pending != [] {
        assert st.pending[0] in batch;
      }
    }
    assert Matched(batch, host.volumesRoot, input.policy.roots) == Matched(st.pending, host.volumesRoot, input.policy.roots);
    assert MatchedOf(host, other, input) == MatchedOf(host, st, input);
  }

  // ----- what else happens to an enforcer

  /** `enqueue_path_event`. */
  function Enqueued(host: Host, st: EnforcerState, path: Path): EnforcerState {
    if path == "" then st
    else st.(pending := st.pending + [path],
             volumesPending := st.volumesPending || HasDirectoryPrefix(path, host.volumesRoot),
             hasPending := true)
  }

  /** `stop_event_stream`. */
  function StreamStopped(st: EnforcerState): EnforcerState {
    if !st.backend then st
    else st.(backend := false, pending := [], volumesPending := false, hasPending := false)
  }

  /** One atomic event: a callback enqueues a path, the stream starts or stops, or a scan is made. */
  datatype Op =
    | Callback(path: Path)
    | StreamStart(created: bool)
    | StreamStop
    | PerformScan(input: ScanInput)

  function Step(host: Host, st: EnforcerState, op: Op): EnforcerState {
    match op
    case Callback(path) => Enqueued(host, st, path)
    case StreamStart(created) => st.(backend := st.backend || created)
    case StreamStop => StreamStopped(st)
    case PerformScan(input) => AfterScan(host, st, input)
  }

  // ----- which notices a scan chooses

  /** The items chosen are those that the mask marks, in their order. */
  lemma {:induction false} ChosenAt<T>(items: seq<T>, mask: seq<bool>, i: nat)
    requires |items| == |mask| && i < |mask| && mask[i]
    ensures Count(mask[..i]) < |Chosen(items, mask)| && Chosen(items, mask)[Count(mask[..i])] == items[i]
  {
    var n := |items| - 1;
    ChosenSize(items[..n], mask[..n]);
    if i < n {
      ChosenAt(items[..n], mask[..n], i);
      assert mask[..n][..i] == mask[..i];
    }
  }
}
