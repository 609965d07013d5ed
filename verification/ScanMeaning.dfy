/**
 What one scan of the filesystem enforcer finds, in terms of its inputs alone: the
 pending paths, the listed mounts, the trees, the loaded policy and the stop flag.
 */
module ScanMeaning {
  import opened Clipboard
  import opened Config
  import opened Lists
  import opened Paths
  import opened Policy
  import opened RateLimiter
  import opened Scan
  import opened ScanRuns
  import opened Snapshots
  import opened Timing
  import opened Wrappers

  // ----- event scans

  /** A path that counts: outside the volumes root and all ignored paths, and under a protected or monitored one. */
  predicate Relevant(p: Path, volumesRoot: Path, roots: Roots) {
    && p != ""
    && !UnderAny(p, [volumesRoot] + roots.ignorePaths)
    && UnderAny(p, roots.protectedPaths + roots.monitorPaths)
  }

  lemma UnderSome(p: Path, roots: seq<Path>, more: seq<Path>)
    ensures InsideMonitored(p, roots) <==> UnderAny(p, roots)
    ensures UnderAny(p, roots + more) <==> UnderAny(p, roots) || UnderAny(p, more)
    ensures forall r :: UnderAny(p, [r]) <==> HasDirectoryPrefix(p, r)
  {
    forall r
      ensures HasDirectoryPrefix(p, r) == HasPrefixPath(p, r)
      ensures r in [r]
    {
      PrefixTestsAgree(p, r);
    }
    assert forall r :: r in roots + more <==> r in roots || r in more;
  }

  lemma MonitoredCovers(file: File, normalize: Normalizer, p: Path)
    ensures var roots := Loaded(file, normalize).roots;
            InsideMonitored(p, Monitored(roots)) <==> UnderAny(p, roots.protectedPaths + roots.monitorPaths)
  {
    var roots := Loaded(file, normalize).roots;
    var all := roots.protectedPaths + roots.monitorPaths;
    hide Loaded, Dedupe, Monitored, HasDirectoryPrefix, HasPrefixPath;
    MonitoredOfLoadedPolicy(file, normalize);
    DedupeHasSameElements(all);
    UnderSome(p, all, []);
  }

  /** Under any loaded policy, the paths that an event scan counts are exactly the relevant ones of the batch. */
  lemma MatchedAreRelevant(batch: seq<Path>, volumesRoot: Path, file: File, normalize: Normalizer)
    ensures var roots := Loaded(file, normalize).roots;
            Matched(batch, volumesRoot, roots) == set p | p in batch && Relevant(p, volumesRoot, roots)
  {
    var roots := Loaded(file, normalize).roots;
    LoadedIsWellFormed(file, normalize);
    assert "" !in roots.ignorePaths;
    hide Loaded, WellFormed, Monitored, UnderAny, InsideMonitored, HasDirectoryPrefix, ShouldIgnore;
    forall p
      ensures IsMatch(p, volumesRoot, roots) <==> Relevant(p, volumesRoot, roots)
    {
      IgnoredIsUnderAny(p, roots.ignorePaths);
      UnderSome(p, [volumesRoot], roots.ignorePaths);
      MonitoredCovers(file, normalize, p);
    }
  }

  /** With an event stream or pending paths, a scan counts the relevant paths, and leaves the known snapshot alone. */
  lemma EventScanCounts(host: Host, st: EnforcerState, input: ScanInput, file: File, normalize: Normalizer)
    requires input.policy == Loaded(file, normalize) && (st.backend || st.pending != [])
    ensures StatsOf(host, st, input).pathEventsDetected
         == |set p | p in st.pending && Relevant(p, host.volumesRoot, input.policy.roots)|
    ensures AfterScan(host, st, input).snapshot == st.snapshot
  {
    MatchedAreRelevant(st.pending, host.volumesRoot, file, normalize);
    hide Loaded, Relevant, Matched, Monitored, Polled, Diff, LastAfter, Verdicts, Count, OffersOf, Hook, TickOf,
         ListsMounts, MountsAfter, NewMountsOf, TreeErrors, ListingErrors, MountsIn, Reached, ResyncAfter;
  }

  // ----- polling scans

  /** The scan visits `n` of the roots: it sees no stop before any of these, and then one, or all are visited. */
  predicate Visits(input: ScanInput, n: nat) {
    var roots := Monitored(input.policy.roots);
    && n <= |roots|
    && (forall i | 0 <= i < n :: !input.stopSeen(i))
    && (n < |roots| ==> input.stopSeen(n))
  }

  lemma VisitsReached(input: ScanInput, n: nat)
    requires Visits(input, n)
    ensures n == Reached(input.stopSeen, 0, |Monitored(input.policy.roots)|)
  {
  }

  predicate Readable(input: ScanInput, root: Path, p: Path) {
    input.trees(root).Tree? && p in input.trees(root).snapshot
  }

  /** Without a stream and pending paths, a scan knows exactly what the readable ones of the visited roots hold. */
  lemma PollingScanKnows(host: Host, st: EnforcerState, input: ScanInput, n: nat, p: Path)
    requires !st.backend && st.pending == [] && Visits(input, n)
    ensures var roots, after := Monitored(input.policy.roots), AfterScan(host, st, input).snapshot;
            && after.Some?
            && (p in after.value <==> exists i | 0 <= i < n :: Readable(input, roots[i], p))
            && (forall i | 0 <= i < n && Readable(input, roots[i], p)
                           && (forall k | 0 <= k < i :: !Readable(input, roots[k], p)) ::
                  after.value[p] == input.trees(roots[i]).snapshot[p])
  {
    VisitsReached(input, n);
    hide Reached, Assemble, Monitored, LastAfter, OffersOf, Hook, TickOf, ListsMounts, MountsAfter, ResyncAfter;
    AssembledFromFirst(Monitored(input.policy.roots), input.trees, n, p);
  }

  /** When no stop is seen, under any loaded policy, that is what the readable protected and monitored roots hold. */
  lemma UndisturbedPollKnows(host: Host, st: EnforcerState, input: ScanInput, file: File, normalize: Normalizer, p: Path)
    requires input.policy == Loaded(file, normalize)
    requires !st.backend && st.pending == [] && forall i :: !input.stopSeen(i)
    ensures var roots, after := input.policy.roots, AfterScan(host, st, input).snapshot;
            && after.Some?
            && (p in after.value <==> exists r | r in roots.protectedPaths + roots.monitorPaths :: Readable(input, r, p))
  {
    var all := input.policy.roots.protectedPaths + input.policy.roots.monitorPaths;
    var roots := Monitored(input.policy.roots);
    MonitoredOfLoadedPolicy(file, normalize);
    DedupeHasSameElements(all);
    PollingScanKnows(host, st, input, |roots|, p);
    hide Loaded, AfterScan, Monitored, Dedupe, Readable;
    forall r | r in all
      ensures exists i | 0 <= i < |roots| :: roots[i] == r
    {
      assert r in roots;
    }
    forall i | 0 <= i < |roots|
      ensures roots[i] in all
    {
      assert roots[i] in roots;
    }
  }

  /** A poll counts the paths at which what it knows differs from what was known, and a first poll none. */
  lemma PollCounts(host: Host, st: EnforcerState, input: ScanInput)
    requires !st.backend && st.pending == []
    ensures var after := AfterScan(host, st, input).snapshot;
            && after.Some?
            && StatsOf(host, st, input).pathEventsDetected
               == if st.snapshot.None? then 0 else |Differing(st.snapshot.value, after.value)|
  {
    hide Polled, Diff, Differing, Monitored, LastAfter, Verdicts, Count, OffersOf, Hook, TickOf, ListsMounts,
         MountsAfter, NewMountsOf, TreeErrors, ListingErrors, MountsIn, Reached, ResyncAfter;
    assert MatchedOf(host, st, input) == {} by {
      NothingMatches(st.pending, host.volumesRoot, input.policy.roots);
    }
    if st.snapshot.Some? {
      var list := ListingOf(ChangesOf(st, input));
      ListingSize(list, ChangesOf(st, input));
      ReportsAreExact(st.snapshot.value, Polled(input), list);
    }
  }

  lemma {:induction false} ListingOf(changes: set<Change>) returns (list: seq<Change>)
    ensures IsListingOf(list, changes)
  {
    if changes == {} {
      list := [];
    } else {
      var c :| c in changes;
      var rest := ListingOf(changes - {c});
      list := rest + [c];
    }
  }

  /** No operation of the run polls. */
  predicate NeverPolls(host: Host, st: EnforcerState, ops: seq<Op>) {
    ops != [] ==>
      var front, last := ops[..|ops| - 1], ops[|ops| - 1];
      var before := Run(host, st, front);
      NeverPolls(host, st, front) && (last.PerformScan? ==> before.backend || before.pending != [])
  }

  lemma {:induction false} OnlyPollsChangeSnapshot(host: Host, st: EnforcerState, ops: seq<Op>)
    requires NeverPolls(host, st, ops)
    ensures Run(host, st, ops).snapshot == st.snapshot
  {
    if ops != [] {
      hide AfterScan;
      var front, last := ops[..|ops| - 1], ops[|ops| - 1];
      OnlyPollsChangeSnapshot(host, st, front);
      if last.PerformScan? {
        EventsKeepSnapshot(host, Run(host, st, front), last.input);
      } else {
        OnlyScansChangeSnapshot(host, Run(host, st, front), last);
      }
    }
  }

  lemma EventsKeepSnapshot(host: Host, st: EnforcerState, input: ScanInput)
    requires st.backend || st.pending != []
    ensures AfterScan(host, st, input).snapshot == st.snapshot
  {
  }

  function KnownAt(st: EnforcerState, p: Path): Option<Fingerprint> {
    if st.snapshot.Some? && p in st.snapshot.value then Some(st.snapshot.value[p]) else None
  }

  /** A change of the trees between two polls is reported by the second: what appears, what goes, and what differs. */
  lemma ChangesBetweenPollsAreReported(
      host: Host, st: EnforcerState, first: ScanInput, m: nat, ops: seq<Op>, second: ScanInput, n: nat, p: Path)
    requires !st.backend && st.pending == [] && Visits(first, m)
    requires var between := AfterScan(host, st, first);
             NeverPolls(host, between, ops)
             && !Run(host, between, ops).backend && Run(host, between, ops).pending == [] && Visits(second, n)
    ensures var before := exists i | 0 <= i < m :: Readable(first, Monitored(first.policy.roots)[i], p);
            var after := exists i | 0 <= i < n :: Readable(second, Monitored(second.policy.roots)[i], p);
            var reports := ChangesOf(Run(host, AfterScan(host, st, first), ops), second);
            && (!before && after <==> exists c | c in reports :: c.Created? && c.path == p)
            && (before && !after <==> Deleted(p) in reports)
            && ((exists c | c in reports :: c.Modified? && c.path == p) <==>
                  && before && after
                  && KnownAt(AfterScan(host, st, first), p)
                     != KnownAt(AfterScan(host, Run(host, AfterScan(host, st, first), ops), second), p))
  {
    var between := AfterScan(host, st, first);
    var last := Run(host, between, ops);
    PollingScanKnows(host, st, first, m, p);
    OnlyPollsChangeSnapshot(host, between, ops);
    PollingScanKnows(host, last, second, n, p);
    VisitsReached(second, n);
    KnownIsPolled(host, last, second);
    hide AfterScan, Run, Polled, NeverPolls, Visits, Readable, Monitored;
    var known, current := between.snapshot.value, Polled(second);
    assert last.snapshot == Some(known);
    ReportsAt(known, current, p);
  }

  lemma KnownIsPolled(host: Host, st: EnforcerState, input: ScanInput)
    requires !st.backend && st.pending == []
    ensures AfterScan(host, st, input).snapshot == Some(Polled(input))
    ensures st.snapshot.Some? ==> ChangesOf(st, input) == Diff(st.snapshot.value, Polled(input))
  {
  }

  lemma ReportsAt(known: Snapshot, current: Snapshot, p: Path)
    ensures p !in known && p in current <==> exists c | c in Diff(known, current) :: c.Created? && c.path == p
    ensures p in known && p !in current <==> Deleted(p) in Diff(known, current)
    ensures (exists c | c in Diff(known, current) :: c.Modified? && c.path == p) <==>
              p in known && p in current && known[p] != current[p]
  {
    if p in current && p !in known {
      assert Created(p, current[p]) in Diff(known, current);
    }
    if p in current && p in known && known[p] != current[p] {
      assert Modified(p, current[p]) in Diff(known, current);
    }
  }

  // ----- the other numbers

  /** The mounts seen are the distinct non-empty ones of a listing; no attempt and a failure see none. */
  lemma MountsSeen(host: Host, st: EnforcerState, input: ScanInput)
    ensures StatsOf(host, st, input).mountsSeen
         == if ListsMounts(host, st) && input.listing.Listed? then |set m | m in input.listing.mounts && m != ""| else 0
    ensures StatsOf(host, st, input).timestamp == host.clock(st.readings)
  {
    hide Monitored, Matched, NewMounts, Polled, Diff, Verdicts, Count, OffersOf, TreeErrors, ListingErrors, Reached;
  }

  function Sum(numbers: seq<nat>): nat {
    if numbers == [] then 0 else Sum(numbers[..|numbers| - 1]) + numbers[|numbers| - 1]
  }

  /** Errors 13 (EACCES) and 1 (EPERM), and no others, are permission errors. */
  predicate FailsWithoutPermission(tree: TreeResult) {
    tree.TreeFailed? && (tree.errorCode == 13 || tree.errorCode == 1)
  }

  /** The visited roots that fail for lack of permission, by position. */
  function Forbidden(roots: seq<Path>, trees: Path -> TreeResult, n: nat): set<nat>
    requires n <= |roots|
  {
    set i: nat | i < n && FailsWithoutPermission(trees(roots[i]))
  }

  function DeniedEntries(roots: seq<Path>, trees: Path -> TreeResult, n: nat): seq<nat>
    requires n <= |roots|
  {
    seq(n, i requires 0 <= i < n => trees(roots[i]).denied)
  }

  lemma {:induction false} TreeErrorsCount(roots: seq<Path>, trees: Path -> TreeResult, n: nat)
    requires n <= |roots|
    ensures TreeErrors(roots, trees, n) == Sum(DeniedEntries(roots, trees, n)) + |Forbidden(roots, trees, n)|
  {
    if n > 0 {
      TreeErrorsCount(roots, trees, n - 1);
      assert DeniedEntries(roots, trees, n)[..n - 1] == DeniedEntries(roots, trees, n - 1);
      var before, fails := Forbidden(roots, trees, n - 1), FailsWithoutPermission(trees(roots[n - 1]));
      assert Forbidden(roots, trees, n) == before + if fails then {n - 1} else {};
    } else {
      assert Forbidden(roots, trees, 0) == {};
    }
  }

  function ErrorsOfListing(listing: Listing): nat {
    listing.denied + if listing.ListingFailed? && listing.errorCode in {1, 13} then 1 else 0
  }

  /**
   The permission errors of a scan: the denied entries of the listing and of the visited trees, one
   more if the listing is forbidden, and one more for each visited root that is.
   */
  lemma PermissionErrors(host: Host, st: EnforcerState, input: ScanInput, n: nat)
    requires Visits(input, n)
    ensures var roots := Monitored(input.policy.roots);
            StatsOf(host, st, input).permissionErrors
            == (if ListsMounts(host, st) then ErrorsOfListing(input.listing) else 0)
             + if st.backend || st.pending != [] then 0
               else Sum(DeniedEntries(roots, input.trees, n)) + |Forbidden(roots, input.trees, n)|
  {
    VisitsReached(input, n);
    TreeErrorsCount(Monitored(input.policy.roots), input.trees, n);
    hide Monitored, Matched, NewMounts, Polled, Diff, Verdicts, Count, OffersOf, MountsIn, Reached, TreeErrors;
  }

  /** Every alert is offered to the limiter, if notifications are on, and nothing else is. */
  lemma EveryAlertIsOffered(host: Host, st: EnforcerState, input: ScanInput)
    ensures var stats := StatsOf(host, st, input);
            |OffersOf(host, st, input)|
            == if input.policy.settings.notifications then stats.newMountsDetected + stats.pathEventsDetected else 0
    ensures forall i | 0 <= i < |OffersOf(host, st, input)| ::
              OffersOf(host, st, input)[i].at == host.clock(st.readings + 1 + i)
  {
    hide Monitored, Matched, NewMounts, Polled, Diff, Verdicts, Count, MountsIn, Reached, TreeErrors, ListingErrors;
  }

  // ----- the clipboard

  /** A scan that clears the clipboard has a policy that says so, outside debug mode, and its deadline has come. */
  lemma ClearingNeedsPolicy(host: Host, st: EnforcerState, input: ScanInput)
    ensures CallsBy(host, st, PerformScan(input)) == 1 <==>
              && input.policy.settings.clearClipboard && !input.policy.settings.debug && !st.clipboard.disabled
              && st.clipboard.deadline.Some? && host.clock(st.readings) >= st.clipboard.deadline.value
    ensures CallsBy(host, st, PerformScan(input)) == 1 && !input.clearSucceeds ==>
              AfterScan(host, st, input).clipboard.disabled
  {
    hide OffersOf, Polled, LastAfter, MountsAfter, ListsMounts;
  }

  /** Under a loaded policy that clears the clipboard, the first deadline is the configured seconds after the scan. */
  lemma FirstDeadline(host: Host, st: EnforcerState, input: ScanInput, file: File, normalize: Normalizer)
    requires input.policy == Loaded(file, normalize)
    requires input.policy.settings.clearClipboard && st.clipboard.deadline.None?
    ensures AfterScan(host, st, input).clipboard.deadline
         == Some(host.clock(st.readings) + SECOND * input.policy.settings.clipboardSeconds)
  {
    LoadedIntervalsAreUsed(file, normalize);
    hide Loaded, ClipboardInterval, RateLimit, OffersOf, Polled, LastAfter, MountsAfter, ListsMounts;
  }
}
