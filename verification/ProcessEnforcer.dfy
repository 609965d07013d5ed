/** The accounting of one scan of the process enforcer. */
module ProcessEnforcer {
  import opened Lists
  import opened Paths
  import opened Policy
  import opened Snapshots
  import opened Text

  /** What reading a process gives: its executable, or nothing. */
  datatype Reading =
    | Unreadable(denied: bool)
    | Readable(path: Path, name: string)

  /** What the kernel gives when asked for all processes. */
  datatype Enumeration = EnumerationFailed(errorCode: int) | Pids(raw: seq<int>)

  datatype Outcome = Skipped | Denied | Allowed | Violation

  datatype ProcessStats = ProcessStats(
    timestamp: int,
    totalProcessesChecked: nat,
    violationsDetected: nat,
    permissionErrors: nat)

  const EACCES := 13
  const EPERM := 1

  // ----- the list of pids

  function Insert(sorted: seq<int>, pid: int): seq<int> {
    if sorted == [] then [pid]
    else
      var n := |sorted| - 1;
      if sorted[n] < pid then sorted + [pid]
      else if sorted[n] == pid then sorted
      else Insert(sorted[..n], pid) + [sorted[n]]
  }

  lemma {:induction false} InsertMeetsSpec(sorted: seq<int>, pid: int)
    requires Ascending(sorted)
    ensures Ascending(Insert(sorted, pid))
    ensures forall x :: x in Insert(sorted, pid) <==> x in sorted || x == pid
  {
    if sorted != [] {
      var n := |sorted| - 1;
      AscendingFront(sorted);
      assert sorted == sorted[..n] + [sorted[n]];
      if sorted[n] > pid {
        InsertMeetsSpec(sorted[..n], pid);
        var r := Insert(sorted[..n], pid);
        forall i | 0 <= i < |r|
          ensures r[i] < sorted[n]
        {
          assert r[i] in r;
        }
      }
    }
  }

  /** The positive pids, sorted, each once. */
  function PidList(raw: seq<int>): seq<int> {
    if raw == [] then []
    else
      var front, last := PidList(raw[..|raw| - 1]), raw[|raw| - 1];
      if last > 0 then Insert(front, last) else front
  }

  lemma {:induction false} PidListMeetsSpec(raw: seq<int>)
    ensures Ascending(PidList(raw))
    ensures forall x :: x in PidList(raw) <==> x in raw && x > 0
  {
    if raw != [] {
      PidListMeetsSpec(raw[..|raw| - 1]);
      InsertMeetsSpec(PidList(raw[..|raw| - 1]), raw[|raw| - 1]);
      assert raw == raw[..|raw| - 1] + [raw[|raw| - 1]];
    }
  }

  /** The list depends only on which positive pids the kernel reports, not on their order or repetition. */
  lemma PidListIsCanonical(a: seq<int>, b: seq<int>)
    requires forall x | x > 0 :: x in a <==> x in b
    ensures PidList(a) == PidList(b)
  {
    PidListMeetsSpec(a);
    PidListMeetsSpec(b);
    AscendingIsUnique(PidList(a), PidList(b));
  }

  // ----- one process

  function ProcessName(path: Path, name: string): string {
    if Lower(name) == "" then Lower(Basename(path)) else Lower(name)
  }

  predicate PatternIgnores(path: Path, name: string, pattern: string) {
    var p := Lower(pattern);
    if p == "" then false
    else if p[0] == '/' then HasDirectoryPrefix(Lower(path), p)
    else ProcessName(path, name) != "" && ProcessName(path, name) == p
  }

  /** `should_ignore_process`. */
  predicate ShouldIgnoreProcess(path: Path, name: string, patterns: seq<string>) {
    exists p | p in patterns :: PatternIgnores(path, name, p)
  }

  /** Processes are ignored without regard to the case of their paths and names. */
  lemma IgnoringIgnoresCase(path: Path, other: Path, name: string, patterns: seq<string>)
    requires Lower(path) == Lower(other)
    ensures ShouldIgnoreProcess(path, name, patterns) == ShouldIgnoreProcess(other, name, patterns)
  {
    BasenameOfLower(path);
    BasenameOfLower(other);
    assert ProcessName(path, name) == ProcessName(other, name);
    assert forall p | p in patterns :: PatternIgnores(path, name, p) == PatternIgnores(other, name, p);
  }

  function Classify(policy: Policy, reading: Reading): Outcome {
    match reading
    case Unreadable(denied) => if denied then Denied else Skipped
    case Readable(path, name) =>
      if path == "" || path[0] != '/' then Skipped
      else if ShouldIgnoreProcess(path, name, policy.roots.ignorePaths) then Skipped
      else if ProcessAllowed(policy.rules, path) then Allowed
      else Violation
  }

  method IgnoresProcess(path: Path, name: string, patterns: seq<string>) returns (ignored: bool)
    ensures ignored == ShouldIgnoreProcess(path, name, patterns)
  {
    var normalizedPath := Lower(path);
    var normalizedName := Lower(name);
    if normalizedName == "" {
      normalizedName := Lower(Basename(path));
    }
    for i := 0 to |patterns|
      invariant !ShouldIgnoreProcess(path, name, patterns[..i])
    {
      if patterns[i] == "" {
        continue;
      }
      var pattern := Lower(patterns[i]);
      if pattern[0] == '/' {
        if HasDirectoryPrefix(normalizedPath, pattern) {
          assert PatternIgnores(path, name, patterns[i]);
          return true;
        }
        continue;
      }
      if normalizedName != "" && normalizedName == pattern {
        assert PatternIgnores(path, name, patterns[i]);
        return true;
      }
    }
    assert patterns[..|patterns|] == patterns;
    return false;
  }

  // ----- the scan

  /** The visited pids with one of the given outcomes. */
  function WithOutcome(policy: Policy, read: int -> Reading, visited: seq<int>, outcomes: set<Outcome>): set<int> {
    set pid | pid in visited && Classify(policy, read(pid)) in outcomes
  }

  /** The visited pids that the policy rejects, in the order of the visit. */
  function Rejected(policy: Policy, read: int -> Reading, visited: seq<int>): seq<int> {
    Filter(visited, pid => Classify(policy, read(pid)).Violation?)
  }

  lemma NextRejected(policy: Policy, read: int -> Reading, pids: seq<int>, i: nat)
    requires i < |pids|
    ensures Rejected(policy, read, pids[..i + 1])
         == Rejected(policy, read, pids[..i]) + if Classify(policy, read(pids[i])).Violation? then [pids[i]] else []
  {
    hide Classify;
    assert pids[..i + 1][..i] == pids[..i];
  }

  lemma NextVisited(policy: Policy, read: int -> Reading, pids: seq<int>, i: nat, outcomes: set<Outcome>)
    requires Ascending(pids) && i < |pids|
    ensures var more := if Classify(policy, read(pids[i])) in outcomes then 1 else 0;
            |WithOutcome(policy, read, pids[..i + 1], outcomes)| == |WithOutcome(policy, read, pids[..i], outcomes)| + more
  {
    hide Classify;
    assert pids[..i + 1] == pids[..i] + [pids[i]];
    var before, after := WithOutcome(policy, read, pids[..i], outcomes), WithOutcome(policy, read, pids[..i + 1], outcomes);
    assert pids[i] !in before;
    assert after == before + if Classify(policy, read(pids[i])) in outcomes then {pids[i]} else {};
  }

  /** Each visited pid falls into exactly one class. */
  lemma {:induction false} ClassesPartitionVisited(policy: Policy, read: int -> Reading, visited: seq<int>)
    requires Ascending(visited)
    ensures |visited| == |WithOutcome(policy, read, visited, {Skipped})| + |WithOutcome(policy, read, visited, {Denied})|
                         + |WithOutcome(policy, read, visited, {Allowed, Violation})|
  {
    hide Classify, WithOutcome;
    NothingVisited(policy, read);
    if visited != [] {
      var n := |visited| - 1;
      ClassesPartitionVisited(policy, read, visited[..n]);
      assert visited[..n + 1] == visited;
      var outcome := Classify(policy, read(visited[n]));
      assert outcome.Skipped? || outcome.Denied? || outcome.Allowed? || outcome.Violation?;
      assert outcome in {Skipped} || outcome in {Denied} || outcome in {Allowed, Violation};
      NextVisited(policy, read, visited, n, {Skipped});
      NextVisited(policy, read, visited, n, {Denied});
      NextVisited(policy, read, visited, n, {Allowed, Violation});
    }
  }

  lemma NothingVisited(policy: Policy, read: int -> Reading)
    ensures forall outcomes :: WithOutcome(policy, read, [], outcomes) == {}
    ensures Rejected(policy, read, []) == []
  {
  }

  /** A process is ignored exactly by a directory that contains its executable, or by its name, without regard to case. */
  lemma IgnoringMeans(path: Path, name: string, patterns: seq<string>)
    ensures ShouldIgnoreProcess(path, name, patterns) <==>
              exists p | p in patterns && p != "" ::
                if p[0] == '/' then HasDirectoryPrefix(Lower(path), Lower(p))
                else Lower(p) == Lower(if name == "" then Basename(path) else name)
  {
    BasenameOfLower(path);
    assert forall p: string | p != "" :: Lower(p)[0] == '/' <==> p[0] == '/';
    assert forall s: string :: Lower(s) == "" <==> s == "";
  }

  /** An executable that the scan looks at: its path is absolute, and it is not ignored. */
  predicate Inspected(policy: Policy, reading: Reading) {
    && reading.Readable? && reading.path != "" && reading.path[0] == '/'
    && !ShouldIgnoreProcess(reading.path, reading.name, policy.roots.ignorePaths)
  }

  /** The rules reject the executable: a blocked name is its own, or there are allowed names and none is. */
  predicate RulesReject(rules: Rules, path: Path) {
    || ProcessKeys(path) * rules.blockedProcesses != {}
    || (rules.allowedProcesses != {} && ProcessKeys(path) !! rules.allowedProcesses)
  }

  predicate Rejects(policy: Policy, reading: Reading) {
    Inspected(policy, reading) && RulesReject(policy.rules, reading.path)
  }

  lemma MeetingIsNotDisjoint(a: set<string>, b: set<string>)
    ensures a * b != {} <==> !(a !! b)
  {
    if x :| x in a && x in b {
      assert x in a * b;
    }
  }

  lemma InspectedMeans(policy: Policy, reading: Reading)
    ensures Classify(policy, reading).Violation? <==> Rejects(policy, reading)
    ensures Classify(policy, reading) in {Allowed, Violation} <==> Inspected(policy, reading)
    ensures Classify(policy, reading).Denied? <==> reading == Unreadable(true)
  {
    var outcome := Classify(policy, reading);
    assert outcome in {Allowed, Violation} <==> outcome.Allowed? || outcome.Violation?;
    if reading.Readable? {
      ProcessVerdict(policy.rules, reading.path);
      MeetingIsNotDisjoint(ProcessKeys(reading.path), policy.rules.blockedProcesses);
      MeetingIsNotDisjoint(ProcessKeys(reading.path), policy.rules.allowedProcesses);
      hide ProcessAllowed, ProcessKeys, ShouldIgnoreProcess;
    }
  }

  /** Reported are exactly the visited processes that are inspected and that the rules reject. */
  lemma ReportedMeans(policy: Policy, read: int -> Reading, visited: seq<int>)
    ensures forall pid :: pid in Rejected(policy, read, visited) <==>
              pid in visited && Rejects(policy, read(pid))
  {
    FilterMeetsSpec(visited, pid => Classify(policy, read(pid)).Violation?);
    hide Classify, Inspected, Rejects;
    forall pid
      ensures Classify(policy, read(pid)).Violation? <==>
                Rejects(policy, read(pid))
    {
      InspectedMeans(policy, read(pid));
    }
  }

  /** Checked are exactly the visited processes that are inspected; denied those whose reading was denied. */
  lemma CountedMeans(policy: Policy, read: int -> Reading, visited: seq<int>)
    ensures forall pid :: pid in WithOutcome(policy, read, visited, {Allowed, Violation}) <==>
              pid in visited && Inspected(policy, read(pid))
    ensures forall pid :: pid in WithOutcome(policy, read, visited, {Violation}) <==>
              pid in visited && Rejects(policy, read(pid))
    ensures forall pid :: pid in WithOutcome(policy, read, visited, {Denied}) <==>
              pid in visited && read(pid) == Unreadable(true)
  {
    hide Classify, Inspected, Rejects;
    forall pid
      ensures Classify(policy, read(pid)).Violation? <==>
                Rejects(policy, read(pid))
      ensures Classify(policy, read(pid)) in {Allowed, Violation} <==> Inspected(policy, read(pid))
      ensures Classify(policy, read(pid)).Denied? <==> read(pid) == Unreadable(true)
    {
      InspectedMeans(policy, read(pid));
    }
  }

  class ProcessEnforcer {
    var lastScanStats: ProcessStats

    constructor ()
      ensures lastScanStats == ProcessStats(0, 0, 0, 0)
    {
      lastScanStats := ProcessStats(0, 0, 0, 0);
    }

    /**
     `perform_scan`; `visited` and `reported` are the processes it read and those it raised an alert for,
     `notified` those it notified the user of: none in debug mode.
     */
    method PerformScan(policy: Policy, enumeration: Enumeration, read: int -> Reading, stopSeen: nat -> bool, now: int)
      returns (visited: seq<int>, reported: seq<int>, notified: seq<int>)
      modifies this
      ensures var pids := if enumeration.Pids? then PidList(enumeration.raw) else [];
              visited == pids[..Reached(stopSeen, 0, |pids|)]
      ensures reported == Rejected(policy, read, visited)
      ensures forall pid :: pid in reported <==>
                pid in visited && Rejects(policy, read(pid))
      ensures notified == if policy.settings.debug then [] else reported
      ensures lastScanStats == ProcessStats(
                now,
                |WithOutcome(policy, read, visited, {Allowed, Violation})|,
                |WithOutcome(policy, read, visited, {Violation})|,
                |WithOutcome(policy, read, visited, {Denied})|
                + if enumeration.EnumerationFailed? && enumeration.errorCode in {1, 13} then 1 else 0)
    {
      hide Classify, WithOutcome, Rejected, PidList, Rejects;
      visited, reported, notified := [], [], [];
      NothingVisited(policy, read);
      var stats := ProcessStats(now, 0, 0, 0);
      if enumeration.EnumerationFailed? {
        if enumeration.errorCode == EACCES || enumeration.errorCode == EPERM {
          stats := stats.(permissionErrors := 1);
        }
        lastScanStats := stats;
        ReportedMeans(policy, read, visited);
        return;
      }
      var pids := PidList(enumeration.raw);
      PidListMeetsSpec(enumeration.raw);
      var i := 0;
      while i < |pids|
        invariant i <= |pids| && Reached(stopSeen, 0, |pids|) == Reached(stopSeen, i, |pids|)
        invariant reported == Rejected(policy, read, pids[..i])
        invariant notified == if policy.settings.debug then [] else reported
        invariant stats == ProcessStats(
                    now,
                    |WithOutcome(policy, read, pids[..i], {Allowed, Violation})|,
                    |WithOutcome(policy, read, pids[..i], {Violation})|,
                    |WithOutcome(policy, read, pids[..i], {Denied})|)
      {
        if stopSeen(i) {
          break;
        }
        NextVisited(policy, read, pids, i, {Allowed, Violation});
        NextVisited(policy, read, pids, i, {Violation});
        NextVisited(policy, read, pids, i, {Denied});
        NextRejected(policy, read, pids, i);
        var violation;
        stats, violation := Inspect(policy, read(pids[i]), stats);
        if violation {
          reported := reported + [pids[i]];
          if !policy.settings.debug {
            notified := notified + [pids[i]];
          }
        }
        i := i + 1;
      }
      visited := pids[..i];
      ReportedMeans(policy, read, visited);
      lastScanStats := stats;
    }
  }

  /** The body of the scan's loop, for one process. */
  method Inspect(policy: Policy, reading: Reading, before: ProcessStats) returns (stats: ProcessStats, violation: bool)
    ensures var outcome := Classify(policy, reading);
            && violation == outcome.Violation?
            && stats == before.(
                 totalProcessesChecked := before.totalProcessesChecked + if outcome in {Allowed, Violation} then 1 else 0,
                 violationsDetected := before.violationsDetected + if outcome.Violation? then 1 else 0,
                 permissionErrors := before.permissionErrors + if outcome.Denied? then 1 else 0)
  {
    stats, violation := before, false;
    if reading.Unreadable? {
      if reading.denied {
        stats := stats.(permissionErrors := stats.permissionErrors + 1);
      }
      return;
    }
    if reading.path == "" || reading.path[0] != '/' {
      return;
    }
    var ignored := IgnoresProcess(reading.path, reading.name, policy.roots.ignorePaths);
    if ignored {
      return;
    }
    stats := stats.(totalProcessesChecked := stats.totalProcessesChecked + 1);
    if !ProcessAllowed(policy.rules, reading.path) {
      stats := stats.(violationsDetected := stats.violationsDetected + 1);
      violation := true;
    }
  }

  // ----- the scan interval

  /** `resolve_scan_interval`, in milliseconds. */
  function ScanIntervalMs(policy: Policy): int {
    var raw := policy.settings.processScanSeconds;
    if raw <= 0 then 2000
    else
      var interval := if raw >= 250 then raw else raw * 1000;
      if interval < 250 then 250 else interval
  }

  /** The configured seconds are honoured exactly below 250; from there on they count as milliseconds. */
  lemma ScanIntervalInSeconds(policy: Policy)
    requires policy.settings.processScanSeconds >= 1
    ensures ScanIntervalMs(policy) == policy.settings.processScanSeconds * 1000 <==>
              policy.settings.processScanSeconds < 250
    ensures policy.settings.processScanSeconds >= 250 ==> ScanIntervalMs(policy) == policy.settings.processScanSeconds
    ensures ScanIntervalMs(policy) >= 250
  {
  }
}
