# A Dafny model of the monitoring agent's scanning engine

The agent watches a macOS machine during an exam: a process enforcer and a filesystem enforcer run one
worker thread each, read a policy from a `ConfigManager`, and report what the policy forbids; the agent's
own loop writes heartbeats. This project models the state machines behind that behaviour and proves what
they keep over whole runs. `dafny verify dfyconfig.toml` checks all of it.

## How the model is built

| module | models |
|---|---|
| `Lifecycle` | `start`, `stop` and `scan_loop` of both enforcers, as interleaved atomic steps |
| `FilesystemEnforcer` | the fields and methods of the filesystem enforcer, as a class |
| `Scan`, `ScanMeaning` | one scan as a function of the state and of what the system answers, against which the methods are proved, and what it finds in terms of its inputs alone |
| `ScanRuns`, `MountFreshness` | theorems about runs of callbacks, stream starts and stops, and scans |
| `Composition` | the lifecycle protocol and the enforcer together: threads make runs of the enforcer |
| `RateLimiter`, `Clipboard`, `Snapshots` | the notification limiter, the clipboard deadline and the tree comparison, over whole runs |
| `Config`, `LoadedPolicies`, `LoadedValues`, `Policy` | loading a policy, the class `ConfigManager`, which policies a load can produce, what a file's strings and numbers become, and the verdicts on processes, domains and mounts |
| `Paths`, `Lists`, `Text`, `Timing` | directory prefixes, order-preserving de-duplication, ASCII case, intervals in a span of time |
| `ProcessEnforcer` | the accounting of one process scan |
| `Agent` | the heartbeat loop |

The operating system is an arbitrary input. A host is a clock (the `n`-th reading may be any number of
nanoseconds) and the name of the volumes root. A scan is given a policy, the outcome of listing the mounts,
the outcome of reading each tree, whether a stop is seen before each root, and the answer of the clipboard.
Within one scan the policy is fixed; it may change from scan to scan. Notifications take clock readings of
their own, one for each offer. A process scan is given the raw list of pids and what reading each pid gives.

Methods that visit a set or a map take its elements in any order and return the order they chose, so that
what is proved does not depend on the iteration order of a hash table. A callback that enqueues an event in
the middle of a scan is the same, for the state, as one right after it, since the scan empties the queue once
and first; `Composition` therefore makes a scan's work on the enforcer one step, at the scan's beginning.

In the lifecycle protocol every critical section is one step, and every load or store of an atomic flag
outside a critical section is one step. A notification wakes only a worker that waits already, so a stop
request that falls between the evaluation of the wait predicate and the wait itself is lost. Any number of
callers (named by numbers) call `start` and `stop`, and any number of worker generations follow each other.
The process enforcer is the case in which no event is ever pending.

JSON is an already parsed value whose object keys are the keys the loader knows, and all others. Integers are
converted to 32 bits with wrap-around, as `get<int>()` does. Path normalisation is an arbitrary partial
function from strings to strings; only the exact description of what a load can produce
(`LoadedPolicies`) needs it to leave normalised paths alone.

## What the code does that one might not expect

These are consequences of the code, each with a lemma.

- A stop request can be cleared by a later `start` while the caller still waits: with two callers, the
  request of the slower one can be stored after the faster one has taken the worker
  (`Lifecycle.RequestCanBeCleared`). Exactly: a start clears a pending request if and only if no thread is in
  `worker_`, and then no worker is active (`Lifecycle.StartClearsOnlyStaleRequests`); and an active worker is
  asked to stop if and only if some caller has stored its request since that worker was started
  (`Lifecycle.RequestedIffAsked`).
- A stop's wake-up can be lost (`Lifecycle.WakeUpCanBeLost`). Exactly: a worker that was asked to stop can wait
  after the notification if and only if the notification finds it between its wait predicate and its wait
  (`Lifecycle.NotificationLostIffParking`). The timed wait bounds the delay (`Lifecycle.StopIsBounded`,
  `Lifecycle.EnoughStepsRetire`).
- When the clock goes back, the limiter lets a notification through at once
  (`RateLimiter.StepBackBreaksSpacing`). The gaps hold exactly on the runs in which that branch is never taken
  (`RateLimiter.SpacedIffNoStepBack`). For any clock, the number of notifications is bounded by the clock's
  advance and the number of times the branch is taken (`ScanRuns.NotificationsUnderAnyClock`); by the range of the
  clock it is not (`RateLimiter.RangeIsNotEnough`).
- The knowledge of the mounts can be 60 s old or older after a scan in event mode. A scan sets the resync stamp
  without an attempt to list them when there is no stamp, the mounts are known and no volume event is pending
  (`MountFreshness.StaleAfterPolling`), and it sets the stamp after an attempt that failed as well
  (`MountFreshness.StaleAfterFailure`); either puts the next attempt off. Exactly: on a steady clock, a scan leaves
  the last successful listing 60 s old or older if and only if it was that old before, and the scan's own listing
  fails, or the scan sets the stamp without an attempt, or nothing asks for a listing and a stamp that was set
  without an attempt or at a failed one is less than 60 s old (`MountFreshness.MountsStaleIff`). If the first scan
  is made in event mode and no listing fails, the mounts are never that stale (`MountFreshness.MountsAreFresh`).
  For the last attempt only the branch without one matters (`MountFreshness.AttemptOldIffStampedUnlisted`), so from
  a first scan in event mode on the last attempt is always recent (`MountFreshness.AttemptsAreRecent`).
- The file that the constructor creates in place of one that does not load protects a fixed
  directory, which the built-in defaults do not (`LoadedPolicies.CreatedFileLoadsDefaults`).
- A JSON integer outside 32 bits, but within 64, is not rejected: it wraps, and is then compared with the minimum
  (`Config.HugeIntervalWraps`). From the minimum on, an integer is honoured if and only if it fits into 32 bits
  (`Config.IntegersHonouredWithin32Bits`). Numbers outside 64 bits are rejected: the parser makes them fractions.
- A process scan interval of 250 or more counts as milliseconds although the setting is in seconds
  (`ProcessEnforcer.ScanIntervalInSeconds`).
- Naming a first allowed domain can forbid a domain that was permitted before: an empty list permits all
  (`Policy.FirstAllowedPatternForbids`).
- Ignore patterns such as `/bin/` do not cover the directory `/bin` itself unless normalisation drops the
  slash (`Paths.TrailingSlashExcludesRoot`).

## Model

| member | source | states |
|---|---|---|
| `Lifecycle.AtMostOneWorker` | src/filesystem/filesystem_enforcer.cpp:518-664 | In every interleaving of any callers and worker generations at most one worker is between entering `scan_loop` and setting `worker_exited_`; while it is, it is the thread in `worker_`, `worker_exited_` is false, and `running_` holds exactly until its own store of false |
| `Lifecycle.RunKeepsInv` | src/filesystem/filesystem_enforcer.cpp:518-664 | The invariant behind the safety results (flags describe the latest worker, every thread has one owner) holds in every state of every run that starts with it |
| `Lifecycle.RetiredWorkersAreSilent` | src/filesystem/filesystem_enforcer.cpp:657-663 | A worker that has a successor, or has reported its exit, never changes a shared field again: no late store lands on a successor |
| `Lifecycle.StartSucceedsIffIdle` | src/filesystem/filesystem_enforcer.cpp:525-543 | In every reachable state `start` succeeds exactly when `worker_` is not joinable and a thread is granted; the test of `running_` never decides |
| `Lifecycle.ThreadsAreNeverLost` | src/filesystem/filesystem_enforcer.cpp:551-593 | Every thread ever started is in `worker_`, or with exactly one caller about to join it, or joined; joins only wait for workers that have reported their exit |
| `Lifecycle.StopMeansStopped` | src/filesystem/filesystem_enforcer.cpp:551-593 | With no start during the call, a `stop` that returns true leaves no active worker, whichever caller did the join |
| `Lifecycle.StopIsBounded` | src/filesystem/filesystem_enforcer.cpp:569-578 | Once a stop is requested for an active worker, in any continuation the request stays, at most one more scan begins, and the worker has at most ten steps left, lost notification or not |
| `Lifecycle.StoppingProgresses` | src/filesystem/filesystem_enforcer.cpp:640-663 | Each step of such a worker lowers its rank; nobody else raises it, and no `start` clears the request while the worker is active |
| `Lifecycle.OwedMovesRetire` | src/filesystem/filesystem_enforcer.cpp:640-663 | Without steps of others, if scans return and timed waits expire, a worker that was asked to stop retires within ten moves |
| `Lifecycle.EnoughStepsRetire` | src/filesystem/filesystem_enforcer.cpp:640-663 | Under any interleaving, a worker that was asked to stop has retired once it has made as many steps as its rank, ten at most, and until then the return of its scan, the expiry of its wait or its next step is possible |
| `Lifecycle.WaitingStopCanSucceed` | src/filesystem/filesystem_enforcer.cpp:572-592 | From any reachable state where all active workers are asked to stop, a waiting caller can return true within twelve steps of itself and the worker |
| `Lifecycle.WakeUpCanBeLost` | src/filesystem/filesystem_enforcer.cpp:569-570 | A reachable state in which the request and its notification have passed and the worker waits all the same: the input for which the wake-up is lost |
| `Lifecycle.NotificationLostIffParking` | src/filesystem/filesystem_enforcer.cpp:569-570 | In any state of the protocol, an active worker that was asked to stop can still wait after the notification if and only if the notification finds it between its wait predicate and its wait |
| `Lifecycle.RequestedIffAsked` | src/filesystem/filesystem_enforcer.cpp:551-570 | In any run, an active worker is asked to stop if and only if some caller has stored its request since that worker was started |
| `Lifecycle.StartClearsOnlyStaleRequests` | src/filesystem/filesystem_enforcer.cpp:532-532 | A `start` clears a pending stop request if and only if no thread is in `worker_`; then no worker is active |
| `Lifecycle.RequestCanBeCleared` | src/filesystem/filesystem_enforcer.cpp:551-578 | A reachable state in which a caller waits in `stop` for a newer worker that nobody has asked to stop: the input for which a request is lost |
| `Lifecycle.WorkerKeepsScanning` | src/filesystem/filesystem_enforcer.cpp:640-653 | Without a stop request and without exceptions the worker stays in its loop: nothing else ends it |
| `Lifecycle.StartedIsUndisturbed` | src/filesystem/filesystem_enforcer.cpp:525-543 | A successful `start` from any reachable state leaves its worker in the loop with no request pending, whatever was requested before |
| `Lifecycle.NextScanComes` | src/filesystem/filesystem_enforcer.cpp:640-653 | If scans return and waits expire, a worker that nobody has asked to stop begins another scan within six of its own moves |
| `Lifecycle.NoScanWithoutReason` | src/filesystem/filesystem_enforcer.cpp:645-650 | After a scan, with no event pending and no stop request, no wake-up leads to another scan: only the end of the interval does |
| `Lifecycle.PendingKeepsAwake` | src/filesystem/filesystem_enforcer.cpp:647-650 | While events are pending, in any interleaving, a worker that is not waiting yet does not wait: it scans again first |
| `Lifecycle.EventWakeLostIffParking` | src/filesystem/filesystem_enforcer.cpp:647-650 | A worker can wait, with the event pending, after the event's notification if and only if that finds it between its wait predicate and its wait |
| `Lifecycle.StopEndsAtOnceIffIdle` | src/filesystem/filesystem_enforcer.cpp:558-566 | A `stop` ends in its first section if and only if no thread is in `worker_` |
| `Lifecycle.StopFailsOnlyWhileActive` | src/filesystem/filesystem_enforcer.cpp:573-584 | A `stop` that gives up does so only while some worker is active |
| `Lifecycle.WorkerControl.constructor` | src/filesystem/filesystem_enforcer.cpp:465-495 | A fresh enforcer is idle: no worker, exited, not running, no request |
| `Lifecycle.WorkerControl.Start` | src/process/process_enforcer.cpp:132-173 | The critical section of `start` as a whole, including a refused thread: it is the transition the protocol uses |
| `Lifecycle.WorkerControl.BeginStop` | src/filesystem/filesystem_enforcer.cpp:556-566 | The first critical section of `stop`: done at once exactly when there is no worker, with all four fields cleaned up |
| `Lifecycle.WorkerControl.FinishStop` | src/filesystem/filesystem_enforcer.cpp:573-580 | The section after the wait: exactly if the exit was seen, the thread is taken over and `worker_` emptied |
| `Lifecycle.WorkerControl.Execute` | src/filesystem/filesystem_enforcer.cpp:518-593 | The stores of the class, made in the order of the source, are the shared part of every step of the protocol, so what is proved of its runs holds of the fields |
| `Composition.EnforcerRuns` | src/filesystem/filesystem_enforcer.cpp:623-664 | In any interleaving of callers, worker generations and callbacks, the enforcer is in the state that its operations, one by one in their order, leave |
| `Composition.ControlRuns` | src/filesystem/filesystem_enforcer.cpp:518-664 | The threads of any such interleaving follow the lifecycle protocol, and the flag that the wait predicate reads is the enforcer's `has_pending_events_` |
| `Composition.OneHolder` | src/filesystem/filesystem_enforcer.cpp:623-664 | Openings, scans and closings of the event stream alternate by generation, the one worker inside its loop is the one that opened it and has not closed it, and the stream is up exactly while a holder that was granted one holds it |
| `Composition.ScansAreUndisturbed` | src/filesystem/filesystem_enforcer.cpp:640-642 | While a worker scans, no other thread opens, scans or closes: only arriving events touch the enforcer |
| `Composition.StopClosesStream` | src/filesystem/filesystem_enforcer.cpp:551-593 | A `stop` that returns true, with no start during the call, leaves the event stream closed |
| `Composition.ArrivalsAreNotSleptOn` | src/filesystem/filesystem_enforcer.cpp:645-650 | In any interleaving, from the arrival of an event at a worker that is not waiting until its next scan, no wait of that worker expires: an event that arrives during a scan leads to another scan at once |
| `FilesystemEnforcer.FilesystemEnforcer.Execute` | src/filesystem/filesystem_enforcer.cpp:666-721 | Every operation of the class, in any state, is one step of the abstract machine, with the alerts, notices and clipboard calls of that step |
| `FilesystemEnforcer.FilesystemEnforcer.ExecuteAll` | src/filesystem/filesystem_enforcer.cpp:666-721 | Any list of operations on the class leaves the fields as the abstract run of them does, and reports changes that are a change log of it; from a fresh enforcer, the notices delivered, the `clear()` calls and the alerts for each mount are as many as in that run |
| `FilesystemEnforcer.FilesystemEnforcer.PerformScan` | src/filesystem/filesystem_enforcer.cpp:666-721 | A whole scan against its specification: new state, published statistics, the alerts as listings of the specified sets in any order, notices delivered and clipboard calls |
| `FilesystemEnforcer.FilesystemEnforcer.ScanMountsAndPaths` | src/filesystem/filesystem_enforcer.cpp:684-708 | Which of listing, event matching and polling a scan does, and what each leaves, for all combinations of backend, pending events, stamp and baseline |
| `FilesystemEnforcer.FilesystemEnforcer.ResyncDue` | src/filesystem/filesystem_enforcer.cpp:685-695 | The 60 s resync: decides the listing as specified and leaves the stamp at the scan time whenever it lists or had no stamp |
| `FilesystemEnforcer.FilesystemEnforcer.MonitorVolumes` | src/filesystem/filesystem_enforcer.cpp:723-794 | Alerts are a listing of the mounts that are new and not allowed; a failed listing and the first listing raise none and a failure changes nothing in `known_mounts_`; all counters |
| `FilesystemEnforcer.FilesystemEnforcer.AlertNewMounts` | src/filesystem/filesystem_enforcer.cpp:766-791 | The loop over the mounts raises each alert once, in any order, and counts what it delivers |
| `FilesystemEnforcer.FilesystemEnforcer.MonitorPathsFromEvents` | src/filesystem/filesystem_enforcer.cpp:796-861 | Counts exactly the distinct matching paths of the batch; at most 32 are logged, logged and suppressed add up to matched, and none is suppressed before 32 are logged |
| `FilesystemEnforcer.FilesystemEnforcer.MonitorPathsPolling` | src/filesystem/filesystem_enforcer.cpp:863-953 | The baseline poll reports nothing; a later one reports a listing of exactly the differences; the known snapshot becomes the assembled one, also when a stop cuts the assembly short |
| `FilesystemEnforcer.FilesystemEnforcer.AssembleSnapshot` | src/filesystem/filesystem_enforcer.cpp:870-900 | The snapshot is the union of the readable roots before the first one at which a stop is seen, and the denied accesses are counted |
| `FilesystemEnforcer.FilesystemEnforcer.CompareSnapshots` | src/filesystem/filesystem_enforcer.cpp:912-929 | The two loops report every difference exactly once, in whatever order the maps are visited |
| `FilesystemEnforcer.FilesystemEnforcer.ReportEvents` | src/filesystem/filesystem_enforcer.cpp:931-950 | Every change is counted and offered to the limiter in turn; at most 32 are logged, and the rest is the suppressed number |
| `FilesystemEnforcer.FilesystemEnforcer.Matches` | src/filesystem/filesystem_enforcer.cpp:826-842 | The early exits compute the specified conjunction of the three filters |
| `FilesystemEnforcer.ReadMonitoredPaths` | src/filesystem/filesystem_enforcer.cpp:1313-1349 | The loops with their set of seen paths compute the filtered, de-duplicated concatenation |
| `FilesystemEnforcer.CollectMounts` | src/filesystem/filesystem_enforcer.cpp:748-754 | The set of the listed non-empty mounts |
| `FilesystemEnforcer.FilesystemEnforcer.constructor` | src/filesystem/filesystem_enforcer.cpp:465-495 | A fresh enforcer is the initial state of the runs; an empty volumes root means `/Volumes` |
| `FilesystemEnforcer.FilesystemEnforcer.EnqueuePathEvent` | src/filesystem/filesystem_enforcer.cpp:1101-1115 | Empty paths are dropped; others go to the end of the queue, and both flags rise exactly as they should |
| `FilesystemEnforcer.FilesystemEnforcer.DrainPendingEvents` | src/filesystem/filesystem_enforcer.cpp:1079-1099 | The whole batch and the volume flag are handed out and nothing stays pending |
| `FilesystemEnforcer.FilesystemEnforcer.StartEventStream` | src/filesystem/filesystem_enforcer.cpp:955-1050 | A stream that is up stays up; otherwise it is up exactly if the system grants one; nothing else changes |
| `FilesystemEnforcer.FilesystemEnforcer.StopEventStream` | src/filesystem/filesystem_enforcer.cpp:1052-1077 | Without a backend nothing happens, not even to pending events; with one, the queue and both flags are cleared |
| `FilesystemEnforcer.FilesystemEnforcer.EmitNotificationIfAllowed` | src/filesystem/filesystem_enforcer.cpp:1268-1291 | Reads the clock once exactly if notifications are on, delivers exactly if the limiter agrees, and counts what was delivered |
| `FilesystemEnforcer.FilesystemEnforcer.ShouldEmitNotification` | src/filesystem/filesystem_enforcer.cpp:1293-1311 | The three branches of the limiter, and what it remembers |
| `FilesystemEnforcer.FilesystemEnforcer.RunClipboardHook` | src/filesystem/filesystem_enforcer.cpp:1164-1220 | The hook refines the deadline machine, including when it calls `clear()` and when it disables itself |
| `FilesystemEnforcer.ScanEmission` | src/filesystem/filesystem_enforcer.cpp:1268-1311 | The effect of a scan on the limiter and the number of notifications depend on how many alerts there are, not on their order |
| `FilesystemEnforcer.ScanAssembles` | src/filesystem/filesystem_enforcer.cpp:666-721 | The parts of a scan, made in sequence on shared fields, add up to the one-step specification |
| `ScanRuns.QueueConservation` | src/filesystem/filesystem_enforcer.cpp:1079-1115 | Under any interleaving, the non-empty enqueued paths in order are the drained and dropped batches in order followed by the pending list |
| `ScanRuns.QueueFlags` | src/filesystem/filesystem_enforcer.cpp:1088-1113 | In every reachable state `has_pending_events_` holds exactly when something is pending, and `volumes_event_pending_` exactly when some pending path lies under the volumes root |
| `ScanRuns.VolumeEventListsMounts` | src/filesystem/filesystem_enforcer.cpp:684-698 | Every scan that drains an event under the volumes root lists the mounts in that scan, with a backend or without |
| `ScanRuns.ResyncStampIsRecent` | src/filesystem/filesystem_enforcer.cpp:684-700 | After every scan in event mode the stamp is set and less than 60 s old |
| `ScanRuns.UnaskedListingIsPeriodic` | src/filesystem/filesystem_enforcer.cpp:685-695 | In event mode, with a baseline and no volume event pending, the mounts are listed exactly if 60 s have passed since the stamp |
| `MountFreshness.MountsStaleIff` | src/filesystem/filesystem_enforcer.cpp:684-700 | On a steady clock, a scan leaves the last successful listing 60 s old or older if and only if it was that old before, and the listing of the scan fails, or the scan sets the stamp without an attempt, or nothing asks for a listing and a stamp set without an attempt or at a failed one is less than 60 s old; and the same by the stamp's time alone |
| `MountFreshness.MountsFreshWheneverScanned` | src/filesystem/filesystem_enforcer.cpp:684-700 | The next scan, if its listing does not fail, leaves the mounts known as of the last 60 s whenever it comes, if and only if it lists in any case, or a stamp is set and was not set without a listing after the last successful one, unless that was 60 s ago |
| `MountFreshness.MountsAreFresh` | src/filesystem/filesystem_enforcer.cpp:684-700 | A consequence for whole runs: if the first scan is made in event mode and no listing fails, every event-mode scan ends with the last successful listing less than 60 s old |
| `MountFreshness.AttemptOldIffStampedUnlisted` | src/filesystem/filesystem_enforcer.cpp:684-700 | A scan leaves the last attempt to list the mounts 60 s old or older if and only if the one before it is that old, and the scan sets the stamp without an attempt or is held back by a recent stamp that was set so |
| `MountFreshness.AttemptRecentWheneverScanned` | src/filesystem/filesystem_enforcer.cpp:684-700 | The next scan leaves a recent attempt whenever it comes, if and only if it lists in any case, or a stamp is set and was not set without an attempt after the last one, unless that was 60 s ago |
| `MountFreshness.AttemptsAreRecent` | src/filesystem/filesystem_enforcer.cpp:684-700 | If the first scan is made in event mode, every event-mode scan ends with the last attempt less than 60 s old, failed listings or not |
| `MountFreshness.StampAheadIffUnlisted` | src/filesystem/filesystem_enforcer.cpp:688-690 | The stamp is later than the last attempt if and only if it was set by the branch without one, after that attempt |
| `MountFreshness.StaleAfterPolling` | src/filesystem/filesystem_enforcer.cpp:686-690 | An input for which the mounts get stale: an event-mode scan after polling leaves them 1000 s old |
| `MountFreshness.StaleAfterFailure` | src/filesystem/filesystem_enforcer.cpp:696-700 | Another one: in event mode from the start, the scan after a failed listing leaves them 119 s old |
| `ScanRuns.OneLimiter` | src/filesystem/filesystem_enforcer.cpp:1268-1311 | The published notification counts of a whole run, mount alerts and path events together, are those of one limiter fed with all offers in order |
| `ScanRuns.NotificationsAreOptimal` | src/filesystem/filesystem_enforcer.cpp:1293-1311 | With a steady clock and a fixed limit, the notifications of a run are spaced, and no spaced selection of the offers is larger |
| `ScanRuns.NotificationsInWindow` | src/filesystem/filesystem_enforcer.cpp:1293-1311 | Any stretch of the offers of a run that spans at most w holds at most w / interval + 1 notifications |
| `ScanRuns.NotificationsUnderAnyClock` | src/filesystem/filesystem_enforcer.cpp:1293-1311 | For any clock at all, a stretch of the offers of a run holds at most advance / interval + 1 notifications, and one more for each time the backward branch is taken in it |
| `ScanRuns.ReportsRebuildSnapshot` | src/filesystem/filesystem_enforcer.cpp:863-953 | Over any run after a baseline, replaying all created, modified and deleted reports, each scan's in any order, rebuilds `known_path_snapshot_` exactly, also with event scans in between |
| `ScanRuns.RunReportsAreLegal` | src/filesystem/filesystem_enforcer.cpp:908-929 | The same over a whole run, for each report and the state that the reports before it leave |
| `ScanRuns.AlertsAreAppearances` | src/filesystem/filesystem_enforcer.cpp:723-794 | Over any run the number of alerts for a mount is the number of successful listings after the first in which it is present, was absent from the successful listing before, and is not allowed by the policy of that scan |
| `ScanRuns.ClipboardFollowsTicks` | src/filesystem/filesystem_enforcer.cpp:1164-1220 | The clipboard state of a run depends on the scans alone, through what each shows to the hook |
| `ScanRuns.ClipboardRunBound` | src/filesystem/filesystem_enforcer.cpp:1164-1220 | With a steady clock and fixed interval I, a run whose scans span T makes at most T / I `clear()` calls |
| `RateLimiter.LimiterIsOptimal` | src/filesystem/filesystem_enforcer.cpp:1293-1311 | On offers in order of time, the greedy limiter lets through a largest selection with gaps of at least the interval |
| `RateLimiter.SpacedIffNoStepBack` | src/filesystem/filesystem_enforcer.cpp:1301-1304 | For any clock, the gaps are kept if and only if no offer comes before the last notification let through |
| `RateLimiter.StepBackBreaksSpacing` | src/filesystem/filesystem_enforcer.cpp:1301-1304 | A clock that goes back ten ticks gets two notifications through within the interval |
| `RateLimiter.AdvancePays` | src/filesystem/filesystem_enforcer.cpp:1293-1311 | Each notification but the first one and those of the backward branch uses up an interval of the clock's forward movement |
| `RateLimiter.WindowBoundWithStepBacks` | src/filesystem/filesystem_enforcer.cpp:1301-1309 | The bound of advance / interval + 1 + steps back for any window of any list of offers |
| `RateLimiter.RangeIsNotEnough` | src/filesystem/filesystem_enforcer.cpp:1301-1304 | The range of the clock cannot take the place of its advance: offers within one interval, n - 1 steps back, and 2n notifications |
| `RateLimiter.GreedyStaysAhead` | src/filesystem/filesystem_enforcer.cpp:1293-1311 | With as many choices as the limiter, no other spaced selection ends earlier: the exchange argument |
| `RateLimiter.WindowBound` | src/filesystem/filesystem_enforcer.cpp:1306-1309 | At most w / interval + 1 verdicts in any window of width w |
| `Clipboard.CallsAreSpaced` | src/filesystem/filesystem_enforcer.cpp:1186-1196 | Two `clear()` calls are at least the interval apart, also when the policy is switched off and on in between |
| `Clipboard.CallsAreLate` | src/filesystem/filesystem_enforcer.cpp:1186-1190 | No call comes sooner than one interval after the first scan |
| `Clipboard.CallBound` | src/filesystem/filesystem_enforcer.cpp:1164-1220 | At most T / I calls in a run that spans T |
| `Clipboard.NoCallAfterFailure` | src/filesystem/filesystem_enforcer.cpp:1198-1217 | After one failed call there is never another, whatever the policy does |
| `Clipboard.CallsAgainWhenDue` | src/filesystem/filesystem_enforcer.cpp:1181-1219 | While the policy stays on, without debug mode and failures, the first scan at least one interval after a call calls again |
| `Clipboard.NoCallInDebugMode` | src/filesystem/filesystem_enforcer.cpp:1181-1205 | No call in debug mode or while the policy is off |
| `Clipboard.ClearsIffDue` | src/filesystem/filesystem_enforcer.cpp:1164-1220 | For any clock and any intervals: a scan clears the clipboard if and only if an uninterrupted interval with the policy on has ended, it is not made in debug mode, and no earlier call has failed; switching the policy off starts afresh |
| `Snapshots.ReplayRebuilds` | src/filesystem/filesystem_enforcer.cpp:912-929 | Replaying one scan's reports in any order on the known snapshot gives the assembled one |
| `Snapshots.ReportsAreExact` | src/filesystem/filesystem_enforcer.cpp:912-933 | The reported paths are exactly those at which the snapshots differ, each once, so their number does not depend on iteration order |
| `Snapshots.ReportsAreLegal` | src/filesystem/filesystem_enforcer.cpp:914-929 | A path is reported as created when it was missing, modified when it was there and differed, deleted when it was there |
| `Snapshots.AssembledFromFirst` | src/filesystem/filesystem_enforcer.cpp:873-900 | A path is in the assembled snapshot exactly if some readable root visited has it, with the fingerprint that the first such root gives |
| `Snapshots.Reached` | src/filesystem/filesystem_enforcer.cpp:873-876 | Where a loop that polls the stop flag ends: the first index at which it is seen |
| `Scan.MonitoredOfLoadedPolicy` | src/filesystem/filesystem_enforcer.cpp:1332-1347 | For every file and every normalisation, the monitored roots are the de-duplicated protected and monitor paths: after the loader's filter the enforcer's own removes nothing |
| `Scan.LoadedIntervalsAreUsed` | src/filesystem/filesystem_enforcer.cpp:1222-1266 | For every loaded policy the enforcer uses the configured intervals as they are: its floors and fallbacks never apply |
| `Scan.EmissionIsLimiterRun` | src/filesystem/filesystem_enforcer.cpp:1268-1291 | Offering notices one by one is a run of the limiter on consecutive clock readings, and those delivered are those it lets through |
| `Scan.NothingMatches` | src/filesystem/filesystem_enforcer.cpp:804-806 | The early return for no roots or no events skips nothing |
| `Scan.EventOrderIsIrrelevant` | src/filesystem/filesystem_enforcer.cpp:816-855 | Permuting or duplicating the pending paths changes neither the statistics of a scan nor the state it leaves |
| `ScanMeaning.MatchedAreRelevant` | src/filesystem/filesystem_enforcer.cpp:819-844 | Under any loaded policy, the event paths that count are exactly those of the batch that lie outside the volumes root and all ignored paths and under a protected or monitored one |
| `ScanMeaning.EventScanCounts` | src/filesystem/filesystem_enforcer.cpp:796-861 | With a stream or pending paths, the published number of path events is the number of these, and the known snapshot stays |
| `ScanMeaning.PollingScanKnows` | src/filesystem/filesystem_enforcer.cpp:870-906 | Otherwise, a scan knows exactly what the readable ones among the roots visited before a stop hold, with the fingerprint of the first root that has the path |
| `ScanMeaning.UndisturbedPollKnows` | src/filesystem/filesystem_enforcer.cpp:870-906 | Without a stop, under any loaded policy, that is exactly what the readable protected and monitored roots hold |
| `ScanMeaning.PollCounts` | src/filesystem/filesystem_enforcer.cpp:902-933 | The published number of path events of a poll is the number of paths at which its knowledge differs from the one before, and 0 for the first poll |
| `ScanMeaning.ChangesBetweenPollsAreReported` | src/filesystem/filesystem_enforcer.cpp:912-929 | Over a run between two polls: what appears in the visited readable trees, and nothing else, is reported as created, what goes as deleted, what differs as modified |
| `ScanMeaning.MountsSeen` | src/filesystem/filesystem_enforcer.cpp:748-755 | The mounts seen are the distinct non-empty ones listed |
| `ScanMeaning.PermissionErrors` | src/filesystem/filesystem_enforcer.cpp:735-740 | The published permission errors are the denied entries of the listing and of the visited trees, and one for each of these that fails with EACCES or EPERM |
| `ScanMeaning.TreeErrorsCount` | src/filesystem/filesystem_enforcer.cpp:883-890 | The same for the visited trees alone |
| `ScanMeaning.EveryAlertIsOffered` | src/filesystem/filesystem_enforcer.cpp:1268-1291 | With notifications on, the limiter is offered one notification for each new mount and each path event of the published statistics; with notifications off, none |
| `ScanMeaning.ClearingNeedsPolicy` | src/filesystem/filesystem_enforcer.cpp:1171-1219 | A scan calls `clear()` if and only if the policy says so, outside debug mode, the hook has not been disabled, and the deadline has come; a failed call disables it |
| `ScanMeaning.FirstDeadline` | src/filesystem/filesystem_enforcer.cpp:1186-1190 | Under a loaded policy the first deadline is the configured number of seconds after the scan |
| `Scan.ChosenAt` | src/filesystem/filesystem_enforcer.cpp:1285-1290 | The notices delivered are those let through, in the order of the offers |
| `FilesystemEnforcer.NoticesAreAlerts` | src/filesystem/filesystem_enforcer.cpp:787-790 | A scan offers one notice for each new mount, matched path and changed path, and no others |
| `Scan.IgnoredIsUnderAny` | src/config/config_manager.cpp:445-448 | The ignore test of the enforcer and the filter of the loader agree on non-empty patterns |
| `Config.ConfigManager.LoadSeries` | src/config/config_manager.cpp:204-213 | After any series of loads and reloads the whole policy is that of the last file alone |
| `Config.ConfigManager.Load` | src/config/config_manager.cpp:218-281 | The policy after a load is a function of the file, the defaults if it is unusable or no object, and the kept JSON is replaced in either case |
| `Config.ConfigManager.constructor` | src/config/config_manager.cpp:169-200 | A manager starts with the policy of its file; if that does not load, with that of the file created in its place, or with the defaults when none can be created |
| `Config.ConfigManager.ApplyDefaults` | src/config/config_manager.cpp:467-498 | Every field is reset, whatever was there |
| `Config.ConfigManager.ParseJson` | src/config/config_manager.cpp:284-464 | Applied to any state: names and volumes are replaced, settings without a valid value stay, ignored paths are added to those there, and roots under them go |
| `Config.ConfigManager.ParseRoots` | src/config/config_manager.cpp:425-461 | The order of normalising, extending, de-duplicating and filtering in place gives the specified lists, including when the key is absent and when no path is ignored |
| `Config.ConfigManager.ParseRules` | src/config/config_manager.cpp:397-429 | Every list goes to its own field, lowered, taken as it is, or de-duplicated |
| `Config.ConfigManager.ParseSettings` | src/config/config_manager.cpp:387-395 | Every key sets its own field, with its own minimum |
| `Config.FilterPaths` | src/config/config_manager.cpp:440-457 | Keeps exactly the paths under no ignored root |
| `Config.ReadStringArray` | src/config/config_manager.cpp:290-310 | The strings of an array in order, other entries skipped; nothing for a missing key or another type |
| `Config.ReadInt` | src/config/config_manager.cpp:313-329 | A missing, non-integer or too small value leaves the target |
| `Config.ReadIntClamped` | src/config/config_manager.cpp:332-349 | A too small integer is raised to the minimum |
| `Config.NormalizePaths` | src/config/config_manager.cpp:788-804 | Accepted paths, normalised, in order of first occurrence |
| `Config.IntervalFloors` | src/config/config_manager.cpp:391-395 | For every file and every wrap-around, all intervals respect their minimum |
| `Config.IntegersHonouredWithin32Bits` | src/config/config_manager.cpp:313-349 | For every integer and each of the five keys: from the minimum on the value is honoured if and only if it fits into 32 bits; below it, the default or minimum is loaded if and only if the value does not wrap around to another valid one |
| `Config.HugeIntervalWraps` | src/config/config_manager.cpp:322-328 | An input for which it is not honoured: 2^32 + 3 seconds are accepted, as 3 |
| `Config.LoadedIsWellFormed` | src/config/config_manager.cpp:425-461 | Every loaded policy has distinct lists, no empty path, and no root under an ignored path |
| `Config.DefaultIgnorePathsStay` | src/config/config_manager.cpp:432-436 | No file can remove a default ignore path: they are a prefix of the list, so they never accumulate either |
| `LoadedPolicies.LoadableIffCanonical` | src/config/config_manager.cpp:218-281 | With an idempotent normalisation, the policies that loading can produce are exactly the canonical ones: lowered names, settled paths with the default ignore paths in front and no root under an ignored path, intervals from their minimum to 32 bits |
| `LoadedPolicies.CanonicalLoadsBack` | src/config/config_manager.cpp:284-464 | Any JSON object that describes a canonical policy, with its sets in any order, loads back as that policy: no key goes to another field, no filter or floor removes anything |
| `LoadedPolicies.LoadedIsCanonical` | src/config/config_manager.cpp:284-498 | Every loaded policy, the defaults included, is canonical |
| `LoadedPolicies.CreatedFileLoadsDefaults` | src/config/config_manager.cpp:124-163 | The created file loads as the defaults in every field but one: a protected path, and that only if it is normalisable and not ignored |
| `LoadedValues.NamesLoaded` | src/config/config_manager.cpp:397-417 | For any file and each of the four rule sets: a name is loaded if and only if the file lists it in some case of letters |
| `LoadedValues.ProcessVerdictOfFile` | src/config/config_manager.cpp:567-597 | The verdict on a process from the file: no blocked string is, in lower case, one of its names, and some allowed one is unless none is listed |
| `LoadedValues.DomainVerdictOfFile` | src/config/config_manager.cpp:601-626 | The verdict on a domain from the file: no blocked pattern covers it in lower case, and some allowed one does unless none is listed |
| `LoadedValues.ListedLoaded` | src/config/config_manager.cpp:419-429 | Volumes and the network whitelist are loaded as they are written |
| `LoadedValues.PathsLoaded` | src/config/config_manager.cpp:425-461 | For any file and normalisation: which paths are ignored, protected, monitored and allowed for mounts, from the strings of the file, the defaults and what they are normalised to |
| `LoadedValues.NormalizedInOrder` | src/config/config_manager.cpp:788-804 | Normalised lists keep the order of the file |
| `LoadedValues.OutsideDistributes` | src/config/config_manager.cpp:440-457 | Filtering out ignored roots keeps the order of the others |
| `LoadedValues.OtherEntriesAreSkipped` | src/config/config_manager.cpp:302-309 | Entries that are no strings make no difference, wherever they stand |
| `LoadedValues.MissingNumbers` | src/config/config_manager.cpp:479-483 | A number that the file does not give as an integer is its default: 120, 10, 2000, 15 and 5 |
| `LoadedValues.GivenNumbers` | src/config/config_manager.cpp:313-349 | A number within 32 bits is kept from its minimum on, and is the default or the minimum below |
| `LoadedValues.SwitchesLoaded` | src/config/config_manager.cpp:351-361 | A switch is as the file says, or its default |
| `Lists.DedupePreserveOrder` | src/config/config_manager.cpp:101-111 | The loop with a set of seen items computes the de-duplication |
| `Lists.DedupeMeetsSpec` | src/config/config_manager.cpp:101-111 | De-duplication keeps the elements, repeats none, and orders them by first occurrence |
| `Lists.DedupeIsTheOnlyOne` | src/config/config_manager.cpp:101-111 | Any list with these properties is the one computed |
| `Lists.FilterDistributes` | src/filesystem/filesystem_enforcer.cpp:1332-1344 | Filtering keeps the order |
| `Policy.WildcardMeaning` | src/config/config_manager.cpp:718-737 | `*.s` matches a domain exactly when it is some string followed by a dot and `s` |
| `Policy.PatternMeaning` | src/config/config_manager.cpp:718-737 | Apart from `*` and the wildcards, a pattern matches only itself; `*.` is no wildcard |
| `Policy.IsDomainAllowed` | src/config/config_manager.cpp:601-626 | The verdict is: no blocked pattern matches, and some allowed one does unless there are none; independent of the order in which the sets are visited |
| `Policy.DomainVerdictIsMonotone` | src/config/config_manager.cpp:601-626 | More blocked patterns never permit a domain; more patterns in a non-empty allowed set never forbid one |
| `Policy.DomainVerdict` | src/config/config_manager.cpp:601-626 | A domain is allowed if and only if no blocked pattern covers it, and some allowed one does unless there is none: blocking wins |
| `Policy.FirstAllowedPatternForbids` | src/config/config_manager.cpp:613-625 | With an empty allowed set, a first pattern permits exactly the domains it matches among those permitted before |
| `Policy.DomainCaseIsIgnored` | src/config/config_manager.cpp:601-626 | The verdict ignores the case of ASCII letters |
| `Policy.ProcessJudgedByName` | src/config/config_manager.cpp:567-597 | An executable is judged by its name alone when no rule names its full path |
| `Policy.ProcessVerdict` | src/config/config_manager.cpp:567-597 | The early exits amount to: neither the lowered name nor its basename is blocked, and one of them is allowed unless nothing is |
| `Policy.KeysOfProcess` | src/config/config_manager.cpp:567-573 | The names of a process are its path and its file name, in lower case |
| `Policy.ProcessVerdictIsMonotone` | src/config/config_manager.cpp:580-596 | More blocked names never permit a process; more names in a non-empty allowed set never forbid one |
| `Policy.IsMountAllowed` | src/filesystem/filesystem_enforcer.cpp:1364-1402 | The two loops compute the verdict on a mount |
| `Policy.MountCaseIsIgnored` | src/filesystem/filesystem_enforcer.cpp:1378-1398 | The verdict on a mount ignores the case of ASCII letters |
| `Policy.MountsBelowAllowedPrefix` | src/filesystem/filesystem_enforcer.cpp:1391-1399 | Whatever is mounted below a directory under an allowed prefix is allowed |
| `Policy.MountVerdict` | src/filesystem/filesystem_enforcer.cpp:1378-1401 | A mount is allowed if and only if an allowed volume has its name or its path, or an allowed prefix contains it, in any case of letters |
| `Paths.PrefixIsComponentPrefix` | src/filesystem/filesystem_enforcer.cpp:1409-1423 | On absolute paths and clean roots, the string test holds exactly when the components of the root are a prefix of those of the path |
| `Paths.PrefixTestsAgree` | src/config/config_manager.cpp:807-823 | The loader's test and the enforcers' test agree on all strings |
| `Paths.PrefixIsPartialOrder` | src/filesystem/filesystem_enforcer.cpp:1409-1423 | On non-empty strings the test is reflexive, antisymmetric and transitive |
| `Paths.PrefixesOfOnePathAreNested` | src/filesystem/filesystem_enforcer.cpp:1409-1423 | Two prefixes of one path are comparable |
| `Paths.TrailingSlashExcludesRoot` | src/filesystem/filesystem_enforcer.cpp:1419-1421 | A root written with a slash covers exactly what lies strictly below it |
| `Paths.IgnoredIsClosedUnderDescendants` | src/filesystem/filesystem_enforcer.cpp:1351-1362 | Whatever lies under an ignored path is ignored |
| `Paths.ShouldIgnorePath` | src/filesystem/filesystem_enforcer.cpp:1351-1362 | The loop with its early exit computes the existence of a covering pattern |
| `Paths.JoinInvertsFields` | src/filesystem/filesystem_enforcer.cpp:1409-1423 | Splitting a path at its slashes loses nothing, so the components determine the path |
| `Text.BasenameFollowsLastSlash` | src/filesystem/filesystem_enforcer.cpp:1433-1445 | The basename is what follows the last slash, or everything |
| `Text.BasenameOfLower` | src/filesystem/filesystem_enforcer.cpp:1378-1379 | Lowering and taking the basename commute |
| `Text.LettersAreLowered` | src/config/config_manager.cpp:708-714 | Lowering changes the 26 letters and nothing else |
| `ProcessEnforcer.ProcessEnforcer.PerformScan` | src/process/process_enforcer.cpp:264-349 | For any pid list and any instant at which a stop is seen: the pids visited are a prefix of the list, the published numbers are the sizes of the checked, violating and denied classes of that prefix, and the reported processes are exactly the checked ones the policy rejects, in order, of which the user is notified unless in debug mode |
| `ProcessEnforcer.ClassesPartitionVisited` | src/process/process_enforcer.cpp:295-342 | Every visited pid falls in exactly one of the classes skipped, denied and checked |
| `ProcessEnforcer.ReportedMeans` | src/process/process_enforcer.cpp:300-341 | Reported are exactly the visited processes with an absolute path that are not ignored, and of which a name is blocked, or none is among the allowed ones if there are any |
| `ProcessEnforcer.CountedMeans` | src/process/process_enforcer.cpp:300-332 | Checked are exactly the visited ones with an absolute path that are not ignored; denied those whose reading is denied |
| `ProcessEnforcer.IgnoringMeans` | src/process/process_enforcer.cpp:534-566 | A process is ignored if and only if an absolute pattern contains its executable, or another one is its name, without regard to case |
| `ProcessEnforcer.PidListMeetsSpec` | src/process/process_enforcer.cpp:410-424 | The list is strictly ascending and holds exactly the positive pids |
| `ProcessEnforcer.PidListIsCanonical` | src/process/process_enforcer.cpp:410-424 | It depends only on which positive pids were reported, not on order or repetition |
| `ProcessEnforcer.Inspect` | src/process/process_enforcer.cpp:300-341 | One process: which counter moves, and whether it is a violation |
| `ProcessEnforcer.IgnoresProcess` | src/process/process_enforcer.cpp:534-566 | The loop over the patterns: absolute ones cover directories, others name a process |
| `ProcessEnforcer.IgnoringIgnoresCase` | src/process/process_enforcer.cpp:534-566 | Processes are ignored without regard to the case of their paths |
| `ProcessEnforcer.ScanIntervalInSeconds` | src/process/process_enforcer.cpp:501-525 | The configured seconds are honoured exactly below 250, and are milliseconds from there on; the interval is never below 250 ms |
| `Agent.Agent.Run` | agent/Agent.hpp:25-60 | The loop beats and sleeps in every pass as specified, ends at the first pass that sees the flag, and leaves the state at shutting down |
| `Agent.ConsecutiveBeats` | agent/Agent.hpp:39-57 | If each sleep overshoots by at most d, consecutive heartbeats are between interval and interval + d apart |
| `Agent.HeartbeatDrift` | agent/Agent.hpp:36-57 | The k-th heartbeat lies within [k interval, k (interval + d)] of the first |
| `Agent.HeartbeatsContinue` | agent/Agent.hpp:39-57 | Any number of heartbeats happens |
| `Agent.PassesBetweenBeats` | agent/Agent.hpp:47-52 | The loop is not busy: between two heartbeats it makes at most as many passes as full seconds fit, and one more |
| `Agent.FallbackPace` | agent/Agent.hpp:54-56 | With an interval that is not positive, every pass is a heartbeat, 100 ms to 100 ms + d after the one before |
| `Agent.FallbackIffBadInterval` | agent/Agent.hpp:49-56 | The 100 ms branch is taken in a run exactly if the interval is not positive |
| `Agent.ShutdownLatency` | agent/Agent.hpp:39-57 | With the flag loaded before the clock is read in each pass, there is a pass that sees it, and it loads the flag within 1 s + d of the moment at which it was set, or is the first one |
| `Agent.BeatTimesDrift` | agent/Agent.hpp:39-57 | The heartbeats that the loop makes are successive ones, the k-th within [k interval, k (interval + d)] of the first |
| `Agent.Agent.RunUntilFlag` | agent/Agent.hpp:36-59 | Under the timing assumptions, the loop itself ends within 1 s + d of the moment the flag is set, with all its heartbeats on time |

## Left out

- Creation of the FSEvents stream, its roots and its callback's decoding (`src/filesystem/filesystem_enforcer.cpp:955-1050`, `1117-1162`): foreign calls; only whether a stream is granted, and the paths enqueued, are kept.
- `LocalFileSystem`, `SystemClipboard`, `sysctl` and `libproc`: input and output; their results are arbitrary inputs.
- Notification texts, `sanitize_for_log`, log lines other than the limit of 32 per scan, and `clipboard_disable_logged_`, which only guards a log line.
- JSON parsing, `normalize_path`'s use of the file system and of `HOME`, the default configuration path, and the creation of directories; whether the constructor can write a file and read it back is an input.
- Plain getters, and the warning result of `parse_json_locked`, which changes a log line but no setting.
- Exceptions from the policy getters and from policy checks, null dependencies, and a parse that throws half-way; an exception that aborts a scan is kept only in the lifecycle protocol, not in `Composition`.
- A configuration that is reloaded between two getters of one scan: the model's policy is fixed within a scan.
- The destructors' last join, `EnforcementCoordinator`, `main` and the signal handlers.
- Memory ordering weaker than sequential consistency for the atomic flags.
- Durations: a scan's stamp, a wait's expiry and the time a caller is ready to wait are events that may come at any point of an interleaving; no bound in seconds is proved for `stop`.
- Numbers in statistics are unbounded; the source's `size_t` and the clock's 64-bit tick count cannot overflow here.
- Lifecycle.WorkerControl.FinishStop: covers the critical section at the end of the wait; the wait itself is the step `StopTake` or `StopExpire` of the state machine, which the method does not perform.
- Lifecycle.OwedMovesRetire: shows the run of owed moves in which nobody else takes a step; what other threads' steps in between can do is covered by `StopIsBounded` and `EnoughStepsRetire`.
- FilesystemEnforcer.FilesystemEnforcer.StartEventStream: whether the system grants a stream is an input; how the watched roots are chosen is not modelled.
- ProcessEnforcer.ProcessEnforcer.PerformScan: `PidList` stands for the library's sort and unique; the two system interfaces behind the raw list are not modelled.
- Agent.ShutdownLatency: the delay with which another thread's relaxed store becomes visible to the load is not modelled.
