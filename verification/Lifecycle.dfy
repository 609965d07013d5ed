/**
 The worker lifecycle protocol of `start`, `stop` and `scan_loop`, the same in
 both enforcers. Any number of controller threads and worker generations take
 atomic steps in any order; a critical section is one step, and everything
 outside the mutexes can interleave. Wake-ups can be lost.
 */
module Lifecycle {
  import opened Wrappers

  // ----- the critical sections

  /** `worker_` by generation, `worker_exited_`, `running_` and `stop_requested_`. */
  datatype Shared = Shared(worker: Option<nat>, workerExited: bool, running: bool, stopRequested: bool)

  const IDLE := Shared(None, true, false, false)

  /** `start` under the mutex; `spawned` is whether the system grants a thread. */
  function StartSection(sh: Shared, generation: nat, spawned: bool): (Shared, bool) {
    if sh.worker.Some? || sh.running then (sh, false)
    else if spawned then (Shared(Some(generation), false, true, false), true)
    else (Shared(None, true, false, false), false)
  }

  /** The first section of `stop`: with no worker to stop, it cleans up and is done. */
  function StopSection(sh: Shared): (Shared, bool) {
    if sh.worker.None? then (Shared(None, true, false, true), true) else (sh, false)
  }

  /** The end of the wait in `stop`, once the worker has exited: the thread is taken over to be joined. */
  function TakeWorker(sh: Shared): (Shared, Option<nat>) {
    (sh.(worker := None), sh.worker)
  }

  /** The fields, and the methods that run each critical section. */
  class WorkerControl {
    var worker: Option<nat>
    var workerExited: bool
    var running: bool
    var stopRequested: bool

    function State(): Shared
      reads this
    {
      Shared(worker, workerExited, running, stopRequested)
    }

    constructor ()
      ensures State() == IDLE
    {
      worker, workerExited, running, stopRequested := None, true, false, false;
    }

    method Start(generation: nat, spawned: bool) returns (started: bool)
      modifies this
      ensures (State(), started) == StartSection(old(State()), generation, spawned)
    {
      if worker.Some? || running {
        return false;
      }
      stopRequested := false;
      workerExited := false;
      running := true;
      if !spawned {
        running := false;
        workerExited := true;
        return false;
      }
      worker := Some(generation);
      return true;
    }

    method BeginStop() returns (done: bool)
      modifies this
      ensures (State(), done) == StopSection(old(State()))
    {
      if worker.None? {
        running := false;
        stopRequested := true;
        workerExited := true;
        return true;
      }
      return false;
    }

    method FinishStop() returns (stopped: bool, threadToJoin: Option<nat>)
      modifies this
      ensures stopped == old(workerExited)
      ensures if stopped then (State(), threadToJoin) == TakeWorker(old(State()))
              else State() == old(State()) && threadToJoin == None
    {
      stopped, threadToJoin := workerExited, None;
      if stopped {
        threadToJoin, worker := worker, None;
      }
    }

    method RequestStop()
      modifies `stopRequested
      ensures State() == old(State()).(stopRequested := true)
    {
      stopRequested := true;
    }

    method ClearRunning()
      modifies `running
      ensures State() == old(State()).(running := false)
    {
      running := false;
    }

    method ReportExit()
      modifies `workerExited
      ensures State() == old(State()).(workerExited := true)
    {
      workerExited := true;
    }

    /** The shared part of any step of the protocol. */
    method Execute(s: State, a: Action)
      requires State() == s.shared && Enabled(s, a)
      modifies this
      ensures State() == Next(s, a).shared
    {
      match a {
        case Start(spawned) => var _ := Start(|s.workers|, spawned);
        case StopCheck(_) => var _ := BeginStop();
        case StopRequest(_) => RequestStop();
        case StopTake(_) => var _, _ := FinishStop();
        case StopExpire(_) => var _, _ := FinishStop();
        case Work(g, _) =>
          match s.workers[g].pc {
            case Clearing => ClearRunning();
            case Reporting => ReportExit();
            case _ =>
          }
        case _ =>
      }
    }
  }

  // ----- threads

  /** Where a worker is in `scan_loop`. */
  datatype WorkerPc =
    | Entering        // starting the event stream
    | LoopHead        // about to load stop_requested_
    | ScanReady       // the load said no stop; the scan has not begun
    | Scanning
    | Deciding        // about to evaluate the wait predicate
    | Parking         // the predicate was false, the wait has not begun: a notification is lost here
    | Waiting
    | Leaving         // out of the loop, stopping the event stream
    | Clearing        // about to store running_ = false
    | Reporting       // about to set worker_exited_
    | Notifying       // about to notify the stop callers
    | Retired

  datatype Worker = Worker(pc: WorkerPc, scans: nat)

  /** Where a caller of `stop` is. */
  datatype StopPc =
    | Checking
    | Requesting
    | Signalling
    | Awaiting
    | Joining(thread: Option<nat>)
    | Returned(stopped: bool)

  /** `pending` is the flag for queued events, which the process enforcer does not have. */
  datatype State = State(
    shared: Shared,
    pending: bool,
    workers: seq<Worker>,
    stoppers: map<nat, StopPc>,
    joined: set<nat>)

  const INITIAL := State(IDLE, false, [], map[], {})

  /** How a worker moves on: normally, by an exception in the scan, or by the expiry of its timed wait. */
  datatype Move = Proceed | Throw | Expire

  datatype Action =
    | Start(spawned: bool)
    | Stop(caller: nat)            // begins a call
    | StopCheck(caller: nat)       // the first critical section
    | StopRequest(caller: nat)     // stores stop_requested_, without a mutex
    | StopSignal(caller: nat)      // notifies the worker, without a mutex
    | StopTake(caller: nat)        // sees worker_exited_ and takes the thread
    | StopExpire(caller: nat)      // the timeout ends with worker_exited_ still false
    | StopJoin(caller: nat)
    | Work(generation: nat, move: Move)
    | SetPending(value: bool)      // events are queued or drained
    | Wake                         // a callback notifies the worker

  /** From entering `scan_loop` until `worker_exited_` is set. */
  predicate Active(pc: WorkerPc) {
    !pc.Notifying? && !pc.Retired?
  }

  /** Active, and the worker's own store of `running_` is still to come. */
  predicate Running(pc: WorkerPc) {
    Active(pc) && !pc.Reporting?
  }

  predicate At(s: State, caller: nat, pc: StopPc) {
    caller in s.stoppers && s.stoppers[caller] == pc
  }

  predicate CanMove(pc: WorkerPc, move: Move) {
    match move
    case Proceed => !pc.Retired?
    case Throw => pc.Scanning?
    case Expire => pc.Waiting?
  }

  predicate Enabled(s: State, a: Action) {
    match a
    case Start(_) => true
    case Stop(c) => c !in s.stoppers || s.stoppers[c].Returned?
    case StopCheck(c) => At(s, c, Checking)
    case StopRequest(c) => At(s, c, Requesting)
    case StopSignal(c) => At(s, c, Signalling)
    case StopTake(c) => At(s, c, Awaiting) && s.shared.workerExited
    case StopExpire(c) => At(s, c, Awaiting) && !s.shared.workerExited
    case StopJoin(c) =>
      && c in s.stoppers && s.stoppers[c].Joining?
      && (var t := s.stoppers[c].thread;
          t.Some? ==> t.value < |s.workers| && s.workers[t.value].pc.Retired?)
    case Work(g, move) => g < |s.workers| && CanMove(s.workers[g].pc, move)
    case SetPending(_) => true
    case Wake => true
  }

  /** A worker's next place; `stop` and `wake` are what it reads of the flags. */
  function NextPc(pc: WorkerPc, move: Move, stop: bool, wake: bool): WorkerPc {
    match pc
    case Entering => LoopHead
    case LoopHead => if stop then Leaving else ScanReady
    case ScanReady => Scanning
    case Scanning => if move.Throw? then Leaving else Deciding
    case Deciding => if wake then LoopHead else Parking
    case Parking => Waiting
    case Waiting => if move.Expire? then LoopHead else Deciding
    case Leaving => Clearing
    case Clearing => Reporting
    case Reporting => Notifying
    case Notifying => Retired
    case Retired => Retired
  }

  /** A notification moves only a worker that waits already. */
  function Notified(workers: seq<Worker>): (r: seq<Worker>)
    ensures |r| == |workers|
    ensures forall g | 0 <= g < |workers| :: r[g] == NotifiedWorker(workers[g])
  {
    seq(|workers|, g requires 0 <= g < |workers| => NotifiedWorker(workers[g]))
  }

  function NotifiedWorker(w: Worker): Worker {
    if w.pc.Waiting? then w.(pc := Deciding) else w
  }

  function SharedAfterWork(sh: Shared, pc: WorkerPc): Shared {
    match pc
    case Clearing => sh.(running := false)
    case Reporting => sh.(workerExited := true)
    case _ => sh
  }

  function WorkStep(s: State, g: nat, move: Move): State
    requires g < |s.workers|
  {
    var w := s.workers[g];
    var stop := s.shared.stopRequested;
    var next := Worker(NextPc(w.pc, move, stop, stop || s.pending), w.scans + if w.pc.ScanReady? then 1 else 0);
    s.(workers := s.workers[g := next], shared := SharedAfterWork(s.shared, w.pc))
  }

  function StartStep(s: State, spawned: bool): State {
    var (sh, started) := StartSection(s.shared, |s.workers|, spawned);
    s.(shared := sh, workers := if started then s.workers + [Worker(Entering, 0)] else s.workers)
  }

  function MoveStopper(s: State, c: nat, pc: StopPc): State {
    s.(stoppers := s.stoppers[c := pc])
  }

  function Next(s: State, a: Action): State
    requires Enabled(s, a)
  {
    match a
    case Start(spawned) => StartStep(s, spawned)
    case Stop(c) => MoveStopper(s, c, Checking)
    case StopCheck(c) =>
      var (sh, done) := StopSection(s.shared);
      MoveStopper(s, c, if done then Returned(true) else Requesting).(shared := sh)
    case StopRequest(c) => MoveStopper(s, c, Signalling).(shared := s.shared.(stopRequested := true))
    case StopSignal(c) => MoveStopper(s, c, Awaiting).(workers := Notified(s.workers))
    case StopTake(c) =>
      var (sh, thread) := TakeWorker(s.shared);
      MoveStopper(s, c, Joining(thread)).(shared := sh)
    case StopExpire(c) => MoveStopper(s, c, Returned(false))
    case StopJoin(c) =>
      var t := s.stoppers[c].thread;
      MoveStopper(s, c, Returned(true)).(joined := s.joined + if t.Some? then {t.value} else {})
    case Work(g, move) => WorkStep(s, g, move)
    case SetPending(value) => s.(pending := value)
    case Wake => s.(workers := Notified(s.workers))
  }

  /** A run, as the list of its states and of the actions between them. */
  ghost predicate IsRun(states: seq<State>, actions: seq<Action>) {
    && |states| == |actions| + 1
    && forall i | 0 <= i < |actions| :: Enabled(states[i], actions[i]) && states[i + 1] == Next(states[i], actions[i])
  }

  // ----- the invariant

  /** The flags describe the latest worker, and no other one is active. */
  predicate FlagsExact(s: State) {
    && (s.shared.worker.Some? ==> s.shared.worker.value == |s.workers| - 1)
    && (forall g | 0 <= g < |s.workers| && Active(s.workers[g].pc) :: s.shared.worker == Some(g))
    && (s.shared.workerExited <==> forall g | 0 <= g < |s.workers| :: !Active(s.workers[g].pc))
    && (s.shared.running <==> exists g | 0 <= g < |s.workers| :: Running(s.workers[g].pc))
  }

  /** The caller is about to join the thread. */
  predicate Holds(s: State, c: nat, g: nat) {
    At(s, c, Joining(Some(g)))
  }

  /** Every thread ever started is in `worker_`, with exactly one joining caller, or joined: never abandoned. */
  ghost predicate ThreadsOwned(s: State) {
    && (forall g: nat | g < |s.workers| && s.shared.worker != Some(g) && g !in s.joined :: exists c :: Holds(s, c, g))
    && (forall c, g: nat | Holds(s, c, g) ::
          g < |s.workers| && s.shared.worker != Some(g) && g !in s.joined && !Active(s.workers[g].pc))
    && (forall c, d, g: nat | Holds(s, c, g) && Holds(s, d, g) :: c == d)
    && (forall g | g in s.joined :: g < |s.workers| && s.shared.worker != Some(g) && s.workers[g].pc.Retired?)
  }

  ghost predicate Inv(s: State) {
    FlagsExact(s) && ThreadsOwned(s)
  }

  lemma StartKeepsInv(s: State, spawned: bool)
    requires Inv(s)
    ensures Inv(StartStep(s, spawned))
    ensures StartSection(s.shared, |s.workers|, spawned).1 <==> s.shared.worker.None? && spawned
  {
    var t := StartStep(s, spawned);
    assert forall c, g :: Holds(t, c, g) <==> Holds(s, c, g);
    if s.shared.worker.None? && spawned {
      assert t.workers[|s.workers|].pc == Entering;
      assert forall g | 0 <= g < |s.workers| :: t.workers[g] == s.workers[g];
    }
  }

  lemma WorkKeepsFlags(s: State, g: nat, move: Move)
    requires FlagsExact(s) && g < |s.workers| && CanMove(s.workers[g].pc, move)
    ensures FlagsExact(WorkStep(s, g, move))
  {
    var t := WorkStep(s, g, move);
    assert forall k | 0 <= k < |s.workers| && k != g :: t.workers[k] == s.workers[k];
    var pc := s.workers[g].pc;
    assert t.workers[g].pc == NextPc(pc, move, s.shared.stopRequested, s.shared.stopRequested || s.pending);
    assert Active(t.workers[g].pc) <==> Active(pc) && !pc.Reporting?;
    assert Running(t.workers[g].pc) <==> Running(pc) && !pc.Clearing?;
  }

  lemma WorkKeepsOwners(s: State, g: nat, move: Move)
    requires ThreadsOwned(s) && g < |s.workers| && CanMove(s.workers[g].pc, move)
    ensures ThreadsOwned(WorkStep(s, g, move))
  {
    var t := WorkStep(s, g, move);
    assert forall c, k :: Holds(t, c, k) <==> Holds(s, c, k);
    assert forall k | 0 <= k < |s.workers| && k != g :: t.workers[k] == s.workers[k];
  }

  lemma NotifyKeepsInv(s: State)
    requires Inv(s)
    ensures Inv(s.(workers := Notified(s.workers)))
  {
    var t := s.(workers := Notified(s.workers));
    assert forall c, g :: Holds(t, c, g) <==> Holds(s, c, g);
    assert forall g | 0 <= g < |s.workers| ::
        Active(t.workers[g].pc) == Active(s.workers[g].pc) && Running(t.workers[g].pc) == Running(s.workers[g].pc);
    assert forall g | 0 <= g < |s.workers| :: s.workers[g].pc.Retired? == t.workers[g].pc.Retired?;
  }

  /** A stop caller that holds no thread moves to a place where it holds none. */
  lemma StopperKeepsInv(s: State, c: nat, pc: StopPc)
    requires Inv(s) && (c in s.stoppers && s.stoppers[c].Joining? ==> s.stoppers[c].thread.None?)
    requires pc.Joining? ==> pc.thread.None?
    ensures Inv(MoveStopper(s, c, pc))
  {
    var t := MoveStopper(s, c, pc);
    assert forall d, g :: Holds(t, d, g) <==> Holds(s, d, g);
  }

  lemma TakeKeepsInv(s: State, c: nat)
    requires Inv(s) && Enabled(s, StopTake(c))
    ensures Inv(Next(s, StopTake(c)))
  {
    var t := Next(s, StopTake(c));
    assert forall d, g: nat | d != c :: Holds(t, d, g) <==> Holds(s, d, g);
    assert forall g: nat :: Holds(t, c, g) <==> s.shared.worker == Some(g);
    assert forall g: nat :: !Holds(s, c, g);
    if s.shared.worker.Some? {
      assert Holds(t, c, s.shared.worker.value);
    }
  }

  lemma JoinKeepsInv(s: State, c: nat)
    requires Inv(s) && Enabled(s, StopJoin(c))
    ensures Inv(Next(s, StopJoin(c)))
  {
    var t := Next(s, StopJoin(c));
    assert forall d, g: nat | d != c :: Holds(t, d, g) <==> Holds(s, d, g);
    assert forall g: nat :: !Holds(t, c, g);
    assert forall g: nat :: Holds(s, c, g) <==> s.stoppers[c].thread == Some(g);
  }

  /** With no worker to stop, `stop` finds all flags but the request as it would set them. */
  lemma StopSectionSetsRequestOnly(s: State)
    requires FlagsExact(s)
    ensures var (sh, _) := StopSection(s.shared); sh == s.shared.(stopRequested := sh.stopRequested)
  {
  }

  lemma StopCheckKeepsInv(s: State, c: nat)
    requires Inv(s) && Enabled(s, StopCheck(c))
    ensures Inv(Next(s, StopCheck(c)))
  {
    StopSectionSetsRequestOnly(s);
    hide Inv;
    var (sh, done) := StopSection(s.shared);
    SharedFlagKeepsInv(s, sh.stopRequested);
    StopperKeepsInv(s.(shared := sh), c, if done then Returned(true) else Requesting);
  }

  lemma StopRequestKeepsInv(s: State, c: nat)
    requires Inv(s) && Enabled(s, StopRequest(c))
    ensures Inv(Next(s, StopRequest(c)))
  {
    hide Inv;
    SharedFlagKeepsInv(s, true);
    StopperKeepsInv(s.(shared := s.shared.(stopRequested := true)), c, Signalling);
  }

  lemma StopSignalKeepsInv(s: State, c: nat)
    requires Inv(s) && Enabled(s, StopSignal(c))
    ensures Inv(Next(s, StopSignal(c)))
  {
    hide Inv;
    NotifyKeepsInv(s);
    StopperKeepsInv(s.(workers := Notified(s.workers)), c, Awaiting);
  }

  lemma SharedFlagKeepsInv(s: State, requested: bool)
    requires Inv(s)
    ensures Inv(s.(shared := s.shared.(stopRequested := requested)))
  {
    var t := s.(shared := s.shared.(stopRequested := requested));
    assert forall c, g :: Holds(t, c, g) <==> Holds(s, c, g);
  }

  lemma NextKeepsInv(s: State, a: Action)
    requires Inv(s) && Enabled(s, a)
    ensures Inv(Next(s, a))
  {
    hide FlagsExact, ThreadsOwned;
    match a {
      case Start(spawned) => StartKeepsInv(s, spawned);
      case Stop(c) => StopperKeepsInv(s, c, Checking);
      case StopCheck(c) => StopCheckKeepsInv(s, c);
      case StopRequest(c) => StopRequestKeepsInv(s, c);
      case StopSignal(c) => StopSignalKeepsInv(s, c);
      case StopTake(c) => TakeKeepsInv(s, c);
      case StopExpire(c) => StopperKeepsInv(s, c, Returned(false));
      case StopJoin(c) => JoinKeepsInv(s, c);
      case Work(g, move) =>
        WorkKeepsFlags(s, g, move);
        WorkKeepsOwners(s, g, move);
      case SetPending(value) => PendingKeepsInv(s, value);
      case Wake => NotifyKeepsInv(s);
    }
  }

  lemma PendingKeepsInv(s: State, value: bool)
    requires Inv(s)
    ensures Inv(s.(pending := value))
  {
    assert forall c, g :: Holds(s.(pending := value), c, g) <==> Holds(s, c, g);
  }

  lemma {:induction false} RunKeepsInv(states: seq<State>, actions: seq<Action>, i: nat)
    requires IsRun(states, actions) && Inv(states[0]) && i < |states|
    ensures Inv(states[i])
  {
    hide Inv, Next;
    if i > 0 {
      RunKeepsInv(states, actions, i - 1);
      NextKeepsInv(states[i - 1], actions[i - 1]);
    }
  }

  lemma InitialInv()
    ensures Inv(INITIAL)
  {
    assert forall c, g :: !Holds(INITIAL, c, g);
  }

  // ----- safety

  /**
   In every interleaving at most one worker is active; while it is, it is the
   thread in `worker_` and `worker_exited_` is false, and `running_` holds until
   its own store of false.
   */
  lemma AtMostOneWorker(states: seq<State>, actions: seq<Action>, i: nat, g: nat)
    requires IsRun(states, actions) && states[0] == INITIAL && i < |states|
    requires g < |states[i].workers| && Active(states[i].workers[g].pc)
    ensures forall k | 0 <= k < |states[i].workers| && Active(states[i].workers[k].pc) :: k == g
    ensures states[i].shared.worker == Some(g) && !states[i].shared.workerExited
    ensures states[i].shared.running <==> Running(states[i].workers[g].pc)
  {
    InitialInv();
    RunKeepsInv(states, actions, i);
  }

  /** A worker that another one has succeeded, or that has reported its exit, changes no shared field any more. */
  lemma RetiredWorkersAreSilent(states: seq<State>, actions: seq<Action>, i: nat, g: nat, move: Move)
    requires IsRun(states, actions) && states[0] == INITIAL && i < |actions| && actions[i] == Work(g, move)
    requires !Active(states[i].workers[g].pc) || g < |states[i].workers| - 1
    ensures states[i + 1].shared == states[i].shared
  {
    InitialInv();
    RunKeepsInv(states, actions, i);
  }

  /** `start` succeeds exactly when no thread is in `worker_`: its test of `running_` never decides. */
  lemma StartSucceedsIffIdle(states: seq<State>, actions: seq<Action>, i: nat, spawned: bool)
    requires IsRun(states, actions) && states[0] == INITIAL && i < |states|
    ensures StartSection(states[i].shared, |states[i].workers|, spawned).1 <==> states[i].shared.worker.None? && spawned
  {
    InitialInv();
    RunKeepsInv(states, actions, i);
    StartKeepsInv(states[i], spawned);
  }

  /**
   Every thread is joined at most once and is never lost: at each moment it is in
   `worker_`, with exactly one caller about to join it, or joined, and a caller only
   ever waits in a join for a worker that has already reported its exit.
   */
  lemma ThreadsAreNeverLost(states: seq<State>, actions: seq<Action>, i: nat, g: nat)
    requires IsRun(states, actions) && states[0] == INITIAL && i < |states| && g < |states[i].workers|
    ensures var s := states[i];
            && (s.shared.worker == Some(g) || g in s.joined || exists c :: Holds(s, c, g))
            && (s.shared.worker == Some(g) ==> g !in s.joined && forall c :: !Holds(s, c, g))
            && (forall c, d | Holds(s, c, g) && Holds(s, d, g) :: c == d)
            && (forall c | Holds(s, c, g) :: g !in s.joined && !Active(s.workers[g].pc))
  {
    InitialInv();
    RunKeepsInv(states, actions, i);
  }

  /** A stop call that succeeds has seen the worker exit. */
  predicate SawExit(s: State, c: nat) {
    c in s.stoppers && (s.stoppers[c].Joining? || s.stoppers[c] == Returned(true)) ==> s.shared.workerExited
  }

  /** When a stop call returns true and nobody started a worker during the call, no worker is active. */
  lemma StopMeansStopped(states: seq<State>, actions: seq<Action>, c: nat)
    requires IsRun(states, actions) && Inv(states[0]) && At(states[0], c, Checking)
    requires forall i | 0 <= i < |actions| :: !actions[i].Start?
    ensures var last := states[|actions|];
            At(last, c, Returned(true)) ==> forall g | 0 <= g < |last.workers| :: !Active(last.workers[g].pc)
  {
    StopSeesExit(states, actions, c, |actions|);
    RunKeepsInv(states, actions, |actions|);
  }

  lemma ExitStaysSeen(s: State, a: Action, c: nat)
    requires Enabled(s, a) && !a.Start? && SawExit(s, c)
    ensures SawExit(Next(s, a), c)
  {
    hide Notified, NextPc;
  }

  lemma {:induction false} StopSeesExit(states: seq<State>, actions: seq<Action>, c: nat, i: nat)
    requires IsRun(states, actions) && At(states[0], c, Checking) && i < |states|
    requires forall k | 0 <= k < |actions| :: !actions[k].Start?
    ensures SawExit(states[i], c)
  {
    if i > 0 {
      hide Next, Enabled;
      StopSeesExit(states, actions, c, i - 1);
      ExitStaysSeen(states[i - 1], actions[i - 1], c);
    }
  }

  // ----- stopping takes bounded time

  /** An upper bound on the steps that a worker has still to make once a stop is requested. */
  function Rank(pc: WorkerPc): nat {
    match pc
    case Retired => 0
    case Notifying => 1
    case Reporting => 2
    case Clearing => 3
    case Leaving => 4
    case LoopHead => 5
    case Deciding => 6
    case Entering => 6
    case Waiting => 7
    case Parking => 8
    case Scanning => 9
    case ScanReady => 10
  }

  /** One more scan, if the worker has already decided to make it. */
  function ScansToCome(pc: WorkerPc): nat {
    if pc.ScanReady? then 1 else 0
  }

  /** The number of steps worker `g` makes in a run. */
  function StepsOf(actions: seq<Action>, g: nat): nat {
    if actions == [] then 0
    else
      var last := actions[|actions| - 1];
      StepsOf(actions[..|actions| - 1], g) + if last.Work? && last.generation == g then 1 else 0
  }

  predicate Stopping(s: State, g: nat) {
    g < |s.workers| && (Active(s.workers[g].pc) ==> s.shared.stopRequested)
  }

  /** What one step leaves of a stopping worker's way. */
  predicate Progress(before: Worker, after: Worker, own: bool) {
    && Rank(after.pc) + (if own then 1 else 0) <= Rank(before.pc)
    && after.scans + ScansToCome(after.pc) <= before.scans + ScansToCome(before.pc)
  }

  /** Every step of a stopping worker is progress, nobody undoes it, and no `start` can clear the request. */
  lemma StoppingProgresses(s: State, a: Action, g: nat)
    requires Inv(s) && Enabled(s, a) && Stopping(s, g)
    ensures Stopping(Next(s, a), g)
    ensures Progress(s.workers[g], Next(s, a).workers[g], a.Work? && a.generation == g)
  {
    hide ThreadsOwned;
    if a.Start? {
      StartKeepsInv(s, a.spawned);
    }
  }

  /**
   Once a stop is requested while a worker is active, the request stays until that
   worker has reported its exit, the worker begins at most one more scan, and it has
   only boundedly many steps left, even when the notification is lost.
   */
  lemma {:induction false} StopIsBounded(states: seq<State>, actions: seq<Action>, g: nat)
    requires IsRun(states, actions) && Inv(states[0]) && Stopping(states[0], g)
    ensures var first, last := states[0], states[|actions|];
            && Stopping(last, g)
            && StepsOf(actions, g) + Rank(last.workers[g].pc) <= Rank(first.workers[g].pc) <= 10
            && last.workers[g].scans <= first.workers[g].scans + ScansToCome(first.workers[g].pc)
            && last.workers[g].scans + ScansToCome(last.workers[g].pc)
               <= first.workers[g].scans + ScansToCome(first.workers[g].pc)
  {
    if actions != [] {
      var n := |actions| - 1;
      assert IsRun(states[..n + 1], actions[..n]);
      StopIsBounded(states[..n + 1], actions[..n], g);
      RunKeepsInv(states, actions, n);
      hide Inv, Next, Enabled, Rank;
      StoppingProgresses(states[n], actions[n], g);
    }
  }

  /** The move that the system owes a worker: scans return, and timed waits expire. */
  function OwedMove(pc: WorkerPc): Move {
    if pc.Waiting? then Expire else Proceed
  }

  /**
   Whatever all others do in between, a stopping worker that has made as many steps as
   its rank has retired; until then the move that the system owes it is enabled.
   */
  lemma EnoughStepsRetire(states: seq<State>, actions: seq<Action>, g: nat)
    requires IsRun(states, actions) && Inv(states[0]) && Stopping(states[0], g)
    ensures var last := states[|actions|];
            && g < |last.workers|
            && (StepsOf(actions, g) >= Rank(states[0].workers[g].pc) ==> last.workers[g].pc.Retired?)
            && (!last.workers[g].pc.Retired? ==> Enabled(last, Work(g, OwedMove(last.workers[g].pc))))
  {
    hide Inv;
    StopIsBounded(states, actions, g);
    var pc := states[|actions|].workers[g].pc;
    assert Rank(pc) == 0 ==> pc.Retired?;
  }

  /** With the owed moves alone, a stopping worker retires. */
  lemma {:induction false} OwedMovesRetire(s: State, g: nat) returns (states: seq<State>, actions: seq<Action>)
    requires Inv(s) && Stopping(s, g)
    ensures IsRun(states, actions) && states[0] == s
    ensures forall i | 0 <= i < |actions| ::
              g < |states[i].workers| && actions[i] == Work(g, OwedMove(states[i].workers[g].pc))
    ensures |actions| <= Rank(s.workers[g].pc) <= 10
    ensures var last := states[|actions|];
            && Inv(last) && g < |last.workers| && last.workers[g].pc.Retired?
            && last.stoppers == s.stoppers && last.shared.worker == s.shared.worker
    decreases Rank(s.workers[g].pc)
  {
    hide Inv, FlagsExact, ThreadsOwned;
    if s.workers[g].pc.Retired? {
      states, actions := [s], [];
    } else {
      var a := Work(g, OwedMove(s.workers[g].pc));
      StoppingProgresses(s, a, g);
      NextKeepsInv(s, a);
      var rest, acts := OwedMovesRetire(Next(s, a), g);
      hide Next, Enabled;
      states, actions := [s] + rest, [a] + acts;
      Prepend(s, a, rest, acts);
      assert forall i | 0 < i < |actions| :: states[i] == rest[i - 1] && actions[i] == acts[i - 1];
    }
  }

  lemma Prepend(s: State, a: Action, states: seq<State>, actions: seq<Action>)
    requires IsRun(states, actions) && Enabled(s, a) && states[0] == Next(s, a)
    ensures IsRun([s] + states, [a] + actions)
  {
    hide Next, Enabled;
    var longer, more := [s] + states, [a] + actions;
    forall i | 0 <= i < |more|
      ensures Enabled(longer[i], more[i]) && longer[i + 1] == Next(longer[i], more[i])
    {
      if i > 0 {
        assert longer[i] == states[i - 1] && longer[i + 1] == states[i] && more[i] == actions[i - 1];
      }
    }
  }

  lemma Extend(states: seq<State>, actions: seq<Action>, a: Action) returns (longer: seq<State>, more: seq<Action>)
    requires IsRun(states, actions) && Enabled(states[|actions|], a)
    ensures IsRun(longer, more) && longer[0] == states[0]
    ensures more == actions + [a] && longer[|more|] == Next(states[|actions|], a)
  {
    longer, more := states + [Next(states[|actions|], a)], actions + [a];
  }

  /** A caller that waits for a stopping worker can always return true, within twelve steps of the two. */
  lemma WaitingStopCanSucceed(s: State, c: nat) returns (states: seq<State>, actions: seq<Action>)
    requires Inv(s) && At(s, c, Awaiting)
    requires forall g | 0 <= g < |s.workers| && Active(s.workers[g].pc) :: s.shared.stopRequested
    ensures IsRun(states, actions) && states[0] == s && |actions| <= 12
    ensures forall i | 0 <= i < |actions| :: actions[i].Work? || actions[i] in {StopTake(c), StopJoin(c)}
    ensures At(states[|actions|], c, Returned(true))
  {
    if s.shared.worker.Some? {
      states, actions := OwedMovesRetire(s, s.shared.worker.value);
    } else {
      states, actions := [s], [];
    }
    TakeAndJoin(states[|actions|], c);
    hide Inv;
    states, actions := Extend(states, actions, StopTake(c));
    states, actions := Extend(states, actions, StopJoin(c));
  }

  /** Once the latest worker has retired, nothing blocks the last two steps of a waiting caller. */
  lemma TakeAndJoin(s: State, c: nat)
    requires Inv(s) && At(s, c, Awaiting)
    requires s.shared.worker.Some? ==> s.workers[s.shared.worker.value].pc.Retired?
    ensures Enabled(s, StopTake(c))
    ensures Enabled(Next(s, StopTake(c)), StopJoin(c))
    ensures At(Next(Next(s, StopTake(c)), StopJoin(c)), c, Returned(true))
  {
  }

  const PARKED := State(Shared(Some(0), false, true, false), false, [Worker(Parking, 1)], map[], {})

  /** A started worker scans once and finds no reason to stay awake. */
  lemma WorkerParks() returns (states: seq<State>, actions: seq<Action>)
    ensures IsRun(states, actions) && states[0] == INITIAL && states[|actions|] == PARKED
  {
    states, actions := [INITIAL], [];
    hide IsRun;
    states, actions := Extend(states, actions, Start(true));
    states, actions := Extend(states, actions, Work(0, Proceed));
    states, actions := Extend(states, actions, Work(0, Proceed));
    states, actions := Extend(states, actions, Work(0, Proceed));
    states, actions := Extend(states, actions, Work(0, Proceed));
    states, actions := Extend(states, actions, Work(0, Proceed));
  }

  /** Lost wake-ups are real: here the request and its notification fall between the predicate and the wait. */
  lemma WakeUpCanBeLost() returns (states: seq<State>, actions: seq<Action>)
    ensures IsRun(states, actions) && states[0] == INITIAL
    ensures var last := states[|actions|];
            && last.shared.stopRequested && At(last, 0, Awaiting)
            && |last.workers| == 1 && last.workers[0].pc.Waiting?
  {
    states, actions := WorkerParks();
    hide IsRun;
    states, actions := Extend(states, actions, Stop(0));
    states, actions := Extend(states, actions, StopCheck(0));
    states, actions := Extend(states, actions, StopRequest(0));
    states, actions := Extend(states, actions, StopSignal(0));
    assert states[|actions|].workers == [Worker(Parking, 1)];
    states, actions := Extend(states, actions, Work(0, Proceed));
  }

  /** Where a worker that was asked to stop stays clear of the wait. */
  predicate Awake(s: State, g: nat) {
    g < |s.workers| && !s.workers[g].pc.Parking? && !s.workers[g].pc.Waiting?
  }

  lemma StaysAwake(s: State, a: Action, g: nat)
    requires Inv(s) && Enabled(s, a) && Stopping(s, g) && Awake(s, g)
    ensures Awake(Next(s, a), g)
  {
    hide Inv;
  }

  lemma {:induction false} NeverWaitsAgain(states: seq<State>, actions: seq<Action>, g: nat, i: nat)
    requires IsRun(states, actions) && Inv(states[0]) && Stopping(states[0], g) && Awake(states[0], g) && i < |states|
    ensures Stopping(states[i], g) && Awake(states[i], g)
  {
    if i > 0 {
      hide Inv, Next, Enabled, Stopping, Awake;
      NeverWaitsAgain(states, actions, g, i - 1);
      RunKeepsInv(states, actions, i - 1);
      StaysAwake(states[i - 1], actions[i - 1], g);
      StoppingProgresses(states[i - 1], actions[i - 1], g);
    }
  }

  ghost predicate CanStillWait(s: State, g: nat) {
    exists states: seq<State>, actions: seq<Action> :: IsRun(states, actions) && states[0] == s
      && g < |states[|actions|].workers| && states[|actions|].workers[g].pc.Waiting?
  }

  /**
   When a notification is lost: the worker that was asked to stop can wait after it
   exactly if the notification finds it between its predicate and its wait.
   */
  lemma NotificationLostIffParking(s: State, c: nat, g: nat)
    requires Inv(s) && Enabled(s, StopSignal(c)) && Stopping(s, g) && Active(s.workers[g].pc)
    ensures CanStillWait(Next(s, StopSignal(c)), g) <==> s.workers[g].pc.Parking?
  {
    var t := Next(s, StopSignal(c));
    if s.workers[g].pc.Parking? {
      assert t.workers[g].pc.Parking?;
      var states, actions := Extend([t], [], Work(g, Proceed));
      assert states[|actions|].workers[g].pc.Waiting?;
    } else {
      assert Awake(t, g) && Stopping(t, g);
      NextKeepsInv(s, StopSignal(c));
      if CanStillWait(t, g) {
        var states: seq<State>, actions: seq<Action> :| IsRun(states, actions) && states[0] == t
          && g < |states[|actions|].workers| && states[|actions|].workers[g].pc.Waiting?;
        NeverWaitsAgain(states, actions, g, |actions|);
      }
    }
  }

  // ----- what a stop request can and cannot lose

  /** A start clears a pending stop request exactly when no thread is in `worker_`; then no worker is active. */
  lemma StartClearsOnlyStaleRequests(states: seq<State>, actions: seq<Action>, i: nat)
    requires IsRun(states, actions) && states[0] == INITIAL && i < |actions| && actions[i].Start?
    requires states[i].shared.stopRequested
    ensures !states[i + 1].shared.stopRequested <==> states[i].shared.worker.None?
    ensures states[i].shared.worker.None? ==>
              forall g | 0 <= g < |states[i].workers| :: !Active(states[i].workers[g].pc)
  {
    InitialInv();
    RunKeepsInv(states, actions, i);
  }

  lemma RequestStep(s: State, a: Action, g: nat)
    requires Inv(s) && Enabled(s, a)
    ensures var t := Next(s, a);
            && |s.workers| <= |t.workers|
            && (g < |t.workers| && Active(t.workers[g].pc) ==>
                  if g < |s.workers| then
                    && Active(s.workers[g].pc)
                    && (t.shared.stopRequested <==> s.shared.stopRequested || a.StopRequest?)
                  else !t.shared.stopRequested)
  {
    hide ThreadsOwned;
  }

  lemma {:induction false} WorkersOnlyGrow(states: seq<State>, actions: seq<Action>, k: nat, i: nat)
    requires IsRun(states, actions) && k <= i < |states|
    ensures |states[k].workers| <= |states[i].workers|
  {
    if k < i {
      WorkersOnlyGrow(states, actions, k, i - 1);
      assert states[i - 1 + 1] == Next(states[i - 1], actions[i - 1]);
    }
  }

  /** A caller has stored its request after worker `g` was started. */
  predicate AskedSinceStart(states: seq<State>, actions: seq<Action>, i: nat, g: nat)
    requires i <= |actions| && i <= |states|
  {
    exists k | 0 <= k < i :: actions[k].StopRequest? && g < |states[k].workers|
  }

  /** An active worker is asked to stop exactly if some caller has stored its request since the worker was started. */
  lemma {:induction false} RequestedIffAsked(states: seq<State>, actions: seq<Action>, i: nat, g: nat)
    requires IsRun(states, actions) && states[0] == INITIAL && i < |states|
    requires g < |states[i].workers| && Active(states[i].workers[g].pc)
    ensures states[i].shared.stopRequested <==> AskedSinceStart(states, actions, i, g)
  {
    if i > 0 {
      hide Inv, Next, Enabled;
      InitialInv();
      RunKeepsInv(states, actions, i - 1);
      RequestStep(states[i - 1], actions[i - 1], g);
      if g < |states[i - 1].workers| {
        RequestedIffAsked(states, actions, i - 1, g);
      } else {
        forall k | 0 <= k < i
          ensures |states[k].workers| <= g
        {
          WorkersOnlyGrow(states, actions, k, i - 1);
        }
      }
    }
  }

  const BOTH_STOPPING := State(Shared(Some(0), false, true, true), false, [Worker(Entering, 0)],
                               map[0 := Requesting, 1 := Signalling], {})

  lemma TwoCallersStop() returns (states: seq<State>, actions: seq<Action>)
    ensures IsRun(states, actions) && states[0] == INITIAL && states[|actions|] == BOTH_STOPPING
  {
    states, actions := [INITIAL], [];
    hide IsRun;
    states, actions := Extend(states, actions, Start(true));
    states, actions := Extend(states, actions, Stop(0));
    states, actions := Extend(states, actions, StopCheck(0));
    states, actions := Extend(states, actions, Stop(1));
    states, actions := Extend(states, actions, StopCheck(1));
    states, actions := Extend(states, actions, StopRequest(1));
  }

  const FIRST_RETIRED := BOTH_STOPPING.(shared := Shared(Some(0), true, false, true), workers := [Worker(Retired, 0)])

  const FIRST_CLEARING := BOTH_STOPPING.(workers := [Worker(Clearing, 0)])

  lemma FirstWorkerLeaves() returns (states: seq<State>, actions: seq<Action>)
    ensures IsRun(states, actions) && states[0] == INITIAL && states[|actions|] == FIRST_CLEARING
  {
    states, actions := TwoCallersStop();
    hide IsRun;
    states, actions := Extend(states, actions, Work(0, Proceed));
    states, actions := Extend(states, actions, Work(0, Proceed));
    states, actions := Extend(states, actions, Work(0, Proceed));
  }

  lemma FirstWorkerRetires() returns (states: seq<State>, actions: seq<Action>)
    ensures IsRun(states, actions) && states[0] == INITIAL && states[|actions|] == FIRST_RETIRED
  {
    states, actions := FirstWorkerLeaves();
    hide IsRun;
    states, actions := Extend(states, actions, Work(0, Proceed));
    states, actions := Extend(states, actions, Work(0, Proceed));
    states, actions := Extend(states, actions, Work(0, Proceed));
  }

  const FIRST_TAKEN := State(Shared(None, true, false, true), false, [Worker(Retired, 0)],
                             map[0 := Requesting, 1 := Joining(Some(0))], {})

  lemma FirstWorkerTaken() returns (states: seq<State>, actions: seq<Action>)
    ensures IsRun(states, actions) && states[0] == INITIAL && states[|actions|] == FIRST_TAKEN
  {
    states, actions := FirstWorkerRetires();
    hide IsRun;
    states, actions := Extend(states, actions, StopSignal(1));
    states, actions := Extend(states, actions, StopTake(1));
  }

  /**
   With two callers, a request can come after its worker has been taken by the other one; the next
   start clears it, and the caller is left waiting for a worker that nobody has asked to stop.
   */
  lemma RequestCanBeCleared() returns (states: seq<State>, actions: seq<Action>)
    ensures IsRun(states, actions) && states[0] == INITIAL
    ensures var last := states[|actions|];
            && !last.shared.stopRequested && At(last, 0, Awaiting)
            && |last.workers| == 2 && Active(last.workers[1].pc)
  {
    states, actions := FirstWorkerTaken();
    hide IsRun;
    states, actions := Extend(states, actions, StopRequest(0));
    states, actions := Extend(states, actions, Start(true));
    states, actions := Extend(states, actions, StopSignal(0));
  }

  // ----- scanning goes on until a stop

  /** The worker is in the scan loop, and nobody has asked it to stop. */
  predicate Undisturbed(s: State, g: nat) {
    && g < |s.workers| && !s.shared.stopRequested && s.shared.worker == Some(g)
    && s.workers[g].pc in {Entering, LoopHead, ScanReady, Scanning, Deciding, Parking, Waiting}
  }

  /** Without a stop request and without an exception, a started worker never leaves its loop. */
  lemma {:induction false} WorkerKeepsScanning(states: seq<State>, actions: seq<Action>, g: nat, i: nat)
    requires IsRun(states, actions) && Inv(states[0]) && Undisturbed(states[0], g) && i < |states|
    requires forall k | 0 <= k < |actions| :: !actions[k].StopRequest? && actions[k] != Work(g, Throw)
    ensures Undisturbed(states[i], g)
  {
    if i > 0 {
      WorkerKeepsScanning(states, actions, g, i - 1);
      RunKeepsInv(states, actions, i - 1);
      StaysUndisturbed(states[i - 1], actions[i - 1], g);
    }
  }

  lemma StaysUndisturbed(s: State, a: Action, g: nat)
    requires Inv(s) && Enabled(s, a) && Undisturbed(s, g) && !a.StopRequest? && a != Work(g, Throw)
    ensures Undisturbed(Next(s, a), g)
  {
  }

  /** A successful start leaves its worker undisturbed, whatever was requested before. */
  lemma StartedIsUndisturbed(s: State)
    requires Inv(s) && s.shared.worker.None?
    ensures Undisturbed(StartStep(s, true), |s.workers|)
  {
    StartKeepsInv(s, true);
  }

  /** How many moves of its own a worker is from beginning its next scan. */
  function ScanDistance(pc: WorkerPc): nat {
    match pc
    case ScanReady => 1
    case LoopHead => 2
    case Entering => 3
    case Waiting => 3
    case Parking => 4
    case Deciding => 5
    case Scanning => 6
    case _ => 0
  }

  lemma OwedMoveApproaches(s: State, g: nat)
    requires Undisturbed(s, g)
    ensures var a := Work(g, OwedMove(s.workers[g].pc));
            && Enabled(s, a) && a != Work(g, Throw)
            && (var before, after := s.workers[g], Next(s, a).workers[g];
                if before.pc.ScanReady? then after == Worker(Scanning, before.scans + 1)
                else after.scans == before.scans && ScanDistance(after.pc) < ScanDistance(before.pc))
  {
  }

  /** With the owed moves alone, a worker in its loop begins another scan, six moves later at most. */
  lemma {:induction false} NextScanComes(s: State, g: nat) returns (states: seq<State>, actions: seq<Action>)
    requires Inv(s) && Undisturbed(s, g)
    ensures IsRun(states, actions) && states[0] == s
    ensures forall i | 0 <= i < |actions| ::
              g < |states[i].workers| && actions[i] == Work(g, OwedMove(states[i].workers[g].pc))
    ensures |actions| <= ScanDistance(s.workers[g].pc) <= 6
    ensures var last := states[|actions|];
            g < |last.workers| && last.workers[g] == Worker(Scanning, s.workers[g].scans + 1)
    decreases ScanDistance(s.workers[g].pc)
  {
    var pc := s.workers[g].pc;
    var a := Work(g, OwedMove(pc));
    OwedMoveApproaches(s, g);
    assert ScanDistance(pc) <= 6;
    hide Inv, Next, Enabled, ScanDistance, OwedMove;
    var next := Next(s, a);
    StaysUndisturbed(s, a, g);
    NextKeepsInv(s, a);
    if pc.ScanReady? {
      states, actions := [s, next], [a];
    } else {
      var rest, acts := NextScanComes(next, g);
      states, actions := [s] + rest, [a] + acts;
      Prepend(s, a, rest, acts);
      assert forall i | 0 < i < |actions| :: states[i] == rest[i - 1] && actions[i] == acts[i - 1];
    }
  }

  // ----- pending events

  lemma PendingStep(s: State, a: Action, g: nat)
    requires Enabled(s, a) && s.pending && Awake(s, g)
    ensures Awake(Next(s, a), g)
  {
  }

  /** While events are pending, a worker that does not wait yet will not: it scans again first. */
  lemma {:induction false} PendingKeepsAwake(states: seq<State>, actions: seq<Action>, g: nat, i: nat)
    requires IsRun(states, actions) && i < |states| && Awake(states[0], g)
    requires forall k | 0 <= k < i :: states[k].pending
    ensures Awake(states[i], g)
  {
    if i > 0 {
      hide Next, Enabled, Awake;
      PendingKeepsAwake(states, actions, g, i - 1);
      PendingStep(states[i - 1], actions[i - 1], g);
    }
  }

  /** The scan is over, and the next one has not been decided on. */
  predicate Idle(s: State, g: nat) {
    g < |s.workers| && (s.workers[g].pc.Deciding? || s.workers[g].pc.Parking? || s.workers[g].pc.Waiting?)
  }

  lemma IdleStep(s: State, a: Action, g: nat)
    requires Enabled(s, a) && Idle(s, g) && !s.pending && !s.shared.stopRequested && a != Work(g, Expire)
    ensures Idle(Next(s, a), g) && Next(s, a).workers[g].scans == s.workers[g].scans
  {
  }

  /** Without pending events and a stop request, no wake-up leads to a scan: only the end of the interval does. */
  lemma {:induction false} NoScanWithoutReason(states: seq<State>, actions: seq<Action>, g: nat, i: nat)
    requires IsRun(states, actions) && i < |states| && Idle(states[0], g)
    requires forall k | 0 <= k < i :: !states[k].pending && !states[k].shared.stopRequested && actions[k] != Work(g, Expire)
    ensures Idle(states[i], g) && states[i].workers[g].scans == states[0].workers[g].scans
  {
    if i > 0 {
      hide Next, Enabled;
      NoScanWithoutReason(states, actions, g, i - 1);
      IdleStep(states[i - 1], actions[i - 1], g);
    }
  }

  ghost predicate CanWaitWhilePending(s: State, g: nat) {
    exists states: seq<State>, actions: seq<Action> :: IsRun(states, actions) && states[0] == s
      && (forall k | 0 <= k < |states| :: states[k].pending)
      && g < |states[|actions|].workers| && states[|actions|].workers[g].pc.Waiting?
  }

  /**
   When the notification of an event is lost: the worker can wait with the event pending exactly
   if the notification finds it between its predicate and its wait.
   */
  lemma EventWakeLostIffParking(s: State, g: nat)
    requires s.pending && g < |s.workers|
    ensures CanWaitWhilePending(Next(s, Wake), g) <==> s.workers[g].pc.Parking?
  {
    var t := Next(s, Wake);
    if s.workers[g].pc.Parking? {
      var states, actions := Extend([t], [], Work(g, Proceed));
      assert states[|actions|].workers[g].pc.Waiting?;
      assert states == [t, Next(t, Work(g, Proceed))];
    } else {
      assert Awake(t, g);
      if CanWaitWhilePending(t, g) {
        var states: seq<State>, actions: seq<Action> :| IsRun(states, actions) && states[0] == t
          && (forall k | 0 <= k < |states| :: states[k].pending)
          && g < |states[|actions|].workers| && states[|actions|].workers[g].pc.Waiting?;
        PendingKeepsAwake(states, actions, g, |actions|);
      }
    }
  }

  // ----- what stop returns

  /** A call of `stop` ends in its first section exactly if no thread is in `worker_`. */
  lemma StopEndsAtOnceIffIdle(s: State, c: nat)
    requires Enabled(s, StopCheck(c))
    ensures At(Next(s, StopCheck(c)), c, Returned(true)) <==> s.shared.worker.None?
    ensures s.shared.worker.Some? ==> Next(s, StopCheck(c)).shared == s.shared
  {
  }

  /** A call of `stop` gives up only while some worker is active. */
  lemma StopFailsOnlyWhileActive(states: seq<State>, actions: seq<Action>, i: nat, c: nat)
    requires IsRun(states, actions) && states[0] == INITIAL && i < |actions| && actions[i] == StopExpire(c)
    ensures exists g | 0 <= g < |states[i].workers| :: Active(states[i].workers[g].pc)
  {
    InitialInv();
    RunKeepsInv(states, actions, i);
    hide ThreadsOwned;
  }
}
