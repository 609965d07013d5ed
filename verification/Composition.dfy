/**
 The worker lifecycle and the filesystem enforcer, composed. Any interleaving of
 callers, worker generations and callbacks drives the enforcer through a sequential
 list of operations, of the kind that the theorems about runs are about.
 */
module Composition {
  import opened Lifecycle
  import opened Paths
  import opened Scan
  import ScanRuns
  import opened Wrappers

  datatype System = System(control: State, enforcer: EnforcerState)

  const START := System(INITIAL, FRESH)

  /** A step of the protocol alone, or one that also works on the enforcer. A scan drains the queue as it begins. */
  datatype Event =
    | Control(action: Action)
    | OpenStream(generation: nat, created: bool)
    | BeginScan(generation: nat, input: ScanInput)
    | CloseStream(generation: nat)
    | Arrival(path: Path)

  /** The places from which a worker's step works on the enforcer. */
  predicate Operates(pc: WorkerPc) {
    pc.Entering? || pc.ScanReady? || pc.Leaving?
  }

  predicate HasPlace(s: State, g: nat, pc: WorkerPc) {
    g < |s.workers| && s.workers[g].pc == pc
  }

  /** The pending flag belongs to the enforcer; scans do not throw. */
  predicate Possible(sys: System, e: Event) {
    match e
    case Control(a) =>
      && Enabled(sys.control, a) && !a.SetPending?
      && (a.Work? ==> !a.move.Throw? && !Operates(sys.control.workers[a.generation].pc))
    case OpenStream(g, _) => HasPlace(sys.control, g, Entering)
    case BeginScan(g, _) => HasPlace(sys.control, g, ScanReady)
    case CloseStream(g) => HasPlace(sys.control, g, Leaving)
    case Arrival(_) => true
  }

  function OpOf(e: Event): Op
    requires !e.Control?
  {
    match e
    case OpenStream(_, created) => StreamStart(created)
    case BeginScan(_, input) => PerformScan(input)
    case CloseStream(_) => StreamStop
    case Arrival(path) => Callback(path)
  }

  /** The protocol's part of an event. */
  function Moved(control: State, e: Event): State
    requires Possible(System(control, FRESH), e)
  {
    match e
    case Control(a) => Next(control, a)
    case OpenStream(g, _) => WorkStep(control, g, Proceed)
    case BeginScan(g, _) => WorkStep(control, g, Proceed)
    case CloseStream(g) => WorkStep(control, g, Proceed)
    case Arrival(_) => control
  }

  function After(host: Host, sys: System, e: Event): System
    requires Possible(sys, e)
  {
    var control := Moved(sys.control, e);
    if e.Control? then System(control, sys.enforcer)
    else
      var enforcer := Step(host, sys.enforcer, OpOf(e));
      System(control.(pending := enforcer.hasPending), enforcer)
  }

  ghost predicate IsHistory(host: Host, systems: seq<System>, events: seq<Event>) {
    && |systems| == |events| + 1
    && forall i | 0 <= i < |events| :: Possible(systems[i], events[i]) && systems[i + 1] == After(host, systems[i], events[i])
  }

  /** The operations on the enforcer, in the order in which the threads make them. */
  function OpsOf(events: seq<Event>): seq<Op> {
    if events == [] then []
    else
      var last := events[|events| - 1];
      OpsOf(events[..|events| - 1]) + if last.Control? then [] else [OpOf(last)]
  }

  // ----- the enforcer makes a run

  lemma EnforcerStep(host: Host, sys: System, e: Event)
    requires Possible(sys, e)
    ensures After(host, sys, e).enforcer == if e.Control? then sys.enforcer else Step(host, sys.enforcer, OpOf(e))
  {
  }

  /** Whatever the threads do, the enforcer is in the state that a run of its operations one by one leaves. */
  lemma {:induction false} EnforcerRuns(host: Host, systems: seq<System>, events: seq<Event>, i: nat)
    requires IsHistory(host, systems, events) && systems[0] == START && i < |systems|
    ensures systems[i].enforcer == ScanRuns.Run(host, FRESH, OpsOf(events[..i]))
  {
    if i > 0 {
      hide Possible, After, Step;
      EnforcerRuns(host, systems, events, i - 1);
      var e := events[i - 1];
      assert events[..i][..i - 1] == events[..i - 1];
      EnforcerStep(host, systems[i - 1], e);
      if !e.Control? {
        ScanRuns.RunStep(host, FRESH, OpsOf(events[..i - 1]), OpOf(e));
      } else {
        assert OpsOf(events[..i]) == OpsOf(events[..i - 1]);
      }
    }
  }

  // ----- the threads follow the protocol

  /** The flag that the wait predicate reads is the enforcer's. */
  predicate Coupled(sys: System) {
    sys.control.pending == sys.enforcer.hasPending
  }

  lemma OnlyEventsPend(s: State, a: Action)
    requires Enabled(s, a) && !a.SetPending?
    ensures Next(s, a).pending == s.pending
  {
  }

  /** An event as one step of the protocol, or two. */
  function ActionsOf(sys: System, e: Event, pending: bool): seq<Action> {
    match e
    case Control(a) => [a]
    case OpenStream(g, _) => [Work(g, Proceed), SetPending(pending)]
    case BeginScan(g, _) => [Work(g, Proceed), SetPending(pending)]
    case CloseStream(g) => [Work(g, Proceed), SetPending(pending)]
    case Arrival(_) => [SetPending(pending)]
  }

  lemma ExtendByWork(states: seq<State>, actions: seq<Action>, g: nat, pending: bool)
      returns (longer: seq<State>, more: seq<Action>)
    requires IsRun(states, actions) && Enabled(states[|actions|], Work(g, Proceed))
    ensures IsRun(longer, more) && longer[0] == states[0]
    ensures longer[|more|] == WorkStep(states[|actions|], g, Proceed).(pending := pending)
    ensures more == actions + [Work(g, Proceed), SetPending(pending)]
  {
    hide IsRun;
    longer, more := Extend(states, actions, Work(g, Proceed));
    longer, more := Extend(longer, more, SetPending(pending));
  }

  lemma ExtendByEvent(host: Host, sys: System, e: Event, states: seq<State>, actions: seq<Action>)
      returns (longer: seq<State>, more: seq<Action>)
    requires Possible(sys, e) && Coupled(sys)
    requires IsRun(states, actions) && states[|actions|] == sys.control
    ensures Coupled(After(host, sys, e))
    ensures IsRun(longer, more) && longer[0] == states[0] && longer[|more|] == After(host, sys, e).control
    ensures more == actions + ActionsOf(sys, e, After(host, sys, e).enforcer.hasPending)
  {
    hide IsRun, Step, WorkStep;
    var pending := After(host, sys, e).enforcer.hasPending;
    match e {
      case Control(a) =>
        OnlyEventsPend(sys.control, a);
        longer, more := Extend(states, actions, a);
      case Arrival(_) => longer, more := Extend(states, actions, SetPending(pending));
      case OpenStream(g, _) => longer, more := ExtendByWork(states, actions, g, pending);
      case BeginScan(g, _) => longer, more := ExtendByWork(states, actions, g, pending);
      case CloseStream(g) => longer, more := ExtendByWork(states, actions, g, pending);
    }
  }

  /** Any stretch of a history is a run of the protocol; it starts a worker only if the history does. */
  lemma {:induction false} ControlRuns(host: Host, systems: seq<System>, events: seq<Event>)
      returns (states: seq<State>, actions: seq<Action>)
    requires IsHistory(host, systems, events) && Coupled(systems[0])
    ensures Coupled(systems[|events|])
    ensures IsRun(states, actions)
    ensures states[0] == systems[0].control && states[|actions|] == systems[|events|].control
    ensures (forall i | 0 <= i < |events| :: !(events[i].Control? && events[i].action.Start?)) ==>
              forall i | 0 <= i < |actions| :: !actions[i].Start?
  {
    if events == [] {
      states, actions := [systems[0].control], [];
    } else {
      hide Possible, After, Coupled;
      var n := |events| - 1;
      states, actions := ControlRuns(host, systems[..n + 1], events[..n]);
      hide IsRun;
      states, actions := ExtendByEvent(host, systems[n], events[n], states, actions);
    }
  }

  /** In every reachable state of the system, the protocol's invariant holds, and the flags agree. */
  lemma ReachableInv(host: Host, systems: seq<System>, events: seq<Event>, i: nat)
    requires IsHistory(host, systems, events) && systems[0] == START && i < |systems|
    ensures Inv(systems[i].control) && Coupled(systems[i])
  {
    hide Possible, After, Inv;
    var states, actions := ControlRuns(host, systems[..i + 1], events[..i]);
    InitialInv();
    RunKeepsInv(states, actions, |actions|);
  }

  // ----- one worker at a time

  /** Between having opened the stream and closing it. */
  predicate Inside(pc: WorkerPc) {
    && !pc.Entering? && !pc.Clearing? && !pc.Reporting? && !pc.Notifying? && !pc.Retired?
  }

  predicate IsInside(s: State, g: nat) {
    g < |s.workers| && Inside(s.workers[g].pc)
  }

  /** The generation that has opened the stream and not closed it. */
  function Holder(events: seq<Event>): Option<nat> {
    if events == [] then None
    else
      match events[|events| - 1]
      case OpenStream(g, _) => Some(g)
      case CloseStream(_) => None
      case _ => Holder(events[..|events| - 1])
  }

  /** Whether the holder was granted a stream. */
  predicate StreamUp(events: seq<Event>) {
    if events == [] then false
    else
      match events[|events| - 1]
      case OpenStream(_, created) => created
      case CloseStream(_) => false
      case _ => StreamUp(events[..|events| - 1])
  }

  /** The stream is opened only when no generation holds it, and only the holder scans and closes it. */
  predicate Alternates(events: seq<Event>) {
    events != [] ==>
      var front := events[..|events| - 1];
      && Alternates(front)
      && match events[|events| - 1]
         case OpenStream(_, _) => Holder(front).None?
         case BeginScan(g, _) => Holder(front) == Some(g)
         case CloseStream(g) => Holder(front) == Some(g)
         case _ => true
  }

  lemma InsideStep(host: Host, sys: System, e: Event)
    requires Inv(sys.control) && Possible(sys, e)
    ensures var next := After(host, sys, e).control;
            match e
            case OpenStream(g, _) =>
              (forall k: nat :: !IsInside(sys.control, k)) && (forall k: nat :: IsInside(next, k) <==> k == g)
            case BeginScan(g, _) => IsInside(sys.control, g) && forall k: nat :: IsInside(next, k) <==> IsInside(sys.control, k)
            case CloseStream(g) => IsInside(sys.control, g) && forall k: nat :: !IsInside(next, k)
            case _ => forall k: nat :: IsInside(next, k) <==> IsInside(sys.control, k)
  {
    hide ThreadsOwned, Step;
    match e {
      case Control(a) => ControlKeepsInside(sys.control, a);
      case _ =>
    }
  }

  lemma ControlKeepsInside(s: State, a: Action)
    requires Enabled(s, a) && !a.SetPending?
    requires a.Work? ==> !a.move.Throw? && !Operates(s.workers[a.generation].pc)
    ensures forall k: nat :: IsInside(Next(s, a), k) <==> IsInside(s, k)
  {
  }

  lemma BackendStep(host: Host, sys: System, e: Event)
    requires Possible(sys, e)
    ensures var after := After(host, sys, e);
            && (e.CloseStream? ==> !after.enforcer.backend)
            && (e.OpenStream? ==> after.enforcer.backend == (sys.enforcer.backend || e.created))
            && (!e.CloseStream? && !e.OpenStream? ==> after.enforcer.backend == sys.enforcer.backend)
  {
  }

  /**
   Stream and scans change hands one generation at a time: the holder is exactly the worker inside its loop,
   the openings, scans and closings alternate, and the stream is up exactly while a holder that was granted one
   holds it.
   */
  lemma {:induction false} OneHolder(host: Host, systems: seq<System>, events: seq<Event>, i: nat)
    requires IsHistory(host, systems, events) && systems[0] == START && i < |systems|
    ensures Alternates(events[..i])
    ensures forall k: nat :: IsInside(systems[i].control, k) <==> Holder(events[..i]) == Some(k)
    ensures systems[i].enforcer.backend <==> StreamUp(events[..i])
    ensures StreamUp(events[..i]) ==> Holder(events[..i]).Some?
  {
    if i > 0 {
      hide Possible, After, Inv, IsInside;
      OneHolder(host, systems, events, i - 1);
      ReachableInv(host, systems, events, i - 1);
      assert events[..i][..i - 1] == events[..i - 1];
      InsideStep(host, systems[i - 1], events[i - 1]);
      BackendStep(host, systems[i - 1], events[i - 1]);
    }
  }

  /** While a worker scans, nothing but arrivals touches the enforcer. */
  lemma ScansAreUndisturbed(host: Host, systems: seq<System>, events: seq<Event>, i: nat, g: nat, e: Event)
    requires IsHistory(host, systems, events) && systems[0] == START && i < |systems|
    requires HasPlace(systems[i].control, g, Scanning) && Possible(systems[i], e) && !e.Control?
    ensures e.Arrival?
  {
    ReachableInv(host, systems, events, i);
    hide ThreadsOwned;
  }

  /** A stop that returns true, with no start during the call, leaves the event stream closed. */
  lemma StopClosesStream(host: Host, systems: seq<System>, events: seq<Event>, k: nat, c: nat)
    requires IsHistory(host, systems, events) && systems[0] == START && k <= |events|
    requires At(systems[k].control, c, Checking)
    requires forall i | k <= i < |events| :: !(events[i].Control? && events[i].action.Start?)
    requires At(systems[|events|].control, c, Returned(true))
    ensures !systems[|events|].enforcer.backend
  {
    ReachableInv(host, systems, events, k);
    OneHolder(host, systems, events, |events|);
    hide Possible, After, Inv;
    var rest, calls := systems[k..], events[k..];
    assert rest[|calls|] == systems[|events|];
    var states, actions := ControlRuns(host, rest, calls);
    StopMeansStopped(states, actions, c);
    assert events[..|events|] == events;
    assert forall g: nat :: !IsInside(systems[|events|].control, g);
  }

  // ----- events are not slept on

  /** The worker does not wait, and until it leaves its loop there is something pending. */
  predicate KeptAwake(sys: System, g: nat) {
    && Awake(sys.control, g)
    && (var pc := sys.control.workers[g].pc; pc.Entering? || Inside(pc) ==> sys.enforcer.hasPending)
  }

  lemma KeptAwakeStep(host: Host, sys: System, e: Event, g: nat)
    requires Inv(sys.control) && Coupled(sys) && Possible(sys, e) && KeptAwake(sys, g)
    requires !(e.BeginScan? && e.generation == g)
    ensures KeptAwake(After(host, sys, e), g)
  {
    hide ThreadsOwned, AfterScan;
    match e {
      case Control(a) => ControlKeepsAwake(sys.control, a, g);
      case _ =>
    }
  }

  lemma ControlKeepsAwake(s: State, a: Action, g: nat)
    requires Enabled(s, a) && !a.SetPending? && Awake(s, g)
    requires a.Work? ==> !a.move.Throw? && !Operates(s.workers[a.generation].pc)
    requires s.workers[g].pc.Entering? || Inside(s.workers[g].pc) ==> s.pending
    ensures Awake(Next(s, a), g)
    ensures var pc, next := s.workers[g].pc, Next(s, a).workers[g].pc;
            next.Entering? || Inside(next) ==> pc.Entering? || Inside(pc)
  {
  }

  lemma {:induction false} StaysKeptAwake(host: Host, systems: seq<System>, events: seq<Event>, k: nat, m: nat, g: nat)
    requires IsHistory(host, systems, events) && systems[0] == START && k < m < |systems|
    requires events[k].Arrival? && events[k].path != "" && Awake(systems[k].control, g)
    requires forall i | k < i < m :: !(events[i].BeginScan? && events[i].generation == g)
    ensures KeptAwake(systems[m], g)
  {
    if m == k + 1 {
      hide Inv;
    } else {
      hide Possible, After, Inv, KeptAwake, Coupled;
      StaysKeptAwake(host, systems, events, k, m - 1, g);
      ReachableInv(host, systems, events, m - 1);
      KeptAwakeStep(host, systems[m - 1], events[m - 1], g);
    }
  }

  /**
   Between the arrival of an event and the next scan, a worker that was not waiting when the event came does not
   sit out its interval: in particular, an event that arrives during a scan leads to another scan at once.
   */
  lemma ArrivalsAreNotSleptOn(host: Host, systems: seq<System>, events: seq<Event>, k: nat, m: nat, g: nat)
    requires IsHistory(host, systems, events) && systems[0] == START && k < m < |events|
    requires events[k].Arrival? && events[k].path != "" && Awake(systems[k].control, g)
    requires forall i | k < i < m :: !(events[i].BeginScan? && events[i].generation == g)
    ensures events[m] != Control(Work(g, Expire))
  {
    StaysKeptAwake(host, systems, events, k, m, g);
  }
}
