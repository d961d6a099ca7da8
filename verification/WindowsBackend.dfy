/** The life cycle of the Windows isolated backend: what it owns of the outside world, and that
    it gives everything back once, however a run goes wrong. */
module WindowsBackend {
  import opened Wrappers

  /** How an awaited call ends: normally, by an exception, or by cancellation. */
  datatype Ending = Fine | Failed | Cancelled

  /** The lease context: none, entered, or dead because entering it was cancelled. */
  datatype Lease = NoLease | Live | Dead

  /** The backend's fields, and what the outside world holds on its behalf. `worker` is the worker
      process, by the display start that it was launched after; `starts` counts those. */
  datatype State = State(
    display: Option<string>,
    worker: Option<nat>,
    controlFile: bool,
    targetConfigured: bool,
    stopped: bool,
    lease: Lease,
    displayRunning: bool,
    target: Option<string>,
    starts: nat,
    acquired: nat,
    released: nat)

  const FRESH := State(None, None, false, false, false, NoLease, false, None, 0, 0, 0)

  datatype Launch = Launched | Raised | NoPipes

  /** What the calls made by a preflight do. `hook` says that the inner backend can be told its
      target display. */
  datatype Startup = Startup(
    lease: Ending, start: Ending, displayId: string, hook: bool, tempFile: bool, launch: Launch,
    shutdown: Teardown)

  /** `workerStops` is false when stopping the worker process raises. */
  datatype Teardown = Teardown(workerStops: bool, hook: bool)

  // ----- the operations as functions of the state -------------------------------------

  function ReleaseLease(s: State): State {
    s.(lease := NoLease, released := if s.lease == Live then s.released + 1 else s.released)
  }

  function Shutdown(s: State, down: Teardown): State {
    if s.stopped then s else
      var noWorker := if s.worker.None? then s.(controlFile := false)
                      else if down.workerStops then s.(worker := None, controlFile := false)
                      else s;
      var cleared := noWorker.(
        stopped := true,
        displayRunning := false,
        target := if down.hook && s.targetConfigured then None else s.target,
        targetConfigured := false,
        display := None);
      ReleaseLease(cleared)
  }

  /** The state when the worker session has been started or not, and whether it was. */
  function StartWorker(s: State, up: Startup): (State, bool) {
    if s.worker.Some? then (s, true)
    else if !up.tempFile then (s, false)
    else
      match up.launch
      case Launched => (s.(controlFile := true, worker := Some(s.starts)), true)
      case Raised => (s.(controlFile := true), false)
      case NoPipes => (s.(controlFile := false), false)
  }

  function Preflight(s: State, up: Startup): (State, Ending) {
    if s.display.Some? && !s.stopped then (s, Fine)
    else if up.lease != Fine then (s.(stopped := false, lease := Dead), up.lease)
    else
      var leased := s.(stopped := false, lease := Live, acquired := s.acquired + 1);
      if up.start != Fine then
        (if s.display.Some? then Shutdown(leased, up.shutdown) else ReleaseLease(leased), up.start)
      else
        var displayed := leased.(display := Some(up.displayId), displayRunning := true, starts := s.starts + 1);
        var targeted := if up.hook then displayed.(target := Some(up.displayId), targetConfigured := true)
                        else displayed;
        var (after, ok) := StartWorker(targeted, up);
        if ok then (after, Fine) else (Shutdown(after, up.shutdown), Failed)
  }

  /** An observe, execute or list_apps call; only a cancellation shuts the backend down. */
  function Command(s: State, ending: Ending, down: Teardown): (State, Ending) {
    if s.display.None? then (s, Failed)
    else if ending == Cancelled then (Shutdown(s, down), Cancelled)
    else (s, ending)
  }

  // ----- the operations as the program runs them -----------------------------------------

  class World {
    var displayRunning: bool
    var target: Option<string>
    var starts: nat
    var acquired: nat
    var released: nat

    constructor ()
      ensures !displayRunning && target == None && starts == 0 && acquired == 0 && released == 0
    {
      displayRunning, target, starts, acquired, released := false, None, 0, 0, 0;
    }
  }

  class Backend {
    const world: World
    var display: Option<string>
    var worker: Option<nat>
    var controlFile: bool
    var targetConfigured: bool
    var stopped: bool
    var lease: Lease

    ghost function AsState(): State
      reads this, world
    {
      State(display, worker, controlFile, targetConfigured, stopped, lease,
            world.displayRunning, world.target, world.starts, world.acquired, world.released)
    }

    constructor (world: World)
      requires !world.displayRunning && world.target == None
      requires world.starts == 0 && world.acquired == 0 && world.released == 0
      ensures this.world == world && AsState() == FRESH
    {
      this.world := world;
      display, worker, controlFile, targetConfigured, stopped, lease := None, None, false, false, false, NoLease;
    }

    method Start(up: Startup) returns (ending: Ending)
      modifies this, world
      ensures (AsState(), ending) == Preflight(old(AsState()), up)
    {
      if display.Some? && !stopped {
        return Fine;
      }
      stopped := false;
      if up.lease != Fine {
        lease := Dead;
        return up.lease;
      }
      lease, world.acquired := Live, world.acquired + 1;
      if up.start != Fine {
        if display.Some? {
          Stop(up.shutdown);
        } else {
          Release();
        }
        return up.start;
      }
      display, world.displayRunning, world.starts := Some(up.displayId), true, world.starts + 1;
      if up.hook {
        world.target, targetConfigured := Some(up.displayId), true;
      }
      var ok := StartWorkerSession(up);
      if !ok {
        Stop(up.shutdown);
        return Failed;
      }
      ending := Fine;
    }

    method StartWorkerSession(up: Startup) returns (ok: bool)
      modifies this
      ensures (AsState(), ok) == StartWorker(old(AsState()), up)
    {
      if worker.Some? {
        return true;
      }
      if !up.tempFile {
        return false;
      }
      controlFile := true;
      if up.launch == Raised {
        return false;
      }
      if up.launch == NoPipes {
        controlFile := false;
        return false;
      }
      worker := Some(world.starts);
      ok := true;
    }

    method Send(ending: Ending, down: Teardown) returns (result: Ending)
      modifies this, world
      ensures (AsState(), result) == Command(old(AsState()), ending, down)
    {
      if display.None? {
        return Failed;
      }
      if ending == Cancelled {
        Stop(down);
      }
      result := ending;
    }

    method Stop(down: Teardown)
      modifies this, world
      ensures AsState() == Shutdown(old(AsState()), down)
    {
      if stopped {
        return;
      }
      stopped := true;
      StopWorkerSession(down);
      world.displayRunning := false;
      if down.hook && targetConfigured {
        world.target := None;
      }
      targetConfigured := false;
      display := None;
      Release();
    }

    /** An exception while stopping the process leaves the process and its file recorded. */
    method StopWorkerSession(down: Teardown)
      modifies this`worker, this`controlFile
      ensures worker == if down.workerStops then None else old(worker)
      ensures controlFile == (old(controlFile) && old(worker).Some? && !down.workerStops)
    {
      if worker.Some? && !down.workerStops {
        return;
      }
      worker := None;
      controlFile := false;
    }

    method Release()
      modifies this`lease, world`released
      ensures lease == NoLease
      ensures world.released == old(world.released) + if old(lease) == Live then 1 else 0
    {
      if lease == Live {
        world.released := world.released + 1;
      }
      lease := NoLease;
    }
  }

  // ----- what every run keeps ---------------------------------------------------------------

  /** Nothing of the outside world is held. */
  predicate Clean(s: State) {
    s.display == None && !s.displayRunning && s.target == None && !s.targetConfigured
    && s.lease != Live && s.acquired == s.released
  }

  predicate Ready(s: State) {
    s.display.Some? && !s.stopped && s.displayRunning && s.worker.Some? && s.lease == Live
    && s.acquired == s.released + 1
    && (if s.targetConfigured then s.target == s.display else s.target == None)
  }

  predicate Inv(s: State) {
    Clean(s) || Ready(s)
  }

  datatype Op = Begin(up: Startup) | Call(ending: Ending, down: Teardown) | End(down: Teardown)

  function ApplyOp(s: State, op: Op): State {
    match op
    case Begin(up) => Preflight(s, up).0
    case Call(ending, down) => Command(s, ending, down).0
    case End(down) => Shutdown(s, down)
  }

  function Run(ops: seq<Op>): State {
    if ops == [] then FRESH else ApplyOp(Run(ops[..|ops| - 1]), ops[|ops| - 1])
  }

  /** Whether the inner backend has the hook does not change during a run. */
  predicate HookIs(op: Op, hook: bool) {
    match op
    case Begin(up) => up.hook == hook && up.shutdown.hook == hook
    case Call(_, down) => down.hook == hook
    case End(down) => down.hook == hook
  }

  predicate InvWith(s: State, hook: bool) {
    Inv(s) && (s.targetConfigured ==> hook)
  }

  /** A preflight that ends normally leaves the backend ready; one that fails or is cancelled,
      wherever it does, leaves nothing held, and has released the lease as often as it took it. */
  lemma PreflightOutcome(s: State, up: Startup)
    requires InvWith(s, up.hook) && up.hook == up.shutdown.hook
    ensures var (after, ending) := Preflight(s, up);
            && InvWith(after, up.hook)
            && (ending == Fine <==> Ready(after))
            && (ending != Fine ==> Clean(after)
                                   && after.released - s.released == after.acquired - s.acquired <= 1)
  {
    assert s.display.Some? ==> Ready(s);
  }

  /** A backend that is ready is left alone. Else a preflight takes the lease, starts the display and,
      unless a worker is left, launches one, and it ends in the way of the first of these that does
      not end well. */
  lemma PreflightIs(s: State, up: Startup)
    requires InvWith(s, up.hook) && up.hook == up.shutdown.hook
    ensures var (after, ending) := Preflight(s, up);
            var begins := s.display == None;
            && (!begins ==> after == s && ending == Fine)
            && (begins ==> after.acquired == s.acquired + if up.lease == Fine then 1 else 0)
            && (begins && up.lease != Fine ==> ending == up.lease)
            && (begins && up.lease == Fine && up.start != Fine ==> ending == up.start)
            && (begins && ending != Fine ==> (after.stopped <==> up.lease == up.start == Fine))
            && (begins && up.lease == up.start == Fine ==>
                  (ending == Fine <==> s.worker.Some? || (up.tempFile && up.launch == Launched)) && ending != Cancelled)
            && (begins && ending == Fine ==>
                  && after.display == Some(up.displayId) && after.starts == s.starts + 1
                  && after.target == (if up.hook then Some(up.displayId) else None)
                  && after.worker == if s.worker.Some? then s.worker else Some(s.starts + 1))
  {
    assert s.display.Some? ==> Ready(s);
  }

  /** The control file exists exactly while a worker is recorded. */
  predicate FileWithWorker(s: State) {
    s.controlFile <==> s.worker.Some?
  }

  lemma FileStaysWithWorker(s: State, op: Op)
    requires FileWithWorker(s) && (s.stopped ==> s.display == None)
    ensures FileWithWorker(ApplyOp(s, op)) && (ApplyOp(s, op).stopped ==> ApplyOp(s, op).display == None)
  {
  }

  /** A shutdown leaves nothing held and releases a held lease once. */
  lemma ShutdownOutcome(s: State, down: Teardown)
    requires InvWith(s, down.hook)
    ensures var after := Shutdown(s, down);
            && Clean(after) && after.stopped && after.acquired == s.acquired
            && after.released == s.released + (if s.lease == Live then 1 else 0)
            && (!s.stopped ==> after.worker == if down.workerStops then None else s.worker)
            && (s.stopped ==> after == s)
  {
  }

  /** The worker was launched after the start of the display that runs now, not of an earlier one. */
  predicate OwnWorker(s: State) {
    s.worker == Some(s.starts)
  }

  /** A worker that was launched before was launched after some start. */
  predicate KnownWorker(s: State) {
    s.worker.Some? ==> s.worker.value <= s.starts
  }

  lemma WorkerStaysKnown(s: State, op: Op)
    requires KnownWorker(s)
    ensures KnownWorker(ApplyOp(s, op))
  {
  }

  /** A preflight that starts a display ends with a worker of its own exactly if none was left; a
      worker is left exactly by a shutdown in which stopping it failed. */
  lemma OwnWorkerIff(s: State, down: Teardown, up: Startup)
    requires InvWith(s, up.hook) && down.hook == up.hook == up.shutdown.hook && Ready(s) && KnownWorker(s)
    requires Preflight(Shutdown(s, down), up).1 == Fine
    ensures var after := Preflight(Shutdown(s, down), up).0;
            && Ready(after) && KnownWorker(after)
            && (OwnWorker(after) <==> down.workerStops)
            && (!down.workerStops ==> after.worker == s.worker)
  {
    ShutdownOutcome(s, down);
    PreflightOutcome(Shutdown(s, down), up);
  }

  /** A second shutdown changes nothing. */
  lemma ShutdownIsIdempotent(s: State, first: Teardown, second: Teardown)
    ensures Shutdown(Shutdown(s, first), second) == Shutdown(s, first)
  {
  }

  /** A cancelled command leaves nothing held; any other ending leaves the backend as it was. */
  lemma CommandOutcome(s: State, ending: Ending, down: Teardown)
    requires InvWith(s, down.hook)
    ensures var (after, result) := Command(s, ending, down);
            && (result == Cancelled ==> Clean(after) && after.stopped && after.released == s.released + 1)
            && (result != Cancelled ==> after == s)
            && result == if s.display == None then Failed else ending
  {
    if s.display.Some? && ending == Cancelled {
      ShutdownOutcome(s, down);
    }
  }

  /** After any sequence of preflights, commands and shutdowns, each ending in any way, the
      backend either is ready or holds nothing; the lease was taken and released in turns. */
  lemma {:induction false} RunKeepsInv(ops: seq<Op>, hook: bool)
    requires forall op | op in ops :: HookIs(op, hook)
    ensures InvWith(Run(ops), hook)
    ensures Run(ops).released <= Run(ops).acquired <= Run(ops).released + 1
    ensures KnownWorker(Run(ops)) && FileWithWorker(Run(ops)) && (Run(ops).stopped ==> Run(ops).display == None)
  {
    if ops != [] {
      var before, op := Run(ops[..|ops| - 1]), ops[|ops| - 1];
      RunKeepsInv(ops[..|ops| - 1], hook);
      assert op in ops;
      WorkerStaysKnown(before, op);
      FileStaysWithWorker(before, op);
      match op
      case Begin(up) => PreflightOutcome(before, up);
      case Call(ending, down) => CommandOutcome(before, ending, down);
      case End(down) => ShutdownOutcome(before, down);
    }
  }
}
