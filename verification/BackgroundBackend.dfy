/** Backends that point the process-wide DISPLAY variable at their own virtual display while
    they hold the runtime lease: what each of their steps does, the methods that take them, and
    any number of backends interleaved at their suspension points. */
module BackgroundBackend {
  import opened Wrappers

  // ----- the steps of one backend -------------------------------------------------------

  predicate IsX11(displayId: string) {
    displayId != "" && displayId[0] == ':'
  }

  /** DISPLAY after a backend with this display has applied it. */
  function Applied(env: Option<string>, displayId: string): Option<string> {
    if IsX11(displayId) then Some(displayId) else env
  }

  /** Where a backend is suspended. */
  datatype Place =
    | Free      // in no call
    | Asking    // preflight waits for the lease
    | Starting  // preflight waits for the display to start
    | Preparing // preflight waits for the inner backend's
    | Stopping  // shutdown waits for the display to stop
    | Releasing // the lease is being given back

  /** The fields of a backend. `original` is None until a preflight has recorded DISPLAY; `leased`
      says that the lease's context is kept for release. */
  datatype Run = Run(place: Place, display: Option<string>, original: Option<Option<string>>, stopped: bool, leased: bool)

  const FRESH := Run(Free, None, None, false, false)

  /** What all backends share: DISPLAY, and who holds the lease. */
  datatype World = World(env: Option<string>, holder: Option<nat>)

  /** A backend and the world it acts on. */
  datatype Cell = Cell(id: nat, run: Run, world: World)

  datatype Act =
    | Ask | Acquire | AskCancelled
    | StartDone(display: string) | StartFails | StartCancelled
    | PrepareDone | PrepareFails | PrepareCancelled
    | Use        // observe or execute
    | BeginStop
    | Restore    // the display has stopped, in whatever way
    | Release
    | Close      // the event loop closes a lease's context that nothing refers to any more

  /** The backend takes itself to be started: preflight returns at once. */
  predicate Started(r: Run) {
    r.display.Some? && !r.stopped
  }

  /** The backend holds the lease by a context it no longer refers to. */
  predicate Dropped(c: Cell) {
    c.world.holder == Some(c.id) && !c.run.leased
    && (c.run.place == Free || c.run.place == Asking || c.run.place == Stopping)
  }

  predicate Can(c: Cell, act: Act) {
    match act
    case Ask => c.run.place == Free && !Started(c.run)
    case Acquire => c.run.place == Asking && c.world.holder == None
    case AskCancelled => c.run.place == Asking
    case StartDone(_) => c.run.place == Starting
    case StartFails => c.run.place == Starting
    case StartCancelled => c.run.place == Starting
    case PrepareDone => c.run.place == Preparing
    case PrepareFails => c.run.place == Preparing
    case PrepareCancelled => c.run.place == Preparing
    case Use => c.run.place == Free && c.run.display.Some?
    case BeginStop => c.run.place == Free && !c.run.stopped
    case Restore => c.run.place == Stopping
    case Release => c.run.place == Releasing
    case Close => Dropped(c)
  }

  function At(c: Cell, place: Place): Cell {
    c.(run := c.run.(place := place))
  }

  /** Only exceptions release the lease; a cancellation is none and leaves it held. */
  function Do(c: Cell, act: Act): Cell
    requires Can(c, act)
  {
    var r, w := c.run, c.world;
    match act
    case Ask => c.(run := r.(place := Asking, stopped := false, leased := false))
    case Acquire => Cell(c.id, r.(place := Starting, leased := true), w.(holder := Some(c.id)))
    case AskCancelled => At(c, Free)
    case StartDone(display) =>
      Cell(c.id, r.(place := Preparing, display := Some(display), original := Some(w.env)),
           w.(env := Applied(w.env, display)))
    case StartFails => c.(run := r.(place := Releasing, leased := false))
    case StartCancelled => At(c, Free)
    case PrepareDone => At(c, Free)
    case PrepareFails => c.(run := r.(place := Releasing, leased := false))
    case PrepareCancelled => At(c, Free)
    case Use => c.(world := w.(env := Applied(w.env, r.display.value)))
    case BeginStop => At(c, Stopping)
    case Restore =>
      Cell(c.id, r.(place := if r.leased then Releasing else Free, stopped := true, leased := false),
           w.(env := r.original.GetOr(w.env)))
    case Release => Cell(c.id, r.(place := Free), w.(holder := None))
    case Close => c.(world := w.(holder := None))
  }

  // ----- the methods, which take these steps ---------------------------------------------

  datatype Ending = Fine | AskIsCancelled | StartIsCancelled | StartRaises | InnerIsCancelled | InnerRaises

  /** A held lease is waited for; meanwhile others act, and DISPLAY is `found` when it is free. */
  function Awaited(c: Cell, found: Option<string>): Cell {
    if c.world.holder == None then c else c.(world := World(found, None))
  }

  function Preflight(c: Cell, displayId: string, ending: Ending, found: Option<string>): Cell
    requires c.run.place == Free
  {
    if Started(c.run) then c
    else if ending == AskIsCancelled then Do(Do(c, Ask), AskCancelled)
    else Prepared(Do(Awaited(Do(c, Ask), found), Acquire), displayId, ending)
  }

  /** A preflight from the moment it has the lease. */
  function Prepared(c: Cell, displayId: string, ending: Ending): Cell
    requires c.run.place == Starting
  {
    if ending == StartIsCancelled then Do(c, StartCancelled)
    else if ending == StartRaises then Do(Do(c, StartFails), Release)
    else
      var displayed := Do(c, StartDone(displayId));
      if ending == InnerIsCancelled then Do(displayed, PrepareCancelled)
      else if ending == InnerRaises then Do(Do(displayed, PrepareFails), Release)
      else Do(displayed, PrepareDone)
  }

  function Command(c: Cell): Cell
    requires c.run.place == Free
  {
    if c.run.display.None? then c else Do(c, Use)
  }

  function Shutdown(c: Cell): Cell
    requires c.run.place == Free
  {
    if c.run.stopped then c else
      var restored := Do(Do(c, BeginStop), Restore);
      if restored.run.place == Releasing then Do(restored, Release) else restored
  }

  /** The process environment and the lease. */
  class Host {
    var display: Option<string>
    var holder: Option<nat>

    constructor (display: Option<string>)
      ensures this.display == display && holder == None
    {
      this.display, holder := display, None;
    }
  }

  class Backend {
    const id: nat
    const host: Host
    var display: Option<string>
    var original: Option<Option<string>>
    var stopped: bool
    var leased: bool

    ghost function AsCellAt(place: Place): (c: Cell)
      reads this, host
      ensures c.run.place == place
    {
      Cell(id, Run(place, display, original, stopped, leased), World(host.display, host.holder))
    }

    /** Between two calls. */
    ghost function AsCell(): (c: Cell)
      reads this, host
      ensures c.run.place == Free
    {
      AsCellAt(Free)
    }

    constructor (id: nat, host: Host)
      ensures this.id == id && this.host == host && AsCell() == Cell(id, FRESH, World(host.display, host.holder))
    {
      this.id, this.host := id, host;
      display, original, stopped, leased := None, None, false, false;
    }

    /** `ending` says which of the awaited calls does not end normally, and how; `found` is DISPLAY
        when a held lease becomes free. */
    method Begin(displayId: string, ending: Ending, found: Option<string>) returns (ok: bool)
      modifies this, host
      ensures AsCell() == Preflight(old(AsCell()), displayId, ending, found)
      ensures ok == (old(display.Some? && !stopped) || ending == Fine)
    {
      if display.Some? && !stopped {
        return true;
      }
      stopped, leased := false, false;
      if ending == AskIsCancelled {
        return false;
      }
      if host.holder != None {
        host.display, host.holder := found, None;
      }
      leased, host.holder := true, Some(id);
      ok := Prepare(displayId, ending);
    }

    /** The guarded part of preflight. */
    method Prepare(displayId: string, ending: Ending) returns (ok: bool)
      requires leased && ending != AskIsCancelled
      modifies this`display, this`original, this`leased, host
      ensures AsCell() == Prepared(old(AsCellAt(Starting)), displayId, ending)
      ensures ok == (ending == Fine)
    {
      if ending == StartIsCancelled {
        return false;
      }
      if ending == StartRaises {
        ReleaseLease();
        return false;
      }
      display := Some(displayId);
      original := Some(host.display);
      ApplyDisplay();
      if ending == InnerIsCancelled {
        return false;
      }
      if ending == InnerRaises {
        ReleaseLease();
        return false;
      }
      ok := true;
    }

    method ApplyDisplay()
      requires display.Some?
      modifies host`display
      ensures host.display == Applied(old(host.display), display.value)
    {
      if IsX11(display.value) {
        host.display := display;
      }
    }

    method RestoreDisplay()
      modifies host`display
      ensures host.display == original.GetOr(old(host.display))
    {
      if original.Some? {
        host.display := original.value;
      }
    }

    method ReleaseLease()
      modifies this`leased, host`holder
      ensures !leased && host.holder == if old(leased) then None else old(host.holder)
    {
      if !leased {
        return;
      }
      leased, host.holder := false, None;
    }

    /** observe and execute, up to the inner backend's call. */
    method Send() returns (started: bool)
      modifies host`display
      ensures started == display.Some? && AsCell() == Command(old(AsCell()))
    {
      if display.None? {
        return false;
      }
      ApplyDisplay();
      started := true;
    }

    method Stop()
      modifies this, host
      ensures AsCell() == Shutdown(old(AsCell()))
    {
      if stopped {
        return;
      }
      RestoreDisplay();
      stopped := true;
      ReleaseLease();
    }
  }

  // ----- many backends, interleaved at their suspension points ---------------------------

  datatype System = System(world: World, runs: seq<Run>)

  datatype Step = Step(i: nat, act: Act)

  function CellOf(s: System, i: nat): Cell
    requires i < |s.runs|
  {
    Cell(i, s.runs[i], s.world)
  }

  predicate Enabled(s: System, step: Step) {
    step.i < |s.runs| && Can(CellOf(s, step.i), step.act)
  }

  function Apply(s: System, step: Step): System
    requires Enabled(s, step)
  {
    var after := Do(CellOf(s, step.i), step.act);
    System(after.world, s.runs[step.i := after.run])
  }

  /** n backends and a process whose DISPLAY is `host`. */
  function Start(n: nat, host: Option<string>): System {
    System(World(host, None), seq(n, _ => FRESH))
  }

  /** A step after which a backend may act on DISPLAY without the lease, or that does: the inner
      preflight fails, a backend that was started before fails to start or is cancelled while it
      asks for the lease, or a backend is used after shutdown. */
  predicate Careless(s: System, step: Step)
    requires Enabled(s, step)
  {
    var r := s.runs[step.i];
    match step.act
    case PrepareFails => true
    case StartFails => r.display.Some?
    case AskCancelled => r.display.Some?
    case Use => r.stopped
    case _ => false
  }

  /** The state after the steps, None if one of them could not be taken or was careless. */
  function RunCareful(s: System, steps: seq<Step>): Option<System> {
    if steps == [] then Some(s) else
      match RunCareful(s, steps[..|steps| - 1])
      case None => None
      case Some(before) =>
        var step := steps[|steps| - 1];
        if Enabled(before, step) && !Careless(before, step) then Some(Apply(before, step)) else None
  }

  predicate MustHold(r: Run) {
    r.leased || r.place == Starting || r.place == Preparing || r.place == Releasing
  }

  /** What the fields of one backend say of each other. */
  predicate Sound(r: Run, host: Option<string>) {
    && (r.display.Some? <==> r.original.Some?)
    && (r.original.Some? ==> r.original.value == host)
    && (r.place == Starting || r.place == Preparing ==> r.leased)
    && (r.place == Preparing ==> r.display.Some?)
    && (r.place == Asking || r.place == Releasing ==> !r.leased)
    && (r.place != Free && r.place != Releasing ==> !r.stopped)
    && (Started(r) && (r.place == Free || r.place == Stopping || r.place == Releasing) ==> r.leased)
  }

  /** DISPLAY while this backend holds the lease: its own display from the start of the display to
      shutdown, and before and after that the host's. A cancelled start leaves the host's until
      the backend is used. */
  predicate EnvIsIts(r: Run, env: Option<string>, host: Option<string>) {
    if r.place == Preparing && r.display.Some? then env == Applied(host, r.display.value)
    else if Started(r) && (r.place == Free || r.place == Stopping) then
      env == host || env == Applied(host, r.display.value)
    else env == host
  }

  predicate Inv(s: System, host: Option<string>) {
    && (forall i: nat | i < |s.runs| :: Sound(s.runs[i], host) && (MustHold(s.runs[i]) ==> s.world.holder == Some(i)))
    && match s.world.holder
       case None => s.world.env == host
       case Some(h) => h < |s.runs| && EnvIsIts(s.runs[h], s.world.env, host)
  }

  /** The same for one backend, the others being sound. */
  predicate CellInv(c: Cell, host: Option<string>) {
    && Sound(c.run, host) && (MustHold(c.run) ==> c.world.holder == Some(c.id))
    && (c.world.holder == None ==> c.world.env == host)
    && (c.world.holder == Some(c.id) ==> EnvIsIts(c.run, c.world.env, host))
  }

  lemma CellStep(c: Cell, act: Act, host: Option<string>)
    requires CellInv(c, host) && Can(c, act)
    requires act != PrepareFails && (act == StartFails || act == AskCancelled ==> c.run.display.None?)
    requires act == Use ==> !c.run.stopped
    ensures CellInv(Do(c, act), host)
    ensures c.world.holder.Some? && c.world.holder != Some(c.id) ==> Do(c, act).world == c.world
    ensures Do(c, act).world.holder == c.world.holder || Do(c, act).world.holder == Some(c.id) || c.world.holder == Some(c.id)
  {
  }

  lemma StepKeepsInv(s: System, step: Step, host: Option<string>)
    requires Inv(s, host) && Enabled(s, step) && !Careless(s, step)
    ensures Inv(Apply(s, step), host)
  {
    CellStep(CellOf(s, step.i), step.act, host);
  }

  /** In every interleaving of any number of backends without a careless step, cancellations
      included, DISPLAY has the host's value whenever nobody holds the lease. */
  lemma {:induction false} DisplayIsTheHosts(n: nat, host: Option<string>, steps: seq<Step>)
    requires RunCareful(Start(n, host), steps).Some?
    ensures var s := RunCareful(Start(n, host), steps).value;
            Inv(s, host) && (s.world.holder == None ==> s.world.env == host)
  {
    if steps != [] {
      var before := RunCareful(Start(n, host), steps[..|steps| - 1]).value;
      DisplayIsTheHosts(n, host, steps[..|steps| - 1]);
      StepKeepsInv(before, steps[|steps| - 1], host);
    }
  }

  // ----- a lease that its own backend waits for ---------------------------------------------

  /** The backend holds the lease and has dropped its context. */
  predicate Forgotten(s: System, i: nat) {
    i < |s.runs| && Dropped(CellOf(s, i))
  }

  /** A lease becomes forgotten exactly when a backend asks while it still has one, which is after
      a first start that was cancelled; and it stops being forgotten exactly when its context is
      closed. */
  lemma ForgottenIff(s: System, step: Step, i: nat, host: Option<string>)
    requires Inv(s, host) && Enabled(s, step) && !Careless(s, step) && i < |s.runs|
    ensures !Forgotten(s, i) ==> (Forgotten(Apply(s, step), i) <==> step == Step(i, Ask) && s.runs[i].leased)
    ensures Forgotten(s, i) ==> (!Forgotten(Apply(s, step), i) <==> step == Step(i, Close))
  {
    assert Sound(s.runs[step.i], host) && (MustHold(s.runs[step.i]) ==> s.world.holder == Some(step.i));
    if step.i == i {
      ForgottenByOwnStep(CellOf(s, i), step.act, host);
    }
  }

  lemma ForgottenByOwnStep(c: Cell, act: Act, host: Option<string>)
    requires CellInv(c, host) && Can(c, act)
    ensures !Dropped(c) ==> (Dropped(Do(c, act)) <==> act == Ask && c.run.leased)
    ensures Dropped(c) ==> (!Dropped(Do(c, act)) <==> act == Close)
  {
  }

  /** A forgotten lease is waited for by its own backend if that asks, and by all others, until
      the event loop closes its context; that can be done at any time, gives the lease back, and
      leaves DISPLAY the host's. */
  lemma ForgottenIsGivenBack(s: System, i: nat, host: Option<string>)
    requires Inv(s, host) && Forgotten(s, i)
    ensures forall j: nat | j < |s.runs| :: !Enabled(s, Step(j, Acquire))
    ensures Enabled(s, Step(i, Close))
    ensures var after := Apply(s, Step(i, Close));
            && Inv(after, host) && after.world == World(host, None)
            && (s.runs[i].place == Asking ==> Enabled(after, Step(i, Acquire)))
  {
    assert Sound(s.runs[i], host);
    StepKeepsInv(s, Step(i, Close), host);
  }

  // ----- what a careless step leaves --------------------------------------------------------

  /** Applying this display is of no consequence. */
  predicate Harmless(displayId: string, env: Option<string>) {
    !IsX11(displayId) || Some(displayId) == env
  }

  /** The inner preflight failed: with the lease released, DISPLAY is the host's exactly when the
      display, left running, is no X display or the host's own. */
  lemma FailedPreparationLeaves(s: System, i: nat, host: Option<string>)
    requires Inv(s, host) && Enabled(s, Step(i, PrepareFails))
    ensures Enabled(Apply(s, Step(i, PrepareFails)), Step(i, Release))
    ensures var after := Apply(Apply(s, Step(i, PrepareFails)), Step(i, Release));
            after.world.holder == None && (after.world.env == host <==> Harmless(s.runs[i].display.value, host))
  {
    assert Sound(s.runs[i], host) && MustHold(s.runs[i]);
  }

  /** A backend that was started before failed to start again: DISPLAY is still the host's, but
      the backend takes itself to be started, so that the next preflight does nothing, and a use
      keeps DISPLAY the host's exactly when the old display is no X display or the host's own.
      A shutdown puts the host's back. */
  lemma FailedRestartLeaves(s: System, i: nat, host: Option<string>)
    requires Inv(s, host) && Enabled(s, Step(i, StartFails)) && s.runs[i].display.Some?
    ensures Enabled(Apply(s, Step(i, StartFails)), Step(i, Release))
    ensures var after := Apply(Apply(s, Step(i, StartFails)), Step(i, Release));
            after.world == World(host, None) && Unleased(after, i, host)
  {
    assert Sound(s.runs[i], host) && MustHold(s.runs[i]);
  }

  /** The same after a cancellation of a backend that was started before, while it asked for the
      lease; here another backend may hold it. */
  lemma CancelledRestartLeaves(s: System, i: nat, host: Option<string>)
    requires Inv(s, host) && Enabled(s, Step(i, AskCancelled)) && s.runs[i].display.Some?
    ensures var after := Apply(s, Step(i, AskCancelled));
            after.world == s.world && Unleased(after, i, host)
  {
    assert Sound(s.runs[i], host);
  }

  /** A free backend without a lease of its own that takes itself to be started. A use changes
      DISPLAY exactly when its display is not harmless, and a shutdown sets the host's. */
  predicate Unleased(s: System, i: nat, host: Option<string>) {
    && i < |s.runs| && s.runs[i].place == Free && Started(s.runs[i]) && !s.runs[i].leased
    && (Command(CellOf(s, i)).world.env == s.world.env <==> Harmless(s.runs[i].display.value, s.world.env))
    && Preflight(CellOf(s, i), "", Fine, None) == CellOf(s, i)
    && Shutdown(CellOf(s, i)).world == s.world.(env := host)
  }

  /** A use after shutdown changes DISPLAY exactly when the stopped display is not harmless. With
      the lease free that is when DISPLAY ceases to be the host's. */
  lemma LateUseLeaves(s: System, i: nat, host: Option<string>)
    requires Inv(s, host) && Enabled(s, Step(i, Use)) && s.runs[i].stopped
    ensures var after := Apply(s, Step(i, Use));
            && (after.world.env == s.world.env <==> Harmless(s.runs[i].display.value, s.world.env))
            && (s.world.holder == None ==> (Inv(after, host) <==> Harmless(s.runs[i].display.value, host)))
  {
  }

  /** A run that leaves DISPLAY at a dead display: the inner preflight of one backend fails. */
  lemma FailedPreparationExample(host: Option<string>)
    ensures Preflight(Cell(0, FRESH, World(host, None)), ":99", InnerRaises, host).world == World(Some(":99"), None)
  {
  }

  /** A run that sets DISPLAY to a dead display with the lease free: a backend is used, shut down,
      fails to start again, and its next preflight succeeds without doing anything. */
  lemma FailedRestartExample(host: Option<string>)
    ensures var used := Shutdown(Preflight(Cell(0, FRESH, World(host, None)), ":99", Fine, host));
            var failed := Preflight(used, ":99", StartRaises, host);
            && used.world == failed.world == World(host, None)
            && Preflight(failed, ":99", Fine, host) == failed
            && Command(failed).world == World(Some(":99"), None)
  {
  }

  function Alone(env: Option<string>, holder: Option<nat>, r: Run): System {
    System(World(env, holder), [r])
  }

  /** The situations of these lemmas arise: each is a sound state in which the step can be taken. */
  lemma FailuresArise(host: Option<string>)
    ensures var s := Alone(Some(":99"), Some(0), Run(Preparing, Some(":99"), Some(host), false, true));
            Inv(s, host) && Enabled(s, Step(0, PrepareFails))
    ensures var s := Alone(host, Some(0), Run(Starting, Some(":99"), Some(host), false, true));
            Inv(s, host) && Enabled(s, Step(0, StartFails))
    ensures var s := Alone(host, None, Run(Asking, Some(":99"), Some(host), false, false));
            Inv(s, host) && Enabled(s, Step(0, AskCancelled))
  {
  }

  lemma LateStepsArise(host: Option<string>)
    ensures var s := Alone(host, None, Run(Free, Some(":99"), Some(host), true, false));
            Inv(s, host) && Enabled(s, Step(0, Use))
    ensures var s := Alone(host, Some(0), Run(Starting, None, None, false, true));
            Inv(s, host) && Enabled(s, Step(0, StartCancelled))
    ensures var s := Alone(host, Some(0), Run(Asking, None, None, false, false));
            Inv(s, host) && Forgotten(s, 0)
  {
  }

  // ----- a run of one backend ------------------------------------------------------------------

  /** A preflight that succeeds points DISPLAY at its display and holds the lease; a shutdown after it
      leaves both as they were found: at once, or when a lease that others held was free. */
  lemma ShutdownRestores(c: Cell, displayId: string, found: Option<string>)
    requires c.run.place == Free && !Started(c.run)
    ensures var env := if c.world.holder == None then c.world.env else found;
            var ready := Preflight(c, displayId, Fine, found);
            && ready.run.place == Free && Started(ready.run) && ready.run.display == Some(displayId)
            && ready.world == World(if displayId != "" && displayId[0] == ':' then Some(displayId) else env, Some(c.id))
            && Command(ready).world == ready.world
            && Shutdown(Command(ready)).world == World(env, None)
            && !Started(Shutdown(ready).run)
  {
  }

  /** What each ending of a first preflight leaves, where the lease is free: the lease is kept exactly
      after a success or a cancellation that comes when it is held, and DISPLAY is at the new display
      exactly if that has started. */
  lemma PreflightEndings(c: Cell, displayId: string, ending: Ending)
    requires c.run.place == Free && !Started(c.run) && c.world.holder == None
    ensures var after := Preflight(c, displayId, ending, None);
            var started := ending == Fine || ending == InnerIsCancelled || ending == InnerRaises;
            && after.run.place == Free && !after.run.stopped
            && after.run.display == (if started then Some(displayId) else c.run.display)
            && after.world.env ==
                 (if started && displayId != "" && displayId[0] == ':' then Some(displayId) else c.world.env)
            && after.world.holder ==
                 (if ending == Fine || ending == StartIsCancelled || ending == InnerIsCancelled then Some(c.id) else None)
            && (after.run.leased <==> after.world.holder == Some(c.id))
  {
  }
}
