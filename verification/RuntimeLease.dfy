/** The lease of the background runtime: an asyncio condition around one `active` slot, as a
    system of steps that any number of tasks take in any order. */
module RuntimeLease {
  import opened Wrappers

  /** Where a task is between two suspension points. */
  datatype Pc =
    | Idle            // has not asked yet
    | Entering        // waits for the condition's lock to enter
    | Checking        // holds the lock, about to test the active slot
    | Waiting         // in wait(), not notified
    | Woken           // notified, waits for the lock again
    | Unwinding       // cancelled in wait(), waits for the lock before raising
    | UnwindingLocked // cancelled in wait(), holds the lock
    | Running         // holds the lease
    | Releasing       // the body ended; waits for the lock to release
    | Clearing        // holds the lock, about to clear the slot
    | Done            // released
    | Cancelled       // cancelled before it held the lease
    | Lost            // cancelled while it waited for the lock to release

  /** `active` names the task whose metadata fills the slot. */
  datatype State = State(pcs: seq<Pc>, lock: Option<nat>, active: Option<nat>)

  datatype Step =
    | Arrive(t: nat)
    | LockToEnter(t: nat)
    | Take(t: nat)
    | Sleep(t: nat)
    | Finish(t: nat)
    | LockToRelease(t: nat)
    | Clear(t: nat)
    | Cancel(t: nat)
    | LockToUnwind(t: nat)
    | Raise(t: nat)
    | LateExit(t: nat)  // the context manager of a finished task is exited again

  predicate Cancellable(pc: Pc) {
    pc == Entering || pc == Waiting || pc == Woken || pc == Releasing
  }

  predicate Ended(pc: Pc) {
    pc == Done || pc == Cancelled || pc == Lost
  }

  predicate Enabled(s: State, step: Step) {
    step.t < |s.pcs| &&
    var pc := s.pcs[step.t];
    match step
    case Arrive(_) => pc == Idle
    case LockToEnter(_) => (pc == Entering || pc == Woken) && s.lock == None
    case Take(_) => pc == Checking && s.active == None
    case Sleep(_) => pc == Checking && s.active != None
    case Finish(_) => pc == Running
    case LockToRelease(_) => pc == Releasing && s.lock == None
    case Clear(_) => pc == Clearing
    case Cancel(_) => Cancellable(pc)
    case LockToUnwind(_) => pc == Unwinding && s.lock == None
    case Raise(_) => pc == UnwindingLocked
    case LateExit(_) => Ended(pc)
  }

  /** `notify_all`. */
  function NotifyAll(pcs: seq<Pc>): (r: seq<Pc>)
    ensures |r| == |pcs|
    ensures forall i | 0 <= i < |r| :: r[i] == if pcs[i] == Waiting then Woken else pcs[i]
  {
    seq(|pcs|, i requires 0 <= i < |pcs| => if pcs[i] == Waiting then Woken else pcs[i])
  }

  /** What leaving the context does to its generator: suspended at the yield, it goes on into its
      finally block; once it has ended, or raised, there is nothing to go on with. */
  function Resumed(pc: Pc): Pc {
    if pc == Running then Releasing else pc
  }

  function Apply(s: State, step: Step): State
    requires Enabled(s, step)
  {
    var t := step.t;
    match step
    case Arrive(_) => s.(pcs := s.pcs[t := Entering])
    case LockToEnter(_) => s.(pcs := s.pcs[t := Checking], lock := Some(t))
    case Take(_) => State(s.pcs[t := Running], None, Some(t))
    case Sleep(_) => s.(pcs := s.pcs[t := Waiting], lock := None)
    case Finish(_) => s.(pcs := s.pcs[t := Resumed(s.pcs[t])])
    case LockToRelease(_) => s.(pcs := s.pcs[t := Clearing], lock := Some(t))
    case Clear(_) => State(NotifyAll(s.pcs)[t := Done], None, None)
    case Cancel(_) =>
      var pc := if s.pcs[t] == Entering then Cancelled else if s.pcs[t] == Releasing then Lost else Unwinding;
      s.(pcs := s.pcs[t := pc])
    case LockToUnwind(_) => s.(pcs := s.pcs[t := UnwindingLocked], lock := Some(t))
    case Raise(_) => s.(pcs := s.pcs[t := Cancelled], lock := None)
    case LateExit(_) => s.(pcs := s.pcs[t := Resumed(s.pcs[t])])
  }

  /** n tasks, none of which has asked for the lease. */
  function Start(n: nat): State {
    State(seq(n, _ => Idle), None, None)
  }

  /** The state after the steps, None if one of them could not be taken. */
  function Run(s: State, steps: seq<Step>): Option<State>
  {
    if steps == [] then Some(s) else
      match Run(s, steps[..|steps| - 1])
      case None => None
      case Some(before) =>
        var step := steps[|steps| - 1];
        if Enabled(before, step) then Some(Apply(before, step)) else None
  }

  // ----- the invariant ------------------------------------------------------------

  predicate HoldsLease(pc: Pc) {
    pc == Running || pc == Releasing || pc == Clearing || pc == Lost
  }

  predicate HoldsLock(pc: Pc) {
    pc == Checking || pc == Clearing || pc == UnwindingLocked
  }

  predicate Inv(s: State) {
    && (forall t: nat | t < |s.pcs| :: HoldsLease(s.pcs[t]) <==> s.active == Some(t))
    && (forall t: nat | t < |s.pcs| :: HoldsLock(s.pcs[t]) <==> s.lock == Some(t))
    && (s.active.Some? ==> s.active.value < |s.pcs|)
    && (s.lock.Some? ==> s.lock.value < |s.pcs|)
    && (s.active == None ==> forall t: nat | t < |s.pcs| :: s.pcs[t] != Waiting)
  }

  lemma ClearKeepsInv(s: State, step: Step)
    requires Inv(s) && Enabled(s, step) && step.Clear?
    ensures Inv(Apply(s, step))
  {
  }

  lemma CancelKeepsInv(s: State, step: Step)
    requires Inv(s) && Enabled(s, step) && step.Cancel?
    ensures Inv(Apply(s, step))
  {
  }

  lemma StepKeepsInv(s: State, step: Step)
    requires Inv(s) && Enabled(s, step)
    ensures Inv(Apply(s, step))
  {
    if step.Clear? {
      ClearKeepsInv(s, step);
    } else if step.Cancel? {
      CancelKeepsInv(s, step);
    }
  }

  /** Over every interleaving: one holder of the lease at most, one holder of the lock at most,
      and nobody left waiting without a notification while the lease is free. */
  lemma {:induction false} RunKeepsInv(n: nat, steps: seq<Step>)
    requires Run(Start(n), steps).Some?
    ensures Inv(Run(Start(n), steps).value) && |Run(Start(n), steps).value.pcs| == n
  {
    if steps != [] {
      var before := Run(Start(n), steps[..|steps| - 1]);
      RunKeepsInv(n, steps[..|steps| - 1]);
      StepKeepsInv(before.value, steps[|steps| - 1]);
    }
  }

  lemma AtMostOneHolder(n: nat, steps: seq<Step>, t: nat, u: nat)
    requires Run(Start(n), steps).Some? && t < n && u < n
    ensures var pcs := Run(Start(n), steps).value.pcs;
            |pcs| == n && (HoldsLease(pcs[t]) && HoldsLease(pcs[u]) ==> t == u)
  {
    RunKeepsInv(n, steps);
  }

  /** A held lease is given up by its holder's own clearing step and by nothing else: not by a
      cancelled waiter, nor by a second exit of anyone's context. */
  lemma OnlyHolderClears(s: State, step: Step)
    requires Inv(s) && Enabled(s, step) && s.active.Some?
    ensures Apply(s, step).active != s.active <==> step == Clear(s.active.value)
    ensures Apply(s, step).active != s.active ==> Apply(s, step).active == None
  {
  }

  /** The lease passes to a task only when it is free. */
  lemma TakenOnlyWhenFree(s: State, step: Step)
    requires Inv(s) && Enabled(s, step) && Apply(s, step).active.Some? && Apply(s, step).active != s.active
    ensures s.active == None && step == Take(Apply(s, step).active.value)
  {
  }

  // ----- every run ends --------------------------------------------------------------

  /** How far a task is from its end; k for not having ended. */
  function Weight(pc: Pc, k: nat): nat {
    match pc
    case Idle => k + 6
    case Entering => k + 5
    case Woken => k + 5
    case Checking => k + 4
    case Waiting => k + 3
    case Running => k + 3
    case Unwinding => k + 2
    case Releasing => k + 2
    case UnwindingLocked => k + 1
    case Clearing => k + 1
    case Done => 0
    case Cancelled => 0
    case Lost => 0
  }

  function Total(pcs: seq<Pc>, k: nat): nat {
    if pcs == [] then 0 else Weight(pcs[0], k) + Total(pcs[1..], k)
  }

  lemma {:induction false} TotalOfUpdate(pcs: seq<Pc>, t: nat, pc: Pc, k: nat)
    requires t < |pcs|
    ensures Total(pcs[t := pc], k) == Total(pcs, k) - Weight(pcs[t], k) + Weight(pc, k)
  {
    if t == 0 {
      assert pcs[t := pc][1..] == pcs[1..];
    } else {
      assert pcs[t := pc][1..] == pcs[1..][t - 1 := pc];
      TotalOfUpdate(pcs[1..], t - 1, pc, k);
    }
  }

  lemma {:induction false} TotalOfNotified(pcs: seq<Pc>, k: nat)
    ensures Total(NotifyAll(pcs), k) <= Total(pcs, k) + 2 * |pcs|
  {
    if pcs != [] {
      assert NotifyAll(pcs)[1..] == NotifyAll(pcs[1..]);
      TotalOfNotified(pcs[1..], k);
    }
  }

  function Rank(s: State): nat {
    Total(s.pcs, 2 * |s.pcs|)
  }

  lemma StepDescends(s: State, step: Step)
    requires Enabled(s, step) && !step.LateExit?
    ensures Rank(Apply(s, step)) < Rank(s)
  {
    if step.Clear? {
      ClearDescends(s, step.t, 2 * |s.pcs|);
    } else {
      var after := Apply(s, step).pcs[step.t];
      MoveDescends(s, step, 2 * |s.pcs|);
      TotalOfUpdate(s.pcs, step.t, after, 2 * |s.pcs|);
    }
  }

  lemma ClearDescends(s: State, t: nat, k: nat)
    requires Enabled(s, Clear(t)) && k == 2 * |s.pcs|
    ensures Total(Apply(s, Clear(t)).pcs, k) < Total(s.pcs, k)
  {
    TotalOfNotified(s.pcs, k);
    TotalOfUpdate(NotifyAll(s.pcs), t, Done, k);
  }

  /** Any other step moves one task, and towards its end. */
  lemma MoveDescends(s: State, step: Step, k: nat)
    requires Enabled(s, step) && !step.LateExit? && !step.Clear?
    ensures Apply(s, step).pcs == s.pcs[step.t := Apply(s, step).pcs[step.t]]
    ensures Weight(Apply(s, step).pcs[step.t], k) < Weight(s.pcs[step.t], k)
  {
  }

  lemma {:induction false} TotalAtStart(n: nat, k: nat)
    ensures Total(Start(n).pcs, k) == n * (k + 6)
  {
    if n > 0 {
      assert Start(n).pcs[1..] == Start(n - 1).pcs;
      TotalAtStart(n - 1, k);
    }
  }

  ghost predicate NoLateExit(steps: seq<Step>) {
    forall i | 0 <= i < |steps| :: !steps[i].LateExit?
  }

  lemma {:induction false} RunDescends(s: State, steps: seq<Step>)
    requires Run(s, steps).Some? && NoLateExit(steps)
    ensures Rank(Run(s, steps).value) + |steps| <= Rank(s)
  {
    if steps != [] {
      var shorter := steps[..|steps| - 1];
      RunDescends(s, shorter);
      StepDescends(Run(s, shorter).value, steps[|steps| - 1]);
    }
  }

  /** n tasks take at most n * (2n + 6) steps in all, in whatever order: nobody spins. */
  lemma RunsAreBounded(n: nat, steps: seq<Step>)
    requires Run(Start(n), steps).Some? && NoLateExit(steps)
    ensures |steps| <= n * (2 * n + 6)
  {
    RunDescends(Start(n), steps);
    TotalAtStart(n, 2 * n);
  }

  // ----- how a run ends -----------------------------------------------------------------

  /** A step other than a cancellation or a late exit. */
  predicate IsProgress(step: Step) {
    !step.Cancel? && !step.LateExit?
  }

  ghost predicate Stuck(s: State) {
    forall step | IsProgress(step) :: !Enabled(s, step)
  }

  /** When no task can go on, either every task has ended, or some task was cancelled while it
      waited to release and still blocks the waiters. */
  lemma StuckMeansEnded(s: State)
    requires Inv(s) && Stuck(s)
    ensures forall t: nat | t < |s.pcs| ::
      Ended(s.pcs[t]) || (s.pcs[t] == Waiting && s.active.Some? && s.pcs[s.active.value] == Lost)
  {
    forall t: nat | t < |s.pcs| ensures !HoldsLock(s.pcs[t]) {
      assert !Enabled(s, Take(t)) && !Enabled(s, Sleep(t)) && !Enabled(s, Clear(t)) && !Enabled(s, Raise(t));
    }
    assert s.lock == None;
    forall t: nat | t < |s.pcs|
      ensures Ended(s.pcs[t]) || (s.pcs[t] == Waiting && s.active.Some? && s.pcs[s.active.value] == Lost)
    {
      CannotGoOn(s, t);
      if s.pcs[t] == Waiting {
        CannotGoOn(s, s.active.value);
      }
    }
  }

  lemma CannotGoOn(s: State, t: nat)
    requires Inv(s) && Stuck(s) && s.lock == None && t < |s.pcs|
    ensures Ended(s.pcs[t]) || s.pcs[t] == Waiting
  {
    assert !Enabled(s, Arrive(t)) && !Enabled(s, LockToEnter(t)) && !Enabled(s, Finish(t));
    assert !Enabled(s, LockToRelease(t)) && !Enabled(s, LockToUnwind(t));
    assert !HoldsLock(s.pcs[t]);
  }

  ghost predicate NoCancel(steps: seq<Step>) {
    forall i | 0 <= i < |steps| :: !steps[i].Cancel?
  }

  predicate Uncancelled(pc: Pc) {
    pc != Unwinding && pc != UnwindingLocked && pc != Cancelled && pc != Lost
  }

  lemma {:induction false} NobodyCancelled(n: nat, steps: seq<Step>)
    requires Run(Start(n), steps).Some? && NoCancel(steps)
    ensures forall t: nat | t < |Run(Start(n), steps).value.pcs| :: Uncancelled(Run(Start(n), steps).value.pcs[t])
  {
    if steps != [] {
      NobodyCancelled(n, steps[..|steps| - 1]);
    }
  }

  /** Without cancellations, every task that asks gets the lease and gives it back. */
  lemma EveryoneIsServed(n: nat, steps: seq<Step>)
    requires Run(Start(n), steps).Some? && NoCancel(steps) && Stuck(Run(Start(n), steps).value)
    ensures Run(Start(n), steps).value.pcs == seq(n, _ => Done)
  {
    var s := Run(Start(n), steps).value;
    RunKeepsInv(n, steps);
    NobodyCancelled(n, steps);
    StuckMeansEnded(s);
    forall t: nat | t < n ensures s.pcs[t] == Done {
      assert Uncancelled(s.pcs[t]);
      if s.pcs[t] == Waiting {
        assert Uncancelled(s.pcs[s.active.value]);
      }
    }
  }

  // ----- the lost lease --------------------------------------------------------------------

  /** A cancellation that reaches a task while it waits to release loses the lease for good:
      whatever happens next, the slot stays filled. */
  lemma {:induction false} LostLeaseStays(s: State, t: nat, steps: seq<Step>)
    requires Inv(s) && t < |s.pcs| && s.pcs[t] == Lost && Run(s, steps).Some?
    ensures var after := Run(s, steps).value;
            Inv(after) && |after.pcs| == |s.pcs| && after.pcs[t] == Lost && after.active == Some(t)
  {
    if steps != [] {
      LostLeaseStays(s, t, steps[..|steps| - 1]);
      StepKeepsInv(Run(s, steps[..|steps| - 1]).value, steps[|steps| - 1]);
    }
  }

  lemma RunOneMore(s: State, steps: seq<Step>, step: Step, middle: State)
    requires Run(s, steps) == Some(middle) && Enabled(middle, step)
    ensures Run(s, steps + [step]) == Some(Apply(middle, step))
  {
    assert (steps + [step])[..|steps + [step]| - 1] == steps;
  }

  lemma OneRuns() returns (steps: seq<Step>)
    ensures Run(Start(2), steps) == Some(State([Running, Idle], None, Some(0))) && NoCancel(steps)
  {
    assert Start(2) == State([Idle, Idle], None, None);
    steps := [];
    steps := RunMore(steps, Arrive(0), State([Idle, Idle], None, None), State([Entering, Idle], None, None));
    steps := RunMore(steps, LockToEnter(0), State([Entering, Idle], None, None), State([Checking, Idle], Some(0), None));
    steps := RunMore(steps, Take(0), State([Checking, Idle], Some(0), None), State([Running, Idle], None, Some(0)));
  }

  /** One task holds the lease while the other is about to find out. */
  lemma BusyRun() returns (steps: seq<Step>)
    ensures Run(Start(2), steps) == Some(State([Running, Checking], Some(1), Some(0))) && NoCancel(steps)
  {
    var runs := OneRuns();
    var arrived := RunMore(runs, Arrive(1), State([Running, Idle], None, Some(0)),
                           State([Running, Entering], None, Some(0)));
    steps := RunMore(arrived, LockToEnter(1), State([Running, Entering], None, Some(0)),
                     State([Running, Checking], Some(1), Some(0)));
  }

  lemma WaiterIsStuck()
    ensures Stuck(State([Lost, Waiting], None, Some(0)))
  {
  }

  /** A run whose last step is its only cancellation, and after which a waiter waits forever. */
  lemma LostLeaseExample() returns (steps: seq<Step>)
    ensures Run(Start(2), steps) == Some(State([Lost, Waiting], None, Some(0)))
    ensures Stuck(State([Lost, Waiting], None, Some(0)))
    ensures steps != [] && NoCancel(steps[..|steps| - 1])
  {
    WaiterIsStuck();
    var busy := BusyRun();
    var leaving := RunMore(busy, Finish(0), State([Running, Checking], Some(1), Some(0)),
                           State([Releasing, Checking], Some(1), Some(0)));
    var asleep := RunMore(leaving, Sleep(1), State([Releasing, Checking], Some(1), Some(0)),
                          State([Releasing, Waiting], None, Some(0)));
    steps := RunMore(asleep, Cancel(0), State([Releasing, Waiting], None, Some(0)), State([Lost, Waiting], None, Some(0)));
    assert steps[..|steps| - 1] == asleep;
  }

  lemma RunMore(steps: seq<Step>, step: Step, middle: State, after: State) returns (more: seq<Step>)
    requires Run(Start(2), steps) == Some(middle) && Enabled(middle, step) && Apply(middle, step) == after
    ensures more == steps + [step] && Run(Start(2), more) == Some(after)
    ensures NoCancel(steps) && !step.Cancel? ==> NoCancel(more)
  {
    more := steps + [step];
    RunOneMore(Start(2), steps, step, middle);
  }

  /** The k-th step cancels t while t waits to release. */
  ghost predicate ReleaseCancelled(n: nat, steps: seq<Step>, k: nat, t: nat) {
    k < |steps| && steps[k] == Cancel(t) && Run(Start(n), steps[..k]).Some?
    && t < |Run(Start(n), steps[..k]).value.pcs| && Run(Start(n), steps[..k]).value.pcs[t] == Releasing
  }

  lemma LostByStep(s: State, step: Step, t: nat)
    requires Enabled(s, step) && t < |s.pcs|
    ensures Apply(s, step).pcs[t] == Lost <==> s.pcs[t] == Lost || (step == Cancel(t) && s.pcs[t] == Releasing)
  {
  }

  /** A task has lost the lease exactly if some step cancelled it while it waited to release. */
  lemma {:induction false} LostIff(n: nat, steps: seq<Step>, t: nat)
    requires Run(Start(n), steps).Some? && t < n
    ensures |Run(Start(n), steps).value.pcs| == n
    ensures Run(Start(n), steps).value.pcs[t] == Lost <==> SomeReleaseCancelled(n, steps, t)
  {
    RunKeepsInv(n, steps);
    if steps != [] {
      var front, last := steps[..|steps| - 1], |steps| - 1;
      LostIff(n, front, t);
      LostByStep(Run(Start(n), front).value, steps[last], t);
      LastCancelsRelease(n, steps, t);
      ReleaseCancelledLater(n, steps, t);
    }
  }

  ghost predicate SomeReleaseCancelled(n: nat, steps: seq<Step>, t: nat) {
    exists k: nat :: ReleaseCancelled(n, steps, k, t)
  }

  lemma SameEarlier(n: nat, steps: seq<Step>, k: nat, t: nat)
    requires k < |steps| - 1
    ensures ReleaseCancelled(n, steps, k, t) <==> ReleaseCancelled(n, steps[..|steps| - 1], k, t)
  {
    assert steps[..k] == steps[..|steps| - 1][..k];
  }

  lemma LastCancelsRelease(n: nat, steps: seq<Step>, t: nat)
    requires Run(Start(n), steps).Some? && t < n && steps != []
    ensures var before := Run(Start(n), steps[..|steps| - 1]).value;
            |before.pcs| == n &&
            (ReleaseCancelled(n, steps, |steps| - 1, t) <==>
              steps[|steps| - 1] == Cancel(t) && before.pcs[t] == Releasing)
  {
    RunKeepsInv(n, steps[..|steps| - 1]);
  }

  lemma ReleaseCancelledLater(n: nat, steps: seq<Step>, t: nat)
    requires steps != []
    ensures SomeReleaseCancelled(n, steps, t) <==>
              SomeReleaseCancelled(n, steps[..|steps| - 1], t) || ReleaseCancelled(n, steps, |steps| - 1, t)
  {
    var front, last := steps[..|steps| - 1], |steps| - 1;
    forall k: nat | k < last ensures ReleaseCancelled(n, steps, k, t) <==> ReleaseCancelled(n, front, k, t) {
      SameEarlier(n, steps, k, t);
    }
    if k: nat :| ReleaseCancelled(n, front, k, t) {
      assert ReleaseCancelled(n, steps, k, t);
    }
    if k: nat :| ReleaseCancelled(n, steps, k, t) {
      assert k == last || ReleaseCancelled(n, front, k, t);
    }
  }

  /** A task is unwinding or cancelled only by a cancellation of its own. */
  lemma {:induction false} OnlyOwnCancel(n: nat, steps: seq<Step>, t: nat)
    requires Run(Start(n), steps).Some? && t < |Run(Start(n), steps).value.pcs|
    requires !Uncancelled(Run(Start(n), steps).value.pcs[t])
    ensures Cancel(t) in steps
  {
    if steps != [] {
      var before := Run(Start(n), steps[..|steps| - 1]).value;
      if !Uncancelled(before.pcs[t]) {
        OnlyOwnCancel(n, steps[..|steps| - 1], t);
      } else {
        assert steps[|steps| - 1] == Cancel(t);
      }
    }
  }

  ghost predicate NoReleaseCancelled(n: nat, steps: seq<Step>) {
    forall t: nat :: !SomeReleaseCancelled(n, steps, t)
  }

  ghost predicate AllServed(steps: seq<Step>, pcs: seq<Pc>) {
    forall t: nat | t < |pcs| :: pcs[t] == Done || (pcs[t] == Cancelled && Cancel(t) in steps)
  }

  /** When no task can go on, every task has got the lease and given it back, or was itself
      cancelled before it had it, exactly if no task was cancelled while it waited to release. */
  lemma AllServedIff(n: nat, steps: seq<Step>)
    requires Run(Start(n), steps).Some? && Stuck(Run(Start(n), steps).value)
    ensures AllServed(steps, Run(Start(n), steps).value.pcs) <==> NoReleaseCancelled(n, steps)
  {
    var s := Run(Start(n), steps).value;
    RunKeepsInv(n, steps);
    StuckMeansEnded(s);
    forall t: nat | t < n ensures s.pcs[t] == Lost <==> SomeReleaseCancelled(n, steps, t) {
      LostIff(n, steps, t);
    }
    if NoReleaseCancelled(n, steps) {
      forall t: nat | t < n ensures s.pcs[t] == Done || (s.pcs[t] == Cancelled && Cancel(t) in steps) {
        assert s.pcs[t] != Lost && (s.active.Some? ==> s.pcs[s.active.value] != Lost);
        if s.pcs[t] == Cancelled {
          OnlyOwnCancel(n, steps, t);
        }
      }
    } else {
      var t: nat :| SomeReleaseCancelled(n, steps, t);
      var k: nat :| ReleaseCancelled(n, steps, k, t);
      CancelledIsATask(n, steps, k, t);
      assert s.pcs[t] == Lost;
    }
  }

  lemma CancelledIsATask(n: nat, steps: seq<Step>, k: nat, t: nat)
    requires ReleaseCancelled(n, steps, k, t)
    ensures t < n
  {
    RunKeepsInv(n, steps[..k]);
  }

  // ----- one thread of control -----------------------------------------------------------------

  /** Between two places where the event loop may switch to another task: a lock that is free is
      acquired without a switch. */
  predicate Hot(pc: Pc) {
    pc == Entering || pc == Checking || pc == Releasing || pc == Clearing || pc == UnwindingLocked
  }

  /** A task that is hot goes on by itself and cannot be cancelled. */
  predicate Scheduled(s: State, step: Step) {
    forall t: nat | t < |s.pcs| && Hot(s.pcs[t]) :: step.t == t && !step.Cancel?
  }

  ghost predicate AllScheduled(n: nat, steps: seq<Step>) {
    forall k: nat | k < |steps| && Run(Start(n), steps[..k]).Some? ::
      Scheduled(Run(Start(n), steps[..k]).value, steps[k])
  }

  predicate OneHot(s: State) {
    forall t: nat, u: nat | t < |s.pcs| && u < |s.pcs| && Hot(s.pcs[t]) && Hot(s.pcs[u]) :: t == u
  }

  lemma StepKeepsOneHot(s: State, step: Step)
    requires OneHot(s) && Enabled(s, step) && Scheduled(s, step)
    ensures OneHot(Apply(s, step))
  {
    forall t: nat | t < |s.pcs| && t != step.t ensures Hot(Apply(s, step).pcs[t]) ==> Hot(s.pcs[t]) {
    }
  }

  /** The lock is free for whoever may ask for it now. */
  ghost predicate LockIsFree(s: State) {
    forall t: nat | t < |s.pcs| && Asks(s.pcs[t]) && Scheduled(s, LockToEnter(t)) :: s.lock == None
  }

  predicate Asks(pc: Pc) {
    pc == Entering || pc == Woken || pc == Releasing || pc == Unwinding
  }

  lemma HotHoldsLock(s: State)
    requires Inv(s) && OneHot(s)
    ensures LockIsFree(s)
  {
    if s.lock.Some? {
      assert HoldsLock(s.pcs[s.lock.value]);
    }
  }

  lemma {:induction false} StaysOneHot(n: nat, steps: seq<Step>)
    requires Run(Start(n), steps).Some? && AllScheduled(n, steps)
    ensures OneHot(Run(Start(n), steps).value)
  {
    if steps != [] {
      var front := steps[..|steps| - 1];
      AllScheduledFront(n, steps);
      StaysOneHot(n, front);
      StepKeepsOneHot(Run(Start(n), front).value, steps[|front|]);
    }
  }

  /** If tasks are switched only where one waits, then whoever asks for the lock finds it free:
      the lock is never waited for. */
  lemma LockIsNeverWaitedFor(n: nat, steps: seq<Step>)
    requires Run(Start(n), steps).Some? && AllScheduled(n, steps)
    ensures OneHot(Run(Start(n), steps).value) && LockIsFree(Run(Start(n), steps).value)
  {
    RunKeepsInv(n, steps);
    StaysOneHot(n, steps);
    HotHoldsLock(Run(Start(n), steps).value);
  }

  lemma AllScheduledFront(n: nat, steps: seq<Step>)
    requires Run(Start(n), steps).Some? && AllScheduled(n, steps) && steps != []
    ensures AllScheduled(n, steps[..|steps| - 1])
    ensures Scheduled(Run(Start(n), steps[..|steps| - 1]).value, steps[|steps| - 1])
  {
    var front := steps[..|steps| - 1];
    forall k: nat | k < |front| ensures front[..k] == steps[..k] {
    }
  }

  lemma ReleaseIsNotCancelled(n: nat, steps: seq<Step>, k: nat, t: nat)
    requires AllScheduled(n, steps)
    ensures !ReleaseCancelled(n, steps, k, t)
  {
    if k < |steps| && Run(Start(n), steps[..k]).Some? {
      assert Scheduled(Run(Start(n), steps[..k]).value, steps[k]);
    }
  }

  /** Nor then is a lease ever lost: cancellations or not, in the end every task has got the lease
      and given it back, or was itself cancelled before it had it. */
  lemma EventLoopServesAll(n: nat, steps: seq<Step>)
    requires Run(Start(n), steps).Some? && Stuck(Run(Start(n), steps).value) && AllScheduled(n, steps)
    ensures AllServed(steps, Run(Start(n), steps).value.pcs)
  {
    forall k: nat, t: nat ensures !ReleaseCancelled(n, steps, k, t) {
      ReleaseIsNotCancelled(n, steps, k, t);
    }
    AllServedIff(n, steps);
  }
}
