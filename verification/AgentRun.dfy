/** The whole run of a task: attempts until one succeeds, one must not be repeated, or none are
    left; and what is reported of them. */
module AgentRun {
  import opened Wrappers
  import opened TokenUsage
  import opened AgentStep
  import opened AgentAttempt

  datatype RunError = AttemptFailed(error: Error) | AttemptRaised

  datatype RunResult = RunResult(success: bool, error: Option<RunError>, stepsTaken: nat, usage: Usage)

  /** An attempt: its completed steps and its end. */
  datatype Attempt = Attempt(steps: seq<Step>, end: AttemptEnd)

  predicate Succeeded(end: AttemptEnd) {
    end.Returned? && end.error == None
  }

  /** The text reads like the error of a cancelled intervention or of stagnation. */
  predicate ReadsFinal(message: string) {
    "intervention_cancelled" <= message || message == "stagnation_detected"
  }

  /** The error's text is one after which nothing is tried again. A preflight may fail with any
      text, these too. */
  predicate Final(error: Error) {
    match error
    case InterventionCancelled(_) => true
    case StagnationDetected => true
    case Preflight(message) => ReadsFinal(message)
    case _ => false
  }

  predicate EndsRun(end: AttemptEnd) {
    end.Returned? && (end.error == None || Final(end.error.value))
  }

  ghost predicate Tried(agent: Agent, scripts: nat -> AttemptScript, attempts: seq<Attempt>) {
    attempts == [] ||
    var n := |attempts| - 1;
    Tried(agent, scripts, attempts[..n]) && AttemptRun(agent, scripts(n), attempts[n].steps, attempts[n].end)
  }

  ghost predicate NoneEnds(attempts: seq<Attempt>) {
    forall i: nat | i < |attempts| :: !EndsRun(attempts[i].end)
  }

  ghost predicate SomeSucceeded(attempts: seq<Attempt>) {
    exists i: nat | i < |attempts| :: Succeeded(attempts[i].end)
  }

  /** No attempt follows one that ends the run, and attempts go on until one does or none are
      left. */
  ghost predicate GoesOn(maxRetries: int, attempts: seq<Attempt>) {
    if attempts == [] then maxRetries <= 0 else
      && |attempts| <= maxRetries
      && NoneEnds(attempts[..|attempts| - 1])
      && (|attempts| < maxRetries ==> EndsRun(attempts[|attempts| - 1].end))
  }

  ghost predicate AttemptsOf(agent: Agent, maxRetries: int, scripts: nat -> AttemptScript, attempts: seq<Attempt>) {
    Tried(agent, scripts, attempts) && GoesOn(maxRetries, attempts)
  }

  function UsageOfAttempts(attempts: seq<Attempt>): Usage {
    if attempts == [] then map[] else
      var sofar, end := UsageOfAttempts(attempts[..|attempts| - 1]), attempts[|attempts| - 1].end;
      if end.Returned? then Plus(sofar, end.usage) else sofar
  }

  function StepsReported(attempts: seq<Attempt>): nat {
    if attempts == [] then 0 else
      var end := attempts[|attempts| - 1].end;
      if end.Returned? then end.stepsTaken else StepsReported(attempts[..|attempts| - 1])
  }

  /** What the last attempt says went wrong. */
  function LastError(attempts: seq<Attempt>): Option<RunError> {
    if attempts == [] then None else
      match attempts[|attempts| - 1].end
      case Raised => Some(AttemptRaised)
      case Returned(None, _, _) => None
      case Returned(Some(error), _, _) => Some(AttemptFailed(error))
  }

  lemma AttemptMade(agent: Agent, scripts: nat -> AttemptScript, attempts: seq<Attempt>, attempt: Attempt)
    returns (more: seq<Attempt>)
    requires Tried(agent, scripts, attempts) && NoneEnds(attempts)
    requires AttemptRun(agent, scripts(|attempts|), attempt.steps, attempt.end)
    ensures more == attempts + [attempt] && more[..|attempts|] == attempts && more[|attempts|] == attempt
    ensures Tried(agent, scripts, more) && (NoneEnds(more) <==> !EndsRun(attempt.end))
    ensures SomeSucceeded(more) <==> Succeeded(attempt.end)
  {
    more := attempts + [attempt];
    assert more[..|attempts|] == attempts && more[|attempts|] == attempt;
    assert forall i: nat | i < |attempts| :: more[i] == attempts[i];
  }

  method Run(agent: Agent, maxRetries: int, scripts: nat -> AttemptScript)
    returns (result: RunResult, attempts: seq<Attempt>)
    ensures AttemptsOf(agent, maxRetries, scripts, attempts)
    ensures result.success <==> SomeSucceeded(attempts)
    ensures result.error == LastError(attempts)
    ensures result.stepsTaken == StepsReported(attempts)
    ensures result.usage == UsageOfAttempts(attempts)
  {
    var lastError: Option<RunError> := None;
    var returned: Option<(bool, nat)> := None;
    var usage: Usage := map[];
    attempts := [];
    while |attempts| < maxRetries
      invariant attempts == [] || |attempts| <= maxRetries
      invariant Tried(agent, scripts, attempts) && NoneEnds(attempts) && !SomeSucceeded(attempts)
      invariant lastError == LastError(attempts)
      invariant usage == UsageOfAttempts(attempts)
      invariant returned.GetOr((false, 0)) == (false, StepsReported(attempts))
      decreases maxRetries - |attempts|
    {
      var end, steps := RunOnce(agent, scripts(|attempts|));
      ghost var more := AttemptMade(agent, scripts, attempts, Attempt(steps, end));
      attempts := attempts + [Attempt(steps, end)];
      match end
      case Raised => lastError := Some(AttemptRaised);
      case Returned(error, stepsTaken, spent) =>
        returned := Some((error == None, stepsTaken));
        usage := AddUsage(usage, spent);
        if error == None {
          lastError := None;
          break;
        }
        lastError := Some(AttemptFailed(error.value));
        if Final(error.value) {
          break;
        }
    }
    var (success, stepsTaken) := returned.GetOr((false, 0));
    result := RunResult(success, if success then None else lastError, stepsTaken, usage);
  }

  // ----- when attempts go on --------------------------------------------------------------

  /** An attempt is followed by another exactly if one is left and it raised, ran out of time or
      steps, failed at its task, or had a preflight fail with an ordinary text: nothing follows a
      success, stagnation, a cancelled intervention, or a preflight text that reads like these. */
  lemma FollowedIff(agent: Agent, maxRetries: int, scripts: nat -> AttemptScript, attempts: seq<Attempt>, i: nat)
    requires AttemptsOf(agent, maxRetries, scripts, attempts) && i < |attempts|
    ensures i + 1 < |attempts| ==> i + 1 < maxRetries
    ensures i + 1 < maxRetries ==>
      match attempts[i].end
      case Raised => i + 1 < |attempts|
      case Returned(None, _, _) => i + 1 == |attempts|
      case Returned(Some(error), _, _) =>
        match error
        case StepTimeout => i + 1 < |attempts|
        case TaskFailed => i + 1 < |attempts|
        case MaxStepsExceeded => i + 1 < |attempts|
        case StagnationDetected => i + 1 == |attempts|
        case InterventionCancelled(_) => i + 1 == |attempts|
        case Preflight(message) =>
          i + 1 == |attempts| <==> message == "stagnation_detected" || "intervention_cancelled" <= message
  {
    if i + 1 < |attempts| {
      DoesNotEnd(attempts, i);
    }
  }

  /** The run reports the end of its last attempt, and the steps of the last that returned. */
  lemma {:induction false} LastIsReported(attempts: seq<Attempt>, i: nat)
    requires i < |attempts| && forall j: nat | i < j < |attempts| :: attempts[j].end.Raised?
    ensures attempts[i].end.Returned? ==> StepsReported(attempts) == attempts[i].end.stepsTaken
    ensures i == 0 && attempts[i].end.Raised? ==> StepsReported(attempts) == 0
    ensures LastError(attempts) == None <==> Succeeded(attempts[|attempts| - 1].end)
    ensures i + 1 < |attempts| ==> LastError(attempts) == Some(AttemptRaised)
    ensures i + 1 == |attempts| && attempts[i].end.Returned? && attempts[i].end.error.Some? ==>
              LastError(attempts) == Some(AttemptFailed(attempts[i].end.error.value))
  {
    if i + 1 < |attempts| {
      LastIsReported(attempts[..|attempts| - 1], i);
    }
  }

  // ----- what the run's contract means -------------------------------------------------------

  /** The completed steps of the attempts that returned; those of an attempt that raised are
      not accounted for. */
  function StepsThatCount(attempts: seq<Attempt>): seq<Step> {
    if attempts == [] then [] else
      var front, last := attempts[..|attempts| - 1], attempts[|attempts| - 1];
      StepsThatCount(front) + if last.end.Returned? then last.steps else []
  }

  function Spent(steps: seq<Step>, key: string): int {
    if steps == [] then 0 else Spent(steps[..|steps| - 1], key) + Used(steps[|steps| - 1].usage, key)
  }

  lemma {:induction false} SpentOfBoth(a: seq<Step>, b: seq<Step>, key: string)
    ensures Spent(a + b, key) == Spent(a, key) + Spent(b, key)
  {
    if b == [] {
      assert a + b == a;
    } else {
      SpentOfBoth(a, b[..|b| - 1], key);
      assert (a + b)[..|a + b| - 1] == a + b[..|b| - 1];
    }
  }

  lemma {:induction false} StepsAddUp(steps: seq<Step>, key: string)
    ensures Used(UsageOfSteps(steps), key) == Spent(steps, key)
  {
    if steps != [] {
      StepsAddUp(steps[..|steps| - 1], key);
    }
  }

  lemma AttemptAddsUp(agent: Agent, script: AttemptScript, steps: seq<Step>, end: AttemptEnd, key: string)
    requires AttemptRun(agent, script, steps, end) && end.Returned?
    ensures Used(end.usage, key) == Spent(steps, key)
  {
    StepsAddUp(steps, key);
  }

  /** For every key, the reported usage is the sum over all completed steps of all attempts that
      returned. */
  lemma {:induction false} RunAddsUp(agent: Agent, scripts: nat -> AttemptScript, attempts: seq<Attempt>, key: string)
    requires Tried(agent, scripts, attempts)
    ensures Used(UsageOfAttempts(attempts), key) == Spent(StepsThatCount(attempts), key)
  {
    if attempts != [] {
      var n := |attempts| - 1;
      var front, last := attempts[..n], attempts[n];
      RunAddsUp(agent, scripts, front, key);
      SpentOfBoth(StepsThatCount(front), if last.end.Returned? then last.steps else [], key);
      if last.end.Returned? {
        AttemptAddsUp(agent, scripts(n), last.steps, last.end, key);
      }
    }
  }

  /** The completed steps of the attempts that raised, and those of all attempts. */
  function StepsThatAreLost(attempts: seq<Attempt>): seq<Step> {
    if attempts == [] then [] else
      var front, last := attempts[..|attempts| - 1], attempts[|attempts| - 1];
      StepsThatAreLost(front) + if last.end.Returned? then [] else last.steps
  }

  function AllSteps(attempts: seq<Attempt>): seq<Step> {
    if attempts == [] then [] else AllSteps(attempts[..|attempts| - 1]) + attempts[|attempts| - 1].steps
  }

  lemma {:induction false} SpentSplits(attempts: seq<Attempt>, key: string)
    ensures Spent(AllSteps(attempts), key) == Spent(StepsThatCount(attempts), key) + Spent(StepsThatAreLost(attempts), key)
  {
    if attempts != [] {
      var front, last := attempts[..|attempts| - 1], attempts[|attempts| - 1];
      SpentSplits(front, key);
      SpentOfBoth(AllSteps(front), last.steps, key);
      SpentOfBoth(StepsThatCount(front), if last.end.Returned? then last.steps else [], key);
      SpentOfBoth(StepsThatAreLost(front), if last.end.Returned? then [] else last.steps, key);
    }
  }

  /** The reported usage covers all completed steps exactly if those of the attempts that raised
      spent nothing in sum. */
  lemma TotalIsCompleteIff(agent: Agent, scripts: nat -> AttemptScript, attempts: seq<Attempt>, key: string)
    requires Tried(agent, scripts, attempts)
    ensures Used(UsageOfAttempts(attempts), key) == Spent(AllSteps(attempts), key)
            <==> Spent(StepsThatAreLost(attempts), key) == 0
  {
    RunAddsUp(agent, scripts, attempts, key);
    SpentSplits(attempts, key);
  }

  // ----- a step that is paid for and not counted ---------------------------------------------

  const PAID: Usage := map["total_tokens" := 7]

  /** The first step acts, the second finds the model failing. */
  function FailingScript(): AttemptScript {
    AttemptScript(Starts(None),
                  n => StepScript(_ => Answer(PAID, if n == 0 then ToolCall(true, Acts("tap", None)) else CallFails),
                                  false, NoHandler))
  }

  function PaidStep(): Step { Step("tap", Went(None), Plus(Plus(map[], PAID), map[])) }

  lemma FirstStepIsPaid(agent: Agent)
    ensures Completed(agent, FailingScript().steps(0), None) == Some(PaidStep())
    ensures Completed(agent, FailingScript().steps(1), None) == None
    ensures Used(PaidStep().usage, "total_tokens") == 7
  {
    var first, second := FailingScript().steps(0).answers, FailingScript().steps(1).answers;
    assert CallsMade(agent.native, first, 0) == 1;
    assert CallsMade(agent.native, second, 0) == 1;
    assert UsageOfCalls(first, 1) == Plus(UsageOfCalls(first, 0), PAID);
  }

  lemma FailingScriptRaises(agent: Agent)
    requires agent.maxSteps >= 2 && agent.limit == 0
    ensures AttemptRun(agent, FailingScript(), [PaidStep()], Raised)
  {
    FirstStepIsPaid(agent);
    var steps := [PaidStep()];
    assert steps[..0] == [];
    assert Follows(agent, FailingScript(), None, [], PaidStep());
    assert Seen(None, steps).screen == None;
  }

  /** A run of one attempt whose only completed step is missing from the total. */
  lemma PaidStepIsLost(agent: Agent)
    requires agent.maxSteps >= 2 && agent.limit == 0
    ensures var attempts := [Attempt([PaidStep()], Raised)];
            && AttemptsOf(agent, 1, _ => FailingScript(), attempts)
            && Used(UsageOfAttempts(attempts), "total_tokens") == 0
            && Spent(AllSteps(attempts), "total_tokens") == 7
  {
    FailingScriptRaises(agent);
    FirstStepIsPaid(agent);
    var only := Attempt([PaidStep()], Raised);
    assert [only][..0] == [] && [PaidStep()][..0] == [];
    assert AllSteps([only]) == [] + [PaidStep()] == [PaidStep()];
    assert UsageOfAttempts([only]) == map[];
  }

  // ----- a preflight that ends the run -----------------------------------------------------------

  /** A first preflight that fails is the last attempt, where more are allowed, exactly if its text
      reads like one of the errors after which nothing is tried again. */
  lemma PreflightEndsRunIff(agent: Agent, maxRetries: int, scripts: nat -> AttemptScript, attempts: seq<Attempt>,
                            message: string)
    requires AttemptsOf(agent, maxRetries, scripts, attempts) && maxRetries >= 2
    requires scripts(0).start == PreflightFails(message)
    ensures |attempts| == 1 <==> ReadsFinal(message)
  {
    assert attempts != [];
    TriedAt(agent, scripts, attempts, 0);
    assert attempts[0].end == Returned(Some(Preflight(message)), 0, map[]);
    if |attempts| > 1 {
      DoesNotEnd(attempts, 0);
    }
  }

  /** Of two attempts that are allowed the second is not made, after a preflight with such a text. */
  lemma PreflightEndsRun(agent: Agent)
    ensures var message := "intervention_cancelled by the host";
            AttemptsOf(agent, 2, _ => AttemptScript(PreflightFails(message), _ => FailingScript().steps(0)),
                       [Attempt([], Returned(Some(Preflight(message)), 0, map[]))])
  {
    var message := "intervention_cancelled by the host";
    var only := Attempt([], Returned(Some(Preflight(message)), 0, map[]));
    assert "intervention_cancelled" <= message;
    assert [only][..0] == [];
  }

  lemma {:induction false} TriedAt(agent: Agent, scripts: nat -> AttemptScript, attempts: seq<Attempt>, i: nat)
    requires Tried(agent, scripts, attempts) && i < |attempts|
    ensures AttemptRun(agent, scripts(i), attempts[i].steps, attempts[i].end)
  {
    if i < |attempts| - 1 {
      TriedAt(agent, scripts, attempts[..|attempts| - 1], i);
    }
  }

  lemma SameAttempt(agent: Agent, scripts: nat -> AttemptScript, attempts: seq<Attempt>, other: seq<Attempt>, i: nat)
    requires Tried(agent, scripts, attempts) && Tried(agent, scripts, other) && i < |attempts| && i < |other|
    ensures attempts[i] == other[i]
  {
    TriedAt(agent, scripts, attempts, i);
    TriedAt(agent, scripts, other, i);
    AttemptIsDetermined(agent, scripts(i), attempts[i].steps, attempts[i].end, other[i].steps, other[i].end);
  }

  lemma DoesNotEnd(attempts: seq<Attempt>, i: nat)
    requires attempts != [] && NoneEnds(attempts[..|attempts| - 1]) && i < |attempts| - 1
    ensures !EndsRun(attempts[i].end)
  {
    assert attempts[..|attempts| - 1][i] == attempts[i];
  }

  lemma NoLongerRun(maxRetries: int, attempts: seq<Attempt>, other: seq<Attempt>)
    requires GoesOn(maxRetries, attempts) && GoesOn(maxRetries, other)
    requires 0 < |attempts| < |other| ==> attempts[|attempts| - 1] == other[|attempts| - 1]
    ensures |attempts| >= |other|
  {
    if 0 < |attempts| < |other| {
      DoesNotEnd(other, |attempts| - 1);
    }
  }

  /** What the outside answers determines the whole run. */
  lemma RunIsDetermined(agent: Agent, maxRetries: int, scripts: nat -> AttemptScript,
                        attempts: seq<Attempt>, other: seq<Attempt>)
    requires AttemptsOf(agent, maxRetries, scripts, attempts) && AttemptsOf(agent, maxRetries, scripts, other)
    ensures attempts == other
  {
    forall i: nat | i < |attempts| && i < |other| ensures attempts[i] == other[i] {
      SameAttempt(agent, scripts, attempts, other, i);
    }
    NoLongerRun(maxRetries, attempts, other);
    NoLongerRun(maxRetries, other, attempts);
  }
}
