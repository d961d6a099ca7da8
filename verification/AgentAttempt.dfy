/** One attempt of the agent: a preflight, then steps until one of them stops it. */
module AgentAttempt {
  import opened Wrappers
  import opened TokenUsage
  import opened ScreenSimilarity
  import opened AgentStep

  datatype Intervention = NoHandler | HandlerFails | Refused(note: string) | Resumed(next: Observation)

  datatype StepScript = StepScript(answers: nat -> Answer, timesOut: bool, intervention: Intervention)

  datatype Start = PreflightFails(message: string) | StartFails | Starts(first: Observation)

  datatype AttemptScript = AttemptScript(start: Start, steps: nat -> StepScript)

  datatype Agent = Agent(native: bool, maxSteps: int, limit: nat, decode: string -> Option<seq<Pixel>>)

  datatype Error =
    | Preflight(message: string)
    | StepTimeout
    | InterventionCancelled(note: string)
    | TaskFailed
    | StagnationDetected
    | MaxStepsExceeded

  /** `error` is None exactly for a success. */
  datatype AttemptEnd = Raised | Returned(error: Option<Error>, stepsTaken: nat, usage: Usage)

  // ----- what has been seen --------------------------------------------------------------

  /** The current observation, and the action before it. */
  datatype Watch = Watch(screen: Observation, action: Option<string>)

  function SeenAfter(before: Watch, step: Step): Watch {
    if step.turn.Went? && step.turn.next.Some? then Watch(step.turn.next.value, Some(step.action)) else before
  }

  function Seen(first: Observation, steps: seq<Step>): Watch {
    if steps == [] then Watch(first, None) else SeenAfter(Seen(first, steps[..|steps| - 1]), steps[|steps| - 1])
  }

  /** The transition repeats the one before: the same screen again, by the same kind of action. */
  predicate Repeats(agent: Agent, before: Watch, action: string, screen: Observation) {
    && before.screen.Some? && screen.Some?
    && (before.action == None || before.action == Some(action))
    && IsSameScreen(before.screen.value, screen.value, agent.decode)
  }

  /** For each observed transition of the attempt, whether it repeats. */
  function Marks(agent: Agent, first: Observation, steps: seq<Step>): seq<bool> {
    if steps == [] then [] else
      var front, last := steps[..|steps| - 1], steps[|steps| - 1];
      if last.turn.Went? && last.turn.next.Some? then
        Marks(agent, first, front) + [Repeats(agent, Seen(first, front), last.action, last.turn.next.value)]
      else Marks(agent, first, front)
  }

  /** The length of the longest suffix that is true throughout. */
  function TrueSuffix(marks: seq<bool>): nat {
    if marks == [] || !marks[|marks| - 1] then 0 else TrueSuffix(marks[..|marks| - 1]) + 1
  }

  function Streak(agent: Agent, first: Observation, steps: seq<Step>): nat {
    TrueSuffix(Marks(agent, first, steps))
  }

  // ----- what an attempt does ---------------------------------------------------------------

  /** The completed step of a script, None if it times out or an exception ends it. */
  function Completed(agent: Agent, script: StepScript, current: Observation): Option<Step> {
    if script.timesOut then None else
      match StepOf(agent.native, script.answers, current)
      case None => None
      case Some(step) => if step.turn.Asked? then Intervened(step, script.intervention) else Some(step)
  }

  function Intervened(step: Step, intervention: Intervention): Option<Step> {
    match intervention
    case NoHandler => Some(step.(turn := Interrupted("missing_intervention_handler")))
    case HandlerFails => None
    case Refused(note) => Some(step.(turn := Interrupted(note)))
    case Resumed(next) => Some(step.(turn := Went(Some(next))))
  }

  function StopAfter(agent: Agent, step: Step, streak: nat): Option<Option<Error>> {
    match step.turn
    case Interrupted(note) => Some(Some(InterventionCancelled(note)))
    case Done(success) => Some(if success then None else Some(TaskFailed))
    case _ => if 0 < agent.limit <= streak then Some(Some(StagnationDetected)) else None
  }

  /** Whether the steps so far stop the attempt, and with which error. */
  function Stop(agent: Agent, first: Observation, steps: seq<Step>): Option<Option<Error>> {
    if steps == [] then None else
      StopAfter(agent, steps[|steps| - 1], Streak(agent, first, steps))
  }

  /** After these steps the attempt takes this one. */
  predicate Follows(agent: Agent, script: AttemptScript, first: Observation, steps: seq<Step>, next: Step) {
    NextStep(agent, script, first, steps) == Some(next)
  }

  /** None if the attempt may not go on, or the step is not completed. */
  function NextStep(agent: Agent, script: AttemptScript, first: Observation, steps: seq<Step>): Option<Step> {
    if |steps| < agent.maxSteps && Stop(agent, first, steps) == None then
      Completed(agent, script.steps(|steps|), Seen(first, steps).screen)
    else None
  }

  /** The steps are what the script makes of them, and none but the last stops the attempt. */
  ghost predicate StepsOf(agent: Agent, script: AttemptScript, first: Observation, steps: seq<Step>) {
    steps == [] ||
    var front := steps[..|steps| - 1];
    StepsOf(agent, script, first, front) && Follows(agent, script, first, front, steps[|front|])
  }

  function UsageOfSteps(steps: seq<Step>): Usage {
    if steps == [] then map[] else Plus(UsageOfSteps(steps[..|steps| - 1]), steps[|steps| - 1].usage)
  }

  /** How an attempt with these completed steps ends. */
  ghost predicate EndsAs(agent: Agent, script: AttemptScript, first: Observation, steps: seq<Step>, end: AttemptEnd) {
    match Stop(agent, first, steps)
    case Some(error) => end == Returned(error, |steps|, UsageOfSteps(steps))
    case None =>
      if |steps| >= agent.maxSteps then end == Returned(Some(MaxStepsExceeded), |steps|, UsageOfSteps(steps))
      else if script.steps(|steps|).timesOut then
        end == Returned(Some(StepTimeout), |steps| + 1, UsageOfSteps(steps))
      else
        && Completed(agent, script.steps(|steps|), Seen(first, steps).screen) == None
        && end == Raised
  }

  ghost predicate AttemptRun(agent: Agent, script: AttemptScript, steps: seq<Step>, end: AttemptEnd) {
    match script.start
    case PreflightFails(message) => steps == [] && end == Returned(Some(Preflight(message)), 0, map[])
    case StartFails => steps == [] && end == Raised
    case Starts(first) => StepsOf(agent, script, first, steps) && EndsAs(agent, script, first, steps, end)
  }

  function StreakAfter(agent: Agent, before: Watch, streak: nat, step: Step): nat {
    if !(step.turn.Went? && step.turn.next.Some?) then streak
    else if Repeats(agent, before, step.action, step.turn.next.value) then streak + 1
    else 0
  }

  lemma StepTaken(agent: Agent, first: Observation, steps: seq<Step>, step: Step) returns (more: seq<Step>)
    ensures more == steps + [step] && more != [] && more[..|more| - 1] == steps && more[|more| - 1] == step
    ensures Seen(first, more) == SeenAfter(Seen(first, steps), step)
    ensures Streak(agent, first, more) == StreakAfter(agent, Seen(first, steps), Streak(agent, first, steps), step)
  {
    more := steps + [step];
    assert more[..|steps|] == steps;
    if step.turn.Went? && step.turn.next.Some? {
      var mark := Repeats(agent, Seen(first, steps), step.action, step.turn.next.value);
      var marks := Marks(agent, first, steps);
      assert (marks + [mark])[..|marks|] == marks;
    }
  }

  /** The usage and the validity of one more step, and what it stops. */
  lemma StepCounts(agent: Agent, script: AttemptScript, first: Observation, steps: seq<Step>, step: Step)
    requires |steps| < agent.maxSteps && StepsOf(agent, script, first, steps) && Stop(agent, first, steps) == None
    requires Completed(agent, script.steps(|steps|), Seen(first, steps).screen) == Some(step)
    ensures StepsOf(agent, script, first, steps + [step])
    ensures UsageOfSteps(steps + [step]) == Plus(UsageOfSteps(steps), step.usage)
    ensures Stop(agent, first, steps + [step]) == StopAfter(agent, step, Streak(agent, first, steps + [step]))
  {
    var more := StepTaken(agent, first, steps, step);
  }

  /** The step call and the intervention it may ask for. */
  method TakeStep(agent: Agent, script: StepScript, current: Observation) returns (step: Option<Step>)
    requires !script.timesOut
    ensures step == Completed(agent, script, current)
  {
    var calls;
    step, calls := RunStep(agent.native, script.answers, current);
    if step.Some? && step.value.turn.Asked? {
      match script.intervention
      case NoHandler => step := Some(step.value.(turn := Interrupted("missing_intervention_handler")));
      case HandlerFails => step := None;
      case Refused(note) => step := Some(step.value.(turn := Interrupted(note)));
      case Resumed(next) => step := Some(step.value.(turn := Went(Some(next))));
    }
  }

  /** The attempt. `steps` are the completed steps, as they are recorded. */
  method RunOnce(agent: Agent, script: AttemptScript) returns (end: AttemptEnd, steps: seq<Step>)
    ensures AttemptRun(agent, script, steps, end)
  {
    match script.start
    case PreflightFails(message) => end, steps := Returned(Some(Preflight(message)), 0, map[]), [];
    case StartFails => end, steps := Raised, [];
    case Starts(first) => end, steps := StepLoop(agent, script, first);
  }

  method StepLoop(agent: Agent, script: AttemptScript, first: Observation) returns (end: AttemptEnd, steps: seq<Step>)
    ensures StepsOf(agent, script, first, steps) && EndsAs(agent, script, first, steps, end)
  {
    var current := first;
    var watch := Watch(if agent.limit > 0 then first else None, None);
    var streak := 0;
    var usage: Usage := map[];
    steps := [];
    while |steps| < agent.maxSteps
      invariant StepsOf(agent, script, first, steps) && Stop(agent, first, steps) == None
      invariant usage == UsageOfSteps(steps)
      invariant current == Seen(first, steps).screen
      invariant agent.limit > 0 ==> watch == Seen(first, steps) && streak == Streak(agent, first, steps)
      decreases agent.maxSteps - |steps|
    {
      var script' := script.steps(|steps|);
      if script'.timesOut {
        return Returned(Some(StepTimeout), |steps| + 1, usage), steps;
      }
      var result := TakeStep(agent, script', current);
      if result == None {
        return Raised, steps;
      }
      var step := result.value;
      usage := AddUsage(usage, step.usage);
      ghost var more := StepTaken(agent, first, steps, step);
      StepCounts(agent, script, first, steps, step);
      steps := steps + [step];
      if step.turn.Interrupted? {
        return Returned(Some(InterventionCancelled(step.turn.note)), |steps|, usage), steps;
      }
      if step.turn.Done? {
        return Returned(if step.turn.success then None else Some(TaskFailed), |steps|, usage), steps;
      }
      if step.turn.Went? && step.turn.next.Some? {
        if agent.limit > 0 {
          streak := if Repeats(agent, watch, step.action, step.turn.next.value) then streak + 1 else 0;
          watch := Watch(step.turn.next.value, Some(step.action));
          if streak >= agent.limit {
            return Returned(Some(StagnationDetected), |steps|, usage), steps;
          }
        }
        current := step.turn.next.value;
      }
    }
    end := Returned(Some(MaxStepsExceeded), |steps|, usage);
  }

  // ----- what the attempt's contract means --------------------------------------------------

  /** The last k transitions repeat, all of them, exactly for k up to the streak. */
  lemma {:induction false} StreakIsLongestSuffix(marks: seq<bool>, k: nat)
    requires k <= |marks|
    ensures TrueSuffix(marks) <= |marks|
    ensures k <= TrueSuffix(marks) <==> forall i: nat | |marks| - k <= i < |marks| :: marks[i]
  {
    if marks != [] {
      var front := marks[..|marks| - 1];
      StreakIsLongestSuffix(front, 0);
      if k > 0 {
        StreakIsLongestSuffix(front, k - 1);
        assert forall i: nat | i < |front| :: front[i] == marks[i];
        if marks[|front|] && forall i: nat | |front| - (k - 1) <= i < |front| :: front[i] {
          forall i: nat | |marks| - k <= i < |marks| ensures marks[i] {
            assert i == |front| || front[i];
          }
        }
        if forall i: nat | |marks| - k <= i < |marks| :: marks[i] {
          assert marks[|front|];
          forall i: nat | |front| - (k - 1) <= i < |front| ensures front[i] {
            assert marks[i];
          }
        }
      }
    }
  }

  /** Before the last step nothing stopped the attempt. */
  lemma {:induction false} StopsNowhereBefore(agent: Agent, script: AttemptScript, first: Observation,
                                              steps: seq<Step>, n: nat)
    requires StepsOf(agent, script, first, steps) && n < |steps|
    ensures Stop(agent, first, steps[..n]) == None
    ensures |steps| <= agent.maxSteps
  {
    var front := steps[..|steps| - 1];
    if n < |front| {
      StopsNowhereBefore(agent, script, first, front, n);
      assert front[..n] == steps[..n];
    } else {
      assert front == steps[..n];
    }
  }

  lemma UnderTheLimit(agent: Agent, first: Observation, steps: seq<Step>)
    requires Stop(agent, first, steps) == None && agent.limit > 0
    ensures Streak(agent, first, steps) < agent.limit
  {
  }

  lemma GrowsByOne(agent: Agent, first: Observation, steps: seq<Step>)
    requires steps != []
    ensures Streak(agent, first, steps) <= Streak(agent, first, steps[..|steps| - 1]) + 1
    ensures !steps[|steps| - 1].turn.Went? ==> Streak(agent, first, steps) == Streak(agent, first, steps[..|steps| - 1])
  {
    var more := StepTaken(agent, first, steps[..|steps| - 1], steps[|steps| - 1]);
    assert more == steps;
  }

  /** An attempt reports stagnation exactly if its streak reaches a positive limit; it does so at
      that very step, and at no earlier one was the limit reached. */
  lemma StagnationIff(agent: Agent, script: AttemptScript, steps: seq<Step>, end: AttemptEnd, first: Observation)
    requires script.start == Starts(first) && AttemptRun(agent, script, steps, end)
    ensures (end.Returned? && end.error == Some(StagnationDetected))
            <==> 0 < agent.limit <= Streak(agent, first, steps)
    ensures 0 < agent.limit <= Streak(agent, first, steps) ==> Streak(agent, first, steps) == agent.limit
    ensures forall n: nat | n < |steps| && agent.limit > 0 :: Streak(agent, first, steps[..n]) < agent.limit
  {
    forall n: nat | n < |steps| && agent.limit > 0 ensures Streak(agent, first, steps[..n]) < agent.limit {
      StopsNowhereBefore(agent, script, first, steps, n);
      UnderTheLimit(agent, first, steps[..n]);
    }
    if steps != [] {
      GrowsByOne(agent, first, steps);
    }
  }

  /** No attempt takes more steps than it may; it ends with a success, or without steps left, or
      at a step that stops it. */
  lemma StepsAreBounded(agent: Agent, script: AttemptScript, steps: seq<Step>, end: AttemptEnd)
    requires AttemptRun(agent, script, steps, end)
    ensures steps == [] || |steps| <= agent.maxSteps
    ensures end.Returned? ==> |steps| <= end.stepsTaken <= |steps| + 1
    ensures end.Returned? && end.error == Some(MaxStepsExceeded) ==> |steps| >= agent.maxSteps
    ensures end.Returned? && end.error == None ==> steps != [] && steps[|steps| - 1].turn == Done(true)
  {
    if script.start.Starts? && steps != [] {
      StopsNowhereBefore(agent, script, script.start.first, steps, 0);
    }
  }

  lemma FrontIsRun(agent: Agent, script: AttemptScript, first: Observation, steps: seq<Step>) returns (front: seq<Step>)
    requires StepsOf(agent, script, first, steps) && steps != []
    ensures front == steps[..|steps| - 1] && |front| < |steps|
    ensures StepsOf(agent, script, first, front) && Follows(agent, script, first, front, steps[|front|])
  {
    front := steps[..|steps| - 1];
  }

  lemma FollowsOnce(agent: Agent, script: AttemptScript, first: Observation, front: seq<Step>, otherFront: seq<Step>,
                    next: Step, other: Step)
    requires front == otherFront
    requires Follows(agent, script, first, front, next) && Follows(agent, script, first, otherFront, other)
    ensures next == other
  {
  }

  lemma {:induction false} StepsAgree(agent: Agent, script: AttemptScript, first: Observation,
                                      steps: seq<Step>, other: seq<Step>)
    requires StepsOf(agent, script, first, steps) && StepsOf(agent, script, first, other)
    requires |steps| == |other|
    ensures steps == other
  {
    if steps != [] {
      var front := FrontIsRun(agent, script, first, steps);
      var otherFront := FrontIsRun(agent, script, first, other);
      StepsAgree(agent, script, first, front, otherFront);
      SameLast(agent, script, first, steps, other, front, otherFront);
    }
  }

  lemma SameLast(agent: Agent, script: AttemptScript, first: Observation, steps: seq<Step>, other: seq<Step>,
                 front: seq<Step>, otherFront: seq<Step>)
    requires |steps| == |other| > 0 && front == steps[..|steps| - 1] && otherFront == other[..|other| - 1]
    requires front == otherFront && Follows(agent, script, first, front, steps[|front|])
    requires Follows(agent, script, first, otherFront, other[|otherFront|])
    ensures steps == other
  {
    FollowsOnce(agent, script, first, front, otherFront, steps[|front|], other[|otherFront|]);
    assert steps == front + [steps[|front|]] && other == otherFront + [other[|otherFront|]];
  }

  lemma {:induction false} PrefixIsRun(agent: Agent, script: AttemptScript, first: Observation, steps: seq<Step>, n: nat)
    requires StepsOf(agent, script, first, steps) && n <= |steps|
    ensures StepsOf(agent, script, first, steps[..n])
  {
    if n == |steps| {
      assert steps[..n] == steps;
    } else {
      var front := steps[..|steps| - 1];
      PrefixIsRun(agent, script, first, front, n);
      assert front[..n] == steps[..n];
    }
  }

  /** A script has one run: steps and end are determined by what the outside answers. */
  lemma AttemptIsDetermined(agent: Agent, script: AttemptScript, steps: seq<Step>, end: AttemptEnd,
                            other: seq<Step>, otherEnd: AttemptEnd)
    ensures AttemptRun(agent, script, steps, end) && AttemptRun(agent, script, other, otherEnd) ==>
              steps == other && end == otherEnd
  {
    if script.start.Starts? && AttemptRun(agent, script, steps, end) && AttemptRun(agent, script, other, otherEnd) {
      if |steps| <= |other| {
        NoLonger(agent, script, script.start.first, steps, end, other);
      } else {
        NoLonger(agent, script, script.start.first, other, otherEnd, steps);
      }
    }
  }

  lemma NextFollows(agent: Agent, script: AttemptScript, first: Observation, steps: seq<Step>, n: nat)
    requires StepsOf(agent, script, first, steps) && n < |steps|
    ensures Follows(agent, script, first, steps[..n], steps[n])
  {
    PrefixIsRun(agent, script, first, steps, n + 1);
    var front := FrontIsRun(agent, script, first, steps[..n + 1]);
    assert front == steps[..n] && steps[..n + 1][n] == steps[n];
  }

  lemma NoLonger(agent: Agent, script: AttemptScript, first: Observation, steps: seq<Step>, end: AttemptEnd,
                 longer: seq<Step>)
    requires StepsOf(agent, script, first, steps) && EndsAs(agent, script, first, steps, end)
    requires StepsOf(agent, script, first, longer) && |steps| <= |longer|
    ensures steps == longer
  {
    var n := |steps|;
    PrefixIsRun(agent, script, first, longer, n);
    StepsAgree(agent, script, first, steps, longer[..n]);
    if n < |longer| {
      NextFollows(agent, script, first, longer, n);
      assert false;
    }
    assert longer[..n] == longer;
  }

  // ----- what a step makes of the reply it gets ----------------------------------------------

  /** The last reply that the n-th step gets. */
  function LastReply(agent: Agent, script: AttemptScript, n: nat): Reply {
    script.steps(n).answers(CallsMade(agent.native, script.steps(n).answers, 0) - 1).reply
  }

  lemma StepIsOfScript(agent: Agent, script: AttemptScript, first: Observation, steps: seq<Step>, n: nat)
    requires StepsOf(agent, script, first, steps) && n < |steps|
    ensures Completed(agent, script.steps(n), Seen(first, steps[..n]).screen) == Some(steps[n])
  {
    NextFollows(agent, script, first, steps, n);
  }

  /** What a completed step is, by its last reply: a reply that cannot be used counts as waiting on the
      same screen, and a question is settled by the intervention. */
  lemma StepIsOfReply(agent: Agent, script: AttemptScript, first: Observation, steps: seq<Step>, n: nat)
    requires StepsOf(agent, script, first, steps) && n < |steps|
    ensures var step, same := steps[n], Went(Some(Seen(first, steps[..n]).screen));
            match LastReply(agent, script, n)
            case CallFails => false
            case Unparsable => step.action == "wait" && step.turn == same
            case NoAction => step.action == "wait" && step.turn == same
            case ToolCall(expected, effect) =>
              && (expected || !agent.native)
              && match effect
                 case Invalid => step.action == "wait" && step.turn == same
                 case Acts(action, seen) => step.action == action && step.turn == Went(seen)
                 case UsesSkill(_, after) => step.action == "use_skill" && step.turn == Went(Some(after))
                 case Finishes(success) => step.action == "done" && step.turn == Done(success)
                 case Fails => false
                 case Asks =>
                   step.action == "request_intervention" &&
                   match script.steps(n).intervention
                   case NoHandler => step.turn == Interrupted("missing_intervention_handler")
                   case HandlerFails => false
                   case Refused(note) => step.turn == Interrupted(note)
                   case Resumed(next) => step.turn == Went(Some(next))
    ensures !script.steps(n).timesOut
  {
    StepIsOfScript(agent, script, first, steps, n);
  }

  /** An attempt succeeds exactly if its last reply reports success, fails at the task exactly if it
      reports failure, and is cancelled exactly if it asks and nobody answers, or the answer is no. */
  lemma EndIsOfLastReply(agent: Agent, script: AttemptScript, steps: seq<Step>, end: AttemptEnd, first: Observation)
    requires script.start == Starts(first) && AttemptRun(agent, script, steps, end) && end.Returned?
    ensures steps == [] ==> end.error == Some(MaxStepsExceeded) || end.error == Some(StepTimeout)
    ensures steps != [] ==>
      var reply, asked := LastReply(agent, script, |steps| - 1), script.steps(|steps| - 1).intervention;
      && (end.error == None <==> reply.ToolCall? && reply.effect == Finishes(true))
      && (end.error == Some(TaskFailed) <==> reply.ToolCall? && reply.effect == Finishes(false))
      && ((end.error.Some? && end.error.value.InterventionCancelled?) <==>
            reply.ToolCall? && reply.effect.Asks? && !asked.Resumed?)
      && (end.error.Some? && end.error.value.InterventionCancelled? ==>
            end.error.value.note == if asked.Refused? then asked.note else "missing_intervention_handler")
    ensures end.error == Some(StepTimeout) ==> script.steps(|steps|).timesOut && end.stepsTaken == |steps| + 1
    ensures end.error != Some(StepTimeout) ==> end.stepsTaken == |steps|
  {
    if steps != [] {
      StepIsOfReply(agent, script, first, steps, |steps| - 1);
    }
  }

  // ----- the streak, from the transitions alone -------------------------------------------------

  /** The steps after which something was observed: the action, and the screen. */
  function Transitions(steps: seq<Step>): seq<(string, Observation)> {
    if steps == [] then [] else
      var front, last := Transitions(steps[..|steps| - 1]), steps[|steps| - 1];
      match last.turn
      case Went(Some(screen)) => front + [(last.action, screen)]
      case _ => front
  }

  lemma {:induction false} SeenIsLastTransition(first: Observation, steps: seq<Step>)
    ensures var shown := Transitions(steps);
            Seen(first, steps) == if shown == [] then Watch(first, None)
                                  else Watch(shown[|shown| - 1].1, Some(shown[|shown| - 1].0))
  {
    if steps != [] {
      SeenIsLastTransition(first, steps[..|steps| - 1]);
    }
  }

  /** The i-th transition shows the screen that the one before showed, after the same kind of
      action; the first one, the screen that the attempt started with. */
  ghost predicate RepeatsAt(agent: Agent, first: Observation, shown: seq<(string, Observation)>, i: nat) {
    i < |shown| &&
    var before := if i == 0 then first else shown[i - 1].1;
    && before.Some? && shown[i].1.Some? && IsSameScreen(before.value, shown[i].1.value, agent.decode)
    && (i > 0 ==> shown[i - 1].0 == shown[i].0)
  }

  lemma RepeatsInFront(agent: Agent, first: Observation, shown: seq<(string, Observation)>, next: (string, Observation), i: nat)
    requires i < |shown|
    ensures RepeatsAt(agent, first, shown + [next], i) <==> RepeatsAt(agent, first, shown, i)
  {
    var more := shown + [next];
    assert more[i] == shown[i] && (i > 0 ==> more[i - 1] == shown[i - 1]);
  }

  lemma {:induction false} MarksAreRepeats(agent: Agent, first: Observation, steps: seq<Step>)
    ensures |Marks(agent, first, steps)| == |Transitions(steps)|
    ensures forall i: nat | i < |Transitions(steps)| ::
              Marks(agent, first, steps)[i] <==> RepeatsAt(agent, first, Transitions(steps), i)
  {
    if steps != [] {
      var front, last := steps[..|steps| - 1], steps[|steps| - 1];
      var shown := Transitions(front);
      MarksAreRepeats(agent, first, front);
      SeenIsLastTransition(first, front);
      if last.turn.Went? && last.turn.next.Some? {
        var next := (last.action, last.turn.next.value);
        forall i: nat | i < |shown|
          ensures RepeatsAt(agent, first, shown + [next], i) <==> RepeatsAt(agent, first, shown, i)
        {
          RepeatsInFront(agent, first, shown, next, i);
        }
      }
    }
  }

  /** The streak is at least k exactly if each of the last k transitions repeats the one before. */
  lemma StreakIff(agent: Agent, first: Observation, steps: seq<Step>, k: nat)
    requires k <= |Transitions(steps)|
    ensures Streak(agent, first, steps) <= |Transitions(steps)|
    ensures k <= Streak(agent, first, steps) <==>
              forall i: nat | |Transitions(steps)| - k <= i < |Transitions(steps)| ::
                RepeatsAt(agent, first, Transitions(steps), i)
  {
    MarksAreRepeats(agent, first, steps);
    StreakIsLongestSuffix(Marks(agent, first, steps), k);
  }

  // ----- an attempt that gets nowhere --------------------------------------------------------------

  lemma {:induction false} AllWait(agent: Agent, script: AttemptScript, first: Observation, steps: seq<Step>)
    requires StepsOf(agent, script, first, steps)
    requires forall n: nat, c: nat :: script.steps(n).answers(c).reply == Unparsable
    ensures |Transitions(steps)| == |steps|
    ensures forall i: nat | i < |steps| :: Transitions(steps)[i] == ("wait", first)
  {
    if steps != [] {
      var front := FrontIsRun(agent, script, first, steps);
      AllWait(agent, script, first, front);
      OneMoreWaits(agent, script, first, steps, front);
    }
  }

  lemma OneMoreWaits(agent: Agent, script: AttemptScript, first: Observation, steps: seq<Step>, front: seq<Step>)
    requires StepsOf(agent, script, first, steps) && steps != [] && front == steps[..|steps| - 1]
    requires LastReply(agent, script, |front|) == Unparsable
    requires |Transitions(front)| == |front| && forall i: nat | i < |front| :: Transitions(front)[i] == ("wait", first)
    ensures Transitions(steps) == Transitions(front) + [("wait", first)]
  {
    SameScreenSeen(first, front);
    StepWaits(agent, script, first, steps, |front|);
    WaitIsTransition(steps, front, steps[|front|], first);
  }

  lemma StepWaits(agent: Agent, script: AttemptScript, first: Observation, steps: seq<Step>, n: nat)
    requires StepsOf(agent, script, first, steps) && n < |steps| && LastReply(agent, script, n) == Unparsable
    ensures steps[n].action == "wait" && steps[n].turn == Went(Some(Seen(first, steps[..n]).screen))
  {
    StepIsOfReply(agent, script, first, steps, n);
  }

  lemma SameScreenSeen(first: Observation, steps: seq<Step>)
    requires forall i: nat | i < |Transitions(steps)| :: Transitions(steps)[i] == ("wait", first)
    ensures Seen(first, steps).screen == first
  {
    SeenIsLastTransition(first, steps);
  }

  lemma WaitIsTransition(steps: seq<Step>, front: seq<Step>, last: Step, first: Observation)
    requires steps == front + [last] && last.action == "wait" && last.turn == Went(Some(first))
    ensures Transitions(steps) == Transitions(front) + [("wait", first)]
  {
    assert steps[..|steps| - 1] == front;
  }

  lemma WaitingGoesOn(agent: Agent, script: AttemptScript, first: Observation, n: nat, current: Observation)
    requires script.steps(n).answers(CallsMade(agent.native, script.steps(n).answers, 0) - 1).reply == Unparsable
    requires !script.steps(n).timesOut
    ensures Completed(agent, script.steps(n), current).Some?
  {
  }

  /** Where the model's replies can never be used, the attempt stagnates after exactly as many steps
      as the limit allows, if it may take so many. */
  lemma UnusableRepliesStagnate(agent: Agent, script: AttemptScript, steps: seq<Step>, end: AttemptEnd, first: Fingerprint)
    requires script.start == Starts(Some(first)) && AttemptRun(agent, script, steps, end)
    requires forall n: nat, c: nat :: script.steps(n).answers(c).reply == Unparsable
    requires forall n: nat :: !script.steps(n).timesOut
    requires IsSameScreen(first, first, agent.decode) && 0 < agent.limit <= agent.maxSteps
    ensures |steps| == agent.limit && end.Returned? && end.error == Some(StagnationDetected)
  {
    AllWait(agent, script, Some(first), steps);
    WaitingRepeats(agent, Some(first), steps);
    StagnationIff(agent, script, steps, end, Some(first));
    if |steps| < agent.limit {
      WaitsDoNotStop(agent, script, Some(first), steps);
      DoesNotEndHere(agent, script, Some(first), steps, end);
    }
  }

  lemma WaitingRepeats(agent: Agent, first: Observation, steps: seq<Step>)
    requires first.Some? && IsSameScreen(first.value, first.value, agent.decode)
    requires |Transitions(steps)| == |steps| && forall i: nat | i < |steps| :: Transitions(steps)[i] == ("wait", first)
    ensures Streak(agent, first, steps) == |steps|
  {
    StreakIff(agent, first, steps, |steps|);
  }

  lemma DoesNotEndHere(agent: Agent, script: AttemptScript, first: Observation, steps: seq<Step>, end: AttemptEnd)
    requires EndsAs(agent, script, first, steps, end) && |steps| < agent.maxSteps
    requires forall n: nat, c: nat :: script.steps(n).answers(c).reply == Unparsable
    requires forall n: nat :: !script.steps(n).timesOut
    ensures Stop(agent, first, steps).Some?
  {
    WaitingGoesOn(agent, script, first, |steps|, Seen(first, steps).screen);
  }

  lemma WaitsDoNotStop(agent: Agent, script: AttemptScript, first: Observation, steps: seq<Step>)
    requires StepsOf(agent, script, first, steps) && Streak(agent, first, steps) < agent.limit
    requires forall n: nat, c: nat :: script.steps(n).answers(c).reply == Unparsable
    ensures Stop(agent, first, steps) == None
  {
    if steps != [] {
      StepIsOfReply(agent, script, first, steps, |steps| - 1);
    }
  }
}
