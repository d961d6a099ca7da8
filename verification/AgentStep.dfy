/** One step of the agent: model calls until one can be settled, and what the step does then.
    Everything the agent asks of the outside is an answer in a script. */
module AgentStep {
  import opened Wrappers
  import opened TokenUsage
  import opened ScreenSimilarity

  const MAX_TOOL_RETRIES := 3
  const CALLS_PER_STEP := MAX_TOOL_RETRIES + 1

  /** A screenshot, known by its fingerprint; None if none could be computed. */
  type Observation = Option<Fingerprint>

  /** What comes of a tool call that is carried out. */
  datatype Effect =
    | Invalid                                        // its arguments are refused
    | Acts(action: string, seen: Option<Observation>) // None: nothing could be observed
    | UsesSkill(spent: Usage, after: Observation)
    | Finishes(success: bool)
    | Asks
    | Fails                                          // an exception leaves the step

  datatype Reply =
    | CallFails
    | Unparsable
    | NoAction
    | ToolCall(expected: bool, effect: Effect)

  datatype Answer = Answer(usage: Usage, reply: Reply)

  /** How a step leaves the task. */
  datatype Turn =
    | Went(next: Option<Observation>)
    | Done(success: bool)
    | Asked
    | Interrupted(note: string)

  datatype Step = Step(action: string, turn: Turn, usage: Usage)

  // ----- one step: model calls ---------------------------------------------------------

  /** A reply the step asks again after, while it may. */
  predicate Retried(native: bool, reply: Reply) {
    reply.Unparsable? || (native && reply.ToolCall? && !reply.expected)
  }

  /** The calls a step makes in all, when it has made `tried` that were retried. */
  function CallsMade(native: bool, answers: nat -> Answer, tried: nat): nat
    requires tried < CALLS_PER_STEP
    decreases CALLS_PER_STEP - tried
  {
    if tried + 1 == CALLS_PER_STEP || !Retried(native, answers(tried).reply) then tried + 1
    else CallsMade(native, answers, tried + 1)
  }

  const Skipped := "wait"

  /** What a step does on the last reply it gets; None if it raises. */
  function Settle(native: bool, reply: Reply, current: Observation): Option<(string, Turn)> {
    match reply
    case CallFails => None
    case Unparsable => Some((Skipped, Went(Some(current))))
    case NoAction => Some((Skipped, Went(Some(current))))
    case ToolCall(expected, effect) =>
      if native && !expected then None else
        match effect
        case Invalid => Some((Skipped, Went(Some(current))))
        case Acts(action, seen) => Some((action, Went(seen)))
        case UsesSkill(_, after) => Some(("use_skill", Went(Some(after))))
        case Finishes(success) => Some(("done", Done(success)))
        case Asks => Some(("request_intervention", Asked))
        case Fails => None
  }

  function SkillUsage(reply: Reply): Usage {
    if reply.ToolCall? && reply.effect.UsesSkill? then reply.effect.spent else map[]
  }

  function UsageOfCalls(answers: nat -> Answer, n: nat): Usage {
    if n == 0 then map[] else Plus(UsageOfCalls(answers, n - 1), answers(n - 1).usage)
  }

  function StepOf(native: bool, answers: nat -> Answer, current: Observation): Option<Step> {
    var calls := CallsMade(native, answers, 0);
    var reply := answers(calls - 1).reply;
    match Settle(native, reply, current)
    case None => None
    case Some((action, turn)) => Some(Step(action, turn, Plus(UsageOfCalls(answers, calls), SkillUsage(reply))))
  }

  /** What follows the last call. None is an exception. */
  method FinishStep(native: bool, reply: Reply, current: Observation, usage: Usage) returns (step: Option<Step>)
    ensures step == match Settle(native, reply, current)
                    case None => None
                    case Some((action, turn)) => Some(Step(action, turn, Plus(usage, SkillUsage(reply))))
  {
    PlusNothing(usage);
    match reply
    case CallFails => step := None;
    case Unparsable => step := Some(Step(Skipped, Went(Some(current)), usage));
    case NoAction => step := Some(Step(Skipped, Went(Some(current)), usage));
    case ToolCall(expected, effect) =>
      if native && !expected {
        return None;
      }
      match effect {
        case Invalid => step := Some(Step(Skipped, Went(Some(current)), usage));
        case Acts(action, seen) => step := Some(Step(action, Went(seen), usage));
        case UsesSkill(spent, after) =>
          var merged := AddUsage(usage, spent);
          step := Some(Step("use_skill", Went(Some(after)), merged));
        case Finishes(success) => step := Some(Step("done", Done(success), usage));
        case Asks => step := Some(Step("request_intervention", Asked, usage));
        case Fails => step := None;
      }
  }

  /** The retry loop of a step. None is an exception. */
  method RunStep(native: bool, answers: nat -> Answer, current: Observation)
    returns (step: Option<Step>, calls: nat)
    ensures calls == CallsMade(native, answers, 0)
    ensures step == StepOf(native, answers, current)
  {
    var retriesLeft := CALLS_PER_STEP;
    var usage: Usage := map[];
    calls := 0;
    while retriesLeft > 0
      invariant retriesLeft > 0 && retriesLeft == CALLS_PER_STEP - calls
      invariant usage == UsageOfCalls(answers, calls)
      invariant CallsMade(native, answers, calls) == CallsMade(native, answers, 0)
    {
      retriesLeft := retriesLeft - 1;
      var answer := answers(calls);
      calls := calls + 1;
      usage := AddUsage(usage, answer.usage);
      if retriesLeft > 0 && Retried(native, answer.reply) {
        continue;
      }
      step := FinishStep(native, answer.reply, current, usage);
      return;
    }
    assert false; // the raise after the loop
  }

  // ----- what the step's contract means ---------------------------------------------------

  /** A step makes one to four calls; all but the last were retried, and a last one before the
      fourth was not. */
  lemma CallsAreBounded(native: bool, answers: nat -> Answer)
    ensures var calls := CallsMade(native, answers, 0);
            && 1 <= calls <= 4
            && (forall c: nat | c < calls - 1 ::
                  answers(c).reply.Unparsable? || (native && answers(c).reply.ToolCall? && !answers(c).reply.expected))
            && (calls < 4 ==>
                  var last := answers(calls - 1).reply;
                  !last.Unparsable? && (native && last.ToolCall? ==> last.expected))
  {
    CallsFrom(native, answers, 0);
  }

  lemma {:induction false} CallsFrom(native: bool, answers: nat -> Answer, tried: nat)
    requires tried < CALLS_PER_STEP
    ensures var calls := CallsMade(native, answers, tried);
            && tried < calls <= CALLS_PER_STEP
            && (forall c: nat | tried <= c < calls - 1 :: Retried(native, answers(c).reply))
            && (calls < CALLS_PER_STEP ==> !Retried(native, answers(calls - 1).reply))
    decreases CALLS_PER_STEP - tried
  {
    if tried + 1 < CALLS_PER_STEP && Retried(native, answers(tried).reply) {
      CallsFrom(native, answers, tried + 1);
    }
  }

  /** A step raises, instead of returning, exactly on a failed call, a failed action, or a fourth
      unexpected tool. */
  lemma StepRaisesIff(native: bool, answers: nat -> Answer, current: Observation)
    ensures var calls := CallsMade(native, answers, 0);
            var reply := answers(calls - 1).reply;
            StepOf(native, answers, current) == None <==>
              || reply.CallFails?
              || (reply.ToolCall? && reply.effect.Fails? && (reply.expected || !native))
              || (reply.ToolCall? && !reply.expected && native && calls == CALLS_PER_STEP)
  {
    CallsAreBounded(native, answers);
  }

  function SpentOnCalls(answers: nat -> Answer, n: nat, key: string): int {
    if n == 0 then 0 else SpentOnCalls(answers, n - 1, key) + Used(answers(n - 1).usage, key)
  }

  lemma {:induction false} CallsAddUp(answers: nat -> Answer, n: nat, key: string)
    ensures Used(UsageOfCalls(answers, n), key) == SpentOnCalls(answers, n, key)
  {
    if n > 0 {
      CallsAddUp(answers, n - 1, key);
    }
  }

  /** A step's usage is that of all its calls, retried ones too, and of the skill it ran. */
  lemma StepAddsUp(native: bool, answers: nat -> Answer, current: Observation, key: string)
    requires StepOf(native, answers, current).Some?
    ensures var calls := CallsMade(native, answers, 0);
            var last := answers(calls - 1).reply;
            Used(StepOf(native, answers, current).value.usage, key)
            == SpentOnCalls(answers, calls, key)
               + if last.ToolCall? && last.effect.UsesSkill? then Used(last.effect.spent, key) else 0
  {
    CallsAddUp(answers, CallsMade(native, answers, 0), key);
  }
}
