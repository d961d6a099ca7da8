/** Finding the stored skill that an incoming one conflicts with, and merging two skills. */
module SkillConflicts {
  import opened RealArithmetic
  import opened SetRatio
  import opened SkillMerger
  import opened Wrappers

  datatype Conflict = Conflict(
    skill: Skill, score: real, embedding: Option<real>, sequence: real, semantic: real)

  // ----- meaning of names and descriptions ---------------------------------------------

  function NameSimilarity(a: string, b: string, rules: TextRules): real {
    var left, right := rules.words(a), rules.words(b);
    if left == {} && right == {} then 1.0
    else if left == {} || right == {} then 0.0
    else Ratio(left, right)
  }

  function SemanticSimilarity(left: Skill, right: Skill, rules: TextRules): real {
    var name := NameSimilarity(left.name, right.name, rules);
    var description := NameSimilarity(left.description, right.description, rules);
    if !rules.isBlank(left.description) && !rules.isBlank(right.description) then
      var mixed := 0.7 * description + 0.3 * name;
      if description >= mixed then description else mixed
    else name
  }

  lemma SemanticBounds(left: Skill, right: Skill, rules: TextRules)
    ensures 0.0 <= SemanticSimilarity(left, right, rules) <= 1.0
    ensures SemanticSimilarity(left, right, rules) == SemanticSimilarity(right, left, rules)
  {
    NameBounds(left.name, right.name, rules);
    NameBounds(left.description, right.description, rules);
  }

  lemma NameBounds(a: string, b: string, rules: TextRules)
    ensures 0.0 <= NameSimilarity(a, b, rules) <= 1.0
    ensures NameSimilarity(a, b, rules) == NameSimilarity(b, a, rules)
  {
    if rules.words(a) != {} && rules.words(b) != {} {
      RatioBounds(rules.words(a), rules.words(b));
    }
  }

  // ----- the search for a conflict ----------------------------------------------------------

  predicate SamePlace(a: Skill, b: Skill) {
    a.platform == b.platform && a.app == b.app
  }

  predicate PrefixPair(a: Skill, b: Skill, rules: TextRules) {
    StrictRichPrefix(Signature(a, rules), Signature(b, rules)) || StrictRichPrefix(Signature(b, rules), Signature(a, rules))
  }

  /** A skill that is scored against the incoming one. */
  predicate Eligible(existing: Skill, incoming: Skill, rules: TextRules) {
    SamePlace(existing, incoming) && !PrefixPair(existing, incoming, rules)
  }

  /** `cosine` gives the cosine of a stored skill's embedding with the incoming one's, where
      both exist. */
  function Scored(existing: Skill, incoming: Skill, cosine: string -> Option<real>, rules: TextRules): Conflict {
    var sequence := ActionSimilarity(Signature(existing, rules), Signature(incoming, rules));
    var semantic := SemanticSimilarity(existing, incoming, rules);
    var embedding := cosine(existing.skillId);
    var score := 0.20 * sequence + 0.05 * semantic + (if embedding.Some? then 0.75 * embedding.value else 0.0);
    Conflict(existing, score, embedding, sequence, semantic)
  }

  /** The thresholds, tested on the best-scored skill only. */
  predicate Accepted(c: Conflict) {
    match c.embedding
    case Some(e) => (e >= 0.72 && c.sequence >= 0.70) || (e >= 0.60 && c.sequence >= 0.78)
    case None => (c.sequence >= 0.82 && c.semantic >= 0.25) || c.sequence >= 0.92
  }

  ghost predicate IsSameId(skills: seq<Skill>, incoming: Skill, i: nat) {
    i < |skills| && SamePlace(skills[i], incoming) && skills[i].skillId == incoming.skillId
  }

  /** c is the scored conflict of an eligible skill whose score is positive and a maximum. */
  ghost predicate IsBest(c: Conflict, skills: seq<Skill>, incoming: Skill, cosine: string -> Option<real>, rules: TextRules) {
    && c.skill in skills && Eligible(c.skill, incoming, rules) && c == Scored(c.skill, incoming, cosine, rules)
    && c.score > 0.0
    && forall e | e in skills && Eligible(e, incoming, rules) :: Scored(e, incoming, cosine, rules).score <= c.score
  }

  ghost predicate NonePositive(skills: seq<Skill>, incoming: Skill, cosine: string -> Option<real>, rules: TextRules) {
    forall e | e in skills && Eligible(e, incoming, rules) :: Scored(e, incoming, cosine, rules).score <= 0.0
  }

  /** `best` is a best conflict of the skills, or none of them scores above zero. */
  ghost predicate IsBestOf(best: Option<Conflict>, skills: seq<Skill>, incoming: Skill, cosine: string -> Option<real>,
                           rules: TextRules) {
    match best
    case Some(c) => IsBest(c, skills, incoming, cosine, rules)
    case None => NonePositive(skills, incoming, cosine, rules)
  }

  function Better(best: Option<Conflict>, c: Conflict): Option<Conflict> {
    if c.score > (if best.Some? then best.value.score else 0.0) then Some(c) else best
  }

  lemma BestAppend(best: Option<Conflict>, skills: seq<Skill>, e: Skill, incoming: Skill, cosine: string -> Option<real>,
                   rules: TextRules)
    requires IsBestOf(best, skills, incoming, cosine, rules)
    ensures !Eligible(e, incoming, rules) ==> IsBestOf(best, skills + [e], incoming, cosine, rules)
    ensures Eligible(e, incoming, rules) ==>
      IsBestOf(Better(best, Scored(e, incoming, cosine, rules)), skills + [e], incoming, cosine, rules)
  {
  }

  ghost predicate HasSameId(skills: seq<Skill>, incoming: Skill, n: nat) {
    exists i | 0 <= i < n :: IsSameId(skills, incoming, i)
  }

  ghost predicate BestIsRejected(skills: seq<Skill>, incoming: Skill, cosine: string -> Option<real>, rules: TextRules) {
    exists c :: IsBest(c, skills, incoming, cosine, rules) && !Accepted(c)
  }

  /** A skill of the same place with the incoming id is reported at once. Otherwise the report is
      a best eligible skill that passes the thresholds; nothing is reported only when no eligible
      skill scores above zero or a best one fails them. */
  ghost predicate Reports(r: Option<Conflict>, skills: seq<Skill>, incoming: Skill, cosine: string -> Option<real>,
                          rules: TextRules) {
    if HasSameId(skills, incoming, |skills|) then
      r.Some? && r.value.skill.skillId == incoming.skillId && r.value.skill in skills
      && SamePlace(r.value.skill, incoming) && r.value == Conflict(r.value.skill, 1.0, Some(1.0), 1.0, 1.0)
    else if r.Some? then IsBest(r.value, skills, incoming, cosine, rules) && Accepted(r.value)
    else NonePositive(skills, incoming, cosine, rules) || BestIsRejected(skills, incoming, cosine, rules)
  }

  method FindBestConflict(incoming: Skill, skills: seq<Skill>, cosine: string -> Option<real>, rules: TextRules)
    returns (r: Option<Conflict>)
    ensures Reports(r, skills, incoming, cosine, rules)
  {
    var best: Option<Conflict> := None;
    var bestScore := 0.0;
    for n := 0 to |skills|
      invariant !HasSameId(skills, incoming, n)
      invariant bestScore == if best.Some? then best.value.score else 0.0
      invariant IsBestOf(best, skills[..n], incoming, cosine, rules)
    {
      var existing := skills[n];
      BestAppend(best, skills[..n], existing, incoming, cosine, rules);
      assert skills[..n + 1] == skills[..n] + [existing];
      if SamePlace(existing, incoming) {
        if existing.skillId == incoming.skillId {
          assert IsSameId(skills, incoming, n);
          return Some(Conflict(existing, 1.0, Some(1.0), 1.0, 1.0));
        }
        if !PrefixPair(existing, incoming, rules) {
          var c := Scored(existing, incoming, cosine, rules);
          if c.score > bestScore {
            best, bestScore := Some(c), c.score;
          }
        }
      }
    }
    assert skills[..|skills|] == skills;
    if best.Some? && Accepted(best.value) {
      return best;
    }
    r := None;
  }

  // ----- what the report means ---------------------------------------------------------------

  /** Of one stored skill with another id: reported exactly if it is of the same platform and app,
      neither skill starts the other, and both similarities are high enough, where the thresholds
      depend on whether embeddings could be compared. */
  lemma LoneSkillIsReportedIff(r: Option<Conflict>, e: Skill, incoming: Skill, cosine: string -> Option<real>,
                               rules: TextRules)
    requires Reports(r, [e], incoming, cosine, rules) && e.skillId != incoming.skillId
    ensures var sequence := ActionSimilarity(Signature(e, rules), Signature(incoming, rules));
            var semantic := SemanticSimilarity(e, incoming, rules);
            && (r.Some? <==>
                  && e.platform == incoming.platform && e.app == incoming.app
                  && !StrictRichPrefix(Signature(e, rules), Signature(incoming, rules))
                  && !StrictRichPrefix(Signature(incoming, rules), Signature(e, rules))
                  && match cosine(e.skillId)
                     case None => (sequence >= 0.82 && semantic >= 0.25) || sequence >= 0.92
                     case Some(c) => (c >= 0.72 && sequence >= 0.70) || (c >= 0.60 && sequence >= 0.78))
            && (r.Some? ==>
                  100.0 * r.value.score == 20.0 * sequence + 5.0 * semantic + 75.0 * cosine(e.skillId).GetOr(0.0))
  {
    SemanticBounds(e, incoming, rules);
    assert !HasSameId([e], incoming, 1);
    assert [e][0] in [e];
  }

  /** What is reported without an equal id is similar in its steps: to 0.7 at the least, and to
      0.82 where embeddings say nothing. */
  lemma ReportedIsSimilar(r: Option<Conflict>, skills: seq<Skill>, incoming: Skill, cosine: string -> Option<real>,
                          rules: TextRules)
    requires Reports(r, skills, incoming, cosine, rules) && r.Some? && r.value.skill.skillId != incoming.skillId
    ensures r.value.sequence == ActionSimilarity(Signature(r.value.skill, rules), Signature(incoming, rules)) >= 0.70
    ensures cosine(r.value.skill.skillId) == None ==> r.value.sequence >= 0.82
    ensures r.value.skill in skills
    ensures forall e | e in skills && e.platform == incoming.platform && e.app == incoming.app &&
                       !PrefixPair(e, incoming, rules) ::
              Scored(e, incoming, cosine, rules).score <= r.value.score
  {
  }

  lemma BlankStep(s: StepSignature)
    requires s.target == [] && s.validState == []
    ensures StepSimilarity(s, s) <= 0.6475
  {
    SelfSimilarity(s);
  }

  lemma {:induction false} BlankPairSum(s: seq<StepSignature>, n: nat)
    requires n <= |s| && forall i: nat | i < |s| :: s[i].target == [] && s[i].validState == []
    ensures PairSum(s, s, n) <= 0.6475 * n as real
  {
    if n > 0 {
      BlankPairSum(s, n - 1);
      BlankStep(s[n - 1]);
    }
  }

  lemma AverageAtMost(sum: real, n: nat, high: real)
    requires n > 0 && sum <= high * n as real
    ensures sum / n as real <= high
  {
    var x := Quotient(sum, n as real);
    var a, b := Scale(n as real, x, high);
  }

  lemma BlankSimilarity(s: seq<StepSignature>)
    requires s != [] && forall i: nat | i < |s| :: s[i].target == [] && s[i].validState == []
    ensures ActionSimilarity(s, s) <= 0.6475
  {
    BlankPairSum(s, |s|);
    AverageAtMost(PairSum(s, s, |s|), |s|, 0.6475);
    PenaltyExtremes(|s|, |s|);
    SimilarityOfShorter(s, s, Overlap(s, s), 1.0);
  }

  /** A copy of the only stored skill is missed, whatever names and embeddings say, if its steps have
      no tokens in target and valid state. */
  lemma BlankCopyIsMissed(r: Option<Conflict>, e: Skill, incoming: Skill, cosine: string -> Option<real>, rules: TextRules)
    requires Reports(r, [e], incoming, cosine, rules) && e.skillId != incoming.skillId
    requires incoming.steps == e.steps != []
    requires forall s | s in e.steps :: rules.tokens(s.target) == [] && rules.tokens(s.validState) == []
    ensures r == None
  {
    LoneSkillIsReportedIff(r, e, incoming, cosine, rules);
    var signature := Signature(e, rules);
    assert Signature(incoming, rules) == signature;
    forall i: nat | i < |signature| ensures signature[i].target == [] && signature[i].validState == [] {
      assert e.steps[i] in e.steps;
    }
    BlankSimilarity(signature);
  }

  lemma WordShare(a: string, b: string, rules: TextRules)
    ensures IsShare(NameSimilarity(a, b, rules), rules.words(a), rules.words(b), 1.0)
  {
    var left, right := rules.words(a), rules.words(b);
    if left == {} || right == {} {
      OneSided(left, right);
    } else {
      UnionIsLarger(left, right);
      var x := Quotient(|left * right| as real, |left + right| as real);
    }
  }

  /** Meaning is the share of the descriptions' words, more by three tenths of what the names' share
      exceeds it; and that of the names alone if a description is blank. */
  lemma SemanticIs(a: Skill, b: Skill, rules: TextRules) returns (name: real, description: real)
    ensures IsShare(name, rules.words(a.name), rules.words(b.name), 1.0)
    ensures IsShare(description, rules.words(a.description), rules.words(b.description), 1.0)
    ensures SemanticSimilarity(a, b, rules) ==
            if rules.isBlank(a.description) || rules.isBlank(b.description) then name
            else if name > description then description + 0.3 * (name - description)
            else description
  {
    name, description := NameSimilarity(a.name, b.name, rules), NameSimilarity(a.description, b.description, rules);
    WordShare(a.name, b.name, rules);
    WordShare(a.description, b.description, rules);
  }

  // ----- merging ------------------------------------------------------------------------------

  function OrElse(first: string, second: string): string {
    if first != "" then first else second
  }

  function MergedSteps(old_: Skill, new_: Skill, rules: TextRules): seq<Step> {
    if old_.successes > 0 && new_.successes == 0 then old_.steps
    else if new_.successes > 0 && old_.successes == 0 then new_.steps
    else if StrictRichPrefix(Signature(old_, rules), Signature(new_, rules)) then new_.steps
    else if StrictRichPrefix(Signature(new_, rules), Signature(old_, rules)) then old_.steps
    else if Confidence(new_) > Confidence(old_) then (if new_.steps != [] then new_.steps else old_.steps)
    else if old_.steps != [] then old_.steps
    else new_.steps
  }

  function Merge(old_: Skill, new_: Skill, rules: TextRules): Skill {
    var preferOld := old_.successes > 0 && new_.successes == 0;
    Skill(
      old_.skillId,
      if preferOld && old_.name != "" then old_.name else OrElse(new_.name, old_.name),
      if preferOld && old_.description != "" then old_.description else OrElse(new_.description, old_.description),
      OrElse(new_.app, old_.app),
      OrElse(new_.platform, old_.platform),
      MergedSteps(old_, new_, rules),
      old_.parameters + new_.parameters,
      old_.tags + new_.tags,
      old_.createdAt,
      old_.successes + new_.successes,
      old_.failures + new_.failures)
  }

  predicate Proven(skill: Skill) { skill.successes > 0 }

  /** Merging conserves every success and failure, keeps the old identity, and takes its steps
      from one side: the only side with a success if there is one, else the longer one of a prefix
      pair. */
  lemma MergeConserves(old_: Skill, new_: Skill, rules: TextRules)
    ensures var m := Merge(old_, new_, rules);
            && m.successes == old_.successes + new_.successes && m.failures == old_.failures + new_.failures
            && m.skillId == old_.skillId && m.createdAt == old_.createdAt
            && (forall x :: x in m.parameters <==> x in old_.parameters || x in new_.parameters)
            && (forall x :: x in m.tags <==> x in old_.tags || x in new_.tags)
            && (m.steps == old_.steps || m.steps == new_.steps)
            && (Proven(old_) && !Proven(new_) ==> m.steps == old_.steps)
            && (Proven(new_) && !Proven(old_) ==> m.steps == new_.steps)
            && (Proven(old_) == Proven(new_) && PrefixPair(old_, new_, rules) ==>
                  |m.steps| == Max(|old_.steps|, |new_.steps|))
            && (Proven(old_) == Proven(new_) && (old_.steps != [] || new_.steps != []) ==> m.steps != [])
  {
  }

  /** With both sides proven or neither, and no prefix pair, the steps are those of the new side
      exactly if it has some and is more trusted, or if the old side has none. */
  lemma MergeTrusts(old_: Skill, new_: Skill, rules: TextRules)
    requires Proven(old_) == Proven(new_) && !PrefixPair(old_, new_, rules) && old_.steps != new_.steps
    ensures Merge(old_, new_, rules).steps == new_.steps <==>
              old_.steps == [] ||
              (new_.steps != [] && (new_.successes + 1) * (old_.failures + 1) > (old_.successes + 1) * (new_.failures + 1))
  {
    ConfidenceCompares(new_, old_);
  }

  /** The text that is kept: the new one if there is one, unless the old is preferred and there is
      an old one. */
  ghost predicate IsKept(kept: string, old_: string, new_: string, preferOld: bool) {
    && (kept == old_ || kept == new_)
    && (kept == "" ==> old_ == "" && new_ == "")
    && (new_ != "" && old_ != "" ==> kept == if preferOld then old_ else new_)
  }

  /** Name and description are kept from the old side only where it alone is proven; app and
      platform are the new side's wherever it has them. */
  lemma MergedTexts(old_: Skill, new_: Skill, rules: TextRules)
    ensures var m, oldAlone := Merge(old_, new_, rules), old_.successes > 0 && new_.successes == 0;
            && IsKept(m.name, old_.name, new_.name, oldAlone)
            && IsKept(m.description, old_.description, new_.description, oldAlone)
            && IsKept(m.app, old_.app, new_.app, false)
            && IsKept(m.platform, old_.platform, new_.platform, false)
  {
  }
}
