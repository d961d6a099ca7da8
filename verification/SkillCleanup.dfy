/** The removal of skills that a longer, more trusted skill of the same app supersedes. */
module SkillCleanup {
  import opened SkillMerger

  /** How alike in intent two skills are judged: by embeddings where both exist, by names else. */
  type SameIntent = (Skill, Skill) -> bool

  predicate InGroup(skill: Skill, platform: string, app: string) {
    skill.platform == platform && skill.app == app
  }

  /** `longer` is reason enough to remove `shorter`. */
  predicate Supersedes(longer: Skill, shorter: Skill, sameIntent: SameIntent, rules: TextRules) {
    && longer.skillId != shorter.skillId
    && StrictRichPrefix(Signature(shorter, rules), Signature(longer, rules))
    && Confidence(longer) > Confidence(shorter)
    && sameIntent(shorter, longer)
  }

  ghost predicate Superseded(skill: Skill, skills: seq<Skill>, platform: string, app: string,
                             sameIntent: SameIntent, rules: TextRules) {
    && InGroup(skill, platform, app)
    && skill.successes == 0
    && exists other :: other in skills && InGroup(other, platform, app) && Supersedes(other, skill, sameIntent, rules)
  }

  function GroupOf(skills: seq<Skill>, platform: string, app: string): (r: seq<Skill>)
    ensures forall s :: s in r <==> s in skills && InGroup(s, platform, app)
  {
    if skills == [] then []
    else if InGroup(skills[0], platform, app) then [skills[0]] + GroupOf(skills[1..], platform, app)
    else GroupOf(skills[1..], platform, app)
  }

  function WithoutIds(skills: seq<Skill>, removed: set<string>): (r: seq<Skill>)
    ensures forall s :: s in r <==> s in skills && s.skillId !in removed
    ensures removed == {} ==> r == skills
  {
    if skills == [] then []
    else if skills[0].skillId in removed then WithoutIds(skills[1..], removed)
    else [skills[0]] + WithoutIds(skills[1..], removed)
  }

  ghost function SupersededIds(skills: seq<Skill>, platform: string, app: string,
                               sameIntent: SameIntent, rules: TextRules): set<string> {
    set s | s in skills && Superseded(s, skills, platform, app, sameIntent, rules) :: s.skillId
  }

  ghost function Cleaned(skills: seq<Skill>, platform: string, app: string,
                         sameIntent: SameIntent, rules: TextRules): seq<Skill> {
    WithoutIds(skills, SupersededIds(skills, platform, app, sameIntent, rules))
  }

  /** The ids removed on account of the first n candidates. */
  ghost function RemovedUpTo(candidates: seq<Skill>, n: nat, skills: seq<Skill>, platform: string, app: string,
                             sameIntent: SameIntent, rules: TextRules): (r: set<string>)
    requires n <= |candidates|
    ensures forall id :: id in r <==>
      exists j :: 0 <= j < n && Superseded(candidates[j], skills, platform, app, sameIntent, rules) && candidates[j].skillId == id
  {
    if n == 0 then {} else
      var before := RemovedUpTo(candidates, n - 1, skills, platform, app, sameIntent, rules);
      var last := candidates[n - 1];
      if Superseded(last, skills, platform, app, sameIntent, rules) then before + {last.skillId} else before
  }

  lemma RemovedIsSuperseded(skills: seq<Skill>, platform: string, app: string, sameIntent: SameIntent, rules: TextRules)
    ensures var candidates := GroupOf(skills, platform, app);
            WithoutIds(skills, RemovedUpTo(candidates, |candidates|, skills, platform, app, sameIntent, rules))
            == Cleaned(skills, platform, app, sameIntent, rules)
  {
    var candidates := GroupOf(skills, platform, app);
    forall s | s in skills && Superseded(s, skills, platform, app, sameIntent, rules)
      ensures s.skillId in RemovedUpTo(candidates, |candidates|, skills, platform, app, sameIntent, rules)
    {
      assert s in candidates;
      var j :| 0 <= j < |candidates| && candidates[j] == s;
    }
    forall j | 0 <= j < |candidates| ensures candidates[j] in skills {
      assert candidates[j] in candidates;
    }
    assert RemovedUpTo(candidates, |candidates|, skills, platform, app, sameIntent, rules)
           == SupersededIds(skills, platform, app, sameIntent, rules);
  }

  /** The inner loop: the candidates are tried in turn until one supersedes the skill. */
  method HasSuperior(candidates: seq<Skill>, skill: Skill, sameIntent: SameIntent, rules: TextRules) returns (found: bool)
    ensures found <==> exists k :: 0 <= k < |candidates| && Supersedes(candidates[k], skill, sameIntent, rules)
  {
    for k := 0 to |candidates|
      invariant forall j | 0 <= j < k :: !Supersedes(candidates[j], skill, sameIntent, rules)
    {
      if Supersedes(candidates[k], skill, sameIntent, rules) {
        return true;
      }
    }
    found := false;
  }

  method CleanupSupersededPrefixes(skills: seq<Skill>, platform: string, app: string,
                                   sameIntent: SameIntent, rules: TextRules) returns (r: seq<Skill>)
    ensures r == Cleaned(skills, platform, app, sameIntent, rules)
  {
    var candidates := GroupOf(skills, platform, app);
    var removed: set<string> := {};
    for i := 0 to |candidates|
      invariant removed == RemovedUpTo(candidates, i, skills, platform, app, sameIntent, rules)
    {
      var skill := candidates[i];
      var found := false;
      if skill.successes == 0 {
        found := HasSuperior(candidates, skill, sameIntent, rules);
        if found {
          removed := removed + {skill.skillId};
        }
      }
      CandidateSuperseded(candidates, i, found, skills, platform, app, sameIntent, rules);
      OneMoreCandidate(candidates, i, skills, platform, app, sameIntent, rules);
    }
    RemovedIsSuperseded(skills, platform, app, sameIntent, rules);
    r := if removed == {} then skills else WithoutIds(skills, removed);
  }

  lemma OneMoreCandidate(candidates: seq<Skill>, i: nat, skills: seq<Skill>, platform: string, app: string,
                         sameIntent: SameIntent, rules: TextRules)
    requires i < |candidates|
    ensures var before := RemovedUpTo(candidates, i, skills, platform, app, sameIntent, rules);
            RemovedUpTo(candidates, i + 1, skills, platform, app, sameIntent, rules) ==
            if Superseded(candidates[i], skills, platform, app, sameIntent, rules) then before + {candidates[i].skillId}
            else before
  {
  }

  /** What the inner loop has found out about a candidate. */
  lemma CandidateSuperseded(candidates: seq<Skill>, i: nat, found: bool, skills: seq<Skill>, platform: string, app: string,
                            sameIntent: SameIntent, rules: TextRules)
    requires candidates == GroupOf(skills, platform, app) && i < |candidates|
    requires found ==> candidates[i].successes == 0
                       && exists k :: 0 <= k < |candidates| && Supersedes(candidates[k], candidates[i], sameIntent, rules)
    requires !found && candidates[i].successes == 0 ==>
               forall k | 0 <= k < |candidates| :: !Supersedes(candidates[k], candidates[i], sameIntent, rules)
    ensures found <==> Superseded(candidates[i], skills, platform, app, sameIntent, rules)
  {
    assert candidates[i] in candidates;
    if found {
      var k :| 0 <= k < |candidates| && Supersedes(candidates[k], candidates[i], sameIntent, rules);
      assert candidates[k] in candidates;
    }
    if Superseded(candidates[i], skills, platform, app, sameIntent, rules) {
      var other :| other in skills && InGroup(other, platform, app) && Supersedes(other, candidates[i], sameIntent, rules);
      assert other in candidates;
    }
  }

  // ----- what cleanup guarantees -----------------------------------------------------------

  ghost predicate UniqueIds(skills: seq<Skill>) {
    forall s, t | s in skills && t in skills && s.skillId == t.skillId :: s == t
  }

  /** With unique ids, exactly the superseded skills go: none of another group, none with a
      success. */
  lemma RemovedIff(skills: seq<Skill>, platform: string, app: string, sameIntent: SameIntent, rules: TextRules, s: Skill)
    requires UniqueIds(skills) && s in skills
    ensures s !in Cleaned(skills, platform, app, sameIntent, rules) <==>
              Superseded(s, skills, platform, app, sameIntent, rules)
    ensures s !in Cleaned(skills, platform, app, sameIntent, rules) ==>
              InGroup(s, platform, app) && s.successes == 0
  {
    if s !in Cleaned(skills, platform, app, sameIntent, rules) {
      var t :| t in skills && Superseded(t, skills, platform, app, sameIntent, rules) && t.skillId == s.skillId;
    }
  }

  /** Written out: a skill goes exactly if it has no success and the group has another one that goes
      on where it ends, with richly similar steps so far, of the same intent, and of more confidence,
      which can be told by whole numbers. */
  lemma RemovedExactly(skills: seq<Skill>, platform: string, app: string, sameIntent: SameIntent, rules: TextRules, s: Skill)
    requires UniqueIds(skills) && s in skills
    ensures s !in Cleaned(skills, platform, app, sameIntent, rules) <==>
              && s.platform == platform && s.app == app && s.successes == 0
              && exists other :: other in skills && GoesOn(s, other, sameIntent, rules)
  {
    RemovedIff(skills, platform, app, sameIntent, rules, s);
    forall other: Skill | s.successes == 0 && s.skillId != other.skillId && InGroup(s, platform, app)
      ensures GoesOn(s, other, sameIntent, rules) <==>
                InGroup(other, platform, app) && Supersedes(other, s, sameIntent, rules)
    {
      ConfidenceCompares(other, s);
      RichPrefixIs(s, other, rules);
    }
    if other :| other in skills && GoesOn(s, other, sameIntent, rules) {
      assert other != s;
      assert s.skillId != other.skillId;
    }
  }

  /** A longer skill of the same platform and app whose steps begin with richly similar ones. */
  ghost predicate GoesOn(s: Skill, other: Skill, sameIntent: SameIntent, rules: TextRules) {
    && other.platform == s.platform && other.app == s.app
    && 0 < |s.steps| < |other.steps|
    && (forall i: nat | i < |s.steps| && i < |other.steps| ::
          StepSimilarity(SignatureOf(s.steps[i], rules), SignatureOf(other.steps[i], rules)) >= 0.80)
    && (other.successes + 1) * (s.failures + 1) > other.failures + 1
    && sameIntent(s, other)
  }

  lemma RichPrefixIs(s: Skill, other: Skill, rules: TextRules)
    ensures StrictRichPrefix(Signature(s, rules), Signature(other, rules)) <==>
              && 0 < |s.steps| < |other.steps|
              && forall i: nat | i < |s.steps| && i < |other.steps| ::
                   StepSimilarity(SignatureOf(s.steps[i], rules), SignatureOf(other.steps[i], rules)) >= 0.80
  {
    var a, b := Signature(s, rules), Signature(other, rules);
    forall i: nat | i < |s.steps| && i < |other.steps|
      ensures a[i] == SignatureOf(s.steps[i], rules) && b[i] == SignatureOf(other.steps[i], rules)
    {
    }
  }

  /** Skills of one id do not remove each other. */
  lemma SameIdIsKept(skills: seq<Skill>, platform: string, app: string, sameIntent: SameIntent, rules: TextRules, id: string)
    requires forall s | s in skills :: s.skillId == id
    ensures Cleaned(skills, platform, app, sameIntent, rules) == skills
  {
    assert SupersededIds(skills, platform, app, sameIntent, rules) == {};
  }

  function LongestSteps(skills: seq<Skill>): (n: nat)
    ensures forall s | s in skills :: |s.steps| <= n
  {
    if skills == [] then 0 else Max(|skills[0].steps|, LongestSteps(skills[1..]))
  }

  /** Every removed skill has a surviving skill of its group that is strictly longer and strictly
      more trusted: what supersedes it may go too, but then something longer supersedes that. */
  lemma {:induction false} SurvivorFor(skills: seq<Skill>, platform: string, app: string,
                                       sameIntent: SameIntent, rules: TextRules, s: Skill) returns (survivor: Skill)
    requires UniqueIds(skills) && s in skills && Superseded(s, skills, platform, app, sameIntent, rules)
    ensures survivor in Cleaned(skills, platform, app, sameIntent, rules) && InGroup(survivor, platform, app)
    ensures |survivor.steps| > |s.steps| && Confidence(survivor) > Confidence(s)
    decreases LongestSteps(skills) - |s.steps|
  {
    var other :| other in skills && InGroup(other, platform, app) && Supersedes(other, s, sameIntent, rules);
    RemovedIff(skills, platform, app, sameIntent, rules, other);
    if Superseded(other, skills, platform, app, sameIntent, rules) {
      survivor := SurvivorFor(skills, platform, app, sameIntent, rules, other);
    } else {
      survivor := other;
    }
  }

  /** A group that has skills keeps one. */
  lemma GroupIsNeverEmptied(skills: seq<Skill>, platform: string, app: string, sameIntent: SameIntent, rules: TextRules)
    requires UniqueIds(skills) && GroupOf(skills, platform, app) != []
    ensures GroupOf(Cleaned(skills, platform, app, sameIntent, rules), platform, app) != []
  {
    var s := GroupOf(skills, platform, app)[0];
    assert s in skills && InGroup(s, platform, app);
    RemovedIff(skills, platform, app, sameIntent, rules, s);
    var survivor := s;
    if Superseded(s, skills, platform, app, sameIntent, rules) {
      survivor := SurvivorFor(skills, platform, app, sameIntent, rules, s);
    }
    assert survivor in GroupOf(Cleaned(skills, platform, app, sameIntent, rules), platform, app);
  }

  /** Cleaning twice is cleaning once. */
  lemma CleanupIsIdempotent(skills: seq<Skill>, platform: string, app: string, sameIntent: SameIntent, rules: TextRules)
    requires UniqueIds(skills)
    ensures var once := Cleaned(skills, platform, app, sameIntent, rules);
            Cleaned(once, platform, app, sameIntent, rules) == once
  {
    var once := Cleaned(skills, platform, app, sameIntent, rules);
    forall s | s in once ensures !Superseded(s, once, platform, app, sameIntent, rules) {
      RemovedIff(skills, platform, app, sameIntent, rules, s);
    }
    assert SupersededIds(once, platform, app, sameIntent, rules) == {};
  }
}
