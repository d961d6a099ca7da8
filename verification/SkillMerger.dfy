/** Skills, and how similar they are by their steps. Scores are exact reals. */
module SkillMerger {
  import opened RealArithmetic
  import opened SetRatio

  /** A step by its texts: what is tokenised for its signature. */
  datatype Step = Step(actionType: string, target: string, parameters: string, validState: string, contract: string)

  datatype Skill = Skill(
    skillId: string, name: string, description: string, app: string, platform: string,
    steps: seq<Step>, parameters: set<string>, tags: set<string>, createdAt: int,
    successes: nat, failures: nat)

  datatype StepSignature = StepSignature(
    actionType: string, target: seq<string>, parameters: seq<string>, validState: seq<string>, contract: seq<string>)

  /** The tokens of a text, and its words without stopwords. */
  datatype TextRules = TextRules(tokens: string -> seq<string>, words: string -> set<string>, isBlank: string -> bool)

  function SignatureOf(step: Step, rules: TextRules): StepSignature {
    StepSignature(step.actionType, rules.tokens(step.target), rules.tokens(step.parameters),
                  rules.tokens(step.validState), rules.tokens(step.contract))
  }

  function Signature(skill: Skill, rules: TextRules): (r: seq<StepSignature>)
    ensures |r| == |skill.steps|
  {
    seq(|skill.steps|, i requires 0 <= i < |skill.steps| => SignatureOf(skill.steps[i], rules))
  }

  function Confidence(skill: Skill): real {
    (skill.successes + 1) as real / (skill.successes + skill.failures + 2) as real
  }

  lemma ConfidenceBounds(skill: Skill)
    ensures 0.0 < Confidence(skill) < 1.0
  {
    var total := (skill.successes + skill.failures + 2) as real;
    var x, y := DivIff((skill.successes + 1) as real, total, 1.0);
    x := Quotient((skill.successes + 1) as real, total);
    var z, t := Scale(total, 0.0, x);
  }

  // ----- step and action similarity -----------------------------------------------------

  function Elements(s: seq<string>): set<string> {
    set x | x in s
  }

  function TupleJaccard(left: seq<string>, right: seq<string>): real {
    if left == [] && right == [] then 1.0
    else if left == [] || right == [] then 0.0
    else
      assert left[0] in Elements(left);
      Ratio(Elements(left), Elements(right))
  }

  function WeightedJaccard(left: seq<string>, right: seq<string>, emptyScore: real): real {
    if left == [] && right == [] then emptyScore else TupleJaccard(left, right)
  }

  function StepSimilarity(left: StepSignature, right: StepSignature): real {
    if left.actionType != right.actionType then 0.0 else
      0.35
      + 0.30 * WeightedJaccard(left.target, right.target, 0.15)
      + 0.10 * WeightedJaccard(left.parameters, right.parameters, 0.50)
      + 0.15 * WeightedJaccard(left.validState, right.validState, 0.35)
      + 0.10 * WeightedJaccard(left.contract, right.contract, 0.50)
  }

  function Min(a: nat, b: nat): nat { if a <= b then a else b }
  function Max(a: nat, b: nat): nat { if a >= b then a else b }

  /** Sum of the similarities of the first n pairs. */
  function PairSum(left: seq<StepSignature>, right: seq<StepSignature>, n: nat): real
    requires n <= |left| && n <= |right|
  {
    if n == 0 then 0.0 else PairSum(left, right, n - 1) + StepSimilarity(left[n - 1], right[n - 1])
  }

  function ActionSimilarity(left: seq<StepSignature>, right: seq<StepSignature>): real {
    if left == [] && right == [] then 1.0
    else if left == [] || right == [] then 0.0
    else Overlap(left, right) * LengthPenalty(Min(|left|, |right|), Max(|left|, |right|))
  }

  /** The average similarity of the pairs. */
  function Overlap(left: seq<StepSignature>, right: seq<StepSignature>): real
    requires left != [] && right != []
  {
    var shorter := Min(|left|, |right|);
    PairSum(left, right, shorter) / shorter as real
  }

  function LengthPenalty(shorter: nat, longer: nat): real
    requires 0 < shorter <= longer
  {
    1.0 - 0.3 * ((longer - shorter) as real / longer as real)
  }

  predicate StrictRichPrefix(shorter: seq<StepSignature>, longer: seq<StepSignature>) {
    0 < |shorter| < |longer| &&
    forall i | 0 <= i < |shorter| :: StepSimilarity(shorter[i], longer[i]) >= 0.80
  }

  lemma JaccardBounds(left: seq<string>, right: seq<string>, emptyScore: real)
    requires 0.0 <= emptyScore <= 1.0
    ensures 0.0 <= WeightedJaccard(left, right, emptyScore) <= 1.0
    ensures WeightedJaccard(left, right, emptyScore) == WeightedJaccard(right, left, emptyScore)
  {
    if left != [] && right != [] {
      assert left[0] in Elements(left) && right[0] in Elements(right);
      RatioBounds(Elements(left), Elements(right));
    }
  }

  lemma StepSimilarityBounds(left: StepSignature, right: StepSignature)
    ensures 0.0 <= StepSimilarity(left, right) <= 1.0
    ensures StepSimilarity(left, right) == StepSimilarity(right, left)
  {
    JaccardBounds(left.target, right.target, 0.15);
    JaccardBounds(left.parameters, right.parameters, 0.50);
    JaccardBounds(left.validState, right.validState, 0.35);
    JaccardBounds(left.contract, right.contract, 0.50);
  }

  lemma {:induction false} PairSumBounds(left: seq<StepSignature>, right: seq<StepSignature>, n: nat)
    requires n <= |left| && n <= |right|
    ensures 0.0 <= PairSum(left, right, n) <= n as real
    ensures PairSum(left, right, n) == PairSum(right, left, n)
  {
    if n > 0 {
      PairSumBounds(left, right, n - 1);
      StepSimilarityBounds(left[n - 1], right[n - 1]);
    }
  }

  lemma {:induction false} RichPairSum(left: seq<StepSignature>, right: seq<StepSignature>, n: nat)
    requires n <= |left| && n <= |right|
    requires forall i | 0 <= i < n :: StepSimilarity(left[i], right[i]) >= 0.80
    ensures PairSum(left, right, n) >= 0.80 * n as real
  {
    if n > 0 {
      RichPairSum(left, right, n - 1);
    }
  }

  /** The factor that longer tails lower, never to 0.7. */
  lemma PenaltyBounds(shorter: nat, longer: nat)
    requires 0 < shorter <= longer
    ensures 0.7 < LengthPenalty(shorter, longer) <= 1.0
  {
    var tail := Quotient((longer - shorter) as real, longer as real);
    var x, y := Scale(longer as real, 0.0, tail);
    x, y := Scale(longer as real, tail, 1.0);
  }

  lemma OverlapBounds(left: seq<StepSignature>, right: seq<StepSignature>)
    requires left != [] && right != []
    ensures 0.0 <= Overlap(left, right) <= 1.0 && Overlap(left, right) == Overlap(right, left)
  {
    var n := Min(|left|, |right|);
    PairSumBounds(left, right, n);
    AverageBounds(n, PairSum(left, right, n));
  }

  lemma AverageBounds(n: nat, sum: real)
    requires n > 0
    ensures 0.0 <= sum <= n as real ==> 0.0 <= sum / n as real <= 1.0
    ensures sum >= 0.80 * n as real ==> sum / n as real >= 0.80
  {
    var quality := Quotient(sum, n as real);
    var x, y := Scale(n as real, 0.0, quality);
    x, y := Scale(n as real, quality, 1.0);
    x, y := Scale(n as real, 0.80, quality);
  }

  lemma PenalisedBounds(quality: real, penalty: real)
    requires 0.7 < penalty <= 1.0
    ensures 0.0 <= quality <= 1.0 ==> 0.0 <= quality * penalty <= 1.0
    ensures quality >= 0.80 ==> quality * penalty > 0.56
  {
    var x, y := Scale(penalty, 0.0, quality);
    x, y := Scale(penalty, quality, 1.0);
    x, y := Scale(penalty, 0.80, quality);
  }

  lemma ActionSimilarityBounds(left: seq<StepSignature>, right: seq<StepSignature>)
    ensures 0.0 <= ActionSimilarity(left, right) <= 1.0
    ensures ActionSimilarity(left, right) == ActionSimilarity(right, left)
  {
    if left != [] && right != [] {
      var penalty := LengthPenalty(Min(|left|, |right|), Max(|left|, |right|));
      OverlapBounds(left, right);
      PenaltyBounds(Min(|left|, |right|), Max(|left|, |right|));
      PenalisedBounds(Overlap(left, right), penalty);
    }
  }

  lemma RichOverlap(shorter: seq<StepSignature>, longer: seq<StepSignature>)
    requires StrictRichPrefix(shorter, longer)
    ensures Overlap(shorter, longer) >= 0.80
  {
    RichPairSum(shorter, longer, |shorter|);
    AverageBounds(|shorter|, PairSum(shorter, longer, |shorter|));
  }

  lemma SimilarityOfLonger(shorter: seq<StepSignature>, longer: seq<StepSignature>)
    requires 0 < |shorter| < |longer|
    ensures ActionSimilarity(shorter, longer) == Overlap(shorter, longer) * LengthPenalty(|shorter|, |longer|)
  {
  }

  /** A strict rich prefix is similar to what it starts: above 0.56, whatever the tail. */
  lemma PrefixForcesSimilarity(shorter: seq<StepSignature>, longer: seq<StepSignature>)
    requires StrictRichPrefix(shorter, longer)
    ensures ActionSimilarity(shorter, longer) > 0.56
  {
    RichOverlap(shorter, longer);
    PenaltyBounds(|shorter|, |longer|);
    PenalisedBounds(Overlap(shorter, longer), LengthPenalty(|shorter|, |longer|));
    SimilarityOfLonger(shorter, longer);
  }

  // ----- what the scores are, in numbers ----------------------------------------------------

  /** The share of what two sets have in common; `none` where both are empty. */
  ghost predicate IsShare(share: real, a: set<string>, b: set<string>, none: real) {
    if a == {} && b == {} then share == none else share * |a + b| as real == |a * b| as real
  }

  lemma OneSided(a: set<string>, b: set<string>)
    requires a == {} || b == {}
    ensures a * b == {}
  {
  }

  lemma ShareOf(left: seq<string>, right: seq<string>, none: real)
    ensures IsShare(WeightedJaccard(left, right, none), (set x | x in left), (set x | x in right), none)
  {
    var a, b := set x | x in left, set x | x in right;
    assert a == Elements(left) && b == Elements(right);
    assert left != [] ==> left[0] in a;
    assert right != [] ==> right[0] in b;
    if left == [] || right == [] {
      OneSided(a, b);
    } else {
      UnionIsLarger(a, b);
      var x := Quotient(|a * b| as real, |a + b| as real);
    }
  }

  /** Steps of one type share 35 points of 100 and up to 30, 10, 15 and 10 more, by the shares of
      the tokens of their targets, parameters, valid states and contracts. Steps of two types share
      none. */
  lemma StepSimilarityIs(a: Step, b: Step, rules: TextRules)
    returns (target: real, parameters: real, validState: real, contract: real)
    ensures IsShare(target, (set x | x in rules.tokens(a.target)), (set x | x in rules.tokens(b.target)), 0.15)
    ensures IsShare(parameters, (set x | x in rules.tokens(a.parameters)), (set x | x in rules.tokens(b.parameters)), 0.5)
    ensures IsShare(validState, (set x | x in rules.tokens(a.validState)), (set x | x in rules.tokens(b.validState)), 0.35)
    ensures IsShare(contract, (set x | x in rules.tokens(a.contract)), (set x | x in rules.tokens(b.contract)), 0.5)
    ensures 100.0 * StepSimilarity(SignatureOf(a, rules), SignatureOf(b, rules)) ==
            if a.actionType == b.actionType
            then 35.0 + 30.0 * target + 10.0 * parameters + 15.0 * validState + 10.0 * contract else 0.0
  {
    var left, right := SignatureOf(a, rules), SignatureOf(b, rules);
    target := WeightedJaccard(left.target, right.target, 0.15);
    parameters := WeightedJaccard(left.parameters, right.parameters, 0.50);
    validState := WeightedJaccard(left.validState, right.validState, 0.35);
    contract := WeightedJaccard(left.contract, right.contract, 0.50);
    ShareOf(left.target, right.target, 0.15);
    ShareOf(left.parameters, right.parameters, 0.50);
    ShareOf(left.validState, right.validState, 0.35);
    ShareOf(left.contract, right.contract, 0.50);
  }

  lemma ShareOfSame(left: seq<string>, none: real)
    ensures WeightedJaccard(left, left, none) == if left == [] then none else 1.0
  {
    if left != [] {
      assert left[0] in Elements(left);
      RatioOfSame(Elements(left));
    }
  }

  /** A step is not always fully similar to itself: each of its texts without tokens costs points. */
  lemma SelfSimilarity(s: StepSignature)
    ensures StepSimilarity(s, s) == 1.0
            - (if s.target == [] then 0.255 else 0.0) - (if s.parameters == [] then 0.05 else 0.0)
            - (if s.validState == [] then 0.0975 else 0.0) - (if s.contract == [] then 0.05 else 0.0)
  {
    ShareOfSame(s.target, 0.15);
    ShareOfSame(s.parameters, 0.50);
    ShareOfSame(s.validState, 0.35);
    ShareOfSame(s.contract, 0.50);
  }

  lemma {:induction false} FullPairSum(left: seq<StepSignature>, right: seq<StepSignature>, n: nat)
    requires n <= |left| && n <= |right|
    ensures PairSum(left, right, n) <= n as real
    ensures PairSum(left, right, n) == n as real <==> forall i | 0 <= i < n :: StepSimilarity(left[i], right[i]) == 1.0
    ensures PairSum(left, right, n) >= 0.0
    ensures PairSum(left, right, n) == 0.0 <==> forall i | 0 <= i < n :: StepSimilarity(left[i], right[i]) == 0.0
  {
    if n > 0 {
      FullPairSum(left, right, n - 1);
      StepSimilarityBounds(left[n - 1], right[n - 1]);
    }
  }

  lemma AverageExtremes(n: nat, sum: real)
    requires n > 0
    ensures sum / n as real == 1.0 <==> sum == n as real
    ensures sum / n as real == 0.0 <==> sum == 0.0
  {
    var quality := Quotient(sum, n as real);
  }

  lemma PenaltyExtremes(shorter: nat, longer: nat)
    requires 0 < shorter <= longer
    ensures LengthPenalty(shorter, longer) == 1.0 <==> shorter == longer
  {
    var tail := Quotient((longer - shorter) as real, longer as real);
    PenaltyBounds(shorter, longer);
  }

  lemma PenalisedExtremes(quality: real, penalty: real)
    requires 0.0 <= quality <= 1.0 && 0.7 < penalty <= 1.0
    ensures quality * penalty == 1.0 <==> quality == 1.0 && penalty == 1.0
    ensures quality * penalty == 0.0 <==> quality == 0.0
  {
    var x, y := Scale(penalty, quality, 1.0);
    x, y := Scale(penalty, 0.0, quality);
  }

  lemma SimilarityExtremes(left: seq<StepSignature>, right: seq<StepSignature>)
    requires left != [] && right != []
    ensures ActionSimilarity(left, right) == 1.0 <==> Overlap(left, right) == 1.0 && |left| == |right|
    ensures ActionSimilarity(left, right) == 0.0 <==> Overlap(left, right) == 0.0
  {
    OverlapBounds(left, right);
    PenaltyBounds(Min(|left|, |right|), Max(|left|, |right|));
    PenaltyExtremes(Min(|left|, |right|), Max(|left|, |right|));
    PenalisedExtremes(Overlap(left, right), LengthPenalty(Min(|left|, |right|), Max(|left|, |right|)));
  }

  /** Skills are fully similar exactly if they have equally many steps and these are so in pairs, and
      not at all exactly if one alone has no steps or all pairs are of two types. */
  lemma ActionSimilarityExtremes(left: seq<StepSignature>, right: seq<StepSignature>)
    ensures ActionSimilarity(left, right) == 1.0 <==>
              |left| == |right| && forall i: nat | i < |left| && i < |right| :: StepSimilarity(left[i], right[i]) == 1.0
    ensures ActionSimilarity(left, right) == 0.0 <==>
              (left == []) != (right == []) ||
              (left != [] && forall i: nat | i < |left| && i < |right| :: left[i].actionType != right[i].actionType)
  {
    if left != [] && right != [] {
      var n := Min(|left|, |right|);
      FullPairSum(left, right, n);
      AverageExtremes(n, PairSum(left, right, n));
      SimilarityExtremes(left, right);
      forall i: nat | i < |left| && i < |right|
        ensures StepSimilarity(left[i], right[i]) == 0.0 <==> left[i].actionType != right[i].actionType
      {
        TypesDecide(left[i], right[i]);
      }
    }
  }

  lemma TypesDecide(a: StepSignature, b: StepSignature)
    ensures StepSimilarity(a, b) == 0.0 <==> a.actionType != b.actionType
  {
    JaccardBounds(a.target, b.target, 0.15);
    JaccardBounds(a.parameters, b.parameters, 0.50);
    JaccardBounds(a.validState, b.validState, 0.35);
    JaccardBounds(a.contract, b.contract, 0.50);
  }

  /** The similarity of pairs that are all equally similar: that, less up to three tenths for the
      part of the longer side that has no partner. */
  lemma UniformSimilarity(left: seq<StepSignature>, right: seq<StepSignature>, x: real) returns (kept: real)
    requires 0 < |left| <= |right| && forall i: nat | i < |left| :: StepSimilarity(left[i], right[i]) == x
    ensures kept * (10 * |right|) as real == (7 * |right| + 3 * |left|) as real
    ensures ActionSimilarity(left, right) == x * kept
  {
    kept := LengthPenalty(|left|, |right|);
    PenaltyTimes(|left|, |right|);
    UniformOverlap(left, right, x);
    SimilarityOfShorter(left, right, x, kept);
  }

  lemma SimilarityOfShorter(left: seq<StepSignature>, right: seq<StepSignature>, overlap: real, penalty: real)
    requires 0 < |left| <= |right| && overlap == Overlap(left, right) && penalty == LengthPenalty(|left|, |right|)
    ensures ActionSimilarity(left, right) == overlap * penalty
  {
  }

  function Times(n: nat, x: real): real {
    if n == 0 then 0.0 else Times(n - 1, x) + x
  }

  lemma {:induction false} TimesIs(n: nat, x: real)
    ensures Times(n, x) == n as real * x
  {
    if n > 0 {
      TimesIs(n - 1, x);
    }
  }

  lemma UniformOverlap(left: seq<StepSignature>, right: seq<StepSignature>, x: real)
    requires 0 < |left| <= |right| && forall i: nat | i < |left| :: StepSimilarity(left[i], right[i]) == x
    ensures Overlap(left, right) == x
  {
    UniformPairSum(left, right, x, |left|);
    AverageOfTimes(|left|, x);
  }

  lemma AverageOfTimes(n: nat, x: real)
    requires n > 0
    ensures Times(n, x) / n as real == x
  {
    TimesIs(n, x);
    UniformAverage(Times(n, x), n as real, x);
  }

  lemma {:induction false} UniformPairSum(left: seq<StepSignature>, right: seq<StepSignature>, x: real, n: nat)
    requires n <= |left| <= |right| && forall i: nat | i < n :: StepSimilarity(left[i], right[i]) == x
    ensures PairSum(left, right, n) == Times(n, x)
  {
    if n > 0 {
      UniformPairSum(left, right, x, n - 1);
    }
  }

  lemma UniformAverage(sum: real, n: real, x: real)
    requires n > 0.0 && sum == n * x
    ensures sum / n == x
  {
    var q := Quotient(sum, n);
    var a, b := Scale(n, q, x);
  }

  lemma PenaltyTimes(shorter: nat, longer: nat)
    requires 0 < shorter <= longer
    ensures LengthPenalty(shorter, longer) * (10 * longer) as real == (7 * longer + 3 * shorter) as real
  {
    var tail := Quotient((longer - shorter) as real, longer as real);
    assert (10 * longer) as real == 10.0 * longer as real;
  }

  /** Confidences compare by the products of one side's successes and the other's failures, each
      counted one higher. */
  lemma ConfidenceCompares(a: Skill, b: Skill)
    ensures Confidence(a) > Confidence(b) <==> (a.successes + 1) * (b.failures + 1) > (b.successes + 1) * (a.failures + 1)
  {
    QuotientsCompare(a.successes + 1, a.failures + 1, b.successes + 1, b.failures + 1);
    assert a.successes + a.failures + 2 == (a.successes + 1) + (a.failures + 1);
    assert b.successes + b.failures + 2 == (b.successes + 1) + (b.failures + 1);
  }

  lemma QuotientsCompare(p: nat, q: nat, r: nat, s: nat)
    requires p > 0 && q > 0 && r > 0 && s > 0
    ensures p as real / (p + q) as real > r as real / (r + s) as real <==> p * s > r * q
  {
    FractionsCompare(p as real, (p + q) as real, r as real, (r + s) as real);
    CrossProducts(p, q, r, s);
  }

  lemma FractionsCompare(p: real, k: real, r: real, l: real)
    requires k > 0.0 && l > 0.0
    ensures p / k > r / l <==> p * l > r * k
  {
    var x := Quotient(p, k);
    var y := Quotient(r, l);
    var kl := Product(k, l);
    var klx, kly := Scale(kl, y, x);
    assert kly == p * l && klx == r * k;
  }

  lemma CrossProducts(p: nat, q: nat, r: nat, s: nat)
    ensures p as real * (r + s) as real > r as real * (p + q) as real <==> p * s > r * q
  {
    assert p as real * (r + s) as real == (p * (r + s)) as real && r as real * (p + q) as real == (r * (p + q)) as real;
    assert p * (r + s) == p * r + p * s && r * (p + q) == p * r + r * q;
  }
}
