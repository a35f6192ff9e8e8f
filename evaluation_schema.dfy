/** The Evaluation document: the ten-criterion rubric with its per-criterion
    bounds and defaults, the total score and its bound, and the required
    references (models/Evaluation.js). Scores are exact reals; the half-point
    steps of the evaluator form are values of this type. */
module EvaluationSchema {
  import opened Base
  import Text

  datatype Criterion =
    | RelevanceToLOs | InnovationCreativity | ClarityAccessibility | Depth
    | InteractivityEngagement | UseOfTechnology | ScalabilityAdaptability
    | EthicalStandards | PracticalApplication | VideoQuality

  /** The criteria in the order the schema declares them. */
  const Criteria: seq<Criterion> := [
    RelevanceToLOs, InnovationCreativity, ClarityAccessibility, Depth,
    InteractivityEngagement, UseOfTechnology, ScalabilityAdaptability,
    EthicalStandards, PracticalApplication, VideoQuality]

  /** The key of a criterion inside the `criteria` object. */
  function Key(c: Criterion): string
  {
    match c
    case RelevanceToLOs => "relevanceToLOs"
    case InnovationCreativity => "innovationCreativity"
    case ClarityAccessibility => "clarityAccessibility"
    case Depth => "depth"
    case InteractivityEngagement => "interactivityEngagement"
    case UseOfTechnology => "useOfTechnology"
    case ScalabilityAdaptability => "scalabilityAdaptability"
    case EthicalStandards => "ethicalStandards"
    case PracticalApplication => "practicalApplication"
    case VideoQuality => "videoQuality"
  }

  /** The `max` validator of each criterion (every `min` is 0). */
  function Max(c: Criterion): real
  {
    match c
    case RelevanceToLOs => 5.0
    case InnovationCreativity => 15.0
    case ClarityAccessibility => 10.0
    case Depth => 5.0
    case InteractivityEngagement => 25.0
    case UseOfTechnology => 5.0
    case ScalabilityAdaptability => 10.0
    case EthicalStandards => 5.0
    case PracticalApplication => 10.0
    case VideoQuality => 10.0
  }

  /** Every criterion appears in `Criteria` exactly once, under a key no other criterion uses. */
  lemma CriteriaEnumerateKeys()
    ensures |Criteria| == 10
    ensures forall c :: c in Criteria
    ensures forall i, j :: 0 <= i < j < |Criteria| ==> Key(Criteria[i]) != Key(Criteria[j])
  {
    forall c ensures c in Criteria {
      match c
      case RelevanceToLOs => assert Criteria[0] == c;
      case InnovationCreativity => assert Criteria[1] == c;
      case ClarityAccessibility => assert Criteria[2] == c;
      case Depth => assert Criteria[3] == c;
      case InteractivityEngagement => assert Criteria[4] == c;
      case UseOfTechnology => assert Criteria[5] == c;
      case ScalabilityAdaptability => assert Criteria[6] == c;
      case EthicalStandards => assert Criteria[7] == c;
      case PracticalApplication => assert Criteria[8] == c;
      case VideoQuality => assert Criteria[9] == c;
    }
  }

  /** The stored `criteria` sub-document. */
  datatype Scores = Scores(
    relevanceToLOs: real, innovationCreativity: real, clarityAccessibility: real,
    depth: real, interactivityEngagement: real, useOfTechnology: real,
    scalabilityAdaptability: real, ethicalStandards: real,
    practicalApplication: real, videoQuality: real)

  function Score(s: Scores, c: Criterion): real
  {
    match c
    case RelevanceToLOs => s.relevanceToLOs
    case InnovationCreativity => s.innovationCreativity
    case ClarityAccessibility => s.clarityAccessibility
    case Depth => s.depth
    case InteractivityEngagement => s.interactivityEngagement
    case UseOfTechnology => s.useOfTechnology
    case ScalabilityAdaptability => s.scalabilityAdaptability
    case EthicalStandards => s.ethicalStandards
    case PracticalApplication => s.practicalApplication
    case VideoQuality => s.videoQuality
  }

  /** The scores as a list, in schema order. */
  function ScoreList(s: Scores, cs: seq<Criterion>): (r: seq<real>)
    ensures |r| == |cs|
    ensures forall k :: 0 <= k < |cs| ==> r[k] == Score(s, cs[k])
  {
    seq(|cs|, k requires 0 <= k < |cs| => Score(s, cs[k]))
  }

  function MaxList(cs: seq<Criterion>): (r: seq<real>)
    ensures |r| == |cs|
    ensures forall k :: 0 <= k < |cs| ==> r[k] == Max(cs[k])
  {
    seq(|cs|, k requires 0 <= k < |cs| => Max(cs[k]))
  }

  /** The sum of the ten criteria. */
  function Total(s: Scores): real
  {
    Sum(ScoreList(s, Criteria))
  }

  /** The per-criterion `min: 0` / `max` validators. */
  predicate InBounds(s: Scores)
  {
    forall c :: 0.0 <= Score(s, c) <= Max(c)
  }

  /** Every criterion defaults to 0. */
  const Defaults: Scores := Scores(0.0, 0.0, 0.0, 0.0, 0.0, 0.0, 0.0, 0.0, 0.0, 0.0)

  /** The `totalScore` validators. */
  const MaxTotal: real := 100.0

  /** The criterion maxima sum to exactly the `totalScore` maximum. */
  lemma MaximaSumTo100()
    ensures Sum(MaxList(Criteria)) == MaxTotal
  {
    var m := MaxList(Criteria);
    assert m == [5.0, 15.0, 10.0, 5.0, 25.0, 5.0, 10.0, 5.0, 10.0, 10.0];
    assert Sum(m[10..]) == 0.0;
    assert Sum(m[9..]) == 10.0;
    assert Sum(m[8..]) == 20.0;
    assert Sum(m[7..]) == 25.0;
    assert Sum(m[6..]) == 35.0;
    assert Sum(m[5..]) == 40.0;
    assert Sum(m[4..]) == 65.0;
    assert Sum(m[3..]) == 70.0;
    assert Sum(m[2..]) == 80.0;
    assert Sum(m[1..]) == 95.0;
    assert m == m[0..];
  }

  lemma {:induction false} SumDominated(a: seq<real>, b: seq<real>)
    requires |a| == |b|
    requires forall k :: 0 <= k < |a| ==> 0.0 <= a[k] <= b[k]
    ensures 0.0 <= Sum(a) <= Sum(b)
  {
    if a != [] {
      SumDominated(a[1..], b[1..]);
    }
  }

  /** Scores within their per-criterion bounds always total within the
      `totalScore` bounds `[0, 100]`, so a valid rubric never trips the
      total's own validator. */
  lemma InBoundsTotalWithin(s: Scores)
    requires InBounds(s)
    ensures 0.0 <= Total(s) <= MaxTotal
  {
    SumDominated(ScoreList(s, Criteria), MaxList(Criteria));
    MaximaSumTo100();
  }

  lemma {:induction false} SumZeros(xs: seq<real>)
    requires forall k :: 0 <= k < |xs| ==> xs[k] == 0.0
    ensures Sum(xs) == 0.0
  {
    if xs != [] {
      SumZeros(xs[1..]);
    }
  }

  /** The all-default rubric is within bounds and totals 0. */
  lemma DefaultsValid()
    ensures InBounds(Defaults) && Total(Defaults) == 0.0
  {
    SumZeros(ScoreList(Defaults, Criteria));
  }

  /** A stored Evaluation document. `submission` and `evaluator` are optional
      here because a request can leave them out; the schema requires them. */
  datatype Evaluation = Evaluation(
    id: Id,
    submission: Option<Id>,
    evaluator: Option<Id>,
    criteria: Scores,
    totalScore: real,
    comments: Option<string>,
    evaluatedAt: int)

  /** What `save()` checks before it writes an Evaluation. */
  predicate ValidEvaluation(e: Evaluation)
  {
    && e.submission.Some?
    && e.evaluator.Some?
    && InBounds(e.criteria)
    && 0.0 <= e.totalScore <= MaxTotal
  }

  /** In a valid evaluation the per-criterion bounds alone keep the rubric's
      sum in `[0, 100]`, the range the stored total must lie in. */
  lemma ValidEvaluationTotal(e: Evaluation)
    requires ValidEvaluation(e)
    ensures 0.0 <= Total(e.criteria) <= MaxTotal
  {
    InBoundsTotalWithin(e.criteria);
  }

  /** A new Evaluation document as the schema stores it: `comments` trimmed,
      `evaluatedAt` defaulting to the current time. */
  function NewEvaluation(id: Id, submission: Option<Id>, evaluator: Option<Id>, criteria: Scores,
                         totalScore: real, comments: Option<string>, now: int): (e: Evaluation)
    ensures e.comments.Some? <==> comments.Some?
    ensures e.comments.Some? ==> e.comments.value == Text.Trim(comments.value)
    ensures ValidEvaluation(e) <==> submission.Some? && evaluator.Some? && InBounds(criteria) && 0.0 <= totalScore <= 100.0
  {
    Evaluation(id, submission, evaluator, criteria, totalScore, Text.TrimOption(comments), now)
  }
}
