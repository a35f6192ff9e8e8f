/** The evaluator's rubric form (client/src/components/EvaluatorDashboard.jsx):
    its initial all-zero state, the update a slider or the comment box makes,
    the running total, the rule that enables the submit button, the reset
    after a successful submit, and the slider list with its maxima. The form
    is an object whose keys are the ten criteria, in schema order, followed
    by `comments`; an update replaces the value under an existing key and so
    keeps that order. */
module EvaluatorDashboard {
  import opened Base
  import opened EvaluationSchema
  import Evaluations

  /** The form state. */
  datatype Form = Form(scores: Scores, comments: string)

  /** Every criterion at 0, no comments. */
  const Initial: Form := Form(Defaults, "")

  /** A field of the form. */
  datatype FormField = ScoreField(criterion: Criterion) | CommentsField

  /** The key of a field in the form object. */
  function FieldKey(f: FormField): string
  {
    match f
    case ScoreField(c) => Key(c)
    case CommentsField => "comments"
  }

  /** No criterion is keyed `comments`. */
  lemma CommentsKeyIsNotCriterion(c: Criterion)
    ensures Key(c) != "comments"
  {
  }

  /** The rubric with one criterion replaced. */
  function SetScore(s: Scores, c: Criterion, v: real): (r: Scores)
    ensures Score(r, c) == v
    ensures forall d :: d != c ==> Score(r, d) == Score(s, d)
  {
    match c
    case RelevanceToLOs => s.(relevanceToLOs := v)
    case InnovationCreativity => s.(innovationCreativity := v)
    case ClarityAccessibility => s.(clarityAccessibility := v)
    case Depth => s.(depth := v)
    case InteractivityEngagement => s.(interactivityEngagement := v)
    case UseOfTechnology => s.(useOfTechnology := v)
    case ScalabilityAdaptability => s.(scalabilityAdaptability := v)
    case EthicalStandards => s.(ethicalStandards := v)
    case PracticalApplication => s.(practicalApplication := v)
    case VideoQuality => s.(videoQuality := v)
  }

  /** `parseFloat(value) || 0`: `parsed` is what `parseFloat` makes of the
      text, `None` when that is `NaN`; both `NaN` and 0 become 0. */
  function ParsedOrZero(parsed: Option<real>): real
  {
    if parsed.Some? then parsed.value else 0.0
  }

  /** `handleEvaluationChange(field, value)`: the comments take the text as
      typed, a criterion takes the parsed number. */
  function Change(form: Form, field: FormField, text: string, parsed: Option<real>): (r: Form)
    ensures field == CommentsField ==> r.scores == form.scores && r.comments == text
    ensures field.ScoreField? ==>
      && r.comments == form.comments
      && Score(r.scores, field.criterion) == ParsedOrZero(parsed)
      && forall d :: d != field.criterion ==> Score(r.scores, d) == Score(form.scores, d)
  {
    match field
    case CommentsField => form.(comments := text)
    case ScoreField(c) => form.(scores := SetScore(form.scores, c, ParsedOrZero(parsed)))
  }

  /** A value of the form object. */
  datatype Value = Num(n: real) | Text(s: string)

  /** `Object.keys(evaluationForm)` paired with the values, in key order. */
  function FormObject(form: Form): (r: seq<(string, Value)>)
    ensures |r| == |Criteria| + 1
  {
    seq(|Criteria|, k requires 0 <= k < |Criteria| => (Key(Criteria[k]), Num(Score(form.scores, Criteria[k]))))
    + [("comments", Text(form.comments))]
  }

  predicate NotComments(e: (string, Value))
  {
    e.0 != "comments"
  }

  /** `{ ...prev, [field]: v }`: the keys and their order are kept, and only
      the value under the named key can change. */
  lemma ChangeOnlyNamedKey(form: Form, field: FormField, text: string, parsed: Option<real>)
    ensures var before, after := FormObject(form), FormObject(Change(form, field, text, parsed));
      forall k :: 0 <= k < |before| ==>
        after[k].0 == before[k].0 && (before[k].0 != FieldKey(field) ==> after[k] == before[k])
  {
    var before, after := FormObject(form), FormObject(Change(form, field, text, parsed));
    forall k | 0 <= k < |before|
      ensures after[k].0 == before[k].0 && (before[k].0 != FieldKey(field) ==> after[k] == before[k])
    {
      if k < |Criteria| && field.ScoreField? && before[k].0 != FieldKey(field) {
        assert Criteria[k] != field.criterion;
      }
    }
  }

  /** The numbers `reduce` adds up. */
  function Numbers(entries: seq<(string, Value)>): (r: seq<real>)
    ensures |r| == |entries|
  {
    seq(|entries|, k requires 0 <= k < |entries| => if entries[k].1.Num? then entries[k].1.n else 0.0)
  }

  /** Leaving out `comments` leaves exactly the ten criteria, all numbers,
      and their values are the rubric's scores in schema order. */
  lemma CalculateTotalIsTotal(form: Form)
    ensures Filter(NotComments, FormObject(form)) == FormObject(form)[..|Criteria|]
    ensures forall k :: 0 <= k < |Criteria| ==> FormObject(form)[k].1.Num?
    ensures Numbers(Filter(NotComments, FormObject(form))) == ScoreList(form.scores, Criteria)
  {
    var obj := FormObject(form);
    var scores := obj[..|Criteria|];
    assert obj == scores + [obj[|Criteria|]];
    forall k | 0 <= k < |scores| ensures NotComments(scores[k]) {
      CommentsKeyIsNotCriterion(Criteria[k]);
    }
    FilterAll(NotComments, scores);
    FilterAppend(NotComments, scores, [obj[|Criteria|]]);
    assert Filter(NotComments, [obj[|Criteria|]]) == [];
    assert Numbers(scores) == ScoreList(form.scores, Criteria);
  }

  /** `calculateTotal`: the sum over every key except `comments`. It is the
      rubric's total, the sum the server computes and stores. */
  function CalculateTotal(form: Form): (r: real)
    ensures r == Total(form.scores)
  {
    CalculateTotalIsTotal(form);
    Sum(Numbers(Filter(NotComments, FormObject(form))))
  }

  /** The criteria object the submit sends (all ten keys, in schema order),
      and the comments. */
  function Payload(form: Form): (seq<Evaluations.Entry>, string)
  {
    (Evaluations.Entries(form.scores), form.comments)
  }

  /** The server stores the rubric the form holds, and its total is the one
      the form shows. */
  lemma PayloadStoresForm(form: Form)
    ensures Evaluations.StoredScores(Payload(form).0) == form.scores
    ensures Sum(Evaluations.Values(Payload(form).0)) == CalculateTotal(form)
  {
    Evaluations.EntriesRoundTrip(form.scores);
    CalculateTotalIsTotal(form);
  }

  /** `disabled={calculateTotal() === 0}`. */
  predicate SubmitEnabled(form: Form): (b: bool)
    ensures b <==> Total(form.scores) != 0.0
  {
    CalculateTotal(form) != 0.0
  }

  lemma {:induction false} SumNonNegativeZero(xs: seq<real>)
    requires forall k :: 0 <= k < |xs| ==> xs[k] >= 0.0
    ensures Sum(xs) >= 0.0
    ensures Sum(xs) == 0.0 <==> forall k :: 0 <= k < |xs| ==> xs[k] == 0.0
  {
    if xs != [] {
      SumNonNegativeZero(xs[1..]);
      if Sum(xs) == 0.0 {
        forall k | 0 <= k < |xs| ensures xs[k] == 0.0 {
          if k > 0 {
            assert xs[k] == xs[1..][k - 1];
          }
        }
      }
    }
  }

  /** With no negative score (as the sliders guarantee), submitting is
      enabled exactly when some criterion has been scored above 0. */
  lemma SubmitEnabledIffScored(form: Form)
    requires forall c :: Score(form.scores, c) >= 0.0
    ensures SubmitEnabled(form) <==> exists c :: Score(form.scores, c) > 0.0
  {
    CalculateTotalIsTotal(form);
    CriteriaEnumerateKeys();
    var xs := ScoreList(form.scores, Criteria);
    SumNonNegativeZero(xs);
    if SubmitEnabled(form) {
      var k :| 0 <= k < |xs| && xs[k] != 0.0;
      assert Score(form.scores, Criteria[k]) > 0.0;
    }
    if exists c :: Score(form.scores, c) > 0.0 {
      var c :| Score(form.scores, c) > 0.0;
      assert c in Criteria;
      var k :| 0 <= k < |Criteria| && Criteria[k] == c;
      assert xs[k] > 0.0;
    }
  }

  /** The form after a submit: reset when the server accepted it, kept as it
      was when the request failed. */
  function AfterSubmit(form: Form, accepted: bool): (r: Form)
    ensures accepted ==> InBounds(r.scores) && Total(r.scores) == 0.0 && r.comments == ""
    ensures !accepted ==> r == form
  {
    DefaultsValid();
    if accepted then Initial else form
  }

  /** An accepted submit leaves a form within the rubric's bounds, totalling
      0, with the submit button disabled and no comments. */
  lemma AfterSubmitResets(form: Form)
    ensures var r := AfterSubmit(form, true);
      InBounds(r.scores) && CalculateTotal(r) == 0.0 && !SubmitEnabled(r) && r.comments == ""
  {
    DefaultsValid();
    CalculateTotalIsTotal(Initial);
  }

  /** One slider of `criteriaList`: the key it updates and its maximum. */
  datatype Slider = Slider(key: string, max: real)

  const CriteriaList: seq<Slider> := [
    Slider("relevanceToLOs", 5.0), Slider("innovationCreativity", 15.0),
    Slider("clarityAccessibility", 10.0), Slider("depth", 5.0),
    Slider("interactivityEngagement", 25.0), Slider("useOfTechnology", 5.0),
    Slider("scalabilityAdaptability", 10.0), Slider("ethicalStandards", 5.0),
    Slider("practicalApplication", 10.0), Slider("videoQuality", 10.0)]

  function SliderMaxima(sliders: seq<Slider>): (r: seq<real>)
    ensures |r| == |sliders|
    ensures forall k :: 0 <= k < |sliders| ==> r[k] == sliders[k].max
  {
    seq(|sliders|, k requires 0 <= k < |sliders| => sliders[k].max)
  }

  /** The sliders are the schema's criteria, in schema order, each with the
      schema's maximum; so their maxima add up to 100. */
  lemma SlidersMatchSchema()
    ensures |CriteriaList| == |Criteria|
    ensures forall k :: 0 <= k < |Criteria| ==> CriteriaList[k] == Slider(Key(Criteria[k]), Max(Criteria[k]))
    ensures Sum(SliderMaxima(CriteriaList)) == MaxTotal
  {
    assert SliderMaxima(CriteriaList) == MaxList(Criteria);
    MaximaSumTo100();
  }

  /** The `n`-th stop of a slider: `min="0"`, `step="0.5"`. */
  function SliderValue(n: nat): real
  {
    n as real * 0.5
  }

  /** Moving a slider to one of its stops (or typing something unparsable)
      keeps a rubric within bounds, so every form the sliders produce passes
      the server's validators and totals at most 100. */
  lemma ChangeKeepsBounds(form: Form, c: Criterion, text: string, parsed: Option<real>)
    requires InBounds(form.scores)
    requires parsed.Some? ==> exists n: nat :: parsed.value == SliderValue(n) && SliderValue(n) <= Max(c)
    ensures InBounds(Change(form, ScoreField(c), text, parsed).scores)
    ensures 0.0 <= CalculateTotal(Change(form, ScoreField(c), text, parsed)) <= MaxTotal
  {
    var r := Change(form, ScoreField(c), text, parsed);
    InBoundsTotalWithin(r.scores);
    CalculateTotalIsTotal(r);
  }

  lemma {:induction false} SumUpdate(xs: seq<real>, k: nat, v: real)
    requires k < |xs|
    ensures Sum(xs[k := v]) == Sum(xs) - xs[k] + v
  {
    if k > 0 {
      assert xs[k := v][1..] == xs[1..][k - 1 := v];
      SumUpdate(xs[1..], k - 1, v);
    }
  }

  /** Changing one criterion moves the total by exactly the change in that
      criterion. */
  lemma ChangeMovesTotal(form: Form, c: Criterion, text: string, parsed: Option<real>)
    ensures CalculateTotal(Change(form, ScoreField(c), text, parsed))
      == CalculateTotal(form) - Score(form.scores, c) + ParsedOrZero(parsed)
  {
    var r := Change(form, ScoreField(c), text, parsed);
    CriteriaEnumerateKeys();
    assert c in Criteria;
    var k :| 0 <= k < |Criteria| && Criteria[k] == c;
    var xs := ScoreList(form.scores, Criteria);
    forall j | 0 <= j < |Criteria| && j != k ensures Criteria[j] != c {
      if j < k { assert Key(Criteria[j]) != Key(Criteria[k]); }
      else { assert Key(Criteria[k]) != Key(Criteria[j]); }
    }
    assert ScoreList(r.scores, Criteria) == xs[k := ParsedOrZero(parsed)];
    SumUpdate(xs, k, ParsedOrZero(parsed));
    CalculateTotalIsTotal(form);
    CalculateTotalIsTotal(r);
  }
}
