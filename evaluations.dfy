/** The evaluation routes (routes/evaluations.js): recording an evaluation,
    with its total computed from the request's `criteria` object and the
    submission flipped to `evaluated` once three evaluations exist, and the
    list of a submission's evaluations. */
module Evaluations {
  import opened Base
  import opened UserSchema
  import opened SubmissionSchema
  import opened EvaluationSchema
  import opened Store
  import Text

  /** The number of evaluations after which a submission counts as evaluated. */
  const Quorum: nat := 3

  /** A key of the request's `criteria` object: one of the ten criteria, or
      any other name (which the schema does not store). */
  datatype Field = Known(criterion: Criterion) | Other(name: string)

  /** The field a key names. */
  function ParseKey(key: string): (f: Field)
    ensures f.Known? ==> Key(f.criterion) == key
    ensures f.Other? ==> f.name == key && forall c :: Key(c) != key
  {
    if key == "relevanceToLOs" then Known(RelevanceToLOs)
    else if key == "innovationCreativity" then Known(InnovationCreativity)
    else if key == "clarityAccessibility" then Known(ClarityAccessibility)
    else if key == "depth" then Known(Depth)
    else if key == "interactivityEngagement" then Known(InteractivityEngagement)
    else if key == "useOfTechnology" then Known(UseOfTechnology)
    else if key == "scalabilityAdaptability" then Known(ScalabilityAdaptability)
    else if key == "ethicalStandards" then Known(EthicalStandards)
    else if key == "practicalApplication" then Known(PracticalApplication)
    else if key == "videoQuality" then Known(VideoQuality)
    else Other(key)
  }

  /** Every criterion's key is read back as that criterion. */
  lemma ParseKeyRoundTrip(c: Criterion)
    ensures ParseKey(Key(c)) == Known(c)
  {
  }

  /** One property of the request's `criteria` object, in the object's key order. */
  datatype Entry = Entry(field: Field, value: real)

  /** A JavaScript object never holds the same key twice. */
  predicate IsObject(entries: seq<Entry>)
  {
    forall i, j :: 0 <= i < j < |entries| ==> entries[i].field != entries[j].field
  }

  /** The values of the object, in key order (`Object.values`). */
  function Values(entries: seq<Entry>): (r: seq<real>)
    ensures |r| == |entries|
    ensures forall k :: 0 <= k < |entries| ==> r[k] == entries[k].value
  {
    seq(|entries|, k requires 0 <= k < |entries| => entries[k].value)
  }

  /** The value a criterion gets from the object: the one given under its key,
      else the schema default 0. */
  function ScoreFrom(entries: seq<Entry>, c: Criterion): (v: real)
    ensures (exists k :: 0 <= k < |entries| && entries[k] == Entry(Known(c), v))
            || (v == 0.0 && forall k :: 0 <= k < |entries| ==> entries[k].field != Known(c))
  {
    match Find(entries, (e: Entry) => e.field == Known(c))
    case Some(k) => entries[k].value
    case None => 0.0
  }

  /** The `criteria` sub-document the schema stores from the object: the ten
      known keys, defaults for the missing ones; other keys are dropped. */
  function StoredScores(entries: seq<Entry>): Scores
  {
    Scores(
      ScoreFrom(entries, RelevanceToLOs), ScoreFrom(entries, InnovationCreativity),
      ScoreFrom(entries, ClarityAccessibility), ScoreFrom(entries, Depth),
      ScoreFrom(entries, InteractivityEngagement), ScoreFrom(entries, UseOfTechnology),
      ScoreFrom(entries, ScalabilityAdaptability), ScoreFrom(entries, EthicalStandards),
      ScoreFrom(entries, PracticalApplication), ScoreFrom(entries, VideoQuality))
  }

  /** Each criterion of the stored rubric holds the value sent under its key, or 0. */
  lemma StoredScoresAt(entries: seq<Entry>, c: Criterion)
    ensures Score(StoredScores(entries), c) == ScoreFrom(entries, c)
  {
    match c
    case RelevanceToLOs =>
    case InnovationCreativity =>
    case ClarityAccessibility =>
    case Depth =>
    case InteractivityEngagement =>
    case UseOfTechnology =>
    case ScalabilityAdaptability =>
    case EthicalStandards =>
    case PracticalApplication =>
    case VideoQuality =>
  }

  /** In an object, looking up a key finds the value stored under it. */
  lemma ScoreFromFinds(entries: seq<Entry>, k: nat, c: Criterion)
    requires IsObject(entries) && k < |entries| && entries[k].field == Known(c)
    ensures ScoreFrom(entries, c) == entries[k].value
  {
    var f := Find(entries, (e: Entry) => e.field == Known(c));
    assert f.Some?;
  }

  /** Two rubrics that agree on every criterion are the same rubric. */
  lemma ScoresExt(s: Scores, t: Scores)
    requires forall c :: Score(s, c) == Score(t, c)
    ensures s == t
  {
    assert Score(s, RelevanceToLOs) == Score(t, RelevanceToLOs);
    assert Score(s, InnovationCreativity) == Score(t, InnovationCreativity);
    assert Score(s, ClarityAccessibility) == Score(t, ClarityAccessibility);
    assert Score(s, Depth) == Score(t, Depth);
    assert Score(s, InteractivityEngagement) == Score(t, InteractivityEngagement);
    assert Score(s, UseOfTechnology) == Score(t, UseOfTechnology);
    assert Score(s, ScalabilityAdaptability) == Score(t, ScalabilityAdaptability);
    assert Score(s, EthicalStandards) == Score(t, EthicalStandards);
    assert Score(s, PracticalApplication) == Score(t, PracticalApplication);
    assert Score(s, VideoQuality) == Score(t, VideoQuality);
  }

  /** The object a well-formed request sends: the ten criteria, in schema order. */
  function Entries(s: Scores): (r: seq<Entry>)
    ensures |r| == |Criteria|
    ensures forall k :: 0 <= k < |Criteria| ==> r[k] == Entry(Known(Criteria[k]), Score(s, Criteria[k]))
  {
    seq(|Criteria|, k requires 0 <= k < |Criteria| => Entry(Known(Criteria[k]), Score(s, Criteria[k])))
  }

  /** For an object that holds exactly the ten criteria, the stored rubric is
      the one sent, and the total the handler computes is that rubric's total. */
  lemma EntriesRoundTrip(s: Scores)
    ensures IsObject(Entries(s))
    ensures StoredScores(Entries(s)) == s
    ensures Sum(Values(Entries(s))) == Total(s)
  {
    var es := Entries(s);
    CriteriaEnumerateKeys();
    forall i, j | 0 <= i < j < |es| ensures es[i].field != es[j].field {
      assert Key(Criteria[i]) != Key(Criteria[j]);
    }
    forall c ensures Score(StoredScores(es), c) == Score(s, c) {
      assert c in Criteria;
      var k :| 0 <= k < |Criteria| && Criteria[k] == c;
      ScoreFromFinds(es, k, c);
      StoredScoresAt(es, c);
    }
    ScoresExt(StoredScores(es), s);
    assert Values(es) == ScoreList(s, Criteria);
  }

  /** `Evaluation.find({ submission: id })`: the evaluations of one submission, each stored one once. */
  function ForSubmission(evals: seq<Evaluation>, id: Id): (r: seq<Evaluation>)
    ensures forall k :: 0 <= k < |r| ==> r[k] in evals && r[k].submission == Some(id)
    ensures forall k :: 0 <= k < |evals| && evals[k].submission == Some(id) ==> evals[k] in r
    ensures |r| == Count((e: Evaluation) => e.submission == Some(id), evals)
  {
    FilterMembers((e: Evaluation) => e.submission == Some(id), evals);
    Filter((e: Evaluation) => e.submission == Some(id), evals)
  }

  /** Appending an evaluation adds it to its own submission's list and to no other. */
  lemma ForSubmissionAppend(evals: seq<Evaluation>, e: Evaluation, id: Id)
    ensures ForSubmission(evals + [e], id) == ForSubmission(evals, id) + (if e.submission == Some(id) then [e] else [])
  {
    FilterAppend((e: Evaluation) => e.submission == Some(id), evals, [e]);
    assert [e][1..] == [];
  }

  /** What a POST answers and the two collections it leaves. */
  datatype Recorded = Recorded(result: Result<Evaluation>, evaluations: seq<Evaluation>, submissions: seq<Submission>)

  /** The evaluation document the handler builds from the request. */
  function Candidate(caller: Id, submissionId: Option<Id>, criteria: seq<Entry>, comments: Option<string>,
                     now: int, newId: Id): (e: Evaluation)
    ensures e.id == newId && e.evaluator == Some(caller) && e.submission == submissionId
    ensures e.criteria == StoredScores(criteria) && e.totalScore == Sum(Values(criteria))
    ensures e.comments == Text.TrimOption(comments) && e.evaluatedAt == now
  {
    NewEvaluation(newId, submissionId, Some(caller), StoredScores(criteria), Sum(Values(criteria)), comments, now)
  }

  /** The POST handler. A missing `criteria` object makes `Object.values`
      throw before anything is written; a rejected document writes nothing;
      otherwise the evaluation is stored, and if its submission now has three
      or more evaluations that submission is set to `evaluated`. A submission
      id that resolves to nothing at that point fails the request after the
      evaluation was stored. */
  function Record(evals: seq<Evaluation>, subs: seq<Submission>, caller: Id, submissionId: Option<Id>,
                  criteria: Option<seq<Entry>>, comments: Option<string>, now: int, newId: Id): (o: Recorded)
    ensures o.evaluations ==
      if criteria.Some? && ValidEvaluation(Candidate(caller, submissionId, criteria.value, comments, now, newId))
      then evals + [Candidate(caller, submissionId, criteria.value, comments, now, newId)]
      else evals
    ensures o.result.Ok? ==> o.evaluations == evals + [o.result.value] && ValidEvaluation(o.result.value)
    ensures |o.submissions| == |subs|
  {
    match criteria
    case None => Recorded(Err(Crashed), evals, subs)
    case Some(entries) =>
      var e := Candidate(caller, submissionId, entries, comments, now, newId);
      if !ValidEvaluation(e) then Recorded(Err(ValidationFailed), evals, subs)
      else Conclude(evals + [e], subs, e, submissionId.value)
  }

  /** After evaluation `e` of submission `sid` is stored in `evals`: when
      `sid` has reached the quorum, its submission is set to `evaluated`. */
  function Conclude(evals: seq<Evaluation>, subs: seq<Submission>, e: Evaluation, sid: Id): (o: Recorded)
    ensures o.evaluations == evals && |o.submissions| == |subs|
    ensures o.result.Ok? ==> o.result == Ok(e)
    ensures |ForSubmission(evals, sid)| < Quorum ==> o == Recorded(Ok(e), evals, subs)
  {
    if |ForSubmission(evals, sid)| < Quorum then Recorded(Ok(e), evals, subs)
    else match SubmissionIndex(subs, sid)
      case None => Recorded(Err(Crashed), evals, subs)
      case Some(i) =>
        var s := subs[i].(status := Evaluated);
        if ValidSubmission(s) then Recorded(Ok(e), evals, subs[i := s])
        else Recorded(Err(ValidationFailed), evals, subs)
  }

  /** A stored evaluation names the caller as its evaluator and holds the
      given submission, the rubric the schema keeps, the sum of every value
      sent as its total, and the trimmed comments. */
  lemma RecordStores(evals: seq<Evaluation>, subs: seq<Submission>, caller: Id, submissionId: Option<Id>,
                     criteria: Option<seq<Entry>>, comments: Option<string>, now: int, newId: Id)
    ensures var o := Record(evals, subs, caller, submissionId, criteria, comments, now, newId);
      o.evaluations != evals ==>
        && criteria.Some?
        && o.evaluations == evals + [Candidate(caller, submissionId, criteria.value, comments, now, newId)]
        && var e := o.evaluations[|evals|];
           e.evaluator == Some(caller) && e.submission == submissionId
           && e.totalScore == Sum(Values(criteria.value)) && e.criteria == StoredScores(criteria.value)
    ensures var o := Record(evals, subs, caller, submissionId, criteria, comments, now, newId);
      o.result.Ok? ==> o.result.value == o.evaluations[|evals|]
  {
    if criteria.Some? {
      var e := Candidate(caller, submissionId, criteria.value, comments, now, newId);
      if ValidEvaluation(e) {
        var o := Record(evals, subs, caller, submissionId, criteria, comments, now, newId);
        assert o.evaluations == evals + [e];
      }
    }
  }

  /** A document the validators reject (out-of-range criterion or total, no
      submission id) leaves both collections as they were. */
  lemma RecordRejects(evals: seq<Evaluation>, subs: seq<Submission>, caller: Id, submissionId: Option<Id>,
                      entries: seq<Entry>, comments: Option<string>, now: int, newId: Id)
    requires !ValidEvaluation(Candidate(caller, submissionId, entries, comments, now, newId))
    ensures Record(evals, subs, caller, submissionId, Some(entries), comments, now, newId)
            == Recorded(Err(ValidationFailed), evals, subs)
  {
  }

  /** The quorum rule: with fewer than three evaluations of the submission
      after this one, no submission changes; with three or more, the
      submission (if it exists) is `evaluated` and no other changes. The
      count includes every stored evaluation, whoever wrote it. */
  lemma {:induction false} RecordQuorum(evals: seq<Evaluation>, subs: seq<Submission>, caller: Id, sid: Id,
                                         entries: seq<Entry>, comments: Option<string>, now: int, newId: Id)
    requires ValidEvaluation(Candidate(caller, Some(sid), entries, comments, now, newId))
    requires forall i, j :: 0 <= i < j < |subs| ==> subs[i].id != subs[j].id
    requires forall i :: 0 <= i < |subs| ==> ValidSubmission(subs[i])
    ensures var o := Record(evals, subs, caller, Some(sid), Some(entries), comments, now, newId);
      && |ForSubmission(o.evaluations, sid)| == |ForSubmission(evals, sid)| + 1
      && (|ForSubmission(evals, sid)| + 1 < Quorum ==> o.submissions == subs && o.result.Ok?)
      && (|ForSubmission(evals, sid)| + 1 >= Quorum ==>
            forall i :: 0 <= i < |subs| ==>
              if subs[i].id == sid then o.submissions[i] == subs[i].(status := Evaluated)
              else o.submissions[i] == subs[i])
      && (|ForSubmission(evals, sid)| + 1 >= Quorum && (exists i :: 0 <= i < |subs| && subs[i].id == sid) ==> o.result.Ok?)
  {
    var e := Candidate(caller, Some(sid), entries, comments, now, newId);
    ForSubmissionAppend(evals, e, sid);
    match SubmissionIndex(subs, sid)
    case None =>
    case Some(i) =>
      forall j | 0 <= j < |subs| && subs[j].id == sid ensures j == i {
      }
  }

  /** When the submission's id resolves to nothing by the time the quorum is
      reached, the request fails, yet the evaluation stays stored. */
  lemma RecordOrphan(evals: seq<Evaluation>, subs: seq<Submission>, caller: Id, sid: Id,
                     entries: seq<Entry>, comments: Option<string>, now: int, newId: Id)
    requires ValidEvaluation(Candidate(caller, Some(sid), entries, comments, now, newId))
    requires |ForSubmission(evals, sid)| + 1 >= Quorum
    requires forall i :: 0 <= i < |subs| ==> subs[i].id != sid
    ensures var o := Record(evals, subs, caller, Some(sid), Some(entries), comments, now, newId);
      o.result == Err(Crashed) && o.submissions == subs
      && o.evaluations == evals + [Candidate(caller, Some(sid), entries, comments, now, newId)]
  {
    ForSubmissionAppend(evals, Candidate(caller, Some(sid), entries, comments, now, newId), sid);
  }

  /** Setting `evaluated` again changes nothing: a fourth or later evaluation
      leaves an evaluated submission as it is. */
  lemma FlipIdempotent(s: Submission)
    requires s.status == Evaluated
    ensures s.(status := Evaluated) == s
  {
  }

  /** Nothing stops one evaluator from evaluating a submission twice: two
      accepted requests by the same caller raise its count by two, so a single
      evaluator can bring a submission to the quorum. */
  lemma {:induction false} SameEvaluatorCountsTwice(evals: seq<Evaluation>, subs: seq<Submission>, caller: Id, sid: Id,
                                                     entries: seq<Entry>, comments: Option<string>, now: int, newId: Id)
    requires ValidEvaluation(Candidate(caller, Some(sid), entries, comments, now, newId))
    requires ValidEvaluation(Candidate(caller, Some(sid), entries, comments, now, newId + 1))
    ensures var o1 := Record(evals, subs, caller, Some(sid), Some(entries), comments, now, newId);
      var o2 := Record(o1.evaluations, o1.submissions, caller, Some(sid), Some(entries), comments, now, newId + 1);
      |ForSubmission(o2.evaluations, sid)| == |ForSubmission(evals, sid)| + 2
  {
    var e1 := Candidate(caller, Some(sid), entries, comments, now, newId);
    var e2 := Candidate(caller, Some(sid), entries, comments, now, newId + 1);
    var o1 := Record(evals, subs, caller, Some(sid), Some(entries), comments, now, newId);
    assert o1.evaluations == evals + [e1];
    var o2 := Record(o1.evaluations, o1.submissions, caller, Some(sid), Some(entries), comments, now, newId + 1);
    assert o2.evaluations == evals + [e1] + [e2];
    ForSubmissionAppend(evals, e1, sid);
    ForSubmissionAppend(evals + [e1], e2, sid);
  }

  /** The handler keeps the store's invariants on evaluations and submissions
      and only moves statuses forward. */
  lemma RecordKeepsInvariant(evals: seq<Evaluation>, subs: seq<Submission>, users: seq<User>, caller: Id,
                             submissionId: Option<Id>, criteria: Option<seq<Entry>>, comments: Option<string>,
                             now: int, newId: Id)
    requires EvaluationsOk(evals, newId) && SubmissionsOk(subs, users, newId)
    ensures var o := Record(evals, subs, caller, submissionId, criteria, comments, now, newId);
      && EvaluationsOk(o.evaluations, newId + 1)
      && SubmissionsOk(o.submissions, users, newId + 1)
      && Forward(subs, o.submissions)
  {
    var o := Record(evals, subs, caller, submissionId, criteria, comments, now, newId);
    if criteria.Some? {
      var e := Candidate(caller, submissionId, criteria.value, comments, now, newId);
      if ValidEvaluation(e) && |ForSubmission(evals + [e], submissionId.value)| >= Quorum {
        match SubmissionIndex(subs, submissionId.value)
        case None =>
        case Some(i) =>
          var s := subs[i].(status := Evaluated);
          ReplaceKeepsSubmissionsOk(subs, users, newId, i, s);
      }
    }
    assert SubmissionsOk(o.submissions, users, newId);
  }

  /** `evaluation.save()` for a document the validators accept. */
  method SaveEvaluation(db: Db, e: Evaluation)
    requires db.Valid() && ValidEvaluation(e) && e.id == db.nextId
    modifies db`evaluations, db`nextId
    ensures db.Valid()
    ensures db.evaluations == old(db.evaluations) + [e] && db.nextId == old(db.nextId) + 1
  {
    db.evaluations := db.evaluations + [e];
    db.nextId := db.nextId + 1;
  }

  /** The quorum check after the evaluation is stored: `findById` the
      submission and save it as `evaluated`. */
  method ConcludeStored(db: Db, e: Evaluation, sid: Id) returns (r: Result<Evaluation>)
    requires db.Valid()
    modifies db`submissions
    ensures db.Valid()
    ensures var o := Conclude(db.evaluations, old(db.submissions), e, sid);
      r == o.result && db.submissions == o.submissions
    ensures Forward(old(db.submissions), db.submissions)
  {
    var evaluations := ForSubmission(db.evaluations, sid);
    if |evaluations| < Quorum {
      return Ok(e);
    }
    var i := SubmissionIndex(db.submissions, sid);
    if i.None? {
      return Err(Crashed);
    }
    var s := db.submissions[i.value].(status := Evaluated);
    if !ValidSubmission(s) {
      return Err(ValidationFailed);
    }
    ReplaceKeepsSubmissionsOk(db.submissions, db.users, db.nextId, i.value, s);
    db.submissions := db.submissions[i.value := s];
    r := Ok(e);
  }

  /** The POST handler run against the store. */
  method Submit(db: Db, caller: Id, submissionId: Option<Id>, criteria: Option<seq<Entry>>,
                comments: Option<string>, now: int) returns (r: Result<Evaluation>)
    requires db.Valid()
    modifies db
    ensures db.Valid()
    ensures var o := Record(old(db.evaluations), old(db.submissions), caller, submissionId, criteria, comments,
                            now, old(db.nextId));
      r == o.result && db.evaluations == o.evaluations && db.submissions == o.submissions
    ensures Forward(old(db.submissions), db.submissions)
    ensures db.users == old(db.users) && db.teams == old(db.teams) && db.assignments == old(db.assignments)
    ensures db.nextId == old(db.nextId) + (if |db.evaluations| > |old(db.evaluations)| then 1 else 0)
  {
    if criteria.None? {
      return Err(Crashed);
    }
    var e := Candidate(caller, submissionId, criteria.value, comments, now, db.nextId);
    if !ValidEvaluation(e) {
      return Err(ValidationFailed);
    }
    SaveEvaluation(db, e);
    r := ConcludeStored(db, e, submissionId.value);
  }
}
