/** The evaluator assignment routes (routes/evaluatorRoutes.js): the caller's
    own assignment list, and grading or completing one assignment. Both writes
    look the assignment up by id (404 when it is missing), check that the
    caller is its evaluator (403 otherwise), and only then set fields on it. */
module EvaluatorRoutes {
  import opened Base
  import opened Store

  /** The status both writes set. */
  const Completed: string := "Completed"

  /** `EvaluatorAssignment.find({ evaluator: caller })`: exactly the
      caller's assignments, each stored one once. */
  function AssignmentsOf(assignments: seq<Assignment>, caller: Id): (r: seq<Assignment>)
    ensures forall k :: 0 <= k < |r| ==> r[k] in assignments && r[k].evaluator == caller
    ensures forall k :: 0 <= k < |assignments| && assignments[k].evaluator == caller ==> assignments[k] in r
    ensures |r| == Count((a: Assignment) => a.evaluator == caller, assignments)
  {
    FilterMembers((a: Assignment) => a.evaluator == caller, assignments);
    Filter((a: Assignment) => a.evaluator == caller, assignments)
  }

  /** `findById`. */
  function AssignmentIndex(assignments: seq<Assignment>, id: Id): Option<nat>
  {
    Find(assignments, (a: Assignment) => a.id == id)
  }

  /** `assignments[i]` is the one `findById` returns. */
  ghost predicate FirstWithId(assignments: seq<Assignment>, id: Id, i: nat)
  {
    i < |assignments| && assignments[i].id == id && forall k :: 0 <= k < i ==> assignments[k].id != id
  }

  /** What a write answers and the assignments it leaves. */
  datatype Written = Written(result: Result<Assignment>, assignments: seq<Assignment>)

  /** The two checks shared by both writes, then `change` applied to the found
      assignment and saved in its place. */
  function Checked(assignments: seq<Assignment>, caller: Id, id: Id, change: Assignment -> Assignment): (o: Written)
    ensures o.result.Err? ==> o.assignments == assignments && o.result.failure in {NotFound("Assignment not found"), Forbidden}
    ensures o.result.Ok? ==> |o.assignments| == |assignments|
    ensures o.result.Ok? ==>
      exists i: nat ::
        && FirstWithId(assignments, id, i) && assignments[i].evaluator == caller
        && o.result.value == change(assignments[i]) && o.assignments == assignments[i := o.result.value]
  {
    match AssignmentIndex(assignments, id)
    case None => Written(Err(NotFound("Assignment not found")), assignments)
    case Some(i) =>
      if assignments[i].evaluator != caller then Written(Err(Forbidden), assignments)
      else
        var a := change(assignments[i]);
        Written(Ok(a), assignments[i := a])
  }

  /** The fields grading sets: the score and comment as sent (an absent one
      unsets the field) and the status. */
  function Graded(a: Assignment, technicalScore: Option<real>, comment: Option<string>): Assignment
  {
    a.(technicalScore := technicalScore, comment := comment, status := Completed)
  }

  /** PUT /assignments/:id/grade. */
  function Grade(assignments: seq<Assignment>, caller: Id, id: Id, technicalScore: Option<real>, comment: Option<string>): (o: Written)
    ensures o.result.Err? ==> o.assignments == assignments && o.result.failure in {NotFound("Assignment not found"), Forbidden}
    ensures o.result.Ok? ==>
      exists i: nat ::
        && FirstWithId(assignments, id, i) && o.assignments == assignments[i := o.result.value]
        && o.result.value.evaluator == caller == assignments[i].evaluator
        && o.result.value.id == id && o.result.value.submissionId == assignments[i].submissionId
        && o.result.value.technicalScore == technicalScore && o.result.value.comment == comment
        && o.result.value.status == Completed
  {
    Checked(assignments, caller, id, a => Graded(a, technicalScore, comment))
  }

  /** The field completing sets. */
  function MarkCompleted(a: Assignment): Assignment
  {
    a.(status := Completed)
  }

  /** PUT /assignments/:id/complete (the answer carries only a message). */
  function Complete(assignments: seq<Assignment>, caller: Id, id: Id): (o: Written)
    ensures o.result.Err? ==> o.assignments == assignments && o.result.failure in {NotFound("Assignment not found"), Forbidden}
    ensures o.result.Ok? ==>
      exists i: nat ::
        && FirstWithId(assignments, id, i) && assignments[i].evaluator == caller
        && o.assignments == assignments[i := assignments[i].(status := Completed)]
  {
    Checked(assignments, caller, id, MarkCompleted)
  }

  lemma AssignmentIndexIs(assignments: seq<Assignment>, id: Id, i: nat)
    requires FirstWithId(assignments, id, i)
    ensures AssignmentIndex(assignments, id) == Some(i)
  {
  }

  /** A missing assignment is 404 for both writes, and nothing changes. */
  lemma WritesMissing(assignments: seq<Assignment>, caller: Id, id: Id, technicalScore: Option<real>, comment: Option<string>)
    requires forall k :: 0 <= k < |assignments| ==> assignments[k].id != id
    ensures Grade(assignments, caller, id, technicalScore, comment) == Written(Err(NotFound("Assignment not found")), assignments)
    ensures Complete(assignments, caller, id) == Written(Err(NotFound("Assignment not found")), assignments)
    ensures StatusCode(NotFound("Assignment not found")) == 404
  {
  }

  /** An assignment that belongs to another evaluator is 403 for both
      writes, and nothing changes. */
  lemma WritesForbidden(assignments: seq<Assignment>, caller: Id, id: Id, technicalScore: Option<real>,
                        comment: Option<string>, i: nat)
    requires FirstWithId(assignments, id, i) && assignments[i].evaluator != caller
    ensures Grade(assignments, caller, id, technicalScore, comment) == Written(Err(Forbidden), assignments)
    ensures Complete(assignments, caller, id) == Written(Err(Forbidden), assignments)
    ensures StatusCode(Forbidden) == 403
  {
    AssignmentIndexIs(assignments, id, i);
  }

  /** Grading the caller's own assignment sets its score, comment and status
      and keeps its id, evaluator and submission; no other assignment changes. */
  lemma GradeSets(assignments: seq<Assignment>, caller: Id, id: Id, technicalScore: Option<real>,
                  comment: Option<string>, i: nat)
    requires FirstWithId(assignments, id, i) && assignments[i].evaluator == caller
    ensures var o := Grade(assignments, caller, id, technicalScore, comment);
      && o.result == Ok(o.assignments[i]) && |o.assignments| == |assignments|
      && o.assignments[i].technicalScore == technicalScore && o.assignments[i].comment == comment
      && o.assignments[i].status == Completed
      && o.assignments[i].id == id && o.assignments[i].evaluator == caller
      && o.assignments[i].submissionId == assignments[i].submissionId
      && forall k :: 0 <= k < |assignments| && k != i ==> o.assignments[k] == assignments[k]
  {
    AssignmentIndexIs(assignments, id, i);
  }

  /** Completing the caller's own assignment sets its status and nothing else. */
  lemma CompleteSets(assignments: seq<Assignment>, caller: Id, id: Id, i: nat)
    requires FirstWithId(assignments, id, i) && assignments[i].evaluator == caller
    ensures var o := Complete(assignments, caller, id);
      o.result.Ok? && o.assignments == assignments[i := assignments[i].(status := Completed)]
  {
    AssignmentIndexIs(assignments, id, i);
  }

  /** A successful write keeps every assignment's id and evaluator, so the
      lookup and the ownership check see the same thing afterwards. */
  lemma WriteKeepsKeys(assignments: seq<Assignment>, caller: Id, id: Id, change: Assignment -> Assignment)
    requires forall a :: change(a).id == a.id && change(a).evaluator == a.evaluator
    ensures var o := Checked(assignments, caller, id, change);
      forall k :: 0 <= k < |assignments| ==>
        o.assignments[k].id == assignments[k].id && o.assignments[k].evaluator == assignments[k].evaluator
  {
  }

  /** Completing twice is completing once. */
  lemma CompleteIdempotent(assignments: seq<Assignment>, caller: Id, id: Id)
    ensures var once := Complete(assignments, caller, id);
      Complete(once.assignments, caller, id) == once
  {
    var once := Complete(assignments, caller, id);
    if once.result.Ok? {
      var i := AssignmentIndex(assignments, id).value;
      WriteKeepsKeys(assignments, caller, id, MarkCompleted);
      AssignmentIndexIs(once.assignments, id, i);
    }
  }

  /** A graded (completed) assignment can be graded again, and the second
      grade replaces the first. */
  lemma Regrade(assignments: seq<Assignment>, caller: Id, id: Id, s1: Option<real>, c1: Option<string>,
                s2: Option<real>, c2: Option<string>)
    ensures var once := Grade(assignments, caller, id, s1, c1);
      once.result.Ok? ==> Grade(once.assignments, caller, id, s2, c2) == Grade(assignments, caller, id, s2, c2)
  {
    var once := Grade(assignments, caller, id, s1, c1);
    if once.result.Ok? {
      var i := AssignmentIndex(assignments, id).value;
      WriteKeepsKeys(assignments, caller, id, a => Graded(a, s1, c1));
      AssignmentIndexIs(once.assignments, id, i);
      assert Graded(Graded(assignments[i], s1, c1), s2, c2) == Graded(assignments[i], s2, c2);
      assert once.assignments[i := Graded(assignments[i], s2, c2)] == assignments[i := Graded(assignments[i], s2, c2)];
    }
  }

  /** A write keeps the assignments' ids fresh. */
  lemma WriteKeepsAssignmentsOk(assignments: seq<Assignment>, caller: Id, id: Id, change: Assignment -> Assignment, next: nat)
    requires AssignmentsOk(assignments, next)
    requires forall a :: change(a).id == a.id && change(a).evaluator == a.evaluator
    ensures AssignmentsOk(Checked(assignments, caller, id, change).assignments, next)
  {
    WriteKeepsKeys(assignments, caller, id, change);
  }

  /** The grade handler run against the store: only the assignment is written. */
  method GradeAssignment(db: Db, caller: Id, id: Id, technicalScore: Option<real>, comment: Option<string>)
    returns (r: Result<Assignment>)
    requires db.Valid()
    modifies db`assignments
    ensures db.Valid()
    ensures var o := Grade(old(db.assignments), caller, id, technicalScore, comment);
      r == o.result && db.assignments == o.assignments
  {
    WriteKeepsAssignmentsOk(db.assignments, caller, id, a => Graded(a, technicalScore, comment), db.nextId);
    var found := AssignmentIndex(db.assignments, id);
    if found.None? {
      return Err(NotFound("Assignment not found"));
    }
    var i := found.value;
    if db.assignments[i].evaluator != caller {
      return Err(Forbidden);
    }
    var a := Graded(db.assignments[i], technicalScore, comment);
    db.assignments := db.assignments[i := a];
    r := Ok(a);
  }

  /** The complete handler run against the store. */
  method CompleteAssignment(db: Db, caller: Id, id: Id) returns (r: Result<Assignment>)
    requires db.Valid()
    modifies db`assignments
    ensures db.Valid()
    ensures var o := Complete(old(db.assignments), caller, id);
      r == o.result && db.assignments == o.assignments
  {
    WriteKeepsAssignmentsOk(db.assignments, caller, id, MarkCompleted, db.nextId);
    var found := AssignmentIndex(db.assignments, id);
    if found.None? {
      return Err(NotFound("Assignment not found"));
    }
    var i := found.value;
    if db.assignments[i].evaluator != caller {
      return Err(Forbidden);
    }
    var a := MarkCompleted(db.assignments[i]);
    db.assignments := db.assignments[i := a];
    r := Ok(a);
  }
}
