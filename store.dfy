/** The document store the handlers share: one collection per model, each in
    natural (insertion) order, and the id counter that plays the part of
    ObjectId generation. `Valid()` is the set of facts every handler keeps:
    fresh and distinct ids, the User and Team validators, unique names, the two-way
    team/member link, one submission per team whose panel is three distinct
    approved evaluators, and only schema-valid evaluations. */
module Store {
  import opened Base
  import Text
  import opened UserSchema
  import opened TeamSchema
  import opened SubmissionSchema
  import opened EvaluationSchema

  /** An EvaluatorAssignment document; its model file is not part of this
      model, so only the fields the evaluator routes read and write appear. */
  datatype Assignment = Assignment(
    id: Id,
    evaluator: Id,
    submissionId: Id,
    technicalScore: Option<real>,
    comment: Option<string>,
    status: string)

  /** `findById` on each collection, and the other `findOne` lookups the handlers make. */
  function UserIndex(users: seq<User>, id: Id): Option<nat>
  {
    Find(users, (u: User) => u.id == id)
  }

  function TeamIndex(teams: seq<Team>, id: Id): Option<nat>
  {
    Find(teams, (t: Team) => t.id == id)
  }

  function SubmissionIndex(subs: seq<Submission>, id: Id): Option<nat>
  {
    Find(subs, (s: Submission) => s.id == id)
  }

  /** `User.findOne({ email })`. The filter goes through the email setters
      before it is compared with the stored (already normalised) emails. An
      absent email reaches the database as `null`, which no stored user has
      since `email` is required, so it finds nobody. */
  function EmailLookup(users: seq<User>, email: Option<string>): (r: Option<nat>)
    ensures email.None? ==> r.None?
    ensures r.Some? ==> email.Some? && r.value < |users| && users[r.value].email == Text.NormalizeEmail(email.value)
    ensures r.Some? ==> forall k :: 0 <= k < r.value ==> users[k].email != Text.NormalizeEmail(email.value)
    ensures email.Some? ==> (r.None? <==> forall j :: 0 <= j < |users| ==> users[j].email != Text.NormalizeEmail(email.value))
  {
    match email
    case None => None
    case Some(e) => Find(users, (u: User) => u.email == Text.NormalizeEmail(e))
  }

  /** `User.find({ role: 'evaluator', approved: true })`. */
  function ApprovedEvaluators(users: seq<User>): (r: seq<User>)
    ensures forall k :: 0 <= k < |r| ==> r[k] in users && r[k].role == Evaluator && r[k].approved
    ensures forall k :: 0 <= k < |users| && users[k].role == Evaluator && users[k].approved ==> users[k] in r
    ensures |r| == Count(IsApprovedEvaluator, users)
  {
    FilterMembers(IsApprovedEvaluator, users);
    Filter(IsApprovedEvaluator, users)
  }

  /** The ids of a list of users, in order. */
  function IdsOf(users: seq<User>): (r: seq<Id>)
    ensures |r| == |users|
    ensures forall k :: 0 <= k < |users| ==> r[k] == users[k].id
  {
    seq(|users|, k requires 0 <= k < |users| => users[k].id)
  }

  /** The ids of approved evaluators, at this point in time. */
  function ApprovedIds(users: seq<User>): set<Id>
  {
    set u | u in users && IsApprovedEvaluator(u) :: u.id
  }

  /** Users: ids fresh and distinct, emails distinct, and every stored user
      passes the User validators when saved again. */
  ghost predicate UsersOk(users: seq<User>, next: nat)
  {
    && (forall i :: 0 <= i < |users| ==> users[i].id < next && PassesValidators(users[i]))
    && (forall i, j :: 0 <= i < j < |users| ==> users[i].id != users[j].id)
    && (forall i, j :: 0 <= i < j < |users| ==> users[i].email != users[j].email)
  }

  /** Teams: ids fresh and distinct, every team passes its validators, names unique. */
  ghost predicate TeamsOk(teams: seq<Team>, next: nat)
  {
    && (forall i :: 0 <= i < |teams| ==> teams[i].id < next && ValidTeam(teams[i]))
    && (forall i, j :: 0 <= i < j < |teams| ==> teams[i].id != teams[j].id)
    && UniqueNames(teams)
  }

  ghost predicate HasTeam(users: seq<User>, uid: Id, tid: Id)
  {
    exists j :: 0 <= j < |users| && users[j].id == uid && users[j].teamId == Some(tid)
  }

  ghost predicate HasMember(teams: seq<Team>, tid: Id, uid: Id)
  {
    exists i :: 0 <= i < |teams| && teams[i].id == tid && uid in teams[i].members
  }

  /** Every member of a team points back to it, and every user's team lists the user. */
  ghost predicate Linked(teams: seq<Team>, users: seq<User>)
  {
    && (forall i, k :: 0 <= i < |teams| && 0 <= k < |teams[i].members| ==>
          HasTeam(users, teams[i].members[k], teams[i].id))
    && (forall j :: 0 <= j < |users| && users[j].teamId.Some? ==>
          HasMember(teams, users[j].teamId.value, users[j].id))
  }

  /** A panel: exactly three distinct ids of approved evaluators. */
  ghost predicate PanelOk(panel: seq<Id>, users: seq<User>)
  {
    |panel| == 3 && Distinct(panel) && forall k :: 0 <= k < |panel| ==> panel[k] in ApprovedIds(users)
  }

  /** Submissions: ids fresh and distinct, at most one per team, each valid,
      past `pending`, and carrying a full panel. */
  ghost predicate SubmissionsOk(subs: seq<Submission>, users: seq<User>, next: nat)
  {
    && (forall i :: 0 <= i < |subs| ==>
          && subs[i].id < next && ValidSubmission(subs[i]) && subs[i].status != Pending
          && PanelOk(subs[i].assignedEvaluators, users))
    && (forall i, j :: 0 <= i < j < |subs| ==> subs[i].id != subs[j].id && subs[i].team != subs[j].team)
  }

  ghost predicate EvaluationsOk(evals: seq<Evaluation>, next: nat)
  {
    forall i :: 0 <= i < |evals| ==> evals[i].id < next && ValidEvaluation(evals[i])
  }

  ghost predicate AssignmentsOk(assignments: seq<Assignment>, next: nat)
  {
    forall i :: 0 <= i < |assignments| ==> assignments[i].id < next
  }

  /** Submission statuses only move forward: every old submission is still
      there, at the same place, with a status at least as far along. */
  ghost predicate Forward(before: seq<Submission>, after: seq<Submission>)
  {
    |before| <= |after|
    && forall i :: 0 <= i < |before| ==>
         after[i].id == before[i].id && after[i].team == before[i].team
         && after[i].assignedEvaluators == before[i].assignedEvaluators
         && Rank(before[i].status) <= Rank(after[i].status)
  }

  /** A user update that keeps the id and never withdraws an approval. */
  ghost predicate KeepsApproval(before: User, after: User)
  {
    after.id == before.id && (IsApprovedEvaluator(before) ==> IsApprovedEvaluator(after))
  }

  /** Replacing one user by an update that keeps its approval can only grow
      the approved set. */
  lemma ApprovedGrows(users: seq<User>, i: nat, u: User)
    requires i < |users| && KeepsApproval(users[i], u)
    ensures ApprovedIds(users) <= ApprovedIds(users[i := u])
  {
    forall id | id in ApprovedIds(users) ensures id in ApprovedIds(users[i := u]) {
      var w :| w in users && IsApprovedEvaluator(w) && w.id == id;
      var j :| 0 <= j < |users| && users[j] == w;
      assert users[i := u][j] in users[i := u];
    }
  }

  lemma ApprovedGrowsAppend(users: seq<User>, u: User)
    ensures ApprovedIds(users) <= ApprovedIds(users + [u])
  {
    forall id | id in ApprovedIds(users) ensures id in ApprovedIds(users + [u]) {
      var w :| w in users && IsApprovedEvaluator(w) && w.id == id;
      assert w in users + [u];
    }
  }

  /** Panels stay valid when the approved set only grows. */
  lemma SubmissionsKeepPanels(subs: seq<Submission>, users: seq<User>, users': seq<User>, next: nat, next': nat)
    requires SubmissionsOk(subs, users, next)
    requires ApprovedIds(users) <= ApprovedIds(users') && next <= next'
    ensures SubmissionsOk(subs, users', next')
  {
  }

  /** Replacing a submission by one with the same id, team and panel and a
      status no earlier keeps the invariant and moves forward. */
  lemma ReplaceKeepsSubmissionsOk(subs: seq<Submission>, users: seq<User>, next: nat, i: nat, s: Submission)
    requires SubmissionsOk(subs, users, next) && i < |subs|
    requires s.id == subs[i].id && s.team == subs[i].team && s.assignedEvaluators == subs[i].assignedEvaluators
    requires ValidSubmission(s) && Rank(subs[i].status) <= Rank(s.status)
    ensures SubmissionsOk(subs[i := s], users, next)
    ensures Forward(subs, subs[i := s])
  {
    var subs' := subs[i := s];
    forall k | 0 <= k < |subs'|
      ensures subs'[k].id < next && ValidSubmission(subs'[k]) && subs'[k].status != Pending
      ensures PanelOk(subs'[k].assignedEvaluators, users)
    {
      if k == i { assert subs[i].status != Pending; }
    }
    forall k, l | 0 <= k < l < |subs'| ensures subs'[k].id != subs'[l].id && subs'[k].team != subs'[l].team {
      assert subs[k].id != subs[l].id && subs[k].team != subs[l].team;
    }
  }

  /** Appending a valid submission with the next id, for a team that has none
      yet, keeps the invariant and moves forward. */
  lemma AppendKeepsSubmissionsOk(subs: seq<Submission>, users: seq<User>, next: nat, s: Submission)
    requires SubmissionsOk(subs, users, next)
    requires s.id == next && forall k :: 0 <= k < |subs| ==> subs[k].team != s.team
    requires ValidSubmission(s) && s.status != Pending && PanelOk(s.assignedEvaluators, users)
    ensures SubmissionsOk(subs + [s], users, next + 1)
    ensures Forward(subs, subs + [s])
  {
    var subs' := subs + [s];
    forall k | 0 <= k < |subs'|
      ensures subs'[k].id < next + 1 && ValidSubmission(subs'[k]) && subs'[k].status != Pending
      ensures PanelOk(subs'[k].assignedEvaluators, users)
    {
      if k < |subs| { assert subs'[k] == subs[k]; }
    }
    forall k, l | 0 <= k < l < |subs'| ensures subs'[k].id != subs'[l].id && subs'[k].team != subs'[l].team {
      if l < |subs| { assert subs'[k] == subs[k] && subs'[l] == subs[l]; }
      else { assert subs'[k] == subs[k] && subs'[l] == s; }
    }
  }

  /** The store invariant over the collections' values. */
  ghost predicate StoreOk(users: seq<User>, teams: seq<Team>, subs: seq<Submission>, evals: seq<Evaluation>,
                          assignments: seq<Assignment>, next: nat)
  {
    && UsersOk(users, next)
    && TeamsOk(teams, next)
    && Linked(teams, users)
    && SubmissionsOk(subs, users, next)
    && EvaluationsOk(evals, next)
    && AssignmentsOk(assignments, next)
  }

  class Db {
    var users: seq<User>
    var teams: seq<Team>
    var submissions: seq<Submission>
    var evaluations: seq<Evaluation>
    var assignments: seq<Assignment>
    var nextId: nat

    ghost predicate Valid()
      reads this
    {
      StoreOk(users, teams, submissions, evaluations, assignments, nextId)
    }

    /** An empty store. */
    constructor ()
      ensures Valid()
      ensures users == [] && teams == [] && submissions == [] && evaluations == [] && assignments == []
    {
      users, teams, submissions, evaluations, assignments := [], [], [], [], [];
      nextId := 0;
    }
  }
}
