/** The admin endpoints (routes/admin.js): the pending and approved evaluator
    lists, approving an evaluator, and the counts behind the statistics card. */
module Admin {
  import opened Base
  import opened UserSchema
  import opened TeamSchema
  import opened SubmissionSchema
  import opened Store

  predicate IsEvaluatorRole(u: User)
  {
    u.role == Evaluator
  }

  predicate IsPendingEvaluator(u: User)
  {
    u.role == Evaluator && !u.approved
  }

  /** `User.find({ role: 'evaluator', approved: false })`. */
  function PendingEvaluators(users: seq<User>): (r: seq<User>)
    ensures forall k :: 0 <= k < |r| ==> r[k] in users && r[k].role == Evaluator && !r[k].approved
    ensures forall k :: 0 <= k < |users| && users[k].role == Evaluator && !users[k].approved ==> users[k] in r
    ensures |r| == Count(IsPendingEvaluator, users)
  {
    FilterMembers(IsPendingEvaluator, users);
    Filter(IsPendingEvaluator, users)
  }

  /** The two lists hold exactly the unapproved and the approved evaluators,
      and between them they count every evaluator once. */
  lemma EvaluatorListsPartition(users: seq<User>)
    ensures forall k :: 0 <= k < |PendingEvaluators(users)| ==>
      PendingEvaluators(users)[k] in users && PendingEvaluators(users)[k].role == Evaluator && !PendingEvaluators(users)[k].approved
    ensures forall k :: 0 <= k < |ApprovedEvaluators(users)| ==>
      ApprovedEvaluators(users)[k] in users && ApprovedEvaluators(users)[k].role == Evaluator && ApprovedEvaluators(users)[k].approved
    ensures forall k :: 0 <= k < |users| && users[k].role == Evaluator ==>
      (if users[k].approved then users[k] in ApprovedEvaluators(users) else users[k] in PendingEvaluators(users))
    ensures |PendingEvaluators(users)| + |ApprovedEvaluators(users)| == Count(IsEvaluatorRole, users)
  {
    FilterMembers(IsPendingEvaluator, users);
    FilterMembers(IsApprovedEvaluator, users);
    EvaluatorCounts(users);
  }

  lemma {:induction false} EvaluatorCounts(users: seq<User>)
    ensures |Filter(IsPendingEvaluator, users)| + |Filter(IsApprovedEvaluator, users)| == |Filter(IsEvaluatorRole, users)|
  {
    if users != [] {
      EvaluatorCounts(users[1..]);
    }
  }

  /** What approving answers and the users it leaves. */
  datatype Approval = Approval(result: Result<User>, users: seq<User>)

  /** POST /approve-evaluator/:userId. */
  function Approve(users: seq<User>, userId: Id): (o: Approval)
    ensures o.result.Err? ==> o.result == Err(NotFound("Evaluator not found")) && o.users == users
    ensures o.result.Ok? ==> IsApprovedEvaluator(o.result.value) && |o.users| == |users|
  {
    match UserIndex(users, userId)
    case None => Approval(Err(NotFound("Evaluator not found")), users)
    case Some(j) =>
      if users[j].role != Evaluator then Approval(Err(NotFound("Evaluator not found")), users)
      else
        var u := users[j].(approved := true);
        Approval(Ok(u), users[j := u])
  }

  /** No evaluator with that id: 404, and nothing changes. */
  lemma ApproveRejects(users: seq<User>, userId: Id)
    requires forall j :: 0 <= j < |users| && users[j].id == userId ==> users[j].role != Evaluator
    ensures Approve(users, userId) == Approval(Err(NotFound("Evaluator not found")), users)
  {
  }

  /** Approving the evaluator with that id sets its `approved` flag and
      changes nothing else, in it or in any other user. */
  lemma ApproveSets(users: seq<User>, userId: Id, j: nat)
    requires j < |users| && users[j].id == userId && users[j].role == Evaluator
    requires forall k :: 0 <= k < |users| && k != j ==> users[k].id != userId
    ensures var o := Approve(users, userId);
      o.result == Ok(o.users[j]) && |o.users| == |users|
      && o.users[j].approved && o.users[j] == users[j].(approved := true)
      && forall k :: 0 <= k < |users| && k != j ==> o.users[k] == users[k]
  {
    assert UserIndex(users, userId) == Some(j);
  }

  /** Approving twice is approving once. */
  lemma ApproveIdempotent(users: seq<User>, userId: Id)
    ensures var once := Approve(users, userId);
      Approve(once.users, userId) == Approval(once.result, once.users)
  {
    var once := Approve(users, userId);
    if once.result.Ok? {
      var j := UserIndex(users, userId).value;
      assert once.users[j].id == users[j].id;
      assert forall k :: 0 <= k < j ==> once.users[k] == users[k];
      assert UserIndex(once.users, userId) == Some(j);
    }
  }

  /** The approved set grows by exactly the approved user. */
  lemma ApproveAddsToPool(users: seq<User>, userId: Id)
    ensures var o := Approve(users, userId);
      o.result.Ok? ==> ApprovedIds(o.users) == ApprovedIds(users) + {userId}
  {
    var o := Approve(users, userId);
    if o.result.Ok? {
      var j := UserIndex(users, userId).value;
      ApprovedGrows(users, j, o.users[j]);
      assert o.users[j] in o.users;
      forall id | id in ApprovedIds(o.users) ensures id in ApprovedIds(users) + {userId} {
        var w :| w in o.users && IsApprovedEvaluator(w) && w.id == id;
        var k :| 0 <= k < |o.users| && o.users[k] == w;
        if k != j {
          assert users[k] == w;
        }
      }
    }
  }

  /** The approved evaluator, saved again, passes the User validators. */
  lemma ApproveResaves(users: seq<User>, userId: Id, next: nat)
    requires UsersOk(users, next)
    ensures var o := Approve(users, userId);
      o.result.Ok? ==> PassesValidators(o.result.value) && UsersOk(o.users, next)
  {
    var o := Approve(users, userId);
    if o.result.Ok? {
      var j := UserIndex(users, userId).value;
      SameKeysKeepUsersOk(users, next, j, o.result.value);
    }
  }

  /** Changing a user's other fields, keeping its id, name, email, password
      and team, keeps the users' part of the store invariant: the re-saved
      user still passes the User validators. */
  lemma SameKeysKeepStore(teams: seq<Team>, users: seq<User>, next: nat, j: nat, u: User)
    requires UsersOk(users, next) && Linked(teams, users) && j < |users|
    requires u.id == users[j].id && u.email == users[j].email && u.teamId == users[j].teamId
    requires u.name == users[j].name && u.password == users[j].password
    ensures PassesValidators(u)
    ensures UsersOk(users[j := u], next) && Linked(teams, users[j := u])
  {
    SameKeysKeepUsersOk(users, next, j, u);
    var users' := users[j := u];
    forall a, k | 0 <= a < |teams| && 0 <= k < |teams[a].members|
      ensures HasTeam(users', teams[a].members[k], teams[a].id)
    {
      var b :| 0 <= b < |users| && users[b].id == teams[a].members[k] && users[b].teamId == Some(teams[a].id);
      assert users'[b].id == users[b].id && users'[b].teamId == users[b].teamId;
    }
    forall b | 0 <= b < |users'| && users'[b].teamId.Some?
      ensures HasMember(teams, users'[b].teamId.value, users'[b].id)
    {
      assert users'[b].id == users[b].id && users'[b].teamId == users[b].teamId;
    }
  }

  lemma SameKeysKeepUsersOk(users: seq<User>, next: nat, j: nat, u: User)
    requires UsersOk(users, next) && j < |users|
    requires u.id == users[j].id && u.email == users[j].email
    requires u.name == users[j].name && u.password == users[j].password
    ensures PassesValidators(u) && UsersOk(users[j := u], next)
  {
    assert PassesValidators(users[j]);
    var users' := users[j := u];
    forall a | 0 <= a < |users'| ensures users'[a].id < next && PassesValidators(users'[a]) {
      assert PassesValidators(users[a]);
    }
    forall a, b | 0 <= a < b < |users'| ensures users'[a].id != users'[b].id && users'[a].email != users'[b].email {
      assert users[a].id != users[b].id && users[a].email != users[b].email;
    }
  }

  /** The approve handler run against the store. */
  method ApproveEvaluator(db: Db, userId: Id) returns (r: Result<User>)
    requires db.Valid()
    modifies db
    ensures db.Valid()
    ensures var o := Approve(old(db.users), userId);
      r == o.result && db.users == o.users
    ensures db.teams == old(db.teams) && db.submissions == old(db.submissions)
    ensures db.evaluations == old(db.evaluations) && db.assignments == old(db.assignments)
    ensures db.nextId == old(db.nextId)
  {
    var found := UserIndex(db.users, userId);
    if found.None? || db.users[found.value].role != Evaluator {
      return Err(NotFound("Evaluator not found"));
    }
    var j := found.value;
    var u := db.users[j].(approved := true);
    ApprovedGrows(db.users, j, u);
    SameKeysKeepStore(db.teams, db.users, db.nextId, j, u);
    SubmissionsKeepPanels(db.submissions, db.users, db.users[j := u], db.nextId, db.nextId);
    db.users := db.users[j := u];
    r := Ok(u);
  }

  predicate IsPending(s: Submission)
  {
    s.status == Pending
  }

  predicate IsUnderReview(s: Submission)
  {
    s.status == UnderReview
  }

  predicate IsEvaluated(s: Submission)
  {
    s.status == Evaluated
  }

  /** The six counts GET /stats answers with. */
  datatype Stats = Stats(
    totalEvaluators: nat,
    pendingEvaluators: nat,
    totalSubmissions: nat,
    pendingSubmissions: nat,
    underReview: nat,
    evaluated: nat)

  function StatsOf(users: seq<User>, subs: seq<Submission>): (s: Stats)
    ensures s.totalEvaluators == |ApprovedEvaluators(users)| && s.pendingEvaluators == |PendingEvaluators(users)|
    ensures s.totalSubmissions == |subs|
    ensures s.pendingSubmissions <= s.totalSubmissions && s.underReview <= s.totalSubmissions
    ensures s.evaluated <= s.totalSubmissions
  {
    Stats(Count(IsApprovedEvaluator, users), Count(IsPendingEvaluator, users), |subs|,
          Count(IsPending, subs), Count(IsUnderReview, subs), Count(IsEvaluated, subs))
  }

  lemma {:induction false} StatusCountsCover(subs: seq<Submission>)
    ensures |Filter(IsPending, subs)| + |Filter(IsUnderReview, subs)| + |Filter(IsEvaluated, subs)| == |subs|
  {
    if subs != [] {
      StatusCountsCover(subs[1..]);
    }
  }

  /** The three status counts cover every value of the status enumeration, so
      they add up to the number of submissions; the two evaluator counts add up
      to the number of evaluators. */
  lemma StatsAddUp(users: seq<User>, subs: seq<Submission>)
    ensures var s := StatsOf(users, subs);
      s.pendingSubmissions + s.underReview + s.evaluated == s.totalSubmissions
      && s.totalEvaluators + s.pendingEvaluators == Count(IsEvaluatorRole, users)
  {
    StatusCountsCover(subs);
    EvaluatorCounts(users);
  }
}
