/** The submission routes (routes/submissions.js): the choice of a panel of
    three approved evaluators, the create-or-update handler a team member
    calls, and the two read-only lists (`my-assignments`, `my-team`).

    `Math.random` is not modelled: the order the random comparator leaves the
    pool in is the parameter `perm`, any permutation of the pool's indices. */
module Submissions {
  import opened Base
  import opened UserSchema
  import opened TeamSchema
  import opened SubmissionSchema
  import opened Store

  /** The size of an evaluator panel. */
  const PanelSize: nat := 3

  /** The deadline a new submission gets: thirty days after it is created, in milliseconds. */
  const ThirtyDaysMs: int := 30 * 24 * 60 * 60 * 1000

  /** `perm` reorders `n` elements: it lists each index below `n` exactly once. */
  predicate IsShuffle(perm: seq<nat>, n: nat)
  {
    |perm| == n && (forall k :: 0 <= k < n ==> perm[k] < n) && Distinct(perm)
  }

  /** The ids of the approved evaluators, in store order. */
  function PoolIds(users: seq<User>): seq<Id>
  {
    IdsOf(ApprovedEvaluators(users))
  }

  /** With user ids distinct, the pool lists each approved evaluator once, and only them. */
  lemma PoolIdsApproved(users: seq<User>)
    requires forall i, j :: 0 <= i < j < |users| ==> users[i].id != users[j].id
    ensures |PoolIds(users)| == |ApprovedEvaluators(users)|
    ensures Distinct(PoolIds(users))
    ensures forall k :: 0 <= k < |PoolIds(users)| ==> PoolIds(users)[k] in ApprovedIds(users)
    ensures forall id :: id in ApprovedIds(users) ==> id in PoolIds(users)
  {
    var key := (u: User) => u.id;
    assert KeysDistinct(key, users);
    FilterKeysDistinct(IsApprovedEvaluator, key, users);
    FilterMembers(IsApprovedEvaluator, users);
    var pool := ApprovedEvaluators(users);
    var ids := PoolIds(users);
    forall k | 0 <= k < |ids| ensures ids[k] in ApprovedIds(users) {
      assert ids[k] == pool[k].id && pool[k] in users && IsApprovedEvaluator(pool[k]);
    }
    forall id | id in ApprovedIds(users) ensures id in ids {
      var u :| u in users && IsApprovedEvaluator(u) && u.id == id;
      var j :| 0 <= j < |users| && users[j] == u;
      var k :| 0 <= k < |pool| && pool[k] == u;
      assert ids[k] == id;
    }
  }

  /** `getRandomEvaluators`: no panel when the pool has fewer than three
      evaluators; otherwise the first three of the shuffled pool. */
  function SelectPanel(pool: seq<Id>, perm: seq<nat>): (r: Option<seq<Id>>)
    requires IsShuffle(perm, |pool|)
    ensures r.None? <==> |pool| < PanelSize
    ensures r.Some? ==> |r.value| == PanelSize && forall k :: 0 <= k < PanelSize ==> r.value[k] in pool
    ensures r.Some? && Distinct(pool) ==> Distinct(r.value)
  {
    if |pool| < PanelSize then None
    else Some(seq(PanelSize, k requires 0 <= k < PanelSize => pool[perm[k]]))
  }

  /** The identity order. */
  function Identity(n: nat): (r: seq<nat>)
    ensures IsShuffle(r, n)
    ensures forall i :: 0 <= i < n ==> r[i] == i
  {
    seq(n, i requires 0 <= i < n => i)
  }

  /** Exchange two positions of an order. */
  function Swap(s: seq<nat>, i: nat, j: nat): (r: seq<nat>)
    requires i < |s| && j < |s|
    ensures |r| == |s| && r[i] == s[j] && r[j] == s[i]
    ensures forall k :: 0 <= k < |s| && k != i && k != j ==> r[k] == s[k]
  {
    s[i := s[j]][j := s[i]]
  }

  /** Exchanging two positions of an order gives an order. */
  lemma SwapKeepsShuffle(s: seq<nat>, n: nat, i: nat, j: nat)
    requires IsShuffle(s, n) && i < n && j < n
    ensures IsShuffle(Swap(s, i, j), n)
  {
    var r := Swap(s, i, j);
    forall x, y | 0 <= x < y < n ensures r[x] != r[y] {
      var x' := if x == i then j else if x == j then i else x;
      var y' := if y == i then j else if y == j then i else y;
      assert r[x] == s[x'] && r[y] == s[y'];
    }
  }

  /** Any three distinct members of the pool can be the panel: some order of
      the pool puts exactly them first. */
  lemma AnyTripleReachable(pool: seq<Id>, a: nat, b: nat, c: nat)
    requires a < |pool| && b < |pool| && c < |pool| && a != b && a != c && b != c
    ensures exists perm :: IsShuffle(perm, |pool|) && SelectPanel(pool, perm) == Some([pool[a], pool[b], pool[c]])
  {
    var n := |pool|;
    var p0 := Identity(n);
    var p1 := Swap(p0, 0, a);
    SwapKeepsShuffle(p0, n, 0, a);
    var b1 := if b == 0 then a else b;
    var c1 := if c == 0 then a else c;
    assert p1[0] == a && p1[b1] == b && p1[c1] == c && b1 != 0 && c1 != 0 && b1 != c1;
    var p2 := Swap(p1, 1, b1);
    SwapKeepsShuffle(p1, n, 1, b1);
    var c2 := if c1 == 1 then b1 else c1;
    assert p2[0] == a && p2[1] == b && p2[c2] == c && c2 != 0 && c2 != 1;
    var p3 := Swap(p2, 2, c2);
    SwapKeepsShuffle(p2, n, 2, c2);
    assert p3[0] == a && p3[1] == b && p3[2] == c;
    assert SelectPanel(pool, p3).value == [pool[a], pool[b], pool[c]];
  }

  /** A new Submission as the handler builds it: the content through the
      setters, `under_review`, the panel, and the deadline. */
  function NewSubmission(id: Id, team: Id, c: Content, panel: seq<Id>, now: int): (s: Submission)
    ensures s.id == id && s.team == team && s.assignedEvaluators == panel
    ensures s.status == UnderReview && s.deadline == Some(now + ThirtyDaysMs)
    ensures s.submittedAt == now && s.updatedAt == now
    ensures var n := Normalize(c);
      s.videoLink == n.videoLink && s.topic == n.topic
      && s.learningOutcomes == n.learningOutcomes && s.description == n.description
  {
    var n := Normalize(c);
    Submission(id, team, n.videoLink, n.topic, n.learningOutcomes, n.description,
               UnderReview, panel, now, now, Some(now + ThirtyDaysMs))
  }

  /** The caller's team, as `findById(...).populate('teamId')` finds it: a
      missing caller makes the handler read a property of null; no team, or a
      team id that no longer resolves, is "You must be part of a team". */
  function CallerTeam(users: seq<User>, teams: seq<Team>, caller: Id): (r: Result<Id>)
    ensures r.Ok? ==>
      exists j :: 0 <= j < |users| && users[j].id == caller && users[j].teamId == Some(r.value)
        && forall k :: 0 <= k < j ==> users[k].id != caller
    ensures r.Ok? ==> exists i :: 0 <= i < |teams| && teams[i].id == r.value
    ensures r.Err? ==> r.failure in {Crashed, NotInTeam}
    ensures r == Err(Crashed) <==> forall j :: 0 <= j < |users| ==> users[j].id != caller
  {
    match UserIndex(users, caller)
    case None => Err(Crashed)
    case Some(j) =>
      if users[j].teamId.None? || TeamIndex(teams, users[j].teamId.value).None? then Err(NotInTeam)
      else Ok(users[j].teamId.value)
  }

  /** The caller's team is found exactly when the first user with the caller's
      id has a `teamId` that names a stored team. */
  lemma CallerTeamFound(users: seq<User>, teams: seq<Team>, caller: Id)
    ensures CallerTeam(users, teams, caller).Ok? <==>
      exists j :: 0 <= j < |users| && users[j].id == caller
        && (forall k :: 0 <= k < j ==> users[k].id != caller)
        && users[j].teamId.Some? && exists i :: 0 <= i < |teams| && teams[i].id == users[j].teamId.value
  {
    var u := UserIndex(users, caller);
    if u.Some? {
      var j := u.value;
      forall j' | 0 <= j' < |users| && users[j'].id == caller && forall k :: 0 <= k < j' ==> users[k].id != caller
        ensures j' == j
      {
        if j' < j { assert false; }
        if j < j' { assert false; }
      }
      if users[j].teamId.Some? {
        var t := TeamIndex(teams, users[j].teamId.value);
        if t.Some? {
          assert teams[t.value].id == users[j].teamId.value;
        }
      }
    }
  }

  /** `Submission.findOne({ team })`. */
  function SubmissionOfTeam(subs: seq<Submission>, team: Id): Option<nat>
  {
    Find(subs, (s: Submission) => s.team == team)
  }

  /** What a POST answers and the submissions collection it leaves. */
  datatype Posted = Posted(result: Result<Id>, submissions: seq<Submission>)

  /** Editing the team's stored submission `i`: its content fields and
      `updatedAt` are overwritten, and the validators run again on save. */
  function Edit(subs: seq<Submission>, i: nat, c: Content, now: int): (o: Posted)
    requires i < |subs|
    ensures o.result.Err? ==> o.result == Err(ValidationFailed) && o.submissions == subs
    ensures o.result.Ok? ==> o.result.value == subs[i].id && o.submissions == subs[i := WithContent(subs[i], c, now)]
  {
    var s := WithContent(subs[i], c, now);
    if ValidSubmission(s) then Posted(Ok(s.id), subs[i := s]) else Posted(Err(ValidationFailed), subs)
  }

  /** Creating the team's first submission: a panel is drawn from the approved
      evaluators, and the new document gets id `newId`. */
  function Create(users: seq<User>, subs: seq<Submission>, team: Id, c: Content, perm: seq<nat>,
                  now: int, newId: Id): (o: Posted)
    requires IsShuffle(perm, |PoolIds(users)|)
    ensures o.result.Err? ==> o.result.failure in {InsufficientEvaluators, ValidationFailed} && o.submissions == subs
    ensures o.result.Err? <==> |PoolIds(users)| < PanelSize || !ValidSubmission(NewSubmission(newId, team, c, SelectPanel(PoolIds(users), perm).value, now))
    ensures o.result.Ok? ==>
      && o.result.value == newId
      && o.submissions == subs + [NewSubmission(newId, team, c, SelectPanel(PoolIds(users), perm).value, now)]
  {
    match SelectPanel(PoolIds(users), perm)
    case None => Posted(Err(InsufficientEvaluators), subs)
    case Some(panel) =>
      var s := NewSubmission(newId, team, c, panel, now);
      if ValidSubmission(s) then Posted(Ok(newId), subs + [s]) else Posted(Err(ValidationFailed), subs)
  }

  /** The POST handler once the caller's team is known: the team's submission,
      if it has one, is edited in place and never duplicated; otherwise a new
      one for the team is appended. */
  function PostForTeam(users: seq<User>, subs: seq<Submission>, team: Id, c: Content,
                       perm: seq<nat>, now: int, newId: Id): (o: Posted)
    requires IsShuffle(perm, |PoolIds(users)|)
    ensures o.result.Err? ==> o.submissions == subs
    ensures SubmissionOfTeam(subs, team).Some? ==> |o.submissions| == |subs|
    ensures SubmissionOfTeam(subs, team).None? && o.result.Ok? ==>
      |o.submissions| == |subs| + 1 && o.submissions[..|subs|] == subs && o.submissions[|subs|].team == team
  {
    match SubmissionOfTeam(subs, team)
    case Some(i) => Edit(subs, i, c, now)
    case None => Create(users, subs, team, c, perm, now, newId)
  }

  /** The POST handler: update the team's submission if it has one, otherwise
      draw a panel and create one. `newId` is the id a new document gets. */
  function Post(users: seq<User>, teams: seq<Team>, subs: seq<Submission>, caller: Id, c: Content,
                perm: seq<nat>, now: int, newId: Id): (o: Posted)
    requires IsShuffle(perm, |PoolIds(users)|)
    ensures o.result.Err? ==> o.submissions == subs
    ensures o.result.Ok? ==> CallerTeam(users, teams, caller).Ok?
  {
    match CallerTeam(users, teams, caller)
    case Err(f) => Posted(Err(f), subs)
    case Ok(team) => PostForTeam(users, subs, team, c, perm, now, newId)
  }

  /** A caller who belongs to no team is refused, and nothing is created or changed. */
  lemma PostWithoutTeam(users: seq<User>, teams: seq<Team>, subs: seq<Submission>, caller: Id, c: Content,
                        perm: seq<nat>, now: int, newId: Id, j: nat)
    requires IsShuffle(perm, |PoolIds(users)|)
    requires j < |users| && users[j].id == caller && users[j].teamId.None?
    requires forall i :: 0 <= i < |users| && i != j ==> users[i].id != caller
    ensures Post(users, teams, subs, caller, c, perm, now, newId) == Posted(Err(NotInTeam), subs)
  {
    assert UserIndex(users, caller) == Some(j);
  }

  /** A team that already has a submission gets its content fields and
      `updatedAt` overwritten; its status and panel stay, and no panel is
      drawn, so the size of the pool plays no part. */
  lemma PostUpdates(users: seq<User>, teams: seq<Team>, subs: seq<Submission>, caller: Id, c: Content,
                    perm: seq<nat>, now: int, newId: Id, i: nat)
    requires IsShuffle(perm, |PoolIds(users)|)
    requires CallerTeam(users, teams, caller).Ok? && i < |subs|
    requires subs[i].team == CallerTeam(users, teams, caller).value
    requires forall k :: 0 <= k < i ==> subs[k].team != subs[i].team
    ensures var o := Post(users, teams, subs, caller, c, perm, now, newId);
      && |o.submissions| == |subs|
      && (forall k :: 0 <= k < |subs| && k != i ==> o.submissions[k] == subs[k])
      && (o.result.Ok? <==> ValidSubmission(WithContent(subs[i], c, now)))
      && (o.result.Ok? ==> o.result.value == subs[i].id && o.submissions[i] == WithContent(subs[i], c, now))
      && o.submissions[i].status == subs[i].status
      && o.submissions[i].assignedEvaluators == subs[i].assignedEvaluators
      && (o.result.Err? ==> o.result.failure == ValidationFailed)
  {
    assert SubmissionOfTeam(subs, subs[i].team) == Some(i);
  }

  /** A team without a submission, while fewer than three evaluators are
      approved, is refused and nothing is stored. */
  lemma PostWithoutPanel(users: seq<User>, teams: seq<Team>, subs: seq<Submission>, caller: Id, c: Content,
                         perm: seq<nat>, now: int, newId: Id)
    requires IsShuffle(perm, |PoolIds(users)|)
    requires CallerTeam(users, teams, caller).Ok?
    requires forall k :: 0 <= k < |subs| ==> subs[k].team != CallerTeam(users, teams, caller).value
    requires |PoolIds(users)| < PanelSize
    ensures Post(users, teams, subs, caller, c, perm, now, newId) == Posted(Err(InsufficientEvaluators), subs)
  {
    assert SubmissionOfTeam(subs, CallerTeam(users, teams, caller).value).None?;
  }

  /** A new submission is appended `under_review`, with the drawn panel (three
      distinct approved evaluators) and a deadline thirty days out. */
  lemma PostCreates(users: seq<User>, teams: seq<Team>, subs: seq<Submission>, caller: Id, c: Content,
                    perm: seq<nat>, now: int, newId: Id)
    requires IsShuffle(perm, |PoolIds(users)|)
    requires forall i, j :: 0 <= i < j < |users| ==> users[i].id != users[j].id
    requires CallerTeam(users, teams, caller).Ok?
    requires forall k :: 0 <= k < |subs| ==> subs[k].team != CallerTeam(users, teams, caller).value
    ensures var o := Post(users, teams, subs, caller, c, perm, now, newId);
      o.result.Ok? ==>
        && o.result.value == newId && |o.submissions| == |subs| + 1 && o.submissions[..|subs|] == subs
        && var s := o.submissions[|subs|];
           && s.id == newId && s.team == CallerTeam(users, teams, caller).value
           && s.status == UnderReview && s.deadline == Some(now + ThirtyDaysMs)
           && s.assignedEvaluators == SelectPanel(PoolIds(users), perm).value
           && PanelOk(s.assignedEvaluators, users)
    ensures var o := Post(users, teams, subs, caller, c, perm, now, newId);
      o.result.Err? ==> o.result.failure in {InsufficientEvaluators, ValidationFailed}
  {
    assert SubmissionOfTeam(subs, CallerTeam(users, teams, caller).value).None?;
    PoolIdsApproved(users);
  }

  /** The handler keeps the store's submission invariant: ids newId and
      distinct, one submission per team, each valid and carrying a full
      panel; and statuses and panels of existing submissions never change. */
  lemma PostKeepsSubmissionsOk(users: seq<User>, teams: seq<Team>, subs: seq<Submission>, caller: Id,
                               c: Content, perm: seq<nat>, now: int, newId: Id)
    requires IsShuffle(perm, |PoolIds(users)|)
    requires UsersOk(users, newId) && SubmissionsOk(subs, users, newId)
    ensures var o := Post(users, teams, subs, caller, c, perm, now, newId);
      && SubmissionsOk(o.submissions, users, if |o.submissions| == |subs| then newId else newId + 1)
      && Forward(subs, o.submissions)
      && (|o.submissions| == |subs| || |o.submissions| == |subs| + 1)
  {
    match CallerTeam(users, teams, caller)
    case Err(_) =>
    case Ok(team) =>
      match SubmissionOfTeam(subs, team)
      case Some(i) =>
        var s := WithContent(subs[i], c, now);
        if ValidSubmission(s) {
          ReplaceKeepsSubmissionsOk(subs, users, newId, i, s);
        }
      case None =>
        match SelectPanel(PoolIds(users), perm)
        case None =>
        case Some(panel) =>
          var s := NewSubmission(newId, team, c, panel, now);
          if ValidSubmission(s) {
            PoolIdsApproved(users);
            AppendKeepsSubmissionsOk(subs, users, newId, s);
          }
  }

  /** `GET /my-assignments`: refused to anyone but an evaluator; otherwise
      the submissions whose panel names the caller, each stored one once. */
  function MyAssignments(role: Role, caller: Id, subs: seq<Submission>): (r: Result<seq<Submission>>)
    ensures r.Err? <==> role != Evaluator
    ensures r.Err? ==> r.failure == Forbidden
    ensures r.Ok? ==> forall k :: 0 <= k < |r.value| ==> r.value[k] in subs && caller in r.value[k].assignedEvaluators
    ensures r.Ok? ==> forall k :: 0 <= k < |subs| && caller in subs[k].assignedEvaluators ==> subs[k] in r.value
    ensures r.Ok? ==> |r.value| == Count((s: Submission) => caller in s.assignedEvaluators, subs)
  {
    if role != Evaluator then Err(Forbidden)
    else
      var mine := (s: Submission) => caller in s.assignedEvaluators;
      FilterMembers(mine, subs);
      Ok(Filter(mine, subs))
  }

  /** `GET /my-team`: the caller's team's submission, `null` when the team has
      none yet; a caller without a team gets "No team found". */
  function MyTeam(users: seq<User>, subs: seq<Submission>, caller: Id): (r: Result<Option<Submission>>)
    ensures r == Err(Crashed) <==> forall j :: 0 <= j < |users| ==> users[j].id != caller
    ensures r.Err? ==> r.failure in {Crashed, NotFound("No team found")}
    ensures r == Err(NotFound("No team found")) <==>
      exists j :: 0 <= j < |users| && users[j].id == caller && users[j].teamId.None?
                  && forall i :: 0 <= i < j ==> users[i].id != caller
    ensures r.Ok? && r.value.Some? ==> r.value.value in subs
    ensures r.Ok? && r.value.Some? ==>
      exists i :: 0 <= i < |subs| && subs[i] == r.value.value
        && forall k :: 0 <= k < i ==> subs[k].team != subs[i].team
    ensures r.Ok? ==>
      exists j :: 0 <= j < |users| && users[j].id == caller && users[j].teamId.Some?
        && (forall k :: 0 <= k < j ==> users[k].id != caller)
        && (r.value.Some? ==> r.value.value.team == users[j].teamId.value)
        && (r.value.None? ==> forall k :: 0 <= k < |subs| ==> subs[k].team != users[j].teamId.value)
  {
    match UserIndex(users, caller)
    case None => Err(Crashed)
    case Some(j) =>
      match users[j].teamId
      case None => Err(NotFound("No team found"))
      case Some(team) =>
        match SubmissionOfTeam(subs, team)
        case None => Ok(None)
        case Some(i) => Ok(Some(subs[i]))
  }

  /** Editing stored submission `i` in place and saving it. */
  method UpdateSubmission(db: Db, i: nat, c: Content, now: int) returns (r: Result<Id>)
    requires db.Valid() && i < |db.submissions|
    modifies db`submissions
    ensures db.Valid()
    ensures var o := Edit(old(db.submissions), i, c, now); r == o.result && db.submissions == o.submissions
    ensures Forward(old(db.submissions), db.submissions)
  {
    var s := WithContent(db.submissions[i], c, now);
    if !ValidSubmission(s) {
      return Err(ValidationFailed);
    }
    ReplaceKeepsSubmissionsOk(db.submissions, db.users, db.nextId, i, s);
    db.submissions := db.submissions[i := s];
    r := Ok(s.id);
  }

  /** Drawing a panel, building the new submission and saving it. */
  method CreateSubmission(db: Db, team: Id, c: Content, perm: seq<nat>, now: int) returns (r: Result<Id>)
    requires db.Valid() && IsShuffle(perm, |PoolIds(db.users)|)
    requires forall k :: 0 <= k < |db.submissions| ==> db.submissions[k].team != team
    modifies db`submissions, db`nextId
    ensures db.Valid()
    ensures var o := Create(old(db.users), old(db.submissions), team, c, perm, now, old(db.nextId));
      r == o.result && db.submissions == o.submissions
    ensures Forward(old(db.submissions), db.submissions)
    ensures db.nextId == old(db.nextId) + (if |db.submissions| > |old(db.submissions)| then 1 else 0)
  {
    var panel := SelectPanel(PoolIds(db.users), perm);
    if panel.None? {
      return Err(InsufficientEvaluators);
    }
    var s := NewSubmission(db.nextId, team, c, panel.value, now);
    if !ValidSubmission(s) {
      return Err(ValidationFailed);
    }
    PoolIdsApproved(db.users);
    AppendKeepsSubmissionsOk(db.submissions, db.users, db.nextId, s);
    db.submissions := db.submissions + [s];
    db.nextId := db.nextId + 1;
    r := Ok(s.id);
  }

  /** Updating or creating the submission of team `team`, run against the store. */
  method SaveForTeam(db: Db, team: Id, c: Content, perm: seq<nat>, now: int) returns (r: Result<Id>)
    requires db.Valid() && IsShuffle(perm, |PoolIds(db.users)|)
    modifies db`submissions, db`nextId
    ensures db.Valid()
    ensures var o := PostForTeam(old(db.users), old(db.submissions), team, c, perm, now, old(db.nextId));
      r == o.result && db.submissions == o.submissions
    ensures Forward(old(db.submissions), db.submissions)
    ensures db.nextId == old(db.nextId) + (if |db.submissions| > |old(db.submissions)| then 1 else 0)
  {
    var existing := SubmissionOfTeam(db.submissions, team);
    if existing.Some? {
      r := UpdateSubmission(db, existing.value, c, now);
    } else {
      r := CreateSubmission(db, team, c, perm, now);
    }
  }

  /** The POST handler run against the store. */
  method CreateOrUpdate(db: Db, caller: Id, c: Content, perm: seq<nat>, now: int) returns (r: Result<Id>)
    requires db.Valid()
    requires IsShuffle(perm, |PoolIds(db.users)|)
    modifies db`submissions, db`nextId
    ensures db.Valid()
    ensures var o := Post(old(db.users), old(db.teams), old(db.submissions), caller, c, perm, now, old(db.nextId));
      r == o.result && db.submissions == o.submissions
    ensures Forward(old(db.submissions), db.submissions)
    ensures db.users == old(db.users) && db.teams == old(db.teams)
    ensures db.evaluations == old(db.evaluations) && db.assignments == old(db.assignments)
    ensures db.nextId == old(db.nextId) + (if |db.submissions| > |old(db.submissions)| then 1 else 0)
  {
    var team := CallerTeam(db.users, db.teams, caller);
    if team.Err? {
      return Err(team.failure);
    }
    r := SaveForTeam(db, team.value, c, perm, now);
  }
}
