/** POST /api/teams/add-member (routes/teams.js): a team lead adds a user,
    found by email, to the lead's team. The checks run in order — the caller
    leads a team, the team has room, the email names a user, that user is in
    no team — and only when all pass is the member id appended to the team
    and the user's `teamId` pointed at it. */
module Teams {
  import opened Base
  import Text
  import opened UserSchema
  import opened TeamSchema
  import opened Store

  /** `Team.findOne({ teamLead: caller })`. */
  function LedTeam(teams: seq<Team>, caller: Id): (r: Option<nat>)
    ensures r.Some? ==> r.value < |teams| && teams[r.value].teamLead == caller
    ensures r.Some? ==> forall k :: 0 <= k < r.value ==> teams[k].teamLead != caller
    ensures r.None? <==> forall j :: 0 <= j < |teams| ==> teams[j].teamLead != caller
  {
    Find(teams, (t: Team) => t.teamLead == caller)
  }

  /** The team list with one member appended to team `i`. */
  function WithMember(t: Team, uid: Id): (r: Team)
    ensures r.id == t.id && r.teamName == t.teamName && r.teamLead == t.teamLead
    ensures r.members == t.members + [uid]
  {
    t.(members := t.members + [uid])
  }

  /** What the handler answers and the two collections it leaves. */
  datatype Added = Added(result: Result<Team>, teams: seq<Team>, users: seq<User>)

  /** The handler. `team.save()` runs the Team validators on the grown team. */
  function AddMember(teams: seq<Team>, users: seq<User>, caller: Id, memberEmail: Option<string>): (o: Added)
    ensures o.result.Err? ==> o.teams == teams && o.users == users
    ensures o.result.Ok? ==> |o.teams| == |teams| && |o.users| == |users| && ValidTeam(o.result.value)
  {
    match LedTeam(teams, caller)
    case None => Added(Err(NotFound("Team not found")), teams, users)
    case Some(i) =>
      if |teams[i].members| >= MaxMembers then Added(Err(TeamFull), teams, users)
      else match EmailLookup(users, memberEmail)
        case None => Added(Err(NotFound("User not found")), teams, users)
        case Some(j) =>
          if users[j].teamId.Some? then Added(Err(AlreadyInTeam), teams, users)
          else
            var t := WithMember(teams[i], users[j].id);
            if !ValidTeam(t) then Added(Err(ValidationFailed), teams, users)
            else Added(Ok(t), teams[i := t], users[j := users[j].(teamId := Some(t.id))])
  }

  /** A caller who leads no team is told "Team not found", and nothing changes. */
  lemma AddMemberWithoutTeam(teams: seq<Team>, users: seq<User>, caller: Id, memberEmail: Option<string>)
    requires forall i :: 0 <= i < |teams| ==> teams[i].teamLead != caller
    ensures AddMember(teams, users, caller, memberEmail) == Added(Err(NotFound("Team not found")), teams, users)
  {
  }

  /** `teams[i]` is the team `findOne` returns for the caller. */
  ghost predicate FirstLedBy(teams: seq<Team>, caller: Id, i: nat)
  {
    i < |teams| && teams[i].teamLead == caller && forall k :: 0 <= k < i ==> teams[k].teamLead != caller
  }

  /** `users[j]` is the user `findOne` returns for the email. */
  ghost predicate FirstWithEmail(users: seq<User>, email: Option<string>, j: nat)
  {
    email.Some? && j < |users| && users[j].email == Text.NormalizeEmail(email.value)
    && forall k :: 0 <= k < j ==> users[k].email != Text.NormalizeEmail(email.value)
  }

  lemma LedTeamIs(teams: seq<Team>, caller: Id, i: nat)
    requires FirstLedBy(teams, caller, i)
    ensures LedTeam(teams, caller) == Some(i)
  {
  }

  lemma EmailLookupIs(users: seq<User>, email: Option<string>, j: nat)
    requires FirstWithEmail(users, email, j)
    ensures EmailLookup(users, email) == Some(j)
  {
  }

  /** A full team (five members or more) refuses, whoever is named, and nothing changes. */
  lemma AddMemberToFullTeam(teams: seq<Team>, users: seq<User>, caller: Id, memberEmail: Option<string>, i: nat)
    requires FirstLedBy(teams, caller, i) && |teams[i].members| >= MaxMembers
    ensures AddMember(teams, users, caller, memberEmail) == Added(Err(TeamFull), teams, users)
  {
    LedTeamIs(teams, caller, i);
  }

  /** With room in the team, an email that matches no user is "User not found",
      and nothing changes. */
  lemma AddMemberUnknownEmail(teams: seq<Team>, users: seq<User>, caller: Id, memberEmail: string, i: nat)
    requires FirstLedBy(teams, caller, i) && |teams[i].members| < MaxMembers
    requires forall j :: 0 <= j < |users| ==> users[j].email != Text.NormalizeEmail(memberEmail)
    ensures AddMember(teams, users, caller, Some(memberEmail)) == Added(Err(NotFound("User not found")), teams, users)
  {
    LedTeamIs(teams, caller, i);
  }

  /** With room in the team, a request without `memberEmail` finds nobody:
      404 "User not found", and nothing changes. */
  lemma AddMemberWithoutEmail(teams: seq<Team>, users: seq<User>, caller: Id, i: nat)
    requires FirstLedBy(teams, caller, i) && |teams[i].members| < MaxMembers
    ensures AddMember(teams, users, caller, None) == Added(Err(NotFound("User not found")), teams, users)
    ensures StatusCode(NotFound("User not found")) == 404
  {
    LedTeamIs(teams, caller, i);
  }

  /** A user who already has a team cannot be added to another, and nothing changes. */
  lemma AddMemberAlreadyInTeam(teams: seq<Team>, users: seq<User>, caller: Id, memberEmail: Option<string>, i: nat, j: nat)
    requires FirstLedBy(teams, caller, i) && |teams[i].members| < MaxMembers
    requires FirstWithEmail(users, memberEmail, j) && users[j].teamId.Some?
    ensures AddMember(teams, users, caller, memberEmail) == Added(Err(AlreadyInTeam), teams, users)
  {
    LedTeamIs(teams, caller, i);
    EmailLookupIs(users, memberEmail, j);
  }

  /** When every check passes the member is appended to the lead's team, the
      team grows by exactly one and stays within five, and the member's
      `teamId` names the team; no other team or user changes. */
  lemma AddMemberSucceeds(teams: seq<Team>, users: seq<User>, caller: Id, memberEmail: Option<string>, i: nat, j: nat)
    requires FirstLedBy(teams, caller, i) && |teams[i].members| < MaxMembers && |teams[i].teamName| > 0
    requires FirstWithEmail(users, memberEmail, j) && users[j].teamId.None?
    ensures var o := AddMember(teams, users, caller, memberEmail);
      && o.result.Ok?
      && o.teams == teams[i := teams[i].(members := teams[i].members + [users[j].id])]
      && o.users == users[j := users[j].(teamId := Some(teams[i].id))]
      && |o.teams[i].members| == |teams[i].members| + 1 <= MaxMembers
  {
    LedTeamIs(teams, caller, i);
    EmailLookupIs(users, memberEmail, j);
  }

  /** Whatever the outcome, the store stays consistent: ids, emails, team
      validators and unique names are kept, and the team/member link holds in
      both directions. */
  lemma AddMemberKeepsStore(teams: seq<Team>, users: seq<User>, caller: Id, memberEmail: Option<string>, next: nat)
    requires TeamsOk(teams, next) && UsersOk(users, next) && Linked(teams, users)
    ensures var o := AddMember(teams, users, caller, memberEmail);
      TeamsOk(o.teams, next) && UsersOk(o.users, next) && Linked(o.teams, o.users)
  {
    var o := AddMember(teams, users, caller, memberEmail);
    if o.result.Ok? {
      var i := LedTeam(teams, caller).value;
      var j := EmailLookup(users, memberEmail).value;
      var t := WithMember(teams[i], users[j].id);
      assert o.teams == teams[i := t] && o.users == users[j := users[j].(teamId := Some(t.id))];
      TeamGrowKeepsTeamsOk(teams, next, i, t);
      RelinkKeepsUsersOk(users, next, j, t.id);
      LinkGrows(teams, users, i, j);
    }
  }

  lemma TeamGrowKeepsTeamsOk(teams: seq<Team>, next: nat, i: nat, t: Team)
    requires TeamsOk(teams, next) && i < |teams| && ValidTeam(t)
    requires t.id == teams[i].id && t.teamName == teams[i].teamName
    ensures TeamsOk(teams[i := t], next)
  {
    var teams' := teams[i := t];
    forall a, b | 0 <= a < b < |teams'| ensures teams'[a].teamName != teams'[b].teamName {
      assert teams[a].teamName != teams[b].teamName;
    }
  }

  lemma RelinkKeepsUsersOk(users: seq<User>, next: nat, j: nat, tid: Id)
    requires UsersOk(users, next) && j < |users|
    ensures UsersOk(users[j := users[j].(teamId := Some(tid))], next)
  {
    var users' := users[j := users[j].(teamId := Some(tid))];
    forall a | 0 <= a < |users'| ensures users'[a].id == users[a].id && users'[a].email == users[a].email {
    }
  }

  /** Appending user `j`, who had no team, to team `i` and pointing the user at
      that team keeps the two-way link. */
  lemma LinkGrows(teams: seq<Team>, users: seq<User>, i: nat, j: nat)
    requires Linked(teams, users) && i < |teams| && j < |users| && users[j].teamId.None?
    ensures Linked(teams[i := WithMember(teams[i], users[j].id)], users[j := users[j].(teamId := Some(teams[i].id))])
  {
    var t := WithMember(teams[i], users[j].id);
    var teams', users' := teams[i := t], users[j := users[j].(teamId := Some(teams[i].id))];
    forall a, k | 0 <= a < |teams'| && 0 <= k < |teams'[a].members|
      ensures HasTeam(users', teams'[a].members[k], teams'[a].id)
    {
      if a == i && k == |teams[i].members| {
        assert users'[j].id == teams'[a].members[k] && users'[j].teamId == Some(teams'[a].id);
      } else {
        assert teams'[a].members[k] == teams[a].members[k] && teams'[a].id == teams[a].id;
        assert HasTeam(users, teams[a].members[k], teams[a].id);
        var b :| 0 <= b < |users| && users[b].id == teams[a].members[k] && users[b].teamId == Some(teams[a].id);
        assert b != j;
        assert users'[b] == users[b];
      }
    }
    forall b | 0 <= b < |users'| && users'[b].teamId.Some?
      ensures HasMember(teams', users'[b].teamId.value, users'[b].id)
    {
      if b == j {
        assert users'[b].id in teams'[i].members;
      } else {
        assert users'[b] == users[b];
        assert HasMember(teams, users[b].teamId.value, users[b].id);
        var a :| 0 <= a < |teams| && teams[a].id == users[b].teamId.value && users[b].id in teams[a].members;
        assert teams'[a].id == teams[a].id && users[b].id in teams'[a].members;
      }
    }
  }

  /** The handler run against the store: the team is saved with its new
      member, then the member with its new `teamId`. */
  method AddTeamMember(db: Db, caller: Id, memberEmail: Option<string>) returns (r: Result<Team>)
    requires db.Valid()
    modifies db
    ensures db.Valid()
    ensures var o := AddMember(old(db.teams), old(db.users), caller, memberEmail);
      r == o.result && db.teams == o.teams && db.users == o.users
    ensures db.submissions == old(db.submissions) && db.evaluations == old(db.evaluations)
    ensures db.assignments == old(db.assignments) && db.nextId == old(db.nextId)
  {
    AddMemberKeepsStore(db.teams, db.users, caller, memberEmail, db.nextId);
    var lead := LedTeam(db.teams, caller);
    if lead.None? {
      return Err(NotFound("Team not found"));
    }
    var i := lead.value;
    if |db.teams[i].members| >= MaxMembers {
      return Err(TeamFull);
    }
    var found := EmailLookup(db.users, memberEmail);
    if found.None? {
      return Err(NotFound("User not found"));
    }
    var j := found.value;
    if db.users[j].teamId.Some? {
      return Err(AlreadyInTeam);
    }
    var t := WithMember(db.teams[i], db.users[j].id);
    if !ValidTeam(t) {
      return Err(ValidationFailed);
    }
    db.teams := db.teams[i := t];
    var member := db.users[j].(teamId := Some(t.id));
    ApprovedGrows(db.users, j, member);
    db.users := db.users[j := member];
    r := Ok(t);
  }
}
