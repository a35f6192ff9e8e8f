/** Registration and login (routes/auth.js). Registering refuses an email
    that is already stored, hashes the password, stores the user with the role
    defaulted to `participant` and `approved` set only when the role given was
    literally `participant`, and, for a participant who names a team, creates
    that team with the user as lead and only member. Logging in refuses an
    unknown email or a wrong password, and an evaluator who is not yet
    approved. */
module Auth {
  import opened Base
  import Text
  import opened UserSchema
  import opened TeamSchema
  import opened SubmissionSchema
  import opened EvaluationSchema
  import opened Store

  /** The request body; `None` is an absent field. */
  datatype Form = Form(
    name: Option<string>,
    email: Option<string>,
    password: Option<string>,
    role: Option<string>,
    address: Option<string>,
    phone: Option<string>,
    qualification: Option<string>,
    experience: Option<string>,
    teamName: Option<string>)

  /** `role === 'participant'`. */
  predicate SaysParticipant(role: Option<string>)
  {
    role == Some("participant")
  }

  /** `role || 'participant'`. */
  function DefaultedRole(role: Option<string>): (r: Option<string>)
    ensures Truthy(role) ==> r == role
    ensures !Truthy(role) ==> r == Some("participant")
  {
    if Truthy(role) then role else Some("participant")
  }

  /** The document `new User({...})` is given: the hashed password, the role
      the handler passes, and `approved: role === 'participant'` on the role
      as it came in. */
  function UserDocOf(form: Form, role: Option<string>, password: string): UserDoc
  {
    UserDoc(form.name, form.email, Some(Hashed(password)), role, form.address, form.phone,
            form.qualification, form.experience, Some(SaysParticipant(form.role)))
  }

  /** A participant who names a team gets one. */
  predicate WantsTeam(form: Form)
  {
    SaysParticipant(form.role) && Truthy(form.teamName)
  }

  /** Hashing the password and saving the new user: an absent password makes
      the hash throw; otherwise the User validators decide. */
  function NewUser(form: Form, role: Option<string>, uid: Id, now: int): (r: Result<User>)
    ensures r.Err? ==> r.failure in {Crashed, ValidationFailed}
    ensures r.Ok? ==>
      && form.password.Some? && form.email.Some?
      && r.value.id == uid && r.value.teamId == None
      && r.value.email == Text.NormalizeEmail(form.email.value)
      && r.value.password == Hashed(form.password.value)
      && Some(r.value.role) == CastRole(role)
      && r.value.approved == SaysParticipant(form.role)
      && PassesValidators(r.value)
  {
    if form.password.None? then Err(Crashed)
    else
      BuildPassesValidators(uid, UserDocOf(form, role, form.password.value), now);
      Build(uid, UserDocOf(form, role, form.password.value), now)
  }

  /** What registering answers and the two collections it leaves. */
  datatype Registered = Registered(result: Result<User>, users: seq<User>, teams: seq<Team>)

  /** The team step, after user `u` is saved: a participant who names a team
      gets a new team `tid` led by `u` with `u` as its only member, and `u` is
      saved again pointing at it. A team that fails its validators or the
      unique name index fails the request, with `u` already stored. */
  function TeamStep(users: seq<User>, teams: seq<Team>, form: Form, u: User, tid: Id, now: int): (o: Registered)
    ensures !WantsTeam(form) ==> o.result == Ok(u) && o.users == users + [u] && o.teams == teams
    ensures WantsTeam(form) ==> o.result.Err? ==> o.users == users + [u] && o.teams == teams
    ensures WantsTeam(form) ==> o.result.Ok? ==>
      && o.result.value == u.(teamId := Some(tid)) && o.users == users + [o.result.value]
      && o.teams == teams + [NewTeam(tid, form.teamName.value, u.id, [u.id], now)]
      && ValidTeam(NewTeam(tid, form.teamName.value, u.id, [u.id], now))
      && forall i :: 0 <= i < |teams| ==> teams[i].teamName != Text.Trim(form.teamName.value)
  {
    if !WantsTeam(form) then Registered(Ok(u), users + [u], teams)
    else
      var t := NewTeam(tid, form.teamName.value, u.id, [u.id], now);
      if !ValidTeam(t) then Registered(Err(ValidationFailed), users + [u], teams)
      else if exists i :: 0 <= i < |teams| && teams[i].teamName == t.teamName then
        Registered(Err(DuplicateKey), users + [u], teams)
      else
        var u' := u.(teamId := Some(tid));
        Registered(Ok(u'), users + [u'], teams + [t])
  }

  /** The registration steps shared by the route and the controller, which
      differ only in the role they hand to the User model. `uid` and `tid` are
      the ids the new user and team get. */
  function RegisterAs(users: seq<User>, teams: seq<Team>, form: Form, role: Option<string>,
                      uid: Id, tid: Id, now: int): (o: Registered)
    ensures o.result.Ok? ==> o.users == users + [o.result.value] && o.result.value.id == uid
    ensures o.result.Ok? ==> o.result.value.approved == SaysParticipant(form.role)
    ensures o.result.Ok? ==>
      && form.email.Some? && o.result.value.email == Text.NormalizeEmail(form.email.value)
      && form.password.Some? && o.result.value.password == Hashed(form.password.value)
      && Some(o.result.value.role) == CastRole(role)
      && forall j :: 0 <= j < |users| ==> users[j].email != o.result.value.email
  {
    if EmailLookup(users, form.email).Some? then Registered(Err(EmailTaken), users, teams)
    else match NewUser(form, role, uid, now)
      case Err(f) => Registered(Err(f), users, teams)
      case Ok(u) => TeamStep(users, teams, form, u, tid, now)
  }

  /** POST /api/auth/register. */
  function Register(users: seq<User>, teams: seq<Team>, form: Form, uid: Id, tid: Id, now: int): (o: Registered)
    ensures EmailLookup(users, form.email).Some? ==> o == Registered(Err(EmailTaken), users, teams)
    ensures o.result.Err? ==> o.teams == teams
    ensures o.result.Ok? ==>
      && o.users == users + [o.result.value] && o.result.value.id == uid
      && (o.result.value.approved <==> SaysParticipant(form.role))
      && (Truthy(form.role) ==> Some(o.result.value.role) == ParseRole(form.role.value))
      && (!Truthy(form.role) ==> o.result.value.role == Participant && !o.result.value.approved)
  {
    RegisterAs(users, teams, form, DefaultedRole(form.role), uid, tid, now)
  }

  /** An email that is already stored (after the setters) is refused before
      anything is written. */
  lemma RegisterEmailTaken(users: seq<User>, teams: seq<Team>, form: Form, uid: Id, tid: Id, now: int, j: nat)
    requires form.email.Some? && j < |users| && users[j].email == Text.NormalizeEmail(form.email.value)
    ensures Register(users, teams, form, uid, tid, now) == Registered(Err(EmailTaken), users, teams)
  {
  }

  /** The stored role defaults to `participant`, but only a role given
      literally as `participant` is approved: a registration without a role
      yields an unapproved participant. */
  lemma RegisterRole(users: seq<User>, teams: seq<Team>, form: Form, uid: Id, tid: Id, now: int)
    ensures var o := Register(users, teams, form, uid, tid, now);
      o.result.Ok? ==>
        && (Truthy(form.role) ==> Some(o.result.value.role) == ParseRole(form.role.value))
        && (!Truthy(form.role) ==> o.result.value.role == Participant && !o.result.value.approved)
        && (o.result.value.approved <==> SaysParticipant(form.role))
  {
  }

  /** A participant who names a team becomes the lead and only member of a new
      team, and the stored user points back at it; anyone else leaves the
      teams alone. */
  lemma RegisterCreatesTeam(users: seq<User>, teams: seq<Team>, form: Form, uid: Id, tid: Id, now: int)
    ensures var o := Register(users, teams, form, uid, tid, now);
      o.result.Ok? ==>
        if WantsTeam(form) then
          && o.teams == teams + [o.teams[|teams|]]
          && o.teams[|teams|].id == tid && o.teams[|teams|].teamLead == uid && o.teams[|teams|].members == [uid]
          && o.teams[|teams|].teamName == Text.Trim(form.teamName.value)
          && o.result.value.teamId == Some(tid)
        else
          o.teams == teams && o.result.value.teamId == None
  {
  }

  /** A registration keeps the store consistent: with the next two ids for
      the user and the team, ids stay fresh and distinct, emails distinct,
      team names unique and valid, and the team/member link two-way; the
      approved pool can only grow. */
  lemma RegisterKeepsStore(users: seq<User>, teams: seq<Team>, form: Form, role: Option<string>, next: nat, now: int)
    requires UsersOk(users, next) && TeamsOk(teams, next) && Linked(teams, users)
    ensures var o := RegisterAs(users, teams, form, role, next, next + 1, now);
      UsersOk(o.users, next + 2) && TeamsOk(o.teams, next + 2) && Linked(o.teams, o.users)
      && ApprovedIds(users) <= ApprovedIds(o.users)
  {
    var o := RegisterAs(users, teams, form, role, next, next + 1, now);
    if o.users != users {
      var u := o.users[|users|];
      assert o.users == users + [u];
      ApprovedGrowsAppend(users, u);
      assert form.email.Some? && u.email == Text.NormalizeEmail(form.email.value);
      AppendUserKeepsUsersOk(users, next, u);
      if o.teams == teams {
        assert u.teamId == None;
        AppendUserKeepsLinked(teams, users, u);
      } else {
        var t := o.teams[|teams|];
        assert o.teams == teams + [t];
        AppendTeamKeepsTeamsOk(teams, next, t);
        AppendBothKeepsLinked(teams, users, t, u);
      }
    }
  }

  /** The same, for the whole store: what registering `o` leaves is
      consistent with the id counter advanced exactly when the user was saved. */
  lemma RegisterKeepsStoreOk(users: seq<User>, teams: seq<Team>, subs: seq<Submission>, evals: seq<Evaluation>,
                             assignments: seq<Assignment>, form: Form, role: Option<string>, next: nat, now: int)
    requires StoreOk(users, teams, subs, evals, assignments, next)
    ensures var o := RegisterAs(users, teams, form, role, next, next + 1, now);
      StoreOk(o.users, o.teams, subs, evals, assignments, if |o.users| > |users| then next + 2 else next)
  {
    var o := RegisterAs(users, teams, form, role, next, next + 1, now);
    if |o.users| > |users| {
      RegisterKeepsStore(users, teams, form, role, next, now);
      SubmissionsKeepPanels(subs, users, o.users, next, next + 2);
    }
  }

  lemma AppendUserKeepsUsersOk(users: seq<User>, next: nat, u: User)
    requires UsersOk(users, next) && u.id == next && PassesValidators(u)
    requires forall j :: 0 <= j < |users| ==> users[j].email != u.email
    ensures UsersOk(users + [u], next + 2)
  {
    var users' := users + [u];
    forall a, b | 0 <= a < b < |users'| ensures users'[a].id != users'[b].id && users'[a].email != users'[b].email {
      assert users'[a] == users[a];
      if b < |users| { assert users'[b] == users[b]; }
    }
  }

  lemma AppendTeamKeepsTeamsOk(teams: seq<Team>, next: nat, t: Team)
    requires TeamsOk(teams, next) && t.id == next + 1 && ValidTeam(t)
    requires forall i :: 0 <= i < |teams| ==> teams[i].teamName != t.teamName
    ensures TeamsOk(teams + [t], next + 2)
  {
    var teams' := teams + [t];
    forall a, b | 0 <= a < b < |teams'| ensures teams'[a].id != teams'[b].id && teams'[a].teamName != teams'[b].teamName {
      assert teams'[a] == teams[a];
      if b < |teams| { assert teams'[b] == teams[b]; }
    }
  }

  lemma AppendUserKeepsLinked(teams: seq<Team>, users: seq<User>, u: User)
    requires Linked(teams, users) && u.teamId == None
    ensures Linked(teams, users + [u])
  {
    var users' := users + [u];
    forall a, k | 0 <= a < |teams| && 0 <= k < |teams[a].members|
      ensures HasTeam(users', teams[a].members[k], teams[a].id)
    {
      var b :| 0 <= b < |users| && users[b].id == teams[a].members[k] && users[b].teamId == Some(teams[a].id);
      assert users'[b] == users[b];
    }
    forall b | 0 <= b < |users'| && users'[b].teamId.Some?
      ensures HasMember(teams, users'[b].teamId.value, users'[b].id)
    {
      assert users'[b] == users[b];
    }
  }

  lemma AppendBothKeepsLinked(teams: seq<Team>, users: seq<User>, t: Team, u: User)
    requires Linked(teams, users) && u.teamId == Some(t.id) && t.members == [u.id]
    ensures Linked(teams + [t], users + [u])
  {
    var teams', users' := teams + [t], users + [u];
    forall a, k | 0 <= a < |teams'| && 0 <= k < |teams'[a].members|
      ensures HasTeam(users', teams'[a].members[k], teams'[a].id)
    {
      if a == |teams| {
        assert users'[|users|] == u;
      } else {
        assert teams'[a] == teams[a];
        var b :| 0 <= b < |users| && users[b].id == teams[a].members[k] && users[b].teamId == Some(teams[a].id);
        assert users'[b] == users[b];
      }
    }
    forall b | 0 <= b < |users'| && users'[b].teamId.Some?
      ensures HasMember(teams', users'[b].teamId.value, users'[b].id)
    {
      if b == |users| {
        assert teams'[|teams|] == t;
      } else {
        assert users'[b] == users[b];
        var a :| 0 <= a < |teams| && teams[a].id == users[b].teamId.value && users[b].id in teams[a].members;
        assert teams'[a] == teams[a];
      }
    }
  }

  /** POST /api/auth/login: unknown email or wrong password is 401 "Invalid
      credentials"; an absent password makes the comparison throw; an
      evaluator who is not approved is 401 as well; anyone else gets in. */
  function Login(users: seq<User>, email: Option<string>, password: Option<string>): (r: Result<User>)
    ensures email.None? ==> r == Err(InvalidCredentials)
    ensures r.Ok? ==> email.Some? && r.value.email == Text.NormalizeEmail(email.value)
    ensures r.Ok? ==> r.value in users && !(r.value.role == Evaluator && !r.value.approved)
    ensures r.Ok? ==> password.Some? && PasswordMatches(password.value, r.value.password)
    ensures r.Err? ==> r.failure in {InvalidCredentials, PendingApproval, Crashed}
  {
    match EmailLookup(users, email)
    case None => Err(InvalidCredentials)
    case Some(j) =>
      if password.None? then Err(Crashed)
      else if !PasswordMatches(password.value, users[j].password) then Err(InvalidCredentials)
      else if !users[j].approved && users[j].role == Evaluator then Err(PendingApproval)
      else Ok(users[j])
  }

  /** An email that matches no stored user, or none at all, is refused with 401. */
  lemma LoginUnknownEmail(users: seq<User>, email: Option<string>, password: Option<string>)
    requires email.Some? ==> forall j :: 0 <= j < |users| ==> users[j].email != Text.NormalizeEmail(email.value)
    ensures Login(users, email, password) == Err(InvalidCredentials)
    ensures StatusCode(InvalidCredentials) == 401
  {
  }

  /** With emails distinct, the outcome for the user holding that email
      depends only on the password and, for an evaluator, on approval:
      participants and admins get in whatever their `approved` flag. */
  lemma LoginOutcome(users: seq<User>, e: string, p: string, j: nat)
    requires j < |users| && users[j].email == Text.NormalizeEmail(e)
    requires forall k :: 0 <= k < |users| && k != j ==> users[k].email != users[j].email
    ensures Login(users, Some(e), Some(p)) ==
      if !PasswordMatches(p, users[j].password) then Err(InvalidCredentials)
      else if users[j].role == Evaluator && !users[j].approved then Err(PendingApproval)
      else Ok(users[j])
  {
    assert EmailLookup(users, Some(e)) == Some(j);
  }

  /** Whoever has just registered can log in with the same email and password,
      unless they registered as an evaluator, who waits for approval. */
  lemma RegisterThenLogin(users: seq<User>, teams: seq<Team>, form: Form, uid: Id, tid: Id, now: int)
    ensures var o := Register(users, teams, form, uid, tid, now);
      o.result.Ok? ==>
        Login(o.users, form.email, form.password) ==
          if o.result.value.role == Evaluator then Err(PendingApproval) else Ok(o.result.value)
  {
    var o := Register(users, teams, form, uid, tid, now);
    if o.result.Ok? {
      var u := o.result.value;
      assert o.users[|users|] == u;
      var r := EmailLookup(o.users, form.email);
      assert r.Some?;
      assert PasswordMatches(form.password.value, u.password);
      if SaysParticipant(form.role) {
        assert u.role == Participant;
      }
    }
  }

  /** Saving user `u`, then the team step, run against the store. */
  method SaveUserAndTeam(db: Db, form: Form, u: User, tid: Id, now: int) returns (r: Result<User>)
    modifies db
    ensures var o := TeamStep(old(db.users), old(db.teams), form, u, tid, now);
      r == o.result && db.users == o.users && db.teams == o.teams
    ensures unchanged(db`submissions, db`evaluations, db`assignments, db`nextId)
  {
    var before := db.users;
    db.users := before + [u];
    if !WantsTeam(form) {
      return Ok(u);
    }
    var t := NewTeam(tid, form.teamName.value, u.id, [u.id], now);
    if !ValidTeam(t) {
      return Err(ValidationFailed);
    }
    if exists i :: 0 <= i < |db.teams| && db.teams[i].teamName == t.teamName {
      return Err(DuplicateKey);
    }
    db.teams := db.teams + [t];
    var linked := u.(teamId := Some(t.id));
    db.users := before + [linked];
    r := Ok(linked);
  }


  /** Registration run against the store, with the next two ids. */
  method RegisterUser(db: Db, form: Form, role: Option<string>, now: int) returns (r: Result<User>)
    requires db.Valid()
    modifies db
    ensures db.Valid()
    ensures var o := RegisterAs(old(db.users), old(db.teams), form, role, old(db.nextId), old(db.nextId) + 1, now);
      r == o.result && db.users == o.users && db.teams == o.teams
    ensures unchanged(db`submissions, db`evaluations, db`assignments)
    ensures db.nextId == old(db.nextId) + (if |db.users| > |old(db.users)| then 2 else 0)
  {
    var next := db.nextId;
    RegisterKeepsStoreOk(db.users, db.teams, db.submissions, db.evaluations, db.assignments, form, role, next, now);
    var o := RegisterAs(db.users, db.teams, form, role, next, next + 1, now);
    db.users, db.teams, db.nextId := o.users, o.teams, if |o.users| > |db.users| then next + 2 else next;
    r := o.result;
  }
}
