/** The registration controller (controllers/authController.js). It runs the
    same steps as the register route, except that the role is handed to the
    User model exactly as it came in: an absent role falls to the schema
    default, but an empty one is not replaced by `participant` and fails the
    role enumeration. Its login runs the same checks, in the same order, as
    the login route, so `Auth.Login` models both. */
module AuthController {
  import opened Base
  import Text
  import opened UserSchema
  import opened TeamSchema
  import opened Store
  import opened Auth

  /** `exports.register`. */
  function ControllerRegister(users: seq<User>, teams: seq<Team>, form: Form, uid: Id, tid: Id, now: int): (o: Registered)
    ensures o.result.Ok? ==> o.result.value.approved == SaysParticipant(form.role)
    ensures o.result.Ok? ==> Some(o.result.value.role) == CastRole(form.role)
    ensures o.result.Ok? && form.role.None? ==> o.result.value.role == Participant && !o.result.value.approved
    ensures o.result.Err? ==> o.teams == teams && |users| <= |o.users| <= |users| + 1 && o.users[..|users|] == users
  {
    RegisterAs(users, teams, form, form.role, uid, tid, now)
  }

  /** Validation reads the role of a document only through its cast, so two
      documents that differ only in roles with the same cast build the same user. */
  lemma BuildSeesCastRole(id: Id, doc: UserDoc, role: Option<string>, now: int)
    requires CastRole(doc.role) == CastRole(role)
    ensures Build(id, doc.(role := role), now) == Build(id, doc, now)
  {
  }

  /** Whenever the role is not the empty string the controller and the route
      answer alike and leave the same store: for an absent role the route's
      `role || 'participant'` and the schema default agree. */
  lemma ControllerAgreesWithRoute(users: seq<User>, teams: seq<Team>, form: Form, uid: Id, tid: Id, now: int)
    requires form.role != Some("")
    ensures ControllerRegister(users, teams, form, uid, tid, now) == Register(users, teams, form, uid, tid, now)
  {
    var role := DefaultedRole(form.role);
    assert CastRole(role) == CastRole(form.role);
    if form.password.Some? {
      var doc := UserDocOf(form, form.role, form.password.value);
      BuildSeesCastRole(uid, doc, role, now);
      assert doc.(role := role) == UserDocOf(form, role, form.password.value);
    }
    assert NewUser(form, role, uid, now) == NewUser(form, form.role, uid, now);
  }

  /** An empty role is where the two part: the controller hands `""` to the
      role enumeration and fails validation without writing, while the route,
      with every other field acceptable, stores an unapproved participant. */
  lemma EmptyRoleDiffers(users: seq<User>, teams: seq<Team>, form: Form, uid: Id, tid: Id, now: int)
    requires form.role == Some("")
    requires EmailLookup(users, form.email).None?
    ensures ControllerRegister(users, teams, form, uid, tid, now).result == Err(ValidationFailed) || form.password.None?
    ensures ControllerRegister(users, teams, form, uid, tid, now).users == users
    ensures var o := Register(users, teams, form, uid, tid, now);
      o.result.Ok? ==> o.result.value.role == Participant && !o.result.value.approved
  {
    assert ParseRole("") == None;
  }

  /** A stored email (after the setters) is refused before anything is written. */
  lemma ControllerEmailTaken(users: seq<User>, teams: seq<Team>, form: Form, uid: Id, tid: Id, now: int, j: nat)
    requires form.email.Some? && j < |users| && users[j].email == Text.NormalizeEmail(form.email.value)
    ensures ControllerRegister(users, teams, form, uid, tid, now) == Registered(Err(EmailTaken), users, teams)
    ensures StatusCode(EmailTaken) == 400
  {
  }

  /** A participant who names a team leads and is the only member of the new
      team, and the stored user points back at it. */
  lemma ControllerCreatesTeam(users: seq<User>, teams: seq<Team>, form: Form, uid: Id, tid: Id, now: int)
    ensures var o := ControllerRegister(users, teams, form, uid, tid, now);
      o.result.Ok? && WantsTeam(form) ==>
        && o.teams == teams + [NewTeam(tid, form.teamName.value, uid, [uid], now)]
        && o.result.value.teamId == Some(tid) && o.users == users + [o.result.value]
  {
  }
}
