/** The User document (models/User.js): the role enumeration and its
    default, the `approved` flag defaulting to false, the normalised (but not
    unique) email, the required trimmed name and the required password of at
    least six characters. */
module UserSchema {
  import opened Base
  import Text

  datatype Role = Participant | Evaluator | Admin

  function RoleName(r: Role): string
  {
    match r
    case Participant => "participant"
    case Evaluator => "evaluator"
    case Admin => "admin"
  }

  /** The `enum` validator of `role`. */
  function ParseRole(s: string): (r: Option<Role>)
    ensures r.Some? ==> RoleName(r.value) == s
    ensures r.None? ==> forall role: Role :: RoleName(role) != s
  {
    if s == "participant" then Some(Participant)
    else if s == "evaluator" then Some(Evaluator)
    else if s == "admin" then Some(Admin)
    else None
  }

  lemma RoleNamesRoundTrip(r: Role)
    ensures ParseRole(RoleName(r)) == Some(r)
  {
  }

  const DefaultRole: Role := Participant

  /** The stored password: either a bcrypt hash of a plain password (the
      registration handlers hash before saving) or, where nothing hashes it,
      the plain text itself. */
  datatype Secret = Plain(text: string) | Hashed(of: string)

  /** bcrypt's output is always 60 characters long. */
  const BcryptLength: nat := 60

  /** The length the `minlength` validator sees. */
  function StoredLength(p: Secret): nat
  {
    match p
    case Plain(t) => |t|
    case Hashed(_) => BcryptLength
  }

  /** `bcrypt.compare(given, stored)`: true only against the hash of the same text. */
  predicate PasswordMatches(given: string, stored: Secret)
  {
    stored.Hashed? && stored.of == given
  }

  datatype User = User(
    id: Id,
    name: string,
    email: string,
    password: Secret,
    role: Role,
    address: Option<string>,
    phone: Option<string>,
    qualification: Option<string>,
    experience: Option<string>,
    teamId: Option<Id>,
    approved: bool,
    createdAt: int)

  predicate IsApprovedEvaluator(u: User)
  {
    u.role == Evaluator && u.approved
  }

  /** The fields a handler passes to `new User({...})`, before casting and
      validation (`None` is an absent or `undefined` field). */
  datatype UserDoc = UserDoc(
    name: Option<string>,
    email: Option<string>,
    password: Option<Secret>,
    role: Option<string>,
    address: Option<string>,
    phone: Option<string>,
    qualification: Option<string>,
    experience: Option<string>,
    approved: Option<bool>)

  /** The role a document gets: the schema default when none is given. */
  function CastRole(role: Option<string>): (r: Option<Role>)
    ensures role.None? ==> r == Some(Participant)
    ensures role.Some? && r.Some? ==> RoleName(r.value) == role.value
    ensures role.Some? ==> (r.Some? <==> role.value == "participant" || role.value == "evaluator" || role.value == "admin")
  {
    match role
    case None => Some(DefaultRole)
    case Some(s) => ParseRole(s)
  }

  /** Construct and validate a User document as `save()` does: apply the
      setters and defaults, then fail if any validator rejects it. */
  function Build(id: Id, doc: UserDoc, now: int): (r: Result<User>)
    ensures r.Err? ==> r.failure == ValidationFailed
    ensures r.Ok? <==>
      && doc.name.Some? && Text.Trim(doc.name.value) != []
      && doc.email.Some? && Text.NormalizeEmail(doc.email.value) != []
      && doc.password.Some? && StoredLength(doc.password.value) >= 6
      && CastRole(doc.role).Some?
    ensures r.Ok? ==>
      && r.value.id == id
      && r.value.name == Text.Trim(doc.name.value)
      && r.value.email == Text.NormalizeEmail(doc.email.value)
      && r.value.password == doc.password.value
      && Some(r.value.role) == CastRole(doc.role)
      && r.value.approved == (doc.approved == Some(true))
      && r.value.teamId == None
      && r.value.address == Text.TrimOption(doc.address) && r.value.phone == Text.TrimOption(doc.phone)
      && r.value.qualification == Text.TrimOption(doc.qualification)
      && r.value.experience == Text.TrimOption(doc.experience)
  {
    if doc.name.None? || Text.Trim(doc.name.value) == [] then Err(ValidationFailed)
    else if doc.email.None? || Text.NormalizeEmail(doc.email.value) == [] then Err(ValidationFailed)
    else if doc.password.None? || StoredLength(doc.password.value) < 6 then Err(ValidationFailed)
    else match CastRole(doc.role)
      case None => Err(ValidationFailed)
      case Some(role) =>
        Ok(User(id, Text.Trim(doc.name.value), Text.NormalizeEmail(doc.email.value), doc.password.value,
                role, Text.TrimOption(doc.address), Text.TrimOption(doc.phone), Text.TrimOption(doc.qualification),
                Text.TrimOption(doc.experience), None, doc.approved == Some(true), now))
  }

  /** The validators a later `save()` of a stored user runs: the setters are
      applied again to the stored name and email, then `required` and
      `minlength` are checked (the role is in the enumeration by its type). */
  predicate PassesValidators(u: User)
  {
    Text.Trim(u.name) != [] && Text.NormalizeEmail(u.email) != [] && StoredLength(u.password) >= 6
  }

  /** A user that saved once passes the validators again, since the setters
      give back what they stored. */
  lemma BuildPassesValidators(id: Id, doc: UserDoc, now: int)
    ensures Build(id, doc, now).Ok? ==> PassesValidators(Build(id, doc, now).value)
  {
    if Build(id, doc, now).Ok? {
      Text.TrimIdempotent(doc.name.value);
      Text.NormalizeEmailIdempotent(doc.email.value);
    }
  }

  /** A hashed password always satisfies `minlength: 6`. */
  lemma HashedPasswordLongEnough(p: string)
    ensures StoredLength(Hashed(p)) >= 6
  {
  }
}
