/** The alternative registration route (routes/userRoutes.js). It answers
    400 when `username`, `email` or `password` is falsy, otherwise builds
    `new User({ username, email, password })` and saves it, answering 201
    with the new user's id, username and email. A failed save is 409 for a
    duplicate-key error, with a message chosen by the first field of the
    offending index, and 500 for anything else.

    Against the User model the route is written for a different schema:
    `username` is not a path of the User schema (so it is dropped) and `name`
    is required, so every save that gets past the field check fails
    validation and the route never writes. */
module UserRoutes {
  import opened Base
  import opened UserSchema

  /** The request body; `None` is an absent field. */
  datatype Body = Body(username: Option<string>, email: Option<string>, password: Option<string>)

  /** What a failed `save()` throws: a MongoDB duplicate-key error (code
      11000) with the fields of the index that refused the document, in
      order, or any other error. */
  datatype SaveError = DuplicateKeyError(keyPattern: seq<string>) | OtherError

  /** The user in a 201 reply: only these three fields. `username` is read
      back from the saved document, which has no such path. */
  datatype PublicUser = PublicUser(id: Id, username: Option<string>, email: string)

  datatype Reply = Reply(status: nat, message: string, user: Option<PublicUser>)

  const RequiredMessage: string := "Username, email, and password are required"
  const SuccessMessage: string := "User registered successfully"
  const EmailExistsMessage: string := "A user with this email already exists."
  const UsernameTakenMessage: string := "This username is already taken."
  const DuplicateMessage: string := "Registration failed due to duplicate data."
  const ServerErrorMessage: string := "Server error"

  /** The 409 message: chosen by `Object.keys(error.keyPattern)[0]`, which is
      `undefined` for an empty pattern. */
  function ConflictMessage(keyPattern: seq<string>): (m: string)
    ensures m == EmailExistsMessage <==> keyPattern != [] && keyPattern[0] == "email"
    ensures m == UsernameTakenMessage <==> keyPattern != [] && keyPattern[0] == "username"
    ensures m in {EmailExistsMessage, UsernameTakenMessage, DuplicateMessage}
  {
    if keyPattern != [] && keyPattern[0] == "email" then EmailExistsMessage
    else if keyPattern != [] && keyPattern[0] == "username" then UsernameTakenMessage
    else DuplicateMessage
  }

  /** Only the first field of the index decides the message. */
  lemma ConflictMessageFirstField(f: string, rest: seq<string>, rest': seq<string>)
    ensures ConflictMessage([f] + rest) == ConflictMessage([f] + rest')
  {
  }

  /** The reply to a failed save. */
  function ErrorReply(e: SaveError): (r: Reply)
    ensures r.user.None?
    ensures r.status == 409 <==> e.DuplicateKeyError?
    ensures r.status == 500 <==> e.OtherError?
    ensures e.DuplicateKeyError? ==> r.message == ConflictMessage(e.keyPattern)
  {
    match e
    case DuplicateKeyError(keyPattern) => Reply(409, ConflictMessage(keyPattern), None)
    case OtherError => Reply(500, ServerErrorMessage, None)
  }

  /** The reply to a successful save. */
  function SuccessReply(u: User): (r: Reply)
    ensures r.status == 201 && r.user == Some(PublicUser(u.id, None, u.email))
  {
    Reply(201, SuccessMessage, Some(PublicUser(u.id, None, u.email)))
  }

  /** The document the route builds: `username` has no path in the schema
      and is dropped, the password is stored as given. */
  function DocOf(body: Body): UserDoc
  {
    UserDoc(None, body.email, if body.password.Some? then Some(Plain(body.password.value)) else None,
            None, None, None, None, None, None)
  }

  /** What the route answers and the users it leaves. */
  datatype Outcome = Outcome(reply: Reply, users: seq<User>)

  /** POST /register. A validation error is not a duplicate-key error. */
  function Register(users: seq<User>, body: Body, id: Id, now: int): (o: Outcome)
    ensures o.reply.status == 400 <==> !(Truthy(body.username) && Truthy(body.email) && Truthy(body.password))
    ensures o.reply.status == 400 ==> o.reply == Reply(400, RequiredMessage, None) && o.users == users
  {
    if !(Truthy(body.username) && Truthy(body.email) && Truthy(body.password)) then
      Outcome(Reply(400, RequiredMessage, None), users)
    else match Build(id, DocOf(body), now)
      case Err(_) => Outcome(ErrorReply(OtherError), users)
      case Ok(u) => Outcome(SuccessReply(u), users + [u])
  }

  /** The document lacks the required `name`, so whatever the body, the route
      never stores a user: a complete body is answered 500, never 201 or 409. */
  lemma RegisterNeverStores(users: seq<User>, body: Body, id: Id, now: int)
    ensures var o := Register(users, body, id, now);
      o.users == users && o.reply.user.None?
      && (o.reply.status == 500 <==> Truthy(body.username) && Truthy(body.email) && Truthy(body.password))
      && o.reply.status in {400, 500}
  {
    assert Build(id, DocOf(body), now) == Err(ValidationFailed);
  }
}
