/** Authentication and the role gate: resolving a bearer token to a stored
    user (get_current_user), the mentor-only dependency (require_mentor),
    and the login decision. */
module Auth {
  import opened Http
  import opened Documents

  /** The claims create_access_token signs for a user. The "exp" and "iat"
      claims come from the clock and the signature from the JWT library;
      neither is part of this model. */
  datatype Claims = Claims(userId: Id, email: string)

  /** What verify_token makes of the bearer credential: an expired token, a
      token that fails to decode or verify, or the decoded payload, whose
      user_id claim may be missing. */
  datatype DecodedToken = Expired | Invalid | Payload(userId: Option<string>)

  /** The LoginResponse of register and login. */
  datatype LoginResponse = LoginResponse(accessToken: Claims, tokenType: string, user: User)

  const TokenExpired := Error(Unauthorized, "Token has expired")
  const BadCredentials := Error(Unauthorized, "Could not validate credentials")
  const InvalidPayload := Error(Unauthorized, "Invalid token payload")
  const UserNotFound := Error(Unauthorized, "User not found")
  const MentorsOnly := Error(Forbidden, "Only mentors can access this endpoint")
  const LoginRejected := Error(Unauthorized, "Invalid email or password")

  /** The payload an unexpired token carrying these claims decodes to. */
  function Decode(c: Claims): DecodedToken {
    Payload(Some(c.userId))
  }

  /** Python truthiness of payload.get('user_id'): absent and "" are false. */
  predicate PresentId(userId: Option<string>) {
    userId.Some? && userId.value != ""
  }

  /** get_current_user: a token that did not verify keeps its own 401; a
      payload without a user id, or with an id no stored user has, is 401
      too; otherwise the stored user, without the password digest. */
  function CurrentUser(users: seq<UserDoc>, token: DecodedToken): (r: Result<User>)
    ensures token.Expired? ==> r == Err(TokenExpired)
    ensures token.Invalid? ==> r == Err(BadCredentials)
    ensures token.Payload? && !PresentId(token.userId) ==> r == Err(InvalidPayload)
    ensures token.Payload? && PresentId(token.userId) ==>
      (r.Ok? <==> token.userId.value in UserIds(users))
    ensures token.Payload? && PresentId(token.userId) && r.Err? ==> r.error == UserNotFound
    ensures r.Ok? ==> token.Payload? && exists d :: d in users && d.id == token.userId.value && r.value == Public(d)
  {
    match token
    case Expired => Err(TokenExpired)
    case Invalid => Err(BadCredentials)
    case Payload(userId) =>
      if !PresentId(userId) then Err(InvalidPayload)
      else
        var found := UserById(users, userId.value);
        if found.None? then
          assert forall d :: d in users ==> d.id != userId.value by {
            forall d | d in users ensures d.id != userId.value {
              var j :| 0 <= j < |users| && users[j] == d;
            }
          }
          Err(UserNotFound)
        else Ok(Public(users[found.value]))
  }

  /** Depends(require_mentor): the caller is resolved first, and then every
      role other than "mentor" is turned away with 403. */
  function MentorGate(users: seq<UserDoc>, token: DecodedToken): (r: Result<User>)
    ensures CurrentUser(users, token).Err? ==> r == CurrentUser(users, token)
    ensures CurrentUser(users, token).Ok? && CurrentUser(users, token).value.role != MentorRole ==>
      r == Err(MentorsOnly)
    ensures r.Ok? <==> CurrentUser(users, token).Ok? && CurrentUser(users, token).value.role == MentorRole
    ensures r.Ok? ==> r == CurrentUser(users, token)
  {
    match CurrentUser(users, token)
    case Err(e) => Err(e)
    case Ok(u) => if u.role != MentorRole then Err(MentorsOnly) else Ok(u)
  }

  /** login: the user find_one finds by email must exist and the password
      must check against its digest; both failures give the same 401. */
  function Login(users: seq<UserDoc>, email: string, password: string, checkpw: (string, string) -> bool): (r: Result<LoginResponse>)
    ensures r.Err? ==> r.error == LoginRejected
    ensures UserByEmail(users, email).None? ==> r.Err?
    ensures r.Ok? ==> exists d :: (d in users && d.email == email && checkpw(password, d.password) &&
                                  r.value == LoginResponse(Claims(d.id, d.email), "bearer", Public(d)))
  {
    match UserByEmail(users, email)
    case None => Err(LoginRejected)
    case Some(i) =>
      if !checkpw(password, users[i].password) then Err(LoginRejected)
      else Ok(LoginResponse(Claims(users[i].id, users[i].email), "bearer", Public(users[i])))
  }

  /** With one account per email, login succeeds exactly when some stored
      user has that email and a digest the password checks against. */
  lemma {:induction false} LoginSucceedsIff(users: seq<UserDoc>, email: string, password: string, checkpw: (string, string) -> bool)
    requires UniqueEmails(users)
    ensures Login(users, email, password, checkpw).Ok? <==>
      exists i :: 0 <= i < |users| && users[i].email == email && checkpw(password, users[i].password)
  {
    var found := UserByEmail(users, email);
    if i :| 0 <= i < |users| && users[i].email == email && checkpw(password, users[i].password) {
      assert found.Some?;
    }
  }

  /** The token a login hands out resolves, while it is unexpired, to the
      same user the login returned. */
  lemma LoginTokenResolves(users: seq<UserDoc>, email: string, password: string, checkpw: (string, string) -> bool)
    requires DistinctUserIds(users)
    requires forall d :: d in users ==> d.id != ""
    requires Login(users, email, password, checkpw).Ok?
    ensures CurrentUser(users, Decode(Login(users, email, password, checkpw).value.accessToken)) ==
      Ok(Login(users, email, password, checkpw).value.user)
  {
    var i := UserByEmail(users, email).value;
    UserByIdUnique(users, i);
  }

  /** A user just appended by registration can log in with any password
      that checks against the stored digest, and gets back its own record. */
  lemma {:induction false} RegisteredUserCanLogIn(users: seq<UserDoc>, doc: UserDoc, password: string, checkpw: (string, string) -> bool)
    requires UniqueEmails(users + [doc])
    requires checkpw(password, doc.password)
    ensures Login(users + [doc], doc.email, password, checkpw) ==
      Ok(LoginResponse(Claims(doc.id, doc.email), "bearer", Public(doc)))
  {
    var users' := users + [doc];
    var found := UserByEmail(users', doc.email);
    assert users'[|users|].email == doc.email;
    assert found.Some? && found.value == |users|;
  }

  /** Roles are read from the store on every request, not from the token: as
      soon as a user's stored role becomes "student", that user's token no
      longer passes the mentor gate. */
  lemma {:induction false} DemotedUserLosesMentorAccess(users: seq<UserDoc>, k: nat)
    requires DistinctUserIds(users) && k < |users| && users[k].id != ""
    ensures MentorGate(users[k := users[k].(role := StudentRole)], Payload(Some(users[k].id))) == Err(MentorsOnly)
  {
    var users' := users[k := users[k].(role := StudentRole)];
    assert DistinctUserIds(users');
    UserByIdUnique(users', k);
  }
}
