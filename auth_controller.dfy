/** Registration, login and logout. The session token is an opaque pair of
    user id and role (its signing and expiry are not part of this model); it
    travels in the `token` cookie. */
module AuthController {
  import opened Common
  import opened Bcrypt
  import opened UserModel
  import opened Db

  /** What `generateToken(user._id, user.role)` embeds. */
  datatype Token = Token(userId: Id, role: Role)

  /** The cookie value: a token, or the empty string that logout writes. */
  datatype CookieValue = Jwt(token: Token) | Cleared

  datatype SameSite = Strict

  /** The cookie options the handlers set; `maxAge` and `expires` in milliseconds. */
  datatype Cookie = Cookie(
    name: string, value: CookieValue, httpOnly: bool, secure: bool,
    sameSite: Option<SameSite>, maxAge: Option<int>, expires: Option<int>)

  /** Seven days in milliseconds. */
  const SessionMaxAge: int := 7 * 24 * 60 * 60 * 1000

  /** The session cookie: HTTP-only, strict same-site, secure in production, kept for seven days. */
  function SessionCookie(token: Token, production: bool): (c: Cookie)
    ensures c.name == "token" && c.value == Jwt(token)
    ensures c.httpOnly && c.secure == production && c.sameSite == Some(Strict)
    ensures c.maxAge == Some(604800000) && c.expires.None?
  {
    Cookie("token", Jwt(token), true, production, Some(Strict), Some(SessionMaxAge), None)
  }

  /** The status, the JSON body and the cookie of a successful register or login. */
  datatype AuthResponse = AuthResponse(status: nat, user: Profile, cookie: Cookie)

  /** The response that issues a session for user `id`: its profile, never its
      password, and a token built from its id and role. */
  function Session(id: Id, u: User, status: nat, production: bool): (r: AuthResponse)
    ensures r.status == status && r.user == Profile(id, u.name, u.email, u.role)
    ensures r.cookie == SessionCookie(Token(id, u.role), production)
  {
    AuthResponse(status, Profile(id, u.name, u.email, u.role), SessionCookie(Token(id, u.role), production))
  }

  const UserExists: Error := HttpError(400, "User already exists")
  const InvalidCredentials: Error := HttpError(401, "Invalid email or password")

  /** `registerUser`: a taken email fails with 400 and adds nobody; input the
      schema rejects adds nobody; otherwise exactly one user is stored, with
      the hashed password and the requested (or default) role, and the 201
      response carries its profile and a token for it. */
  method RegisterUser(db: Database, name: string, email: string, password: string, role: Option<string>,
                      production: bool, now: int) returns (r: Result<AuthResponse>)
    requires db.Valid()
    modifies db
    ensures db.Valid() && db.tasks == old(db.tasks)
    ensures EmailTaken(old(db.users), email) ==> r == Err(UserExists) && db.users == old(db.users)
    ensures !EmailTaken(old(db.users), email) && SchemaErrors(name, email, password, role) != [] ==>
              r == Err(ValidationError(SchemaErrors(name, email, password, role))) && db.users == old(db.users)
    ensures !EmailTaken(old(db.users), email) && SchemaErrors(name, email, password, role) == [] ==>
              && r.Ok?
              && var id := r.value.user.id;
                 && id !in old(db.users)
                 && db.users == old(db.users)[id := User(name, email, Hash(password, SaltRounds(production)),
                                                         RoleOf(role).value, now)]
                 && r.value == Session(id, db.users[id], 201, production)
                 && db.users[id].password != password
                 && MatchPassword(db.users[id], password)
  {
    if FindByEmail(db.users, email).Some? {
      return Err(UserExists);
    }
    var errors := SchemaErrors(name, email, password, role);
    if errors != [] {
      return Err(ValidationError(errors));
    }
    var doc := new UserDocument(name, email, password, RoleOf(role).value);
    doc.Save(production);
    var user := doc.Stored(now);
    var id := db.InsertUser(user);
    r := Ok(Session(id, user, 201, production));
  }

  /** `authUser`: succeeds exactly when a user has that email and the password
      matches it; an unknown email and a wrong password give the same 401.
      The handler calls `matchPassword` twice; both calls read only, so one stands for them. */
  function AuthUser(users: map<Id, User>, email: string, password: string, production: bool): (r: Result<AuthResponse>)
    requires EmailsUnique(users)
    ensures r.Ok? <==> exists id :: id in users && users[id].email == email && MatchPassword(users[id], password)
    ensures r.Ok? ==> r.value.status == 200 && r.value.user.id in users &&
                      r.value == Session(r.value.user.id, users[r.value.user.id], 200, production) &&
                      users[r.value.user.id].email == email
    ensures r.Err? ==> r.error == InvalidCredentials
  {
    match FindByEmail(users, email)
    case Some(id) =>
      if MatchPassword(users[id], password) then Ok(Session(id, users[id], 200, production))
      else Err(InvalidCredentials)
    case None => Err(InvalidCredentials)
  }

  datatype LogoutResponse = LogoutResponse(cookie: Cookie, message: string)

  /** `logoutUser`: overwrites the `token` cookie with the empty string, expired at the epoch. */
  function LogoutUser(): (r: LogoutResponse)
    ensures r.cookie.name == "token" && r.cookie.value == Cleared && r.cookie.expires == Some(0)
    ensures r.cookie.httpOnly && r.message == "Logged out"
  {
    LogoutResponse(Cookie("token", Cleared, true, false, None, None, Some(0)), "Logged out")
  }

  /** The logout cookie replaces a session cookie (same name) and carries no token. */
  lemma LogoutClearsSession(token: Token, production: bool)
    ensures LogoutUser().cookie.name == SessionCookie(token, production).name
    ensures LogoutUser().cookie.value != SessionCookie(token, production).value
  {
  }

  /** Once a user is registered with password `plaintext`, logging in with its
      email succeeds with exactly that password, and the session is for that
      user; the cost factor of the registration and the setting at login may differ. */
  lemma LoginAfterRegister(users: map<Id, User>, id: Id, u: User, plaintext: string,
                           entered: string, hashedInProduction: bool, production: bool)
    requires EmailsUnique(users) && !EmailTaken(users, u.email) && id !in users
    requires u.password == Hash(plaintext, SaltRounds(hashedInProduction))
    ensures EmailsUnique(users[id := u])
    ensures AuthUser(users[id := u], u.email, entered, production).Ok? <==> entered == plaintext
    ensures entered == plaintext ==>
              AuthUser(users[id := u], u.email, entered, production) == Ok(Session(id, u, 200, production))
  {
    var after := users[id := u];
    assert EmailsUnique(after) by {
      forall a, b | a in after && b in after && after[a].email == after[b].email
        ensures a == b
      {
        if a != id && b != id {
          assert users[a].email == users[b].email;
        }
      }
    }
    assert FindByEmail(after, u.email) == Some(id);
    MatchHashedPassword(u, plaintext, entered, SaltRounds(hashedInProduction));
  }
}
