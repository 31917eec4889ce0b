/** The User model: its schema (required name, email and password, a unique
    email, a role limited to "user" and "admin" with "user" as default), the
    pre-save hook that hashes a modified password, and `matchPassword`. */
module UserModel {
  import opened Common
  import opened Bcrypt

  datatype Role = UserRole | AdminRole

  /** The string the schema's `role` enum stores. */
  function RoleName(role: Role): string {
    match role
    case UserRole => "user"
    case AdminRole => "admin"
  }

  /** A stored user document; `createdAt` is the insertion time from `timestamps: true`. */
  datatype User = User(name: string, email: string, password: string, role: Role, createdAt: int)

  /** What `.select("-password")` leaves of a user document, among the fields
      modelled here (`updatedAt` and `__v` are not). */
  datatype PublicUser = PublicUser(id: Id, name: string, email: string, role: Role, createdAt: int)

  /** The four fields the auth handlers send back. */
  datatype Profile = Profile(id: Id, name: string, email: string, role: Role)

  /** The role the schema stores for the `role` field of a request: the default
      when it is absent, the enum value when it names one, and nothing (a
      validation failure) otherwise. */
  function RoleOf(given: Option<string>): (r: Option<Role>)
    ensures given.None? ==> r == Some(UserRole)
    ensures given.Some? ==> (r.Some? <==> given.value == "user" || given.value == "admin")
    ensures given.Some? && r.Some? ==> RoleName(r.value) == given.value
  {
    match given
    case None => Some(UserRole)
    case Some(s) =>
      if s == "user" then Some(UserRole)
      else if s == "admin" then Some(AdminRole)
      else None
  }

  /** The paths that fail schema validation, in schema order: a required
      string fails when it is empty, the role when it is outside the enum. */
  function SchemaErrors(name: string, email: string, password: string, role: Option<string>): (r: seq<string>)
    ensures r == [] <==> name != "" && email != "" && password != "" && RoleOf(role).Some?
    ensures "name" in r <==> name == ""
    ensures "email" in r <==> email == ""
    ensures "password" in r <==> password == ""
    ensures "role" in r <==> RoleOf(role).None?
  {
    (if name == "" then ["name"] else [])
    + (if email == "" then ["email"] else [])
    + (if password == "" then ["password"] else [])
    + (if RoleOf(role).None? then ["role"] else [])
  }

  /** What every stored user satisfies: the required strings are present and
      the password has been through the pre-save hook. */
  predicate WellFormed(u: User) {
    u.name != "" && u.email != "" && IsHash(u.password)
  }

  /** The unique index on `email`. */
  predicate EmailsUnique(users: map<Id, User>) {
    forall a, b :: a in users && b in users && users[a].email == users[b].email ==> a == b
  }

  /** The admin routes run the authentication and admin-only middleware first:
      the caller is a stored user whose role is admin. */
  predicate IsAdmin(users: map<Id, User>, caller: Id) {
    caller in users && users[caller].role == AdminRole
  }

  predicate EmailTaken(users: map<Id, User>, email: string) {
    exists id :: id in users && users[id].email == email
  }

  /** `User.findOne({ email })`: the one user with that email, if any. */
  function FindByEmail(users: map<Id, User>, email: string): (r: Option<Id>)
    requires EmailsUnique(users)
    ensures r.None? <==> !EmailTaken(users, email)
    ensures r.Some? ==> r.value in users && users[r.value].email == email
    ensures forall id :: id in users && users[id].email == email ==> r == Some(id)
  {
    if EmailTaken(users, email) then
      var id :| id in users && users[id].email == email; Some(id)
    else
      None
  }

  /** The cost factor of the pre-save hook: 10 in production, 6 otherwise. */
  function SaltRounds(production: bool): (r: nat)
    ensures ValidRounds(r)
  {
    if production then 10 else 6
  }

  /** The stored password after the pre-save hook: hashed if the path was
      modified, kept as it is otherwise. */
  function HashIfModified(password: string, modified: bool, rounds: nat): (r: string)
    requires ValidRounds(rounds)
    ensures modified ==> IsHash(r) && r != password && Compare(password, r)
    ensures !modified ==> r == password
  {
    if modified then Hash(password, rounds)
    else password
  }

  /** `user.matchPassword(entered)`: a match is only ever against a stored hash. */
  function MatchPassword(u: User, entered: string): (r: bool)
    ensures r ==> IsHash(u.password)
  {
    Compare(entered, u.password)
  }

  /** Right after the hook hashed `plaintext`, exactly that password matches. */
  lemma MatchHashedPassword(u: User, plaintext: string, entered: string, rounds: nat)
    requires ValidRounds(rounds)
    requires u.password == Hash(plaintext, rounds)
    ensures MatchPassword(u, entered) <==> entered == plaintext
  {
  }

  function WithoutPassword(id: Id, u: User): (r: PublicUser)
    ensures r.id == id && r.name == u.name && r.email == u.email
    ensures r.role == u.role && r.createdAt == u.createdAt
  {
    PublicUser(id, u.name, u.email, u.role, u.createdAt)
  }

  /** `User.find().select("-password")`: every user, with the password left out. */
  function PublicUsers(users: map<Id, User>): (r: map<Id, PublicUser>)
    ensures r.Keys == users.Keys
    ensures forall id :: id in r ==> r[id] == WithoutPassword(id, users[id])
  {
    map id | id in users :: WithoutPassword(id, users[id])
  }

  /** An in-memory Mongoose user document, before and while it is saved.
      `passwordModified` is Mongoose's `isModified("password")`. */
  class UserDocument {
    var name: string
    var email: string
    var password: string
    var role: Role
    var passwordModified: bool

    /** `new User({...})`: every path given to a new document counts as modified. */
    constructor (name: string, email: string, password: string, role: Role)
      ensures this.name == name && this.email == email && this.password == password
      ensures this.role == role && passwordModified
    {
      this.name := name;
      this.email := email;
      this.password := password;
      this.role := role;
      passwordModified := true;
    }

    /** `save()` as the document sees it: the pre-save hook hashes the password
        only if it was modified, and Mongoose then clears the modified flags,
        so saving again leaves the stored password as it is. */
    method Save(production: bool)
      modifies this
      ensures password == HashIfModified(old(password), old(passwordModified), SaltRounds(production))
      ensures !old(passwordModified) ==> password == old(password)
      ensures !passwordModified
      ensures name == old(name) && email == old(email) && role == old(role)
    {
      if passwordModified {
        var rounds := SaltRounds(production);
        password := Hash(password, rounds);
      }
      passwordModified := false;
    }

    /** The document as it is written to the collection at time `createdAt`. */
    function Stored(createdAt: int): (u: User)
      reads this
      ensures u.name == name && u.email == email && u.password == password
      ensures u.role == role && u.createdAt == createdAt
    {
      User(name, email, password, role, createdAt)
    }
  }
}
