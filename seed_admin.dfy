/** The start-up reconciliation that creates the administrator account when
    no user has its email. Connecting to the database and exiting the process
    are not part of this model. */
module SeedAdmin {
  import opened Common
  import opened Bcrypt
  import opened UserModel
  import opened Db

  const AdminName: string := "Admin"
  const AdminEmail: string := "admin@example.com"
  const AdminPassword: string := "Admin@123"

  /** The administrator as stored at time `now`, its password hashed by the pre-save hook. */
  function SeededAdmin(production: bool, now: int): (u: User)
    ensures u.name == AdminName && u.email == AdminEmail && u.role == AdminRole && u.createdAt == now
    ensures WellFormed(u) && u.password != AdminPassword && MatchPassword(u, AdminPassword)
  {
    User(AdminName, AdminEmail, Hash(AdminPassword, SaltRounds(production)), AdminRole, now)
  }

  /** `seedAdmin`: nothing when a user with the admin email exists (whatever
      its role); otherwise exactly one new user, the administrator. Either way
      a user with that email exists afterwards. */
  method SeedAdmin(db: Database, production: bool, now: int) returns (created: Option<Id>)
    requires db.Valid()
    modifies db
    ensures db.Valid() && db.tasks == old(db.tasks)
    ensures EmailTaken(old(db.users), AdminEmail) ==> created == None && db.users == old(db.users)
    ensures !EmailTaken(old(db.users), AdminEmail) ==>
              && created.Some? && created.value !in old(db.users)
              && db.users == old(db.users)[created.value := SeededAdmin(production, now)]
    ensures EmailTaken(db.users, AdminEmail)
  {
    if FindByEmail(db.users, AdminEmail).Some? {
      return None;
    }
    var doc := new UserDocument(AdminName, AdminEmail, AdminPassword, AdminRole);
    doc.Save(production);
    var id := db.InsertUser(doc.Stored(now));
    assert db.users[id].email == AdminEmail;
    created := Some(id);
  }

  /** Seeding twice leaves the store as seeding once does: the second run creates nobody. */
  method SeedTwice(db: Database, production: bool, first: int, second: int)
    returns (firstRun: Option<Id>, secondRun: Option<Id>)
    requires db.Valid()
    modifies db
    ensures db.Valid() && db.tasks == old(db.tasks) && secondRun == None
    ensures EmailTaken(old(db.users), AdminEmail) ==> firstRun == None && db.users == old(db.users)
    ensures !EmailTaken(old(db.users), AdminEmail) ==>
              && firstRun.Some? && firstRun.value !in old(db.users)
              && db.users == old(db.users)[firstRun.value := SeededAdmin(production, first)]
  {
    firstRun := SeedAdmin(db, production, first);
    secondRun := SeedAdmin(db, production, second);
  }
}
