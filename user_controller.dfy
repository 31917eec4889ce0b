/** The user handlers: read-only queries that strip the password. */
module UserController {
  import opened Common
  import opened UserModel

  /** `getAllUsers`: every user, with the password left out. Its router
      (routes/users.js) gates it to admins but is not mounted by the server. */
  function GetAllUsers(users: map<Id, User>, caller: Id): (r: map<Id, PublicUser>)
    requires IsAdmin(users, caller)
    ensures r.Keys == users.Keys
    ensures forall id :: id in r ==> r[id] == WithoutPassword(id, users[id])
  {
    PublicUsers(users)
  }

  /** `getMe`: 401 without a user id in the request; otherwise the user
      without its password, or null when no such user is stored. */
  function GetMe(users: map<Id, User>, userId: Option<Id>): (r: Result<Option<PublicUser>>)
    ensures r.Err? <==> userId.None?
    ensures r.Err? ==> r.error == HttpError(401, "Not authorized")
    ensures r.Ok? ==> (r.value.Some? <==> userId.value in users)
    ensures r.Ok? && r.value.Some? ==> r.value.value == WithoutPassword(userId.value, users[userId.value])
  {
    match userId
    case None => Err(HttpError(401, "Not authorized"))
    case Some(id) => Ok(if id in users then Some(WithoutPassword(id, users[id])) else None)
  }

  /** `getMe` returns the same record the user list holds for that id. */
  lemma GetMeAgreesWithGetAllUsers(users: map<Id, User>, caller: Id, id: Id)
    requires IsAdmin(users, caller)
    ensures GetMe(users, Some(id))
         == Ok(if id in GetAllUsers(users, caller) then Some(GetAllUsers(users, caller)[id]) else None)
  {
  }
}
