/** The two MongoDB collections the controllers use, as one in-memory store.
    Map lookup, insert and remove stand for `findById`/`findOne`, `save`/`create`
    and `deleteOne`; `nextId` stands for the driver's generation of fresh ObjectIds. */
module Db {
  import opened Common
  import opened UserModel
  import opened TaskModel

  class Database {
    var users: map<Id, User>
    var tasks: map<Id, Task>
    var nextId: Id

    /** Every id handed out so far is below `nextId`; the schema's constraints
        hold of every stored user (required fields, a unique email, a hashed
        password); and every task's owner is a stored user. */
    ghost predicate Valid()
      reads this
    {
      && (forall id :: id in users ==> id < nextId)
      && (forall id :: id in tasks ==> id < nextId)
      && EmailsUnique(users)
      && (forall id :: id in users ==> WellFormed(users[id]))
      && (forall id :: id in tasks ==> tasks[id].owner in users)
    }

    constructor ()
      ensures Valid() && users == map[] && tasks == map[]
    {
      users, tasks, nextId := map[], map[], 0;
    }

    /** Writes a new user document under a fresh id. The caller has checked the
        unique index; a concurrent duplicate is not part of this model. */
    method InsertUser(u: User) returns (id: Id)
      requires Valid() && WellFormed(u) && !EmailTaken(users, u.email)
      modifies this
      ensures Valid()
      ensures id !in old(users) && id !in old(tasks)
      ensures users == old(users)[id := u] && tasks == old(tasks)
    {
      id := nextId;
      users := users[id := u];
      nextId := nextId + 1;
    }

    /** Writes a new task document under a fresh id. */
    method InsertTask(t: Task) returns (id: Id)
      requires Valid() && t.owner in users
      modifies this
      ensures Valid()
      ensures id !in old(tasks) && id !in old(users)
      ensures tasks == old(tasks)[id := t] && users == old(users)
    {
      id := nextId;
      tasks := tasks[id := t];
      nextId := nextId + 1;
    }

    /** Saves an existing task document with new contents. */
    method ReplaceTask(id: Id, t: Task)
      requires Valid() && id in tasks && t.owner in users
      modifies this
      ensures Valid()
      ensures tasks == old(tasks)[id := t] && users == old(users)
    {
      tasks := tasks[id := t];
    }

    /** `deleteOne({ _id: id })`: removes the task if it is there. */
    method RemoveTask(id: Id)
      requires Valid()
      modifies this
      ensures Valid()
      ensures tasks == old(tasks) - {id} && users == old(users)
    {
      tasks := tasks - {id};
    }
  }
}
