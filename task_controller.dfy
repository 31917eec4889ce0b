/** The task handlers. Every route passes through the authentication
    middleware first, so each handler receives the requesting user's id. All
    of them confine the requester to the tasks it owns. */
module TaskController {
  import opened Common
  import opened TaskModel
  import opened Db

  /** `getTasks`: the requester's own tasks, and no others. */
  function GetTasks(tasks: map<Id, Task>, requester: Id): (r: map<Id, Task>)
    ensures forall id :: id in r <==> id in tasks && tasks[id].owner == requester
    ensures forall id :: id in r ==> r[id] == tasks[id]
  {
    map id | id in tasks && tasks[id].owner == requester :: tasks[id]
  }

  const NotFound: Error := HttpError(404, "Task not found")
  const NotFoundOrUnauthorized: Error := HttpError(404, "Task not found or unauthorized")
  const NotOwner: Error := HttpError(403, "Not authorized to delete this task")

  /** `getTaskById`: the task if the requester owns it; a missing task and
      somebody else's task give the same 404. */
  function GetTaskById(tasks: map<Id, Task>, requester: Id, id: Id): (r: Result<Task>)
    ensures r.Ok? <==> id in tasks && tasks[id].owner == requester
    ensures r.Ok? ==> r.value == tasks[id]
    ensures r.Err? ==> r.error == NotFound
  {
    if id in tasks && tasks[id].owner == requester then Ok(tasks[id]) else Err(NotFound)
  }

  /** The assignments `task.title = title || task.title` and
      `task.description = description || task.description`: a falsy field
      (absent or empty) keeps the old value; owner and creation time never change. */
  function ApplyUpdate(t: Task, title: Option<string>, description: Option<string>): (r: Task)
    ensures r.title == (if Truthy(title) then title else t.title)
    ensures r.description == (if Truthy(description) then description else t.description)
    ensures r.owner == t.owner && r.createdAt == t.createdAt
  {
    t.(title := Or(title, t.title), description := Or(description, t.description))
  }

  /** `createTask`: stores one new task owned by the requester with the given
      fields; every existing task is kept as it was. */
  method CreateTask(db: Database, requester: Id, title: Option<string>, description: Option<string>, now: int)
    returns (id: Id, created: Task)
    requires db.Valid() && requester in db.users
    modifies db
    ensures db.Valid()
    ensures created == Task(title, description, requester, now)
    ensures id !in old(db.tasks) && db.tasks == old(db.tasks)[id := created]
    ensures db.users == old(db.users)
  {
    created := Task(title, description, requester, now);
    id := db.InsertTask(created);
  }

  /** `updateTask`: on an owned task, applies the partial update and saves it;
      otherwise 404, with the store unchanged. */
  method UpdateTask(db: Database, requester: Id, id: Id, title: Option<string>, description: Option<string>)
    returns (r: Result<Task>)
    requires db.Valid() && requester in db.users
    modifies db
    ensures db.Valid() && db.users == old(db.users)
    ensures r.Ok? <==> id in old(db.tasks) && old(db.tasks)[id].owner == requester
    ensures r.Ok? ==>
              r.value == ApplyUpdate(old(db.tasks)[id], title, description) &&
              db.tasks == old(db.tasks)[id := r.value]
    ensures r.Err? ==> r.error == NotFoundOrUnauthorized && db.tasks == old(db.tasks)
  {
    if id in db.tasks && db.tasks[id].owner == requester {
      var updated := ApplyUpdate(db.tasks[id], title, description);
      db.ReplaceTask(id, updated);
      r := Ok(updated);
    } else {
      r := Err(NotFoundOrUnauthorized);
    }
  }

  /** `deleteTask`: 404 for a missing task, 403 for somebody else's (the
      store unchanged in both cases); the owner's request removes exactly that task. */
  method DeleteTask(db: Database, requester: Id, id: Id) returns (r: Result<string>)
    requires db.Valid() && requester in db.users
    modifies db
    ensures db.Valid() && db.users == old(db.users)
    ensures id !in old(db.tasks) ==> r == Err(NotFound) && db.tasks == old(db.tasks)
    ensures id in old(db.tasks) && old(db.tasks)[id].owner != requester ==>
              r == Err(NotOwner) && db.tasks == old(db.tasks)
    ensures id in old(db.tasks) && old(db.tasks)[id].owner == requester ==>
              r == Ok("Task removed") && db.tasks == old(db.tasks) - {id}
  {
    if id !in db.tasks {
      return Err(NotFound);
    }
    if db.tasks[id].owner != requester {
      return Err(NotOwner);
    }
    db.RemoveTask(id);
    r := Ok("Task removed");
  }

  /** Applying the same update twice gives the task that applying it once gives. */
  lemma UpdateIsIdempotent(t: Task, title: Option<string>, description: Option<string>)
    ensures ApplyUpdate(ApplyUpdate(t, title, description), title, description)
         == ApplyUpdate(t, title, description)
  {
  }

  /** An update whose fields are all falsy changes nothing. */
  lemma FalsyUpdateKeepsTask(t: Task, title: Option<string>, description: Option<string>)
    requires !Truthy(title) && !Truthy(description)
    ensures ApplyUpdate(t, title, description) == t
  {
  }

  /** `getTaskById` succeeds exactly on the tasks that `getTasks` lists, with the same contents. */
  lemma GetTaskByIdAgreesWithGetTasks(tasks: map<Id, Task>, requester: Id, id: Id)
    ensures GetTaskById(tasks, requester, id).Ok? <==> id in GetTasks(tasks, requester)
    ensures id in GetTasks(tasks, requester) ==>
              GetTaskById(tasks, requester, id) == Ok(GetTasks(tasks, requester)[id])
  {
  }

  /** Two different users never see a common task. */
  lemma ListsAreDisjoint(tasks: map<Id, Task>, u: Id, v: Id)
    requires u != v
    ensures GetTasks(tasks, u).Keys !! GetTasks(tasks, v).Keys
  {
  }

  /** After a task is created, its owner's list gains exactly that task and
      every other user's list is as before. */
  lemma GetTasksAfterCreate(tasks: map<Id, Task>, id: Id, t: Task, u: Id)
    requires id !in tasks
    ensures GetTasks(tasks[id := t], u)
         == if t.owner == u then GetTasks(tasks, u)[id := t] else GetTasks(tasks, u)
  {
  }

  /** After a task is deleted, no list holds it and every other task is still listed. */
  lemma GetTasksAfterDelete(tasks: map<Id, Task>, id: Id, u: Id)
    ensures GetTasks(tasks - {id}, u) == GetTasks(tasks, u) - {id}
  {
  }

  /** Replacing a task with one of the same owner leaves every other user's list unchanged. */
  lemma GetTasksAfterUpdate(tasks: map<Id, Task>, id: Id, t: Task, u: Id)
    requires id in tasks && t.owner == tasks[id].owner
    ensures GetTasks(tasks[id := t], u)
         == if t.owner == u then GetTasks(tasks, u)[id := t] else GetTasks(tasks, u)
  {
  }
}
