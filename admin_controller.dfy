/** The admin handlers: cross-user listings, the dashboard counts, and the
    one delete that ignores ownership. Each is reached only by an admin. */
module AdminController {
  import opened Common
  import opened UserModel
  import opened TaskModel
  import opened Db

  /** `getAllUsers`: every user, with the password left out. */
  function GetAllUsers(users: map<Id, User>, caller: Id): (r: map<Id, PublicUser>)
    requires IsAdmin(users, caller)
    ensures r.Keys == users.Keys
    ensures forall id :: id in r ==> r[id] == WithoutPassword(id, users[id])
  {
    PublicUsers(users)
  }

  /** What `populate("user", "name email")` puts in place of the owner reference. */
  datatype OwnerInfo = OwnerInfo(id: Id, name: string, email: string)

  datatype AdminTaskView = AdminTaskView(
    title: Option<string>, description: Option<string>, owner: Option<OwnerInfo>, createdAt: int)

  /** A reference to a missing user populates as null. */
  function Populate(users: map<Id, User>, owner: Id): (r: Option<OwnerInfo>)
    ensures r.Some? <==> owner in users
    ensures r.Some? ==> r.value == OwnerInfo(owner, users[owner].name, users[owner].email)
  {
    if owner in users then Some(OwnerInfo(owner, users[owner].name, users[owner].email)) else None
  }

  function View(users: map<Id, User>, t: Task): AdminTaskView {
    AdminTaskView(t.title, t.description, Populate(users, t.owner), t.createdAt)
  }

  /** `getAdminTasks`: every task of every user, each with its owner's name and
      email in place of the reference. */
  function GetAdminTasks(users: map<Id, User>, tasks: map<Id, Task>, caller: Id): (r: map<Id, AdminTaskView>)
    requires IsAdmin(users, caller)
    ensures r.Keys == tasks.Keys
    ensures forall id :: id in r ==>
              r[id].title == tasks[id].title && r[id].description == tasks[id].description &&
              r[id].createdAt == tasks[id].createdAt
    ensures forall id :: id in r && tasks[id].owner in users ==>
              r[id].owner == Some(OwnerInfo(tasks[id].owner, users[tasks[id].owner].name, users[tasks[id].owner].email))
    ensures forall id :: id in r && tasks[id].owner !in users ==> r[id].owner == None
  {
    map id | id in tasks :: View(users, tasks[id])
  }

  /** In a consistent store no owner is missing, so every task comes with its owner. */
  lemma AdminTasksHaveOwners(db: Database, caller: Id, id: Id)
    requires db.Valid() && IsAdmin(db.users, caller) && id in db.tasks
    ensures GetAdminTasks(db.users, db.tasks, caller)[id].owner.Some?
  {
  }

  datatype Stats = Stats(totalUsers: nat, totalTasks: nat, activeToday: nat)

  /** The tasks `countDocuments({ createdAt: { $gte: today } })` counts. */
  function CreatedSince(tasks: map<Id, Task>, start: int): (r: set<Id>)
    ensures r <= tasks.Keys
    ensures forall id :: id in tasks ==> (id in r <==> tasks[id].createdAt >= start)
  {
    set id | id in tasks && tasks[id].createdAt >= start
  }

  lemma {:induction false} SubsetSize(a: set<Id>, b: set<Id>)
    requires a <= b
    ensures |a| <= |b|
    decreases b
  {
    if b != {} {
      var x :| x in b;
      SubsetSize(a - {x}, b - {x});
    }
  }

  /** `getAdminStats`: the number of users, the number of tasks, and the
      number of tasks created at or after `startOfToday` (the local midnight
      the handler computes); the last never exceeds the second. */
  function GetAdminStats(users: map<Id, User>, tasks: map<Id, Task>, startOfToday: int, caller: Id): (r: Stats)
    requires IsAdmin(users, caller)
    ensures r.totalUsers == |users| && r.totalTasks == |tasks|
    ensures r.activeToday == |CreatedSince(tasks, startOfToday)|
    ensures r.activeToday <= r.totalTasks
  {
    var active := CreatedSince(tasks, startOfToday);
    SubsetSize(active, tasks.Keys);
    Stats(|users|, |tasks|, |active|)
  }

  /** `deleteAdminTask`: 404 for a missing task, the store unchanged;
      otherwise the task is removed whoever owns it. */
  method DeleteAdminTask(db: Database, caller: Id, id: Id) returns (r: Result<string>)
    requires db.Valid() && IsAdmin(db.users, caller)
    modifies db
    ensures db.Valid() && db.users == old(db.users)
    ensures id !in old(db.tasks) ==> r == Err(HttpError(404, "Task not found")) && db.tasks == old(db.tasks)
    ensures id in old(db.tasks) ==> r == Ok("Task deleted successfully") && db.tasks == old(db.tasks) - {id}
  {
    if id !in db.tasks {
      return Err(HttpError(404, "Task not found"));
    }
    db.RemoveTask(id);
    r := Ok("Task deleted successfully");
  }

  /** Creating a task adds one to the task count, and one to today's count
      exactly when it is created at or after the start of today. */
  lemma StatsAfterCreate(users: map<Id, User>, tasks: map<Id, Task>, id: Id, t: Task,
                         startOfToday: int, caller: Id)
    requires IsAdmin(users, caller) && id !in tasks
    ensures var before, after := GetAdminStats(users, tasks, startOfToday, caller),
                                 GetAdminStats(users, tasks[id := t], startOfToday, caller);
            && after.totalUsers == before.totalUsers
            && after.totalTasks == before.totalTasks + 1
            && after.activeToday == before.activeToday + (if t.createdAt >= startOfToday then 1 else 0)
  {
    var before, after := CreatedSince(tasks, startOfToday), CreatedSince(tasks[id := t], startOfToday);
    if t.createdAt >= startOfToday {
      assert after == before + {id};
    } else {
      assert after == before;
    }
  }

  /** Deleting a task, whoever owns it, takes one off the task count, and
      one off today's count exactly when that task was created today. */
  lemma StatsAfterDelete(users: map<Id, User>, tasks: map<Id, Task>, id: Id,
                         startOfToday: int, caller: Id)
    requires IsAdmin(users, caller) && id in tasks
    ensures var before, after := GetAdminStats(users, tasks, startOfToday, caller),
                                 GetAdminStats(users, tasks - {id}, startOfToday, caller);
            && after.totalUsers == before.totalUsers
            && after.totalTasks == before.totalTasks - 1
            && after.activeToday == before.activeToday - (if tasks[id].createdAt >= startOfToday then 1 else 0)
  {
    var before, after := CreatedSince(tasks, startOfToday), CreatedSince(tasks - {id}, startOfToday);
    assert (tasks - {id}).Keys == tasks.Keys - {id};
    if tasks[id].createdAt >= startOfToday {
      assert before == after + {id};
    } else {
      assert after == before;
    }
  }

  /** Three tasks created today and one backdated to yesterday: four tasks,
      three of them active today. */
  lemma StatsExample(admin: User, start: int, owner: Id)
    requires admin.role == AdminRole
    ensures var tasks := map[1 := Task(Some("a"), None, owner, start),
                             2 := Task(Some("b"), None, owner, start + 5),
                             3 := Task(Some("c"), None, owner, start + 9),
                             4 := Task(Some("d"), None, owner, start - 1)];
            GetAdminStats(map[0 := admin], tasks, start, 0) == Stats(1, 4, 3)
  {
    var tasks := map[1 := Task(Some("a"), None, owner, start),
                     2 := Task(Some("b"), None, owner, start + 5),
                     3 := Task(Some("c"), None, owner, start + 9),
                     4 := Task(Some("d"), None, owner, start - 1)];
    assert tasks.Keys == {1, 2, 3, 4};
    assert CreatedSince(tasks, start) == {1, 2, 3};
  }
}
