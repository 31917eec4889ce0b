/** End-to-end sequences of handler calls on a fresh store, proved from the
    handlers' contracts alone. */
module Scenarios {
  import opened Common
  import opened UserModel
  import opened TaskModel
  import opened Db
  import opened AuthController
  import opened TaskController

  /** Alice registers, logs in and creates "Buy milk": her list holds exactly
      that one task. Bob registers, logs in and asks for it: 404. */
  method AliceAndBob(production: bool, now: int)
    returns (aliceTasks: map<Id, Task>, bobView: Result<Task>)
    ensures |aliceTasks| == 1
    ensures forall id :: id in aliceTasks ==> aliceTasks[id].title == Some("Buy milk")
    ensures bobView == Err(HttpError(404, "Task not found"))
  {
    var db := new Database();
    var registered := RegisterUser(db, "Alice", "alice@example.com", "milk&honey", None, production, now);
    var aliceLogin := AuthUser(db.users, "alice@example.com", "milk&honey", production);
    assert aliceLogin.Ok? by {
      var id := registered.value.user.id;
      assert db.users[id].email == "alice@example.com" && MatchPassword(db.users[id], "milk&honey");
    }
    var alice := aliceLogin.value.user.id;
    var taskId, _ := CreateTask(db, alice, Some("Buy milk"), None, now);
    aliceTasks := GetTasks(db.tasks, alice);
    assert aliceTasks.Keys == {taskId};

    var bobRegistered := RegisterUser(db, "Bob", "bob@example.com", "hunter22", None, production, now);
    var bobLogin := AuthUser(db.users, "bob@example.com", "hunter22", production);
    assert bobLogin.Ok? by {
      var id := bobRegistered.value.user.id;
      assert db.users[id].email == "bob@example.com" && MatchPassword(db.users[id], "hunter22");
    }
    var bob := bobLogin.value.user.id;
    assert bob != alice by {
      assert db.users[alice].email == "alice@example.com";
    }
    bobView := GetTaskById(db.tasks, bob, taskId);
  }
}
