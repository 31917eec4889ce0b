# Task manager backend: ownership-scoped tasks and credentials

This project models the backend of a small task-management web application in Dafny. Users register and log in. Each user creates, reads, edits and deletes their own tasks. Administrators list every user and task, read dashboard counts, and delete any task. The model covers the Express controllers and the User model as one in-memory store (`Db.Database`). The store holds a map of users and a map of tasks. Each handler is a function (read-only handlers) or a method (handlers that write). It returns a value or the HTTP-style error the handler raises (400, 401, 403, 404).

Modules follow the source files:

- `Common`: ids, `Option`, `Result`, the error type, and JavaScript truthiness (`Truthy`) and `||` (`Or`) on optional string fields.
- `Bcrypt`: a stand-in for bcrypt. A hash is the bcrypt header `$2a$NN$` followed by the password. The proofs elsewhere unfold these definitions. They use four facts about them:
  - a hash has the `$2a$NN$` header shape (`IsHash`);
  - a hash is never its plaintext (`HashIsNotPlaintext`);
  - the plaintext matches its hash;
  - no other password matches that hash (`CompareHash` states the last two).
- `UserModel` (backend/models/User.js): the schema rules, `findOne({ email })`, the pre-save hook in `UserDocument.Save`, and `matchPassword`.
- `TaskModel`: the task document. Only the fields the controllers use are modelled, because the Task schema is not part of this model.
- `Db`: the class `Database` with the two collections and a counter for fresh ids. Its `Valid()` invariant has five parts:
  - every user id is below the counter;
  - every task id is below the counter;
  - emails are unique;
  - every stored user has non-empty name and email and a hashed password;
  - every task's owner is a stored user.
- `TaskController`, `AdminController`, `AuthController`, `UserController`: one module per controller file.
- `SeedAdmin`: the start-up step that creates the admin account if it is missing.
- `Scenarios`: one end-to-end sequence of handler calls. Alice's list holds exactly her task, and Bob gets 404 when he asks for it.

Parameters stand for the environment:

- `production` stands for `NODE_ENV === "production"`.
- `now` stands for the clock reading that `timestamps: true` stores as `createdAt`.
- `startOfToday` stands for the local midnight that `getAdminStats` computes.
- The authentication middleware's result is the requester's id. It appears as a precondition: the requester is a stored user (and an admin, for the admin handlers).

## Model

| member | source | states |
|---|---|---|
| Common.Or | backend/controllers/taskController.js:35-36 | `given \|\| current`: the given field if it is truthy (present and non-empty), the current value otherwise |
| Bcrypt.Hash | backend/models/User.js:19-21 | the stored hash has bcrypt's `$2a$NN$` header shape |
| Bcrypt.Compare | backend/models/User.js:33 | a match is only ever against a string that has the shape of a hash |
| Bcrypt.HashIsNotPlaintext | backend/models/User.js:21 | a hash never equals the password it was made from |
| Bcrypt.CompareHash | backend/models/User.js:32-37 | comparing against `Hash(p, r)` succeeds for `p` and for no other password (bcrypt's 72-byte truncation is not modelled) |
| UserModel.RoleOf | backend/models/User.js:9 | an absent role defaults to user; a given role is accepted exactly when it is "user" or "admin" and is then stored under that name |
| UserModel.SchemaErrors | backend/models/User.js:6-9 | validation passes exactly when name, email and password are non-empty and the role is in the enum; each failing path is reported |
| UserModel.FindByEmail | backend/controllers/authController.js:8 | `findOne({ email })` finds nothing exactly when no user has that email, else the one user with it |
| UserModel.SaltRounds | backend/models/User.js:19 | the cost factor is one bcrypt accepts (10 in production, 6 otherwise) |
| UserModel.HashIfModified | backend/models/User.js:16-21 | a modified password is replaced by a hash that differs from it and matches it; an unmodified one is kept |
| UserModel.MatchPassword | backend/models/User.js:32-37 | `matchPassword` compares the entered password with the stored one, and succeeds only against a stored hash |
| UserModel.MatchHashedPassword | backend/models/User.js:32-37 | right after hashing `p`, `matchPassword(q)` holds exactly when `q == p` (bcrypt's 72-byte truncation is not modelled) |
| UserModel.WithoutPassword | backend/controllers/adminController.js:7 | `.select("-password")` keeps id, name, email, role and creation time |
| UserModel.PublicUsers | backend/controllers/userController.js:5 | `find().select("-password")` gives every user, each without its password |
| UserModel.UserDocument.constructor | backend/seed/seedAdmin.js:24-29 | a new document holds the given fields with its password marked modified |
| UserModel.UserDocument.Save | backend/models/User.js:15-29 | the pre-save hook hashes the password only if it was modified; the flag is then cleared, so saving again keeps the stored password |
| UserModel.UserDocument.Stored | backend/models/User.js:4-12 | the written document carries the document's fields and the insertion time |
| Db.Database.constructor | backend/server.js:13 | an empty, consistent store |
| Db.Database.InsertUser | backend/controllers/authController.js:14 | a new user under a fresh id, everything else unchanged, invariant kept |
| Db.Database.InsertTask | backend/controllers/taskController.js:16 | a new task under a fresh id, everything else unchanged |
| Db.Database.ReplaceTask | backend/controllers/taskController.js:37 | saving an existing task replaces exactly that entry |
| Db.Database.RemoveTask | backend/controllers/taskController.js:63 | `deleteOne` removes exactly that id |
| TaskController.GetTasks | backend/controllers/taskController.js:4-7 | exactly the tasks whose owner is the requester, with their stored contents |
| TaskController.GetTaskById | backend/controllers/taskController.js:20-28 | succeeds exactly when the task exists and is the requester's; missing and foreign tasks give the same 404 |
| TaskController.ApplyUpdate | backend/controllers/taskController.js:34-36 | each field becomes the given value if truthy, else keeps the old one; owner and creation time never change |
| TaskController.CreateTask | backend/controllers/taskController.js:9-18 | exactly one new task, owned by the requester, with the given title and description; existing tasks unchanged |
| TaskController.UpdateTask | backend/controllers/taskController.js:30-43 | on an owned task, stores and returns the partial update; otherwise 404 and the store unchanged |
| TaskController.DeleteTask | backend/controllers/taskController.js:45-66 | 404 for a missing task, 403 for a foreign one, store unchanged in both; the owner removes exactly that task |
| TaskController.UpdateIsIdempotent | backend/controllers/taskController.js:35-37 | applying an update twice equals applying it once |
| TaskController.FalsyUpdateKeepsTask | backend/controllers/taskController.js:35-36 | an update with only absent or empty fields leaves the task as it was |
| TaskController.GetTaskByIdAgreesWithGetTasks | backend/controllers/taskController.js:22 | `getTaskById` succeeds exactly on the tasks `getTasks` lists, with the same contents |
| TaskController.ListsAreDisjoint | backend/controllers/taskController.js:5 | two different users' lists share no task |
| TaskController.GetTasksAfterCreate | backend/controllers/taskController.js:11-16 | after a create, the owner's list gains exactly the new task and every other list is unchanged |
| TaskController.GetTasksAfterDelete | backend/controllers/taskController.js:63-65 | after a delete, every list loses exactly that task |
| TaskController.GetTasksAfterUpdate | backend/controllers/taskController.js:34-38 | an update changes only that task in its owner's list and no other user's list |
| AdminController.GetAllUsers | backend/controllers/adminController.js:6-9 | every user, each with its password left out |
| AdminController.Populate | backend/controllers/adminController.js:13 | the owner's id, name and email when the owner exists, null otherwise |
| AdminController.GetAdminTasks | backend/controllers/adminController.js:12-15 | every task in the system, with its fields and its owner's name and email, or null when the owner is not stored |
| AdminController.AdminTasksHaveOwners | backend/controllers/adminController.js:13 | in a consistent store every listed task has its owner attached |
| AdminController.CreatedSince | backend/controllers/adminController.js:22-24 | exactly the tasks created at or after the start of the day |
| AdminController.GetAdminStats | backend/controllers/adminController.js:18-27 | `totalUsers` and `totalTasks` are the collection sizes, `activeToday` counts tasks created since the start of today, and `activeToday <= totalTasks` |
| AdminController.DeleteAdminTask | backend/controllers/adminController.js:30-39 | 404 and no change for a missing task; otherwise it is removed whoever owns it |
| AdminController.StatsAfterCreate | backend/controllers/adminController.js:19-24 | a new task adds one to `totalTasks`, and one to `activeToday` exactly when it was created today |
| AdminController.StatsAfterDelete | backend/controllers/adminController.js:37 | deleting a task takes one off `totalTasks`, and one off `activeToday` exactly when it was created today |
| AdminController.StatsExample | backend/controllers/adminController.js:19-26 | three tasks from today and one backdated: four tasks, three active today; the earlier task is not counted |
| AuthController.SessionCookie | backend/controllers/authController.js:19-24 | the `token` cookie is HTTP-only, strict same-site, secure in production, with maxAge 604800000 ms |
| AuthController.Session | backend/controllers/authController.js:17-31 | the body holds id, name, email and role (no password); the token is built from that user's id and role |
| AuthController.RegisterUser | backend/controllers/authController.js:6-36 | a taken email gives 400 "User already exists"; rejected input adds nobody; otherwise one user is stored with a hashed password that matches the plaintext, and the 201 body and token are for it |
| AuthController.AuthUser | backend/controllers/authController.js:39-70 | succeeds exactly when a user has the email and the password matches; unknown email and wrong password give the same 401 |
| AuthController.LogoutUser | backend/controllers/authController.js:74-79 | the `token` cookie becomes empty, HTTP-only, and expires at epoch 0 |
| AuthController.LogoutClearsSession | backend/controllers/authController.js:75-77 | the logout cookie has the session cookie's name and carries no token |
| AuthController.LoginAfterRegister | backend/controllers/authController.js:51-65 | once a user is stored with a hashed password, login with its email succeeds with exactly that password and issues that user's session, whichever cost factor hashed it (bcrypt's 72-byte truncation is not modelled) |
| UserController.GetAllUsers | backend/controllers/userController.js:4-7 | every user, each with its password left out |
| UserController.GetMe | backend/controllers/userController.js:9-18 | 401 without a user id; otherwise that user without its password, or null |
| UserController.GetMeAgreesWithGetAllUsers | backend/controllers/userController.js:16-17 | `getMe` returns the record the user list holds for that id |
| SeedAdmin.SeededAdmin | backend/seed/seedAdmin.js:24-31 | the admin is named "Admin", has email admin@example.com and role admin; its password is stored hashed, never as plaintext, and matches "Admin@123" |
| SeedAdmin.SeedAdmin | backend/seed/seedAdmin.js:17-31 | no change when the admin email is taken; otherwise exactly one new user, the admin; afterwards the email is taken |
| SeedAdmin.SeedTwice | backend/seed/seedAdmin.js:17-21 | a second seeding creates nobody, so two runs leave the store as one does |
| Scenarios.AliceAndBob | backend/controllers/taskController.js:20-28 | after Alice creates "Buy milk", her list holds exactly that task, and Bob's request for it gives 404 |

## Left out

- I/O and process control are not modelled: the MongoDB connection, `process.exit`, and `console.log`. One consequence: the login handler logs the plaintext password it receives (backend/controllers/authController.js:41), and the model does not capture that.
- Concurrency is not modelled. Requests run one at a time, so the race between the duplicate-email check and the insert does not arise. The unique index's duplicate-key error therefore never fires, and `Db.Database.InsertUser` requires a free email.
- Bcrypt is not modelled faithfully in three ways:
  - the salt is not random;
  - the hash is not one-way;
  - the 72-byte input limit is not applied.
  The model's hash is exact and reversible. The proofs unfold it and use only the four facts listed above for `Bcrypt`. Because the 72-byte limit is not applied, `Bcrypt.CompareHash`, `UserModel.MatchHashedPassword` and `AuthController.LoginAfterRegister` rule out a different long password matching, which real bcrypt allows.
- The user document's `updatedAt` and `__v` fields are not modelled: `timestamps: true` (backend/models/User.js:11) adds `updatedAt`, and Mongoose adds `__v`. So `PublicUser` and `WithoutPassword` leave out these two fields, which `.select("-password")` would return.
- A real bcrypt hash is always 60 characters long. The stand-in's hash is the header followed by the plaintext, so its length grows with the password. No contract relies on that length.
- JWT signing and expiry are not modelled. `generateToken` is not part of this model, so the token is an opaque (id, role) pair.
- The middleware internals are not modelled: authentication, admin-only and request validation. Their effect appears only as preconditions: the requester is a stored user, and an admin for the admin handlers. `GetTasks` and `GetTaskById` take the task map alone and do not need that precondition.
- Missing register and login body fields are not modelled. The request validation middleware handles them, and it is not part of this model. Those fields are plain strings, and an empty string stands in for a missing required string.
- The register branch that answers 400 "Invalid user data" (backend/controllers/authController.js:32-35) is not modelled. `User.create` either returns the new document or throws, so that branch cannot run.
- The status code of a Mongoose validation error is not modelled. The error middleware sets it, and that middleware is not part of this model. The model returns `ValidationError` with the failing paths.
- The Task schema is not part of this model, so the model assumes neither a title requirement nor `updatedAt` stamps. A 400 on an empty title would be expected; the controller stores whatever it receives, and the model follows the controller.
- Malformed ids (Mongoose `CastError`) and non-string JSON values in request bodies are not modelled.
- Listings are maps from id to document, not arrays in MongoDB's natural order.
- Emails are compared exactly, as the schema stores them; case-normalised emails would be expected, but the schema does not lowercase them. The model follows the schema.
- The register body may ask for the role "admin", and the schema accepts it. Any filtering would happen in the request validation middleware, which is not part of this model.
- The users router (backend/routes/users.js) is never mounted by backend/server.js. So `UserController.GetAllUsers` is modelled, but no request reaches it.
- Real clocks are not used. The current time and the start of today are parameters.
