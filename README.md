# Session gate and ownership scoping of a Next.js task manager

This project models the server side of a small multi-user task manager: the
page guard (`middleware.js`), the `getUserId` helper that every protected API
route uses to recover the signed-in user from the `auth_token` cookie, the
task API (`GET`/`POST`/`DELETE /api/tasks`), the profile API
(`GET`/`PUT /api/auth/me`), registration and login. MongoDB is replaced by two
in-memory collections kept in insertion order, jose's JSON Web Token
functions (RFC 7519, HS256 from section 3.2 of RFC 7518) and bcryptjs's
`hash`/`compare` are uninterpreted function values, and the clock, the
`JWT_SECRET` setting, `NODE_ENV` and database failures are parameters
(`Http.Env`).

Modules, one per source file plus shared pieces:

- `Base`: `Option` and `FirstIndex`, the first-match search that stands for
  `findOne`, `findById` and `findOneAndDelete`.
- `Http`: cookies, replies (`Reply(status, body, setCookie)`) and the environment.
- `Session`: token claims, the `Jose` pair `sign`/`verify`, `getUserId`
  (`GetUserId`) and the handlers' `if (!userId)` test (`SignedInUser`).
  `getUserId` is written twice, identically, in app/api/tasks/route.js:8-18
  and app/api/auth/me/route.js:7-17; it is modelled once.
- `Middleware`: the dashboard guard.
- `TasksRoute`: tasks, the owner filter, the newest-first order, the
  `TaskStore` class whose `Post` and `Delete` change the collection.
- `Users`: users, the password-free view, the `UserStore` class whose
  invariant is "ids unique and at most one user per email", and the lookups.
- `MeRoute`, `RegisterRoute`, `LoginRoute`: the three auth routes.
- `Scenario`: one full session against fresh stores.

Behaviour of the routes worth noting:
- The server does not check the task title; only the dashboard page does.
- Registration answers `{ message: "User created" }` and returns no user data.
- The page guard only redirects, and only under "/dashboard". Each API route
  answers 401 by itself.
- `jwtVerify` is called without an `algorithms` option, so nothing in the
  code pins HS256 on verification. The model leaves verification abstract.
- Login tells registered emails apart when the body has no password. A known
  email then gets 500 "Login failed", because bcrypt's `compare` rejects the
  missing password. An unknown email gets 401. With a password present, both
  failures get the same 401 (`LoginRoute.MissingPasswordDistinguishes`,
  `LoginRoute.FailuresIndistinguishable`).

Choices the code leaves to libraries, made explicit:
- Mongoose drops a filter key whose value is `undefined`. So with no email in
  the body, `findOne({ email })` picks the first stored user. Login then checks
  the password against that user. Registration then answers 400 "User already
  exists" whenever any user is stored.
- An absent `gender` in `PUT` leaves the stored gender as it is. The reason is
  the same: the `undefined` key is dropped from the update.
- An empty `gender` passes the check (`gender && ...`) and is stored.
- A missing password makes bcrypt reject the call, which gives the route's 500.
- A registration body without a name, or without an email on an empty store, gives 500, as if the User schema required both.
- A new user's `gender` is `None`, meaning "whatever the schema default is".
- A new task's `createdAt` is the request time.
- A generated id that collides with a stored one fails like a duplicate-key error.

## Model

| member | source | states |
|---|---|---|
| `Base.FirstIndex` | app/api/auth/login/route.js:12 | the index is the first element matching, no earlier element matches, and it is the length exactly when nothing matches |
| `Base.FirstIndexAppend` | app/api/auth/register/route.js:19 | appending a document never changes an existing first match; the new document is found exactly when nothing before it matches |
| `Session.SessionToken` | app/api/tasks/route.js:9-10 | a token exists exactly when the `auth_token` cookie is present and not empty, and it is that cookie's value |
| `Session.GetUserId` | app/api/tasks/route.js:8-18 | no cookie, an empty cookie or a token that fails verification yields no id; otherwise the result is exactly the verified token's `userId` claim |
| `Session.SignedInUser` | app/api/tasks/route.js:21-23 | a caller exists only when `getUserId` yields a non-empty id; a missing token never yields a caller |
| `Middleware.Guard` | middleware.js:4-19 | only two outcomes, pass or redirect to "/login"; paths outside "/dashboard" always pass; under "/dashboard" a missing token or one that fails verification redirects, and the request passes exactly when the token verifies |
| `Middleware.GuardIgnoresClaims` | middleware.js:9-17 | two verifiers that agree on whether the token verifies give the same decision, whatever claims they return |
| `Middleware.GuardWeakerThanApi` | middleware.js:12-13 | a verified token whose `userId` claim is missing or empty passes the guard but signs no one in for the API routes |
| `Middleware.GuardAndApiAgree` | middleware.js:12-13 | a verified token with a non-empty `userId` passes the guard and is accepted by the API routes as that user |
| `TasksRoute.OwnedBy` | app/api/tasks/route.js:26 | the owner filter keeps each of the owner's tasks as often as it is stored and no task of anyone else |
| `TasksRoute.OwnedByAppend` | app/api/tasks/route.js:26 | the owner filter distributes over concatenation of collections |
| `TasksRoute.InsertNewestFirst` | app/api/tasks/route.js:26 | inserting into a newest-first list keeps it newest-first and adds exactly that task |
| `TasksRoute.SortNewestFirst` | app/api/tasks/route.js:26 | the result is ordered by `createdAt` descending and is a permutation of the input |
| `TasksRoute.ListTasks` | app/api/tasks/route.js:26 | newest first; contains exactly the tasks whose `userId` is the caller's, each as often as stored; no other user's task appears |
| `TasksRoute.Get` | app/api/tasks/route.js:20-28 | 401 without a caller; 200 exactly when signed in and the store answers, with a newest-first permutation of the caller's tasks and nothing else |
| `TasksRoute.TaskStore.Post` | app/api/tasks/route.js:30-39 | 401 and no change without a caller; on 201 exactly one task is appended, owned by the verified id with the body's title unchecked, and returned; every other path leaves the collection unchanged; ids stay unique |
| `TasksRoute.OtherUsersCreateKeepsList` | app/api/tasks/route.js:37 | a task created by someone else does not change a user's list |
| `TasksRoute.DeleteIndex` | app/api/tasks/route.js:50 | the task picked is the first whose id and owner both match, and none does when the index is the length |
| `TasksRoute.RemoveOwned` | app/api/tasks/route.js:50 | at most one task goes, and one goes exactly when a task with that id and the caller as owner exists; every task not matching both keeps its multiplicity |
| `TasksRoute.TaskStore.Delete` | app/api/tasks/route.js:41-52 | 401 and no change without a caller; when signed in and the store answers, 200 `{ message: "Deleted" }` whether or not a task matched, and an uncaught 500 with no change when it fails, and the collection loses exactly the matching task; ids stay unique |
| `TasksRoute.OwnedByRemoveAt` | app/api/tasks/route.js:50 | taking out someone else's task leaves a user's tasks, in order, as they were |
| `TasksRoute.OtherUsersDeleteKeepsOwned` | app/api/tasks/route.js:50 | a delete by another user, whatever id it names, leaves a user's tasks as they were |
| `TasksRoute.OtherUsersDeleteKeepsList` | app/api/tasks/route.js:50 | a delete by another user leaves a user's listed tasks as they were |
| `TasksRoute.OwnerDeleteRemoves` | app/api/tasks/route.js:50 | with unique ids, the owner's delete of a task removes exactly that task |
| `TasksRoute.RemoveOwnedKeepsIds` | app/api/tasks/route.js:50 | deleting keeps task ids unique |
| `Users.Public` | app/api/auth/me/route.js:25 | the returned view keeps the user's id, name, email and gender; its type has no password field |
| `Users.IndexOfEmail` | app/api/auth/login/route.js:12 | for a submitted email, finds a user with that email exactly when one exists; an absent email gives the filter `{}`, which picks the first stored user |
| `Users.IndexOfId` | app/api/auth/me/route.js:25 | finds a user with the id exactly when one exists |
| `Users.IndexOfEmailUnique` | app/api/auth/register/route.js:11-19 | with unique emails, the lookup by a stored user's email finds that user |
| `MeRoute.GetMe` | app/api/auth/me/route.js:19-30 | 401 without a caller; 404 "User not found" when no stored user has the id; 200 exactly when signed in, the store answers and the user exists, and then the caller's own record with every field but the password |
| `MeRoute.ProfileError` | app/api/auth/me/route.js:41-55 | accepts exactly a name of at least 2 characters with a gender that is absent, empty or one of the four values; a bad name is reported first, so a gender error implies a good name |
| `MeRoute.ApplyProfile` | app/api/auth/me/route.js:59-64 | the update sets the name, and sets the gender only when one was sent; id, email and password never change |
| `MeRoute.Put` | app/api/auth/me/route.js:32-70 | 401 without a caller, 400 with the validation message, 500 "Update failed" on an unreadable body or database failure, all with the store unchanged; on success only the caller's record changes, only in name and gender, and the reply is the updated record without the password, or `null` when the id is not stored; no user's id, email or password ever changes |
| `MeRoute.UpdateIgnoresEmail` | app/api/auth/me/route.js:38-39 | two bodies that agree on name and gender validate and update identically whatever `email` they carry |
| `RegisterRoute.StoresNoPlaintext` | app/api/auth/register/route.js:18-19 | for a hash that never returns its input, the stored password differs from the submitted one |
| `RegisterRoute.Register` | app/api/auth/register/route.js:6-25 | 400 "User already exists" exactly when the email is taken; 201 `{ message: "User created" }` with no user data exactly when the body is complete, the email is free, the store answers and the id is free, and then exactly one user is appended, holding the submitted name and email and `hash(password, 10)`; every failure is 500 "Error creating user" or the 400, with the store unchanged; at most one user per email is preserved |
| `RegisterRoute.AppendKeepsUnique` | app/api/auth/register/route.js:11-19 | appending a user with an unused id and email keeps ids and emails unique |
| `LoginRoute.Login` | app/api/auth/login/route.js:7-52 | 401 replies are always the same `{ error: "Invalid credentials" }` with no cookie, given for an unknown email and for a wrong password alike; an unreadable body, a database failure, or a known email without a password gives 500 "Login failed"; 200 exactly when an email matches and `compare` accepts the password, and then `{ message: "Login successful" }` with an httpOnly, sameSite strict, maxAge 86400, path "/" `auth_token` cookie, secure exactly in production, holding the HS256 token of the user's id and email expiring 24 hours later |
| `LoginRoute.FailuresIndistinguishable` | app/api/auth/login/route.js:12-24 | an unknown email and a wrong password give the identical reply |
| `LoginRoute.MissingPasswordDistinguishes` | app/api/auth/login/route.js:12-24 | with no password in the body, a known email gets 500 "Login failed" and an unknown one 401, so the status reveals whether the email is registered |
| `LoginRoute.LoginSignsIn` | app/api/auth/login/route.js:29-46 | if jose's tokens verify until expiry, the issued cookie signs in the matched user for the next 24 hours |
| `LoginRoute.RegisteredUserCanLogIn` | app/api/auth/login/route.js:12-24 | if a password matches its own hash, a user just registered can log in with the same email and password |
| `Scenario.EndToEnd` | app/api/tasks/route.js:20-52 | register, log in, create "Buy milk", list it as the only task, delete it, and the list is empty |

## Left out

- Cryptography: jose's signing and verification and bcryptjs's hashing are uninterpreted. That tokens they sign verify until expiry, and that a password matches its own hash, are hypotheses of the lemmas that need them, never facts of the model.
- MongoDB and Mongoose: connection set-up, ObjectId casting, update options and validators are not modelled. A malformed id in `DELETE`, `GET` or `PUT` throws a cast error, which is not modelled. A database failure is modelled as a single flag.
- Natural order and sort ties: collections keep insertion order. `ListTasks` breaks ties of `createdAt` by store order. MongoDB promises only the descending sort and the permutation, so contracts state only those.
- The User and Task schemas are not part of this model. Their defaults (gender `prefer_not_to_say`, timestamps) and email lower-casing are not modelled. The approximations are listed above.
- JSON bodies: a field is either absent or a string. Non-string JSON values (numbers, objects, arrays) are not modelled.
- `MeRoute.ProfileError`: counts name length in Unicode scalar values, not JavaScript's UTF-16 code units, so names with characters outside the Basic Multilingual Plane are measured differently.
- The `config.matcher` of middleware.js decides when Next.js runs the guard at all. It is not modelled; `Middleware.Guard` is the function itself.
- A failure inside `sign` (for example an unusable secret) is not modelled.
- The body of Next.js's own 500 page for an uncaught exception is `Uncaught`, not its text.
- All pages (`app/dashboard/page.js` and the others) are presentation. The dashboard's client-side title check is not enforced by the server, and the model follows the server.
- The logout endpoint that the dashboard calls is not among the files and is not modelled.
- Concurrent registrations with the same email: the model is sequential, one request at a time.
- Wall-clock time, `JWT_SECRET` and `NODE_ENV` are parameters, not globals.
