# To-do API core, modelled in Dafny

This project models the core of a small FastAPI to-do service: users sign in with an
identity-provider (Amazon Cognito) bearer token and then create, list, update, complete and
delete tasks they own. It covers:

- the `tasks` table and the `TaskCreate` body;
- the `Status` enumeration;
- the task and user query helpers (`app/crud`);
- the task and user routes;
- the login route;
- the token checks of `app/utils/cognito.py`.

The database is a class `Database.Db` holding both tables: tasks keyed by id and users in
insertion order, each with an auto-increment counter. Every route or query that writes is
modelled twice:

- a pure function `...Step(tables, inputs)` returns the result (a value or a raised
  exception, `Python.Outcome`) together with the tables it leaves behind;
- an imperative method on `Db` performs the same updates, and its postcondition ties the
  new state to that function.

The properties are proved about the functions. Among them:

- a request never touches another user's tasks, however requests are interleaved;
- logging in twice changes nothing the second time;
- splitting the `Authorization` header loses nothing;
- the email check keeps emails unique.

The database is assumed to enforce these parts of its declared schema, as a strict server
database does (the integer range of `priority` is not among them; see "Left out"):

- a string longer than its column is refused with `DataError`;
- a task whose `user_id` names no user's `cognito_id`, or a second user with the same
  `cognito_id`, is refused with `IntegrityError`.

Times are integer timestamps. The current time is a parameter.

The model follows the code as written:

- Only `ValueError` from token validation is turned into 401 "Invalid token"
  (`app/utils/cognito.py:49-50`, `app/routes/auth.py:51-52`). A missing key id raises
  `KeyError` and a signature or claim failure in the token library raises its own error.
  Both propagate unchanged.
- `update_task_route` does not check that the new deadline is in the future
  (`app/routes/task.py:62-82`). It keeps the category and overwrites only title,
  description, priority and deadline.
- The create route's deadline test is a strict comparison of timestamps, not of dates.
- `get_task` and `get_current_user` are imported but defined nowhere in the repository:
  - `get_task` is modelled as the filter on id and owner that `delete_task` uses;
  - the routes take the authenticated caller's subject id (`cognito_id`) as a parameter.
- `delete_task_route` passes the dependency's value itself as the owner. The model passes
  the caller's subject id, as the other routes do.
- `status` and `last_updated` are assigned by the update routes but are not columns of
  `tasks`. The model stores them with the row, with initial status `to-do`.

## Model

| member | source | states |
|---|---|---|
| TaskStatus.FromValue | app/utils/status.py:3-6 | the member whose string value is `v`; None exactly when no member has that value |
| TaskStatus.FromValueOfValue | app/utils/status.py:3-6 | value-to-member lookup inverts each member's value |
| TaskStatus.ValueInjective | app/utils/status.py:3-6 | the three members have distinct string values |
| TaskSchema.DefaultsAreNone | app/schemas/task.py:5-10 | a body with only title, description and category has no deadline and no priority |
| Database.CommitTaskStep | app/models/task.py:9-15 | committing a modified row stores it under its id when it fits the column lengths 255/1024/255/255, else `DataError` and nothing changes |
| Database.CommitTask | app/routes/task.py:58-59 | the method's new tables are those of `CommitTaskStep` and remain valid |
| Database.Db.constructor | app/models/task.py:6-21 | empty tables that satisfy every table invariant |
| TaskCrud.CreateTaskStep | app/crud/task.py:7-19 | succeeds iff the strings fit the columns and the owner is a stored user; the new row copies the body's fields, has the given owner, a fresh id, the creation time and status to-do, and is the only change; `DataError` / `IntegrityError` otherwise with nothing changed |
| TaskCrud.CreateTask | app/crud/task.py:7-19 | the method's new tables and result are those of `CreateTaskStep` |
| TaskCrud.GetUserTasks | app/crud/task.py:21-23 | exactly the stored tasks whose owner is the user, unchanged |
| TaskCrud.GetTask | app/crud/task.py:26 | the stored task with that id and owner, None iff no task has both |
| TaskCrud.DeleteTaskStep | app/crud/task.py:25-30 | returns and removes the task with that id and owner, and only it; with no such task returns None and changes nothing |
| TaskCrud.DeleteTask | app/crud/task.py:25-30 | the method's new tables and result are those of `DeleteTaskStep` |
| TaskCrud.CreateTaskKeepsOthers | app/crud/task.py:7-19 | creating a task for one owner leaves every other owner's task list equal |
| TaskCrud.CreatedTaskIsListed | app/crud/task.py:7-23 | after a successful create, the owner's list is the earlier list plus the new task |
| TaskCrud.DeleteTaskKeepsOthers | app/crud/task.py:25-30 | deleting for one owner leaves every other owner's task list equal |
| TaskRoutes.CreateTaskRouteStep | app/routes/task.py:13-27 | 400 "Deadline must be a future date" iff a deadline is given and earlier than now, with nothing changed; otherwise exactly `create_task` with the caller as owner |
| TaskRoutes.CreateTaskRoute | app/routes/task.py:13-27 | the method's new tables and result are those of `CreateTaskRouteStep` |
| TaskRoutes.GetUserTasksRoute | app/routes/task.py:29-38 | 404 "No tasks found" iff the caller owns no task; otherwise the caller's non-empty task list |
| TaskRoutes.DeleteTaskRouteStep | app/routes/task.py:40-50 | 404 "Task not found" iff no task has that id and the caller as owner (nothing changed); otherwise that task is returned and only it is removed |
| TaskRoutes.DeleteTaskRoute | app/routes/task.py:40-50 | the method's new tables and result are those of `DeleteTaskRouteStep` |
| TaskRoutes.UpdateTaskStatusStep | app/routes/task.py:52-60 | 404 iff the caller owns no task with that id; otherwise the task with status done and every other field kept, written back as the only change |
| TaskRoutes.UpdateTaskStatus | app/routes/task.py:52-60 | the method's new tables and result are those of `UpdateTaskStatusStep` |
| TaskRoutes.UpdateTaskRouteStep | app/routes/task.py:62-82 | 404 iff the caller owns no task with that id; succeeds iff also the new title and description fit; title, description, priority, deadline come from the body, last-updated is now, id, category, owner, creation time and status are kept, and only that row changes |
| TaskRoutes.UpdateTaskRoute | app/routes/task.py:62-82 | the method's new tables and result are those of `UpdateTaskRouteStep` |
| TaskRoutes.ServeKeepsOthers | app/routes/task.py:13-82 | any one task request leaves the users and every other user's tasks unchanged |
| TaskRoutes.OthersCannotTouch | app/routes/task.py:13-82 | any sequence of task requests by other callers leaves a user's tasks exactly as they were |
| UserCrud.CreateUserStep | app/crud/user.py:9-15 | succeeds iff the subject id is not stored; appends exactly one user with the given fields and a fresh id, tasks untouched; `IntegrityError` with nothing changed otherwise |
| UserCrud.CreateUser | app/crud/user.py:9-15 | the method's new tables and result are those of `CreateUserStep` |
| UserCrud.GetUserByEmail | app/crud/user.py:17-18 | the first stored user with that email; None iff there is none |
| UserCrud.GetUserByCognitoId | app/crud/user.py:20-21 | the first stored user with that subject id; None iff there is none |
| UserCrud.CreatedUserIsFound | app/crud/user.py:9-21 | after a successful create, lookup by the subject id finds the new user |
| UserRoutes.CreateUserStep | app/routes/user.py:10-21 | an email already stored is refused with nothing changed; otherwise exactly `create_user` on the body |
| UserRoutes.CreateUser | app/routes/user.py:10-21 | the method's new tables and result are those of `UserRoutes.CreateUserStep` |
| UserRoutes.StoredEmailRefused | app/routes/user.py:12-16 | on a table with unique emails, a stored email is answered 400 "Email already registered" with nothing changed |
| UserRoutes.NewEmailKeepsUnique | app/routes/user.py:12-21 | on a table with unique emails, a new email is never answered 400 and the emails stay unique |
| UserRoutes.CreateUserKeepsEmailsUnique | app/routes/user.py:12-16 | on a table with unique emails, 400 "Email already registered" exactly when the email is stored, and emails stay unique |
| UserRoutes.ReadUser | app/routes/user.py:23-30 | a returned user is stored with that id; 404 "User not found" when no user has it |
| UserRoutes.ReadStoredUser | app/routes/user.py:23-30 | reading the id of a stored user returns that user |
| Cognito.Issuer | app/utils/cognito.py:25 | the issuer is the regional identity-provider host followed by the user-pool id |
| Cognito.IssuerNamesPool | app/utils/cognito.py:25 | within one region, two configurations with the same issuer have the same user pool |
| Cognito.VerifierOptions | app/utils/cognito.py:20-27 | RS256 only, audience the client id, issuer exactly `https://cognito-idp.<region>.amazonaws.com/<pool>`, access-token hash not verified |
| Cognito.ValidateJwtToken | app/utils/cognito.py:13-31 | header errors propagate; `KeyError` without a key id; `ValueError("Public key not found")` when no cached key has it; otherwise the verifier's outcome for the first key with that id |
| Cognito.CatchValueError | app/utils/cognito.py:47-50 | a `ValueError` becomes 401 "Invalid token"; any other outcome passes unchanged |
| Cognito.BearerToken | app/utils/cognito.py:44-46 | 400 "Invalid Authorization header format" iff the header does not start with "Bearer " |
| Cognito.BearerTokenShape | app/utils/cognito.py:46 | the token follows the prefix, contains no "Bearer ", and is followed by nothing or by another "Bearer " |
| Cognito.BearerTokenOfHeader | app/utils/cognito.py:44-46 | "Bearer " followed by a token free of "Bearer " yields exactly that token |
| Cognito.GetCurrentUserInfo | app/utils/cognito.py:43-51 | 400 without the prefix; otherwise the validator's outcome with `ValueError` turned into 401 |
| Cognito.UnknownKidIsUnauthorized | app/utils/cognito.py:15-18 | a token whose key id no cached key has is answered 401 |
| Cognito.AcceptedTokenClaims | app/utils/cognito.py:20-31 | a token the verifier accepts is answered with exactly the verifier's claims |
| Python.Find | app/utils/cognito.py:46 | the first index where the separator occurs; None iff it does not occur |
| Python.Split | app/utils/cognito.py:46 | at least one piece, and no piece contains the separator |
| Python.JoinSplit | app/utils/cognito.py:46 | joining the pieces of a split with the separator gives back the string |
| Python.First | app/utils/cognito.py:16 | the first index whose element satisfies the test; None iff no element does |
| Python.Filter | app/routes/auth.py:76-78 | every element satisfying the test kept exactly as many times as it occurs, every other element dropped |
| Python.FilterAtMostOne | app/routes/auth.py:76-78 | with at most one element satisfying the test, the filter keeps at most one |
| Python.ScalarOneOrNone | app/routes/auth.py:78 | None iff no row, the row iff exactly one, `MultipleResultsFound` otherwise |
| Auth.RequireFields | app/routes/auth.py:71-73 | succeeds iff username, email and subject id are all present and non-empty; else 500 "Required user fields are missing" |
| Auth.ResolveProfile | app/routes/auth.py:54-73 | the subject id comes from the token's `sub`; the token's non-empty username and email are kept; when either is missing the profile endpoint is asked, its failure propagates and its `username` / `email` fill exactly the missing ones; success iff `sub`, the merged username and the merged email are all non-empty; the only failures are the endpoint's and 500 "Required user fields are missing" |
| Auth.EmailFromProfileEndpoint | app/routes/auth.py:62-67 | a token with a username and subject id but no email resolves to the token's username and the endpoint's email |
| Auth.TokenClaimsPreferred | app/routes/auth.py:62-67 | with username and email in the token, the profile endpoint's answer makes no difference |
| Auth.LoginProfile | app/routes/auth.py:42-73 | 400 without the "Bearer " prefix; a `ValueError` from validation becomes 401 "Invalid token"; any other validation error propagates; valid claims go through the claim merge |
| Auth.GetOrCreateStep | app/routes/auth.py:75-89 | a stored user with that subject id is answered unchanged with its username and email; otherwise one user with the resolved fields is appended and answered |
| Auth.LoginStep | app/routes/auth.py:40-89 | header, token and field failures change nothing; otherwise the get-or-create; at most one user is added and tasks are untouched |
| Auth.Login | app/routes/auth.py:40-89 | the method's new tables and result are those of `LoginStep` |
| Auth.LoginIdempotent | app/routes/auth.py:75-89 | repeating a login with the same header and provider gives the same answer and changes nothing |
| Auth.LoggedInUserIsStored | app/routes/auth.py:75-89 | after a successful login a user with the token's subject id is stored and the answer carries its username and email |

## Left out

- `register_user` (`app/routes/auth.py:18-37`) and `logout`: they only call the identity provider's sign-up API or build a redirect URL, and there is no state of the application to model.
- `get_cognito_public_keys` and `get_user_info`: HTTP requests to the identity provider. The cached keys are the parameter `keys`. The profile endpoint is the parameter `userInfo`, whose failure is an exception that propagates.
- The token library (`jwt.get_unverified_headers`, `jwt.decode`): its signature, audience, issuer and expiry checks are the uninterpreted functions of `Cognito.Jose`.
- `print` calls, configuration and environment variables, session and engine set-up, and `TaskRead` / `UserRead` response shaping.
- `app/models/user.py` is not part of this model. The user row is taken to have an integer id, a unique `cognito_id`, a username and an email; `NewUser` carries the three strings of `app/schemas/user.py`.
- The repository as written does not run all of the modelled code, and the model treats each route on its own: `app/main.py` mounts only the auth router, so the task and user routes are unreachable; `TaskRead`, `UserCreate`, `UserRead` and `RegistrationData` are imported but defined in none of the schema files; and `app/routes/user.py` awaits calls on a synchronous session. The user routes are modelled with a `NewUser` body.
- `EmailStr` validation of request bodies is not modelled.
- TaskCrud.GetUserTasks: the order of `.all()` is not modelled. Tasks are returned as a map keyed by id.
- TaskRoutes.CreateTaskRouteStep: comparing a timezone-naive deadline with the aware current time raises `TypeError` in the source. The model compares plain timestamps.
- Auth.LoginStep: the login route does not check that the email is unused, so two users may share an email. The model keeps that behaviour, which is why `UserRoutes.EmailsUnique` is not a table invariant.
- TaskCrud.CreateTaskStep: a `priority` outside the database's integer range is not refused; the model stores any integer. It also assumes a backend that enforces string lengths and the foreign key; the in-memory SQLite backend the tests use enforces neither by default, so there a task for an owner with no user row is stored instead of refused.
- TaskRoutes.UpdateTaskRouteStep: the same integer range of `priority` is not checked on update, and the same backend assumption about string lengths applies.
- Concurrency between requests and transaction isolation: requests are served one after another.
