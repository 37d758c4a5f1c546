# Task tracker backend: authentication, authorization and handlers

A Dafny model of the core of a FastAPI task-tracking backend. Users register
and log in; a login issues an HS256 JSON Web Token that is kept in the
`access_token` cookie and resolved to a user on every request. Roles (USER,
ADMIN, SUPERADMIN) decide who may create, update and delete tasks, and who may
update other users. Everyone who is signed in may list tasks, read a task and
comment on one.

The model has these parts:

- `Models`: the three tables. These are the role, status and priority enums,
  the column defaults, nullable columns as `Option`, and the unique columns
  (user email and username, task title).
- `Database`: the store behind the request session. It is a class holding the
  users and tasks maps, the comments sequence and the primary-key counters.
  Its commit checks the unique constraints and writes nothing when one would
  break.
- `Schemas`: the request and response bodies. A field the client left out
  (`Unset`) is told apart from one sent as JSON `null` (`Set(None)`).
- `Decimal`: Python's `str(int)` and `int(str)`. The token subject is written
  with the first and read back with the second.
- `Jwt`: the token format, with a symbolic MAC. Decoding follows PyJWT: the
  algorithm is checked, then the signature, then expiry, and `exp <= now`
  counts as expired.
- `Web`: outcomes that are not a 200, and the response's cookie header.
- `Auth`, `Users`, `Tasks`: the handlers.
- `AuthProperties`: facts about the token lifecycle that span several calls.
- `Scenario`: a register, login, refusal, promotion and creation session.

The handlers take the store, the resolved actor, the cookie and the current
time (seconds) as parameters. A `Failure` is an `Http(status, detail)`, a
request-validation rejection (422), or an `Unhandled(exception)` that
surfaces as a 500.

Where the documentation of the system and its code disagree, the model
follows the code:

- `register` ignores the role in the request body. The row always takes the
  column default USER, although the request schema accepts a role.
- `comment_to_task` does not check that the task exists, although its
  docstring promises a 404.
- `get_current_user_profile` raises no 400 of its own, although its docstring
  mentions one.

## Model

| member | source | states |
|---|---|---|
| Models.RoleValue | app/models.py:6-9 | the stored value of every role reads back as that role |
| Models.ParseRole | app/models.py:6-9 | `UserRole(s)` succeeds exactly for "user", "admin" and "superadmin" |
| Models.UserFitsKeepsTable | app/models.py:11-16 | writing a row whose email and username are free keeps the users table keyed and unique |
| Models.TaskFitsKeepsTable | app/models.py:32-36 | writing a row whose title is free keeps the tasks table keyed and titles unique |
| Models.UserWithEmail | app/auth.py:97 | the lookup by email finds a row exactly when some user has that email, and returns that stored row |
| Database.Store.constructor | app/models.py:11-52 | a new store is empty, with both keys starting at 1 |
| Database.Store.InsertUser | app/auth.py:81-82 | the new row takes the next key; it is written, and the counter advances, exactly when its email and username are free; other tables are unchanged |
| Database.Store.SaveUser | app/users.py:117 | a staged user row is committed exactly when it keeps the unique columns unique; otherwise nothing changes |
| Database.Store.InsertTask | app/tasks.py:90-91 | the new task takes a fresh key and is written exactly when its title is free |
| Database.Store.SaveTask | app/tasks.py:159 | a staged task row is committed exactly when its title stays unique; otherwise nothing changes |
| Database.Store.DeleteTask | app/tasks.py:186-187 | exactly that task is removed; every other row stays |
| Database.Store.InsertComment | app/tasks.py:205-211 | exactly one comment is appended; users and tasks are unchanged |
| Web.Response.constructor | app/auth.py:86 | a fresh response carries no cookie header |
| Web.Response.SetAccessToken | app/auth.py:103-106 | the `access_token` cookie is set to the given token |
| Web.Response.DeleteAccessToken | app/users.py:50 | the `access_token` cookie is cleared |
| Decimal.NatToString | app/auth.py:26 | the decimal form of a natural number is a non-empty string of digits |
| Decimal.IntToString | app/auth.py:26 | `str(i)` is non-empty and starts with '-' exactly for negative `i` |
| Decimal.ParseDigits | app/auth.py:41 | a digit string has a value exactly when it is non-empty and all digits |
| Decimal.ParseInt | app/auth.py:41 | `int(s)` succeeds exactly on an optional `-` or `+` followed by one or more ASCII digits, and a leading `-` gives a value at most 0, any other form a value at least 0 |
| Decimal.ParseNatToString | app/auth.py:26-41 | reading back the digits of `n` gives `n` |
| Decimal.ParseIntToString | app/auth.py:26-41 | `int(str(i)) == i` for every integer, so a token's subject reads back as the user id |
| Jwt.Encode | app/auth.py:31 | an encoded token carries exactly the given claims and algorithm |
| Jwt.Decode | app/auth.py:40 | decoding succeeds exactly for a token signed under the key with the allowed algorithm and, when expiry is checked, `now < exp`; it then yields the token's claims; expiry is reported exactly for signed tokens at or past `exp` |
| Jwt.DecodeEncode | app/auth.py:31-40 | a token decodes under its own key to its claims until it expires |
| Jwt.WrongKeyRejected | app/auth.py:40 | a token signed under one key is refused under any other, with or without expiry checking |
| Schemas.ValidateUserCreate | app/schemas.py:12-14 | a registration body is accepted exactly when the password has 1 to 72 characters; an omitted role becomes USER |
| Schemas.UserUpdateItems | app/users.py:40 | the dumped self-update lists exactly the supplied fields with their values |
| Schemas.TaskCreateWithDefaults | app/schemas.py:43-53 | a create body that gives only a title has status TODO, priority MEDIUM and no description, deadline or assignee |
| Schemas.TaskUpdateItems | app/tasks.py:156 | the dumped task update lists exactly the supplied fields with their values; there is no author field |
| Schemas.UserResponseOf | app/schemas.py:25-31 | a user row serialises exactly when email, username and role are set, and the view repeats them; otherwise a 500 |
| Schemas.TaskResponseOf | app/schemas.py:65-73 | a task row serialises exactly when title, status and priority are set, and the view repeats every column; otherwise a 500 |
| Auth.CreateToken | app/auth.py:23-31 | the issued token is validly signed; its `sub` reads back as the user id and its `role` as the role; `iat` is now and `exp` is now plus 30 days |
| Auth.GetCurrentUser | app/auth.py:34-47 | no cookie gives 401 "Not authentificated"; any decode failure (signature, algorithm, expiry) gives 401 "Invalid token"; a `sub` that is not an integer raises `ValueError`; an unknown subject gives 401 "User not found"; it succeeds exactly when the token decodes and its subject is a stored user, and then returns that user |
| Auth.VerifyPassword | app/auth.py:52-57 | a password verifies exactly when its digest equals the stored digest |
| Auth.HashThenVerify | app/auth.py:52-57 | `verify_password(p, hash_password(p))` always holds; with the digest symbolic, no other password verifies against it |
| Auth.Register | app/auth.py:59-83 | a taken email gives 400 and no change; a taken username fails at the commit with no change; otherwise exactly one user is added with the next id, the given email and username, the password digest and role USER; the key counter advances exactly on success |
| Auth.Authenticate | app/auth.py:97-99 | succeeds exactly when a stored user has the email and the password matches its digest, and returns that stored user; an unknown email and a wrong password give the same 401 "Invalid credentials" |
| Auth.Login | app/auth.py:85-108 | on valid credentials the token is built from the stored user's id and role and the cookie is set to that same token; otherwise 401 with the cookie untouched |
| Auth.RefreshToken | app/auth.py:110-141 | no cookie gives 401 "No access token"; a bad signature gives 401 "Invalid token"; a signed token whose `sub` or `role` does not parse raises `ValueError`; any signed token whose claims parse succeeds, with no expiry check, and yields a fresh token with the old `sub` and `role` |
| Auth.Refresh | app/auth.py:131-138 | a successful refresh also sets the cookie to the new token; a failed one leaves it |
| AuthProperties.IssuedTokenLifetime | app/auth.py:17-31 | an issued token decodes to its claims before `iat` plus 30 days and is expired from then on |
| AuthProperties.IssuedTokenAuthenticates | app/auth.py:34-45 | an unexpired token for a stored user's id resolves to that stored user, whatever role it claims |
| AuthProperties.ExpiredTokenRejected | app/auth.py:40-47 | an expired issued token gives 401 "Invalid token" |
| AuthProperties.ForeignKeyRejected | app/auth.py:40-47 | a token signed with any other key is refused by request authentication and by refresh |
| AuthProperties.TamperedTokenRejected | app/auth.py:40-47 | changing the claims of an issued token without re-signing is refused by authentication and refresh |
| AuthProperties.UnknownSubjectRejected | app/auth.py:42-44 | a valid token whose subject is no longer stored gives 401 "User not found" |
| AuthProperties.RefreshRenewsIssuedToken | app/auth.py:126-131 | even a long-expired issued token refreshes to a token with the same `sub` and `role` and `exp` = now plus 30 days |
| AuthProperties.MissingCookieRejected | app/auth.py:35-37 | a missing or empty cookie is refused by authentication and by refresh before any decoding |
| AuthProperties.RegisterThenLogin | app/auth.py:74-101 | after a registration, logging in with the same credentials finds the new user; the token names its id and role USER and resolves back to it |
| Users.GetCurrentUserProfile | app/users.py:11-22 | the profile is the authenticated user's own id, email, username and role |
| Users.SetUserAttrsOfItems | app/users.py:47-48 | running `setattr` over the supplied fields patches exactly those fields |
| Users.ApplyUserUpdate | app/users.py:40-48 | the loop writes exactly the supplied email and/or username; id, role and password digest are unchanged |
| Users.UpdateCurrentUser | app/users.py:24-54 | a new email that another row has gives 400, changes nothing and keeps the cookie; re-sending one's own email passes; otherwise the response object's cookie header is cleared and the patched row is committed, or an IntegrityError changes nothing |
| Users.SelfUpdateFailsOnlyOnUsername | app/users.py:42-52 | past the email check, the commit fails exactly when the new username belongs to another user |
| Users.UpdateUser | app/users.py:56-120 | checks in order: non-SUPERADMIN 403, missing target 404, email of another user 400, own role change 400; then one commit of email, username and role; every failed check persists nothing |
| Tasks.QueryIsConjunction | app/tasks.py:40-53 | chaining filters keeps exactly the rows that satisfy every condition, unchanged |
| Tasks.ConditionsMeanFilter | app/tasks.py:42-51 | the added conditions hold of a task exactly when it meets every truthy filter, with `deadline_before` meaning deadline at or after and `deadline_after` at or before |
| Tasks.GetTasks | app/tasks.py:14-58 | the listing holds exactly the stored tasks that meet every supplied filter; it is 404 "No tasks found" exactly when none does |
| Tasks.FalsyAuthorIgnored | app/tasks.py:42-43 | an `author_id` of 0 lists the same as no `author_id` |
| Tasks.UndatedTaskNeverMatchesDeadlineFilter | app/tasks.py:48-51 | a task with no deadline is never listed under a deadline filter |
| Tasks.NoFiltersListsAll | app/tasks.py:40-56 | with no filters the listing is the whole table, or 404 when it is empty |
| Tasks.GetTaskDetail | app/tasks.py:103-127 | an unknown id gives 404 "Task doesn't exists"; otherwise the view of the stored row |
| Tasks.AuthorizeTaskChange | app/tasks.py:143-153 | USER is refused before the lookup; a missing task comes next; an ADMIN who is not the author is refused; access is granted exactly to a SUPERADMIN or the authoring ADMIN of an existing task |
| Tasks.CreateTaskResponseAsWritten | app/tasks.py:93-101 | the response `create_task` builds always says priority MEDIUM, whatever the client chose, and names the actor as author |
| Tasks.CorrectedCreateTaskResponse | app/tasks.py:93-101 | the evidently intended response, the view of the stored row, carries the chosen priority |
| Tasks.CreateTaskResponseMisreportsPriority | app/tasks.py:93-101 | for every task, the response as written equals the stored row's view with the priority replaced by MEDIUM, and it is right exactly when the chosen priority is MEDIUM |
| Tasks.CreateTaskResponseMisreportsHigh | app/tasks.py:93-127 | a task created with priority HIGH is stored and read back as HIGH, but the create response says MEDIUM |
| Tasks.CreateTask | app/tasks.py:61-101 | non-admins get 403 before the assignee check; an omitted or unknown assignee gives 422; otherwise exactly one task authored by the actor is added under the next key and the answer is the response as written (priority MEDIUM), or an IntegrityError adds nothing; the key counter advances exactly on success |
| Tasks.CreatedTaskResponseMatchesDetail | app/tasks.py:93-127 | the corrected response equals what `get_task_detail` later reports for the new task, chosen priority included |
| Tasks.SetTaskAttrsAppend | app/tasks.py:156-157 | `setattr` over two lists in a row equals `setattr` over their concatenation |
| Tasks.SetTaskAttrsOfItems | app/tasks.py:156-157 | `setattr` over the supplied fields of an update patches exactly those fields |
| Tasks.ApplyTaskUpdate | app/tasks.py:156-157 | the loop writes exactly the supplied fields; id, author and unsupplied fields are unchanged |
| Tasks.UpdateTask | app/tasks.py:129-161 | 403 "Admin role required", 404 "Task not found" and 403 "Access denied" in that order change nothing; a permitted update replaces only that task by its patch, or an IntegrityError changes nothing |
| Tasks.DeleteTask | app/tasks.py:163-188 | the same gate, with 404 "Task doesn't exists"; a permitted delete removes exactly that task |
| Tasks.CommentToTask | app/tasks.py:190-218 | any actor appends exactly one comment with the task id and the actor's id, whether or not the task exists; the response names the author's username |
| Scenario.PromotionScenario | app/tasks.py:77-91 | a newly registered user who creates a task is refused with 403; once a SUPERADMIN promotes them to ADMIN, the same cookie creates the task with them as author; the creation response says MEDIUM while reading the task back says HIGH, the chosen priority |

## Left out

- The real HMAC-SHA256 and SHA-256 are not modelled. A signature is the term `Mac(key, alg, claims)` and a digest is `Sha256Of(password)`. Forgery and collisions are therefore impossible by construction.
- The secret `KEY` comes from the environment. Here it is the constant `ServerKey`. A missing key is not modelled.
- Wall-clock reads become the `now` parameter, in whole seconds. Timezones and `created_at` timestamps are not modelled, and neither is any field that only carries one.
- PyJWT checks beyond algorithm, signature and `exp` are not modelled: `iat` and `nbf` checks, required claims, and claims of the wrong JSON type.
- Decimal.ParseInt: whitespace, underscores and non-ASCII digits accepted by Python's `int()` are not modelled. A token's subject is always written by `str(int)`.
- Pydantic's `EmailStr` syntax check is not modelled, and neither is the UTF-8 encoding before hashing.
- HTTP transport, routing and the `httponly` cookie flag are not modelled. The cookie is an optional token value.
- `get_active_current_user` is not modelled separately. It returns its argument, so handlers take the resolved actor directly.
- Database sessions, `db.refresh` and rollback are not modelled. The store commits atomically, and a failed unique constraint raises `IntegrityError` and writes nothing.
- Primary keys come from a counter that starts at 1 and advances only on a successful insert. The store is SQLite, whose rowid reuses the highest key once the row holding it is deleted; the monotone counter does not model that reuse.
- Foreign keys (author, assignee, comment task) are declared on the tables but not enforced: SQLite leaves foreign-key checks off unless the connection turns them on, and nothing here does. So a comment may name a task that does not exist, and deleting a task leaves its comments in place.
- Users.UpdateCurrentUser: the contract clears the cookie header on the response object even when the call then ends in a 500 (IntegrityError, or a response validation error after the commit). The web framework sends the headers of that object only with a normal return, so on those 500s the client's cookie is kept.
- Concurrent requests, such as two registrations racing on one email, are not modelled.
- Users.UpdateUser: the password branch of `update_user` is not modelled, because the payload type has no password field and the branch is never taken.
- Comments get no id and no timestamp. The model keeps them as an append-only sequence.

## Findings

| source | as written | input that shows it | evidently intended | confidence | as-written member | corrected member |
|---|---|---|---|---|---|---|
| app/tasks.py:93-101 | the response of `create_task` passes every field but `priority`, so the schema default MEDIUM is reported | create a task with priority HIGH: the row stores HIGH and `get_task_detail` reports HIGH, but the create response says MEDIUM | the response reports the stored row, priority included, as `get_task_detail` does | not executed | Tasks.CreateTaskResponseMisreportsPriority | Tasks.CreatedTaskResponseMatchesDetail |

The handler `Tasks.CreateTask` answers with the response as written (`Tasks.CreateTaskResponseAsWritten`); the corrected response is `Tasks.CorrectedCreateTaskResponse`.
