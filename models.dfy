/**
 * The three tables of the tracker (users, tasks, comments), their enums and
 * their column constraints.  Every column the source declares without
 * `nullable=False` may hold NULL, modelled as `Option`; the handlers can
 * write NULL into email, username, role and the task columns through update
 * payloads that send an explicit JSON `null`.
 */
module Models {
  import opened Wrappers

  /** A user's role: exactly one of three values. */
  datatype UserRole = USER | ADMIN | SUPERADMIN

  datatype TaskStatus = TODO | IN_PROGRESS | DONE | CANCELLED

  datatype TaskPriority = LOW | MEDIUM | HIGH

  /** Column defaults applied when a row is inserted without a value. */
  const DEFAULT_ROLE: UserRole := USER
  const DEFAULT_STATUS: TaskStatus := TODO
  const DEFAULT_PRIORITY: TaskPriority := MEDIUM

  /** The string `role.value` carries, as stored in a token claim. */
  function RoleValue(r: UserRole): (s: string)
    ensures ParseRole(s) == Some(r)
  {
    match r
    case USER => "user"
    case ADMIN => "admin"
    case SUPERADMIN => "superadmin"
  }

  /** `UserRole(s)`: the role whose value is `s`, or None (a `ValueError`). */
  function ParseRole(s: string): (r: Option<UserRole>)
    ensures r.Some? <==> s == "user" || s == "admin" || s == "superadmin"
  {
    if s == "user" then Some(USER)
    else if s == "admin" then Some(ADMIN)
    else if s == "superadmin" then Some(SUPERADMIN)
    else None
  }

  /**
   * A row of `users`.  The password digest is never NULL: no code path
   * writes one.  `created_at` (a server-side timestamp) is not modelled.
   */
  datatype User = User(
    id: int,
    email: Option<string>,
    username: Option<string>,
    hashedPassword: Digest,
    role: Option<UserRole>)

  /** A row of `tasks`; `author_id` is set once, on creation. */
  datatype Task = Task(
    id: int,
    title: Option<string>,
    description: Option<string>,
    status: Option<TaskStatus>,
    priority: Option<TaskPriority>,
    deadline: Option<int>,
    authorId: int,
    assigneeId: Option<int>)

  /** A row of `comments`: it names a task and an author by id only. */
  datatype Comment = Comment(text: string, taskId: int, authorId: int)

  /** A SHA-256 hex digest, kept symbolic: the digest of the given bytes. */
  datatype Digest = Sha256Of(message: string)

  /** Whether some user row has this email (`User.email == e`; `None` is `IS NULL`). */
  predicate EmailTaken(users: map<int, User>, e: Option<string>)
  {
    exists id :: id in users && users[id].email == e
  }

  /** Whether some user row has this username. */
  predicate UsernameTaken(users: map<int, User>, n: Option<string>)
  {
    exists id :: id in users && users[id].username == n
  }

  /**
   * The `unique=True` constraints of `users.email` and `users.username`:
   * no two rows share a non-NULL value (SQL treats NULLs as distinct).
   */
  predicate UniqueUserColumns(users: map<int, User>)
  {
    forall a, b :: a in users && b in users && a != b ==>
      (users[a].email.Some? ==> users[a].email != users[b].email) &&
      (users[a].username.Some? ==> users[a].username != users[b].username)
  }

  /** The `unique=True` constraint of `tasks.title`. */
  predicate UniqueTitles(tasks: map<int, Task>)
  {
    forall a, b :: a in tasks && b in tasks && a != b && tasks[a].title.Some? ==>
      tasks[a].title != tasks[b].title
  }

  /** Whether writing row `u` keeps the users' unique columns unique. */
  predicate UserFits(users: map<int, User>, u: User)
  {
    forall id :: id in users && id != u.id ==>
      (u.email.Some? ==> users[id].email != u.email) &&
      (u.username.Some? ==> users[id].username != u.username)
  }

  /** Whether writing row `t` keeps task titles unique. */
  predicate TaskFits(tasks: map<int, Task>, t: Task)
  {
    forall id :: id in tasks && id != t.id && t.title.Some? ==> tasks[id].title != t.title
  }

  /** A users table: rows keyed by their primary key, unique columns unique. */
  predicate UserTable(users: map<int, User>)
  {
    (forall id :: id in users ==> users[id].id == id) && UniqueUserColumns(users)
  }

  /** A tasks table: rows keyed by their primary key, titles unique. */
  predicate TaskTable(tasks: map<int, Task>)
  {
    (forall id :: id in tasks ==> tasks[id].id == id) && UniqueTitles(tasks)
  }

  /** Writing a row that fits keeps a users table well formed. */
  lemma UserFitsKeepsTable(users: map<int, User>, u: User)
    requires UserTable(users) && UserFits(users, u)
    ensures UserTable(users[u.id := u])
  {
    var users' := users[u.id := u];
    forall a, b | a in users' && b in users' && a != b
      ensures users'[a].email.Some? ==> users'[a].email != users'[b].email
      ensures users'[a].username.Some? ==> users'[a].username != users'[b].username
    {
      if a == u.id {
        assert users'[b] == users[b];
      } else if b == u.id {
        assert users'[a] == users[a];
      }
    }
  }

  /** Writing a row that fits keeps a tasks table well formed. */
  lemma TaskFitsKeepsTable(tasks: map<int, Task>, t: Task)
    requires TaskTable(tasks) && TaskFits(tasks, t)
    ensures TaskTable(tasks[t.id := t])
  {
    var tasks' := tasks[t.id := t];
    forall a, b | a in tasks' && b in tasks' && a != b && tasks'[a].title.Some?
      ensures tasks'[a].title != tasks'[b].title
    {
      if a == t.id {
        assert tasks'[b] == tasks[b];
      } else if b == t.id {
        assert tasks'[a] == tasks[a];
      }
    }
  }

  /**
   * In a well-formed users table, `first()` of the rows whose email is `e`
   * is determined: at most one row has it.
   */
  function UserWithEmail(users: map<int, User>, e: string): (r: Option<User>)
    requires UserTable(users)
    ensures r.Some? <==> EmailTaken(users, Some(e))
    ensures r.Some? ==> r.value.id in users && users[r.value.id] == r.value && r.value.email == Some(e)
  {
    if EmailTaken(users, Some(e)) then
      var id :| id in users && users[id].email == Some(e);
      Some(users[id])
    else None
  }
}
