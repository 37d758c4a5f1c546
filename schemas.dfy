/**
 * The request and response bodies.  Optional fields with a `None` default
 * are `Field<Option<T>>`: `Unset` when the client left them out, `Set(None)`
 * when it sent JSON `null`.
 */
module Schemas {
  import opened Wrappers
  import opened Models
  import opened Web

  /** `UserCreate`: a registration body, after validation. */
  datatype UserCreate = UserCreate(email: string, username: string, password: string, role: UserRole)

  const PASSWORD_MIN_LENGTH := 1
  const PASSWORD_MAX_LENGTH := 72

  /**
   * Validation of a registration body: the password must have between 1
   * and 72 characters; an omitted role defaults to USER.
   */
  function ValidateUserCreate(email: string, username: string, password: string, role: Option<UserRole>)
    : (r: HttpResult<UserCreate>)
    ensures r.Ok? <==> PASSWORD_MIN_LENGTH <= |password| <= PASSWORD_MAX_LENGTH
    ensures r.Err? ==> r.error == RequestInvalid
    ensures r.Ok? ==> r.value.email == email && r.value.username == username && r.value.password == password
    ensures r.Ok? ==> r.value.role == (if role.Some? then role.value else USER)
  {
    if |password| < PASSWORD_MIN_LENGTH || |password| > PASSWORD_MAX_LENGTH then Err(RequestInvalid)
    else Ok(UserCreate(email, username, password, match role case Some(x) => x case None => USER))
  }

  datatype LoginRequest = LoginRequest(email: string, password: string)

  /** `UserUpdate`: a self-update body may name only email and username. */
  datatype UserUpdate = UserUpdate(email: Field<Option<string>>, username: Field<Option<string>>)

  /**
   * `SUPERADMINUserUpdate`: the self-update fields plus an optional role,
   * and nothing else (in particular no password).
   */
  datatype SuperadminUserUpdate = SuperadminUserUpdate(
    email: Field<Option<string>>,
    username: Field<Option<string>>,
    role: Field<Option<UserRole>>)

  /** One entry of `model_dump(exclude_unset=True)` for a user update. */
  datatype UserAttr = EmailAttr(email: Option<string>) | UsernameAttr(username: Option<string>)

  /** The supplied fields of a self-update body, in declaration order. */
  function UserUpdateItems(p: UserUpdate): (items: seq<UserAttr>)
    ensures forall i :: 0 <= i < |items| && items[i].EmailAttr? ==> p.email == Set(items[i].email)
    ensures forall i :: 0 <= i < |items| && items[i].UsernameAttr? ==> p.username == Set(items[i].username)
    ensures p.email.Set? ==> EmailAttr(p.email.value) in items
    ensures p.username.Set? ==> UsernameAttr(p.username.value) in items
  {
    (if p.email.Set? then [EmailAttr(p.email.value)] else []) +
    (if p.username.Set? then [UsernameAttr(p.username.value)] else [])
  }

  /** `TaskCreate`: title required, the rest defaulted. */
  datatype TaskCreate = TaskCreate(
    title: string,
    description: Option<string>,
    status: TaskStatus,
    priority: TaskPriority,
    deadline: Option<int>,
    assigneeId: Option<int>)

  /** A task-create body that gives only a title. */
  function TaskCreateWithDefaults(title: string): (t: TaskCreate)
    ensures t.title == title && t.status == TODO && t.priority == MEDIUM
    ensures t.description.None? && t.deadline.None? && t.assigneeId.None?
  {
    TaskCreate(title, None, DEFAULT_STATUS, DEFAULT_PRIORITY, None, None)
  }

  /** `TaskUpdate`: every field optional; there is no `author_id` field. */
  datatype TaskUpdate = TaskUpdate(
    title: Field<Option<string>>,
    description: Field<Option<string>>,
    status: Field<Option<TaskStatus>>,
    priority: Field<Option<TaskPriority>>,
    deadline: Field<Option<int>>,
    assigneeId: Field<Option<int>>)

  /** One entry of `dict(exclude_unset=True)` for a task update. */
  datatype TaskAttr =
    | TitleAttr(title: Option<string>)
    | DescriptionAttr(description: Option<string>)
    | StatusAttr(status: Option<TaskStatus>)
    | PriorityAttr(priority: Option<TaskPriority>)
    | DeadlineAttr(deadline: Option<int>)
    | AssigneeAttr(assigneeId: Option<int>)

  /** Whether `a` is one of the fields `p` supplies, with the supplied value. */
  predicate SuppliedTaskAttr(p: TaskUpdate, a: TaskAttr)
  {
    match a
    case TitleAttr(v) => p.title == Set(v)
    case DescriptionAttr(v) => p.description == Set(v)
    case StatusAttr(v) => p.status == Set(v)
    case PriorityAttr(v) => p.priority == Set(v)
    case DeadlineAttr(v) => p.deadline == Set(v)
    case AssigneeAttr(v) => p.assigneeId == Set(v)
  }

  /** The supplied fields of a task-update body, in declaration order. */
  function TaskUpdateItems(p: TaskUpdate): (items: seq<TaskAttr>)
    ensures forall i :: 0 <= i < |items| ==> SuppliedTaskAttr(p, items[i])
    ensures p.title.Set? ==> TitleAttr(p.title.value) in items
    ensures p.description.Set? ==> DescriptionAttr(p.description.value) in items
    ensures p.status.Set? ==> StatusAttr(p.status.value) in items
    ensures p.priority.Set? ==> PriorityAttr(p.priority.value) in items
    ensures p.deadline.Set? ==> DeadlineAttr(p.deadline.value) in items
    ensures p.assigneeId.Set? ==> AssigneeAttr(p.assigneeId.value) in items
  {
    (if p.title.Set? then [TitleAttr(p.title.value)] else []) +
    (if p.description.Set? then [DescriptionAttr(p.description.value)] else []) +
    (if p.status.Set? then [StatusAttr(p.status.value)] else []) +
    (if p.priority.Set? then [PriorityAttr(p.priority.value)] else []) +
    (if p.deadline.Set? then [DeadlineAttr(p.deadline.value)] else []) +
    (if p.assigneeId.Set? then [AssigneeAttr(p.assigneeId.value)] else [])
  }

  datatype CommentCreate = CommentCreate(text: string)

  /** `UserResponse`: the public view of a user; every field required. */
  datatype UserResponse = UserResponse(id: int, email: string, username: string, role: UserRole)

  /**
   * Serialising a user row through `response_model=UserResponse`: a NULL
   * email, username or role fails validation, which surfaces as a 500.
   * The password digest is never part of the view.
   */
  function UserResponseOf(u: User): (r: HttpResult<UserResponse>)
    ensures r.Ok? <==> u.email.Some? && u.username.Some? && u.role.Some?
    ensures r.Ok? ==> r.value.id == u.id && Some(r.value.email) == u.email &&
                      Some(r.value.username) == u.username && Some(r.value.role) == u.role
    ensures r.Err? ==> r.error == Unhandled("ResponseValidationError")
  {
    if u.email.Some? && u.username.Some? && u.role.Some? then
      Ok(UserResponse(u.id, u.email.value, u.username.value, u.role.value))
    else Err(Unhandled("ResponseValidationError"))
  }

  /** `TaskResponse` (without `created_at`). */
  datatype TaskResponse = TaskResponse(
    title: string,
    description: Option<string>,
    status: TaskStatus,
    priority: TaskPriority,
    deadline: Option<int>,
    authorId: int,
    assigneeId: Option<int>)

  /**
   * `TaskResponse(...)` built from every column of a task row: a NULL
   * title, status or priority fails validation (a 500).
   */
  function TaskResponseOf(t: Task): (r: HttpResult<TaskResponse>)
    ensures r.Ok? <==> t.title.Some? && t.status.Some? && t.priority.Some?
    ensures r.Ok? ==> Some(r.value.title) == t.title && r.value.description == t.description &&
                      Some(r.value.status) == t.status && Some(r.value.priority) == t.priority &&
                      r.value.deadline == t.deadline && r.value.authorId == t.authorId &&
                      r.value.assigneeId == t.assigneeId
    ensures r.Err? ==> r.error == Unhandled("ValidationError")
  {
    if t.title.Some? && t.status.Some? && t.priority.Some? then
      Ok(TaskResponse(t.title.value, t.description, t.status.value, t.priority.value,
                      t.deadline, t.authorId, t.assigneeId))
    else Err(Unhandled("ValidationError"))
  }

  /** `CommentResponse`: the author is reported by username. */
  datatype CommentResponse = CommentResponse(taskId: int, text: string, author: string)
}
