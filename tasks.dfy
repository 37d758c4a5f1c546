/**
 * The `/tasks` handlers: the filtered listing, reading one task, and the
 * role- and ownership-gated create, update and delete, plus comments.
 * Each handler receives the actor `Auth.GetCurrentUser` resolved.
 */
module Tasks {
  import opened Wrappers
  import opened Models
  import opened Database
  import opened Schemas
  import opened Web

  /** The query parameters of `get_tasks`; each may be omitted. */
  datatype TaskFilter = TaskFilter(
    authorId: Option<int>,
    status: Option<TaskStatus>,
    priority: Option<TaskPriority>,
    deadlineBefore: Option<int>,
    deadlineAfter: Option<int>)

  /** One `WHERE` condition `get_tasks` may add to its query. */
  datatype Condition =
    | AuthorIs(authorId: int)
    | StatusIs(status: TaskStatus)
    | PriorityIs(priority: TaskPriority)
    | DeadlineAtLeast(bound: int)
    | DeadlineAtMost(bound: int)

  /** Whether a row satisfies a condition; as in SQL, a comparison with NULL is never true. */
  predicate Holds(c: Condition, t: Task)
  {
    match c
    case AuthorIs(a) => t.authorId == a
    case StatusIs(s) => t.status == Some(s)
    case PriorityIs(p) => t.priority == Some(p)
    case DeadlineAtLeast(b) => t.deadline.Some? && t.deadline.value >= b
    case DeadlineAtMost(b) => t.deadline.Some? && t.deadline.value <= b
  }

  predicate AllHold(cs: seq<Condition>, t: Task)
  {
    forall i :: 0 <= i < |cs| ==> Holds(cs[i], t)
  }

  /**
   * The conditions `get_tasks` adds, one per truthy parameter: an
   * `author_id` of 0 is falsy and adds none.  `deadline_before` keeps
   * deadlines at or after the bound and `deadline_after` those at or before.
   */
  function Conditions(f: TaskFilter): seq<Condition>
  {
    (if f.authorId.Some? && f.authorId.value != 0 then [AuthorIs(f.authorId.value)] else []) +
    (if f.status.Some? then [StatusIs(f.status.value)] else []) +
    (if f.priority.Some? then [PriorityIs(f.priority.value)] else []) +
    (if f.deadlineBefore.Some? then [DeadlineAtLeast(f.deadlineBefore.value)] else []) +
    (if f.deadlineAfter.Some? then [DeadlineAtMost(f.deadlineAfter.value)] else [])
  }

  /** `query.filter(c)` */
  function Where(rows: map<int, Task>, c: Condition): map<int, Task>
  {
    map id | id in rows && Holds(c, rows[id]) :: rows[id]
  }

  /** The query after `query = query.filter(c)` for each condition in turn. */
  function Query(rows: map<int, Task>, cs: seq<Condition>): map<int, Task>
  {
    if cs == [] then rows else Query(Where(rows, cs[0]), cs[1..])
  }

  /** Chaining filters keeps exactly the rows that satisfy all of them, unchanged. */
  lemma {:induction false} QueryIsConjunction(rows: map<int, Task>, cs: seq<Condition>)
    ensures Query(rows, cs) == map id | id in rows && AllHold(cs, rows[id]) :: rows[id]
  {
    if cs != [] {
      var w := Where(rows, cs[0]);
      QueryIsConjunction(w, cs[1..]);
      forall id | id in rows
        ensures AllHold(cs, rows[id]) <==> Holds(cs[0], rows[id]) && AllHold(cs[1..], rows[id])
      {
        if Holds(cs[0], rows[id]) && AllHold(cs[1..], rows[id]) {
          forall i | 0 <= i < |cs| ensures Holds(cs[i], rows[id]) {
            if i > 0 { assert cs[i] == cs[1..][i - 1]; }
          }
        }
        if AllHold(cs, rows[id]) {
          forall i | 0 <= i < |cs| - 1 ensures Holds(cs[1..][i], rows[id]) {
            assert cs[1..][i] == cs[i + 1];
          }
        }
      }
    }
  }

  /** A task meets every supplied filter: the documented meaning of `get_tasks`. */
  predicate MatchesFilter(t: Task, f: TaskFilter)
  {
    && (f.authorId.Some? && f.authorId.value != 0 ==> t.authorId == f.authorId.value)
    && (f.status.Some? ==> t.status == f.status)
    && (f.priority.Some? ==> t.priority == f.priority)
    && (f.deadlineBefore.Some? ==> t.deadline.Some? && t.deadline.value >= f.deadlineBefore.value)
    && (f.deadlineAfter.Some? ==> t.deadline.Some? && t.deadline.value <= f.deadlineAfter.value)
  }

  lemma ConditionsMeanFilter(f: TaskFilter, t: Task)
    ensures AllHold(Conditions(f), t) <==> MatchesFilter(t, f)
  {
    var cs := Conditions(f);
    if MatchesFilter(t, f) {
      forall i | 0 <= i < |cs| ensures Holds(cs[i], t) {
        assert cs[i] in cs;
      }
    }
    if AllHold(cs, t) {
      forall c | c in cs ensures Holds(c, t) {
        var i :| 0 <= i < |cs| && cs[i] == c;
      }
      if f.authorId.Some? && f.authorId.value != 0 { assert AuthorIs(f.authorId.value) in cs; }
      if f.status.Some? { assert StatusIs(f.status.value) in cs; }
      if f.priority.Some? { assert PriorityIs(f.priority.value) in cs; }
      if f.deadlineBefore.Some? { assert DeadlineAtLeast(f.deadlineBefore.value) in cs; }
      if f.deadlineAfter.Some? { assert DeadlineAtMost(f.deadlineAfter.value) in cs; }
    }
  }

  lemma SomeRow(rows: map<int, Task>)
    ensures rows.Keys != {} ==> exists id :: id in rows
  {
    if forall id :: id !in rows {
      assert rows.Keys == {};
    }
  }

  /**
   * `get_tasks`: the tasks that meet every supplied filter, or 404 when
   * there are none.
   */
  function GetTasks(tasks: map<int, Task>, f: TaskFilter): (r: HttpResult<map<int, Task>>)
    ensures r.Ok? ==> forall id :: id in r.value <==> id in tasks && MatchesFilter(tasks[id], f)
    ensures r.Ok? ==> forall id :: id in r.value ==> r.value[id] == tasks[id]
    ensures r.Err? <==> forall id :: id in tasks ==> !MatchesFilter(tasks[id], f)
    ensures r.Err? ==> r.error == Http(404, "No tasks found")
  {
    var found := Query(tasks, Conditions(f));
    QueryIsConjunction(tasks, Conditions(f));
    assert forall id :: id in tasks ==> (AllHold(Conditions(f), tasks[id]) <==> MatchesFilter(tasks[id], f)) by {
      forall id | id in tasks ensures AllHold(Conditions(f), tasks[id]) <==> MatchesFilter(tasks[id], f) {
        ConditionsMeanFilter(f, tasks[id]);
      }
    }
    if found.Keys == {} then
      assert forall id :: id in tasks ==> !MatchesFilter(tasks[id], f) by {
        forall id | id in tasks ensures !MatchesFilter(tasks[id], f) {
          assert id !in found;
        }
      }
      Err(Http(404, "No tasks found"))
    else
      assert exists id :: id in tasks && MatchesFilter(tasks[id], f) by {
        SomeRow(found);
      }
      Ok(found)
  }

  /** An `author_id` of 0 is falsy and filters nothing, exactly as an omitted one. */
  lemma FalsyAuthorIgnored(tasks: map<int, Task>, f: TaskFilter)
    ensures GetTasks(tasks, f.(authorId := Some(0))) == GetTasks(tasks, f.(authorId := None))
  {
  }

  /** A task with no deadline is never listed once a deadline filter is supplied. */
  lemma UndatedTaskNeverMatchesDeadlineFilter(tasks: map<int, Task>, f: TaskFilter, id: int)
    requires id in tasks && tasks[id].deadline.None?
    requires f.deadlineBefore.Some? || f.deadlineAfter.Some?
    ensures GetTasks(tasks, f).Ok? ==> id !in GetTasks(tasks, f).value
  {
  }

  /** Without filters the listing is the whole table, or 404 when the table is empty. */
  lemma NoFiltersListsAll(tasks: map<int, Task>)
    ensures var r := GetTasks(tasks, TaskFilter(None, None, None, None, None));
      && (tasks.Keys != {} ==> r == Ok(tasks))
      && (tasks.Keys == {} ==> r == Err(Http(404, "No tasks found")))
  {
  }

  /** `get_task_detail`: the task's response view, or 404. */
  function GetTaskDetail(tasks: map<int, Task>, taskId: int): (r: HttpResult<TaskResponse>)
    ensures taskId !in tasks ==> r == Err(Http(404, "Task doesn't exists"))
    ensures taskId in tasks ==> r == TaskResponseOf(tasks[taskId])
  {
    if taskId !in tasks then Err(Http(404, "Task doesn't exists")) else TaskResponseOf(tasks[taskId])
  }

  predicate IsAdministrator(actor: User)
  {
    actor.role == Some(ADMIN) || actor.role == Some(SUPERADMIN)
  }

  datatype Denial = NotAdmin | NoSuchTask | NotAuthor

  datatype Access = Permit(task: Task) | Deny(reason: Denial)

  /**
   * The checks `update_task` and `delete_task` share, in their order: the
   * actor must be ADMIN or SUPERADMIN, the task must exist, and an ADMIN
   * must be its author.
   */
  function AuthorizeTaskChange(actor: User, tasks: map<int, Task>, taskId: int): (a: Access)
    ensures a == Deny(NotAdmin) <==> !IsAdministrator(actor)
    ensures a == Deny(NoSuchTask) <==> IsAdministrator(actor) && taskId !in tasks
    ensures a == Deny(NotAuthor) <==>
      actor.role == Some(ADMIN) && taskId in tasks && tasks[taskId].authorId != actor.id
    ensures a.Permit? <==>
      taskId in tasks &&
      (actor.role == Some(SUPERADMIN) || (actor.role == Some(ADMIN) && tasks[taskId].authorId == actor.id))
    ensures a.Permit? ==> a.task == tasks[taskId]
  {
    if !IsAdministrator(actor) then Deny(NotAdmin)
    else if taskId !in tasks then Deny(NoSuchTask)
    else if actor.role == Some(ADMIN) && tasks[taskId].authorId != actor.id then Deny(NotAuthor)
    else Permit(tasks[taskId])
  }

  /** The row `create_task` inserts: the body's fields, authored by the actor. */
  function NewTask(id: int, data: TaskCreate, authorId: int): Task
  {
    Task(id, Some(data.title), data.description, Some(data.status), Some(data.priority),
         data.deadline, authorId, data.assigneeId)
  }

  /**
   * The response `create_task` builds: it passes every field but
   * `priority`, which therefore takes the schema default MEDIUM whatever
   * the client chose.
   */
  function CreateTaskResponseAsWritten(data: TaskCreate, authorId: int): (r: TaskResponse)
    ensures r.priority == MEDIUM
    ensures r.title == data.title && r.status == data.status && r.authorId == authorId
  {
    TaskResponse(data.title, data.description, data.status, DEFAULT_PRIORITY, data.deadline, authorId, data.assigneeId)
  }

  /**
   * The response `create_task` evidently means to give: the view of the row
   * it has just stored.
   */
  function CorrectedCreateTaskResponse(id: int, data: TaskCreate, authorId: int): (r: HttpResult<TaskResponse>)
    ensures r.Ok? && r.value.priority == data.priority
  {
    TaskResponseOf(NewTask(id, data, authorId))
  }

  /**
   * The response as written agrees with the stored row in every field but
   * the priority, and is right exactly when the client chose MEDIUM.
   */
  lemma CreateTaskResponseMisreportsPriority(id: int, data: TaskCreate, authorId: int)
    ensures var stored := CorrectedCreateTaskResponse(id, data, authorId).value;
      && CreateTaskResponseAsWritten(data, authorId) == stored.(priority := MEDIUM)
      && (CreateTaskResponseAsWritten(data, authorId) == stored <==> data.priority == MEDIUM)
  {
  }

  /**
   * A HIGH-priority task is stored as HIGH and `get_task_detail` reports
   * HIGH, but the `create_task` response reports MEDIUM.
   */
  lemma CreateTaskResponseMisreportsHigh()
    ensures var data := TaskCreate("release", None, TODO, HIGH, None, Some(1));
      var t := NewTask(1, data, 1);
      && t.priority == Some(HIGH)
      && GetTaskDetail(map[1 := t], 1) == Ok(TaskResponse("release", None, TODO, HIGH, None, 1, Some(1)))
      && CreateTaskResponseAsWritten(data, 1) == TaskResponse("release", None, TODO, MEDIUM, None, 1, Some(1))
  {
  }

  /**
   * `create_task`: only ADMIN or SUPERADMIN; the assignee must be an
   * existing user (an omitted assignee never is); the new task is authored
   * by the actor and takes the next key.  The response is the one the
   * handler builds, which reports priority MEDIUM.
   */
  method CreateTask(db: Store, actor: User, data: TaskCreate) returns (r: HttpResult<TaskResponse>)
    requires db.Valid()
    modifies db
    ensures db.Valid()
    ensures db.users == old(db.users) && db.comments == old(db.comments) && db.nextUserId == old(db.nextUserId)
    ensures db.nextTaskId == if r.Ok? then old(db.nextTaskId) + 1 else old(db.nextTaskId)
    ensures !IsAdministrator(actor) ==>
      r == Err(Http(403, "Admin role required")) && db.tasks == old(db.tasks)
    ensures IsAdministrator(actor) && (data.assigneeId.None? || data.assigneeId.value !in old(db.users)) ==>
      r == Err(Http(422, "Assignee user doesn't exists")) && db.tasks == old(db.tasks)
    ensures IsAdministrator(actor) && data.assigneeId.Some? && data.assigneeId.value in old(db.users) ==>
      var t := NewTask(old(db.nextTaskId), data, actor.id);
      && t.id !in old(db.tasks)
      && (TaskFits(old(db.tasks), t) ==>
            db.tasks == old(db.tasks)[t.id := t] && r == Ok(CreateTaskResponseAsWritten(data, actor.id)))
      && (!TaskFits(old(db.tasks), t) ==> db.tasks == old(db.tasks) && r == Err(Unhandled("IntegrityError")))
  {
    if !IsAdministrator(actor) {
      return Err(Http(403, "Admin role required"));
    }
    if data.assigneeId.None? || data.assigneeId.value !in db.users {
      return Err(Http(422, "Assignee user doesn't exists"));
    }
    var t := NewTask(db.nextTaskId, data, actor.id);
    var ok := db.InsertTask(t);
    if !ok {
      return Err(Unhandled("IntegrityError"));
    }
    r := Ok(CreateTaskResponseAsWritten(data, actor.id));
  }

  /**
   * The corrected response is what `get_task_detail` reports for the new
   * task, so it carries the priority the client chose.
   */
  lemma CreatedTaskResponseMatchesDetail(tasks: map<int, Task>, id: int, data: TaskCreate, authorId: int)
    ensures GetTaskDetail(tasks[id := NewTask(id, data, authorId)], id) == CorrectedCreateTaskResponse(id, data, authorId)
    ensures CorrectedCreateTaskResponse(id, data, authorId).value.priority == data.priority
  {
  }

  /** `setattr(task, key, value)` for one supplied field. */
  function SetTaskAttr(t: Task, a: TaskAttr): Task
  {
    match a
    case TitleAttr(v) => t.(title := v)
    case DescriptionAttr(v) => t.(description := v)
    case StatusAttr(v) => t.(status := v)
    case PriorityAttr(v) => t.(priority := v)
    case DeadlineAttr(v) => t.(deadline := v)
    case AssigneeAttr(v) => t.(assigneeId := v)
  }

  /** The row after `setattr` over `items`, first to last. */
  ghost function SetTaskAttrs(t: Task, items: seq<TaskAttr>): Task
  {
    if items == [] then t else SetTaskAttr(SetTaskAttrs(t, items[..|items| - 1]), items[|items| - 1])
  }

  /** `t` with the fields `p` supplies replaced, and nothing else changed. */
  function PatchedTask(t: Task, p: TaskUpdate): Task
  {
    t.(title := if p.title.Set? then p.title.value else t.title,
       description := if p.description.Set? then p.description.value else t.description,
       status := if p.status.Set? then p.status.value else t.status,
       priority := if p.priority.Set? then p.priority.value else t.priority,
       deadline := if p.deadline.Set? then p.deadline.value else t.deadline,
       assigneeId := if p.assigneeId.Set? then p.assigneeId.value else t.assigneeId)
  }

  /** Running `setattr` over `a + b` is running it over `a`, then over `b`. */
  lemma {:induction false} SetTaskAttrsAppend(t: Task, a: seq<TaskAttr>, b: seq<TaskAttr>)
    ensures SetTaskAttrs(t, a + b) == SetTaskAttrs(SetTaskAttrs(t, a), b)
    decreases |b|
  {
    if b == [] {
      assert a + b == a;
    } else {
      assert (a + b)[..|a + b| - 1] == a + b[..|b| - 1];
      SetTaskAttrsAppend(t, a, b[..|b| - 1]);
    }
  }

  /** `setattr` over `prefix` followed by at most one more field. */
  lemma SetTaskAttrsExtend(t: Task, prefix: seq<TaskAttr>, s: seq<TaskAttr>)
    requires |s| <= 1
    ensures SetTaskAttrs(t, prefix + s) ==
      if s == [] then SetTaskAttrs(t, prefix) else SetTaskAttr(SetTaskAttrs(t, prefix), s[0])
  {
    SetTaskAttrsAppend(t, prefix, s);
    if s != [] {
      assert s[..0] == [];
    }
  }

  /** The supplied fields of a task update, one optional segment per field. */
  lemma TaskUpdateItemsSegments(p: TaskUpdate)
    ensures TaskUpdateItems(p) ==
      (if p.title.Set? then [TitleAttr(p.title.value)] else []) +
      (if p.description.Set? then [DescriptionAttr(p.description.value)] else []) +
      (if p.status.Set? then [StatusAttr(p.status.value)] else []) +
      (if p.priority.Set? then [PriorityAttr(p.priority.value)] else []) +
      (if p.deadline.Set? then [DeadlineAttr(p.deadline.value)] else []) +
      (if p.assigneeId.Set? then [AssigneeAttr(p.assigneeId.value)] else [])
  {
  }

  /** `setattr` over the six optional segments patches exactly the supplied fields. */
  lemma SetTaskAttrsOfSegments(t: Task, p: TaskUpdate)
    ensures SetTaskAttrs(t,
      (if p.title.Set? then [TitleAttr(p.title.value)] else []) +
      (if p.description.Set? then [DescriptionAttr(p.description.value)] else []) +
      (if p.status.Set? then [StatusAttr(p.status.value)] else []) +
      (if p.priority.Set? then [PriorityAttr(p.priority.value)] else []) +
      (if p.deadline.Set? then [DeadlineAttr(p.deadline.value)] else []) +
      (if p.assigneeId.Set? then [AssigneeAttr(p.assigneeId.value)] else [])) == PatchedTask(t, p)
  {
    var s1 := if p.title.Set? then [TitleAttr(p.title.value)] else [];
    var s2 := if p.description.Set? then [DescriptionAttr(p.description.value)] else [];
    var s3 := if p.status.Set? then [StatusAttr(p.status.value)] else [];
    var s4 := if p.priority.Set? then [PriorityAttr(p.priority.value)] else [];
    var s5 := if p.deadline.Set? then [DeadlineAttr(p.deadline.value)] else [];
    var s6 := if p.assigneeId.Set? then [AssigneeAttr(p.assigneeId.value)] else [];
    var p1 := s1;
    var p2 := p1 + s2;
    var p3 := p2 + s3;
    var p4 := p3 + s4;
    var p5 := p4 + s5;
    var p6 := p5 + s6;
    SetTaskAttrsExtend(t, [], s1);
    assert [] + s1 == s1;
    assert SetTaskAttrs(t, p1) == t.(title := if p.title.Set? then p.title.value else t.title);
    SetTaskAttrsExtend(t, p1, s2);
    assert SetTaskAttrs(t, p2) ==
      SetTaskAttrs(t, p1).(description := if p.description.Set? then p.description.value else t.description);
    SetTaskAttrsExtend(t, p2, s3);
    assert SetTaskAttrs(t, p3) ==
      SetTaskAttrs(t, p2).(status := if p.status.Set? then p.status.value else t.status);
    SetTaskAttrsExtend(t, p3, s4);
    assert SetTaskAttrs(t, p4) ==
      SetTaskAttrs(t, p3).(priority := if p.priority.Set? then p.priority.value else t.priority);
    SetTaskAttrsExtend(t, p4, s5);
    assert SetTaskAttrs(t, p5) ==
      SetTaskAttrs(t, p4).(deadline := if p.deadline.Set? then p.deadline.value else t.deadline);
    SetTaskAttrsExtend(t, p5, s6);
    assert SetTaskAttrs(t, p6) ==
      SetTaskAttrs(t, p5).(assigneeId := if p.assigneeId.Set? then p.assigneeId.value else t.assigneeId);
  }

  /** `setattr` over the supplied fields of `p` patches exactly those fields. */
  lemma SetTaskAttrsOfItems(t: Task, p: TaskUpdate)
    ensures SetTaskAttrs(t, TaskUpdateItems(p)) == PatchedTask(t, p)
  {
    TaskUpdateItemsSegments(p);
    SetTaskAttrsOfSegments(t, p);
  }

  /** One more step of the `setattr` loop. */
  lemma SetTaskAttrsSnoc(t: Task, items: seq<TaskAttr>, i: int)
    requires 0 <= i < |items|
    ensures SetTaskAttrs(t, items[..i + 1]) == SetTaskAttr(SetTaskAttrs(t, items[..i]), items[i])
  {
    assert items[..i + 1][..i] == items[..i];
  }

  /**
   * The `setattr` loop of `update_task`: writes exactly the supplied
   * fields; the id, the author and every field not supplied are unchanged.
   */
  method ApplyTaskUpdate(t: Task, p: TaskUpdate) returns (r: Task)
    ensures r == PatchedTask(t, p)
    ensures r.id == t.id && r.authorId == t.authorId
    ensures !p.title.Set? ==> r.title == t.title
    ensures !p.status.Set? ==> r.status == t.status
    ensures !p.priority.Set? ==> r.priority == t.priority
    ensures p.assigneeId.Set? ==> r.assigneeId == p.assigneeId.value
  {
    var items := TaskUpdateItems(p);
    r := t;
    for i := 0 to |items|
      invariant r == SetTaskAttrs(t, items[..i])
    {
      SetTaskAttrsSnoc(t, items, i);
      r := SetTaskAttr(r, items[i]);
    }
    assert items[..|items|] == items;
    SetTaskAttrsOfItems(t, p);
  }

  /** What `update_task` and `delete_task` answer on success. */
  datatype Ack = Ack(msg: string, taskId: Option<int>)

  /**
   * `update_task`: after the shared checks, writes the supplied fields to
   * the task and commits; a title another task holds fails at the commit.
   */
  method UpdateTask(db: Store, actor: User, taskId: int, p: TaskUpdate) returns (r: HttpResult<Ack>)
    requires db.Valid()
    modifies db
    ensures db.Valid()
    ensures db.users == old(db.users) && db.comments == old(db.comments)
    ensures db.nextUserId == old(db.nextUserId) && db.nextTaskId == old(db.nextTaskId)
    ensures var a := AuthorizeTaskChange(actor, old(db.tasks), taskId);
      && (a == Deny(NotAdmin) ==> r == Err(Http(403, "Admin role required")) && db.tasks == old(db.tasks))
      && (a == Deny(NoSuchTask) ==> r == Err(Http(404, "Task not found")) && db.tasks == old(db.tasks))
      && (a == Deny(NotAuthor) ==> r == Err(Http(403, "Access denied")) && db.tasks == old(db.tasks))
      && (a.Permit? && TaskFits(old(db.tasks), PatchedTask(a.task, p)) ==>
            && db.tasks == old(db.tasks)[taskId := PatchedTask(a.task, p)]
            && r == Ok(Ack("Task updated", Some(taskId))))
      && (a.Permit? && !TaskFits(old(db.tasks), PatchedTask(a.task, p)) ==>
            db.tasks == old(db.tasks) && r == Err(Unhandled("IntegrityError")))
  {
    var access := AuthorizeTaskChange(actor, db.tasks, taskId);
    match access
    case Deny(NotAdmin) => return Err(Http(403, "Admin role required"));
    case Deny(NoSuchTask) => return Err(Http(404, "Task not found"));
    case Deny(NotAuthor) => return Err(Http(403, "Access denied"));
    case Permit(task) =>
      var staged := ApplyTaskUpdate(task, p);
      var ok := db.SaveTask(staged);
      if !ok {
        return Err(Unhandled("IntegrityError"));
      }
      r := Ok(Ack("Task updated", Some(taskId)));
  }

  /** `delete_task`: after the shared checks, removes exactly that task. */
  method DeleteTask(db: Store, actor: User, taskId: int) returns (r: HttpResult<Ack>)
    requires db.Valid()
    modifies db
    ensures db.Valid()
    ensures db.users == old(db.users) && db.comments == old(db.comments)
    ensures db.nextUserId == old(db.nextUserId) && db.nextTaskId == old(db.nextTaskId)
    ensures var a := AuthorizeTaskChange(actor, old(db.tasks), taskId);
      && (a == Deny(NotAdmin) ==> r == Err(Http(403, "Admin role required")) && db.tasks == old(db.tasks))
      && (a == Deny(NoSuchTask) ==> r == Err(Http(404, "Task doesn't exists")) && db.tasks == old(db.tasks))
      && (a == Deny(NotAuthor) ==> r == Err(Http(403, "Access denied")) && db.tasks == old(db.tasks))
      && (a.Permit? ==>
            db.tasks == old(db.tasks) - {taskId} && r == Ok(Ack("Task is deleted successfully", None)))
  {
    var access := AuthorizeTaskChange(actor, db.tasks, taskId);
    match access
    case Deny(NotAdmin) => return Err(Http(403, "Admin role required"));
    case Deny(NoSuchTask) => return Err(Http(404, "Task doesn't exists"));
    case Deny(NotAuthor) => return Err(Http(403, "Access denied"));
    case Permit(_) =>
      db.DeleteTask(taskId);
      r := Ok(Ack("Task is deleted successfully", None));
  }

  /**
   * `comment_to_task`: any authenticated actor may comment; one comment is
   * appended naming the task id (whether or not that task exists) and the
   * actor.  The response names the author by username, so an actor whose
   * username is NULL gets a 500 after the comment has been stored.
   */
  method CommentToTask(db: Store, actor: User, taskId: int, c: CommentCreate)
    returns (r: HttpResult<CommentResponse>)
    requires db.Valid()
    modifies db
    ensures db.Valid()
    ensures db.users == old(db.users) && db.tasks == old(db.tasks)
    ensures db.nextUserId == old(db.nextUserId) && db.nextTaskId == old(db.nextTaskId)
    ensures db.comments == old(db.comments) + [Comment(c.text, taskId, actor.id)]
    ensures actor.username.Some? ==> r == Ok(CommentResponse(taskId, c.text, actor.username.value))
    ensures actor.username.None? ==> r == Err(Unhandled("ValidationError"))
  {
    db.InsertComment(Comment(c.text, taskId, actor.id));
    if actor.username.None? {
      return Err(Unhandled("ValidationError"));
    }
    r := Ok(CommentResponse(taskId, c.text, actor.username.value));
  }
}
