/**
 * The persistence store behind the handlers' `Session`: the three tables and
 * the primary-key counters, with the unique constraints checked when a
 * change is committed.  A commit that would break a constraint raises
 * `IntegrityError` and writes nothing.
 */
module Database {
  import opened Wrappers
  import opened Models

  class Store {
    var users: map<int, User>
    var tasks: map<int, Task>
    var comments: seq<Comment>
    /** The key the next inserted user / task receives. */
    var nextUserId: int
    var nextTaskId: int

    ghost predicate Valid()
      reads this
    {
      && UserTable(users)
      && TaskTable(tasks)
      && 0 < nextUserId && 0 < nextTaskId
      && (forall id :: id in users ==> 0 < id < nextUserId)
      && (forall id :: id in tasks ==> 0 < id < nextTaskId)
    }

    /** An empty database. */
    constructor ()
      ensures Valid()
      ensures users == map[] && tasks == map[] && comments == []
      ensures nextUserId == 1 && nextTaskId == 1
    {
      users, tasks, comments := map[], map[], [];
      nextUserId, nextTaskId := 1, 1;
    }

    /**
     * `db.add(user); db.commit()` for a new row: the row takes key
     * `nextUserId` and is written when its email and username are free.
     */
    method InsertUser(email: Option<string>, username: Option<string>, hashed: Digest, role: Option<UserRole>)
      returns (ok: bool, u: User)
      requires Valid()
      modifies this
      ensures Valid()
      ensures u == User(old(nextUserId), email, username, hashed, role)
      ensures u.id !in old(users)
      ensures ok == UserFits(old(users), u)
      ensures users == if ok then old(users)[u.id := u] else old(users)
      ensures nextUserId == if ok then old(nextUserId) + 1 else old(nextUserId)
      ensures tasks == old(tasks) && comments == old(comments) && nextTaskId == old(nextTaskId)
    {
      u := User(nextUserId, email, username, hashed, role);
      ok := UserFits(users, u);
      if ok {
        UserFitsKeepsTable(users, u);
        users := users[u.id := u];
        nextUserId := nextUserId + 1;
      }
    }

    /** `db.commit()` of changes staged on an existing user row `u`. */
    method SaveUser(u: User) returns (ok: bool)
      requires Valid() && u.id in users
      modifies this
      ensures Valid()
      ensures ok == UserFits(old(users), u)
      ensures users == if ok then old(users)[u.id := u] else old(users)
      ensures tasks == old(tasks) && comments == old(comments)
      ensures nextUserId == old(nextUserId) && nextTaskId == old(nextTaskId)
    {
      ok := UserFits(users, u);
      if ok {
        UserFitsKeepsTable(users, u);
        users := users[u.id := u];
      }
    }

    /** `db.add(task); db.commit()` for a new row keyed `nextTaskId`. */
    method InsertTask(t: Task) returns (ok: bool)
      requires Valid() && t.id == nextTaskId
      modifies this
      ensures Valid()
      ensures t.id !in old(tasks)
      ensures ok == TaskFits(old(tasks), t)
      ensures tasks == if ok then old(tasks)[t.id := t] else old(tasks)
      ensures nextTaskId == if ok then old(nextTaskId) + 1 else old(nextTaskId)
      ensures users == old(users) && comments == old(comments) && nextUserId == old(nextUserId)
    {
      ok := TaskFits(tasks, t);
      if ok {
        TaskFitsKeepsTable(tasks, t);
        tasks := tasks[t.id := t];
        nextTaskId := nextTaskId + 1;
      }
    }

    /** `db.commit()` of changes staged on an existing task row `t`. */
    method SaveTask(t: Task) returns (ok: bool)
      requires Valid() && t.id in tasks
      modifies this
      ensures Valid()
      ensures ok == TaskFits(old(tasks), t)
      ensures tasks == if ok then old(tasks)[t.id := t] else old(tasks)
      ensures users == old(users) && comments == old(comments)
      ensures nextUserId == old(nextUserId) && nextTaskId == old(nextTaskId)
    {
      ok := TaskFits(tasks, t);
      if ok {
        TaskFitsKeepsTable(tasks, t);
        tasks := tasks[t.id := t];
      }
    }

    /** `db.delete(task); db.commit()`. */
    method DeleteTask(id: int)
      requires Valid() && id in tasks
      modifies this
      ensures Valid()
      ensures tasks == old(tasks) - {id}
      ensures users == old(users) && comments == old(comments)
      ensures nextUserId == old(nextUserId) && nextTaskId == old(nextTaskId)
    {
      tasks := tasks - {id};
    }

    /** `db.add(comment); db.commit()`: comments carry no unique column. */
    method InsertComment(c: Comment)
      requires Valid()
      modifies this
      ensures Valid()
      ensures comments == old(comments) + [c]
      ensures users == old(users) && tasks == old(tasks)
      ensures nextUserId == old(nextUserId) && nextTaskId == old(nextTaskId)
    {
      comments := comments + [c];
    }
  }
}
