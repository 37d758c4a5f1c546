/**
 * A session against a fresh database: a user registers and logs in, is
 * refused task creation as USER, is promoted to ADMIN by a seeded
 * SUPERADMIN, and then creates a task that names them as author.
 */
module Scenario {
  import opened Wrappers
  import opened Models
  import opened Jwt
  import opened Decimal
  import opened Web
  import opened Database
  import opened Schemas
  import opened Auth
  import opened Users
  import opened Tasks
  import opened AuthProperties

  /** A fresh store with a seeded SUPERADMIN, after alice has registered. */
  method SeededWithAlice() returns (db: Store, root: User)
    ensures fresh(db) && db.Valid()
    ensures root == User(1, Some("root@x.com"), Some("root"), HashPassword("root-pw"), Some(SUPERADMIN))
    ensures db.users == map[1 := root, 2 := NewUser(2, UserCreate("alice@x.com", "alice", "pw1", USER))]
    ensures db.tasks == map[] && db.nextTaskId == 1
  {
    db := new Store();
    var seeded;
    seeded, root := db.InsertUser(Some("root@x.com"), Some("root"), HashPassword("root-pw"), Some(SUPERADMIN));
    assert seeded;
    assert db.users == map[1 := root] && db.nextUserId == 2;
    assert !EmailTaken(db.users, Some("alice@x.com")) && !UsernameTaken(db.users, Some("alice"));
    var registered := Register(db, UserCreate("alice@x.com", "alice", "pw1", USER));
  }

  /** alice logs in with her password and receives a token naming her as a USER. */
  method LogInAlice(db: Store, now: int) returns (token: Jws)
    requires db.Valid()
    requires 2 in db.users && db.users[2] == NewUser(2, UserCreate("alice@x.com", "alice", "pw1", USER))
    ensures token == CreateToken(2, USER, now)
  {
    var response := new Response();
    var login := Login(db, response, LoginRequest("alice@x.com", "pw1"), now);
    assert Authenticate(db.users, "alice@x.com", "pw1").Ok? by {
      assert db.users[2].email == Some("alice@x.com");
    }
    assert login.Ok?;
    token := login.value;
  }

  /**
   * The caller is always resolved from the `access_token` cookie against
   * the current rows, so the promotion takes effect without a new token,
   * although the token's `role` claim still says "user".  The task is
   * stored with priority HIGH, which reading it back reports, while the
   * creation response says MEDIUM.
   */
  method PromotionScenario(now: int)
    returns (aliceId: int, denied: HttpResult<TaskResponse>, created: HttpResult<TaskResponse>,
             detail: HttpResult<TaskResponse>)
    ensures denied == Err(Http(403, "Admin role required"))
    ensures created.Ok? && created.value.authorId == aliceId && created.value.priority == MEDIUM
    ensures detail.Ok? && detail.value.authorId == aliceId && detail.value.priority == HIGH
  {
    var db, root := SeededWithAlice();
    aliceId := 2;

    var token := LogInAlice(db, now);
    IssuedTokenAuthenticates(db.users, aliceId, USER, now, now);
    var caller := GetCurrentUser(db.users, Some(token), now);
    assert caller == Ok(db.users[aliceId]);

    var data := TaskCreate("release", None, TODO, HIGH, None, Some(aliceId));
    denied := CreateTask(db, caller.value, data);

    var promoted := UpdateUser(db, root, aliceId, SuperadminUserUpdate(Unset, Unset, Set(Some(ADMIN))));
    assert db.users[aliceId].role == Some(ADMIN);

    caller := GetCurrentUser(db.users, Some(token), now);
    assert caller.Ok? && caller.value.id == aliceId && caller.value.role == Some(ADMIN);
    created := CreateTask(db, caller.value, data);
    detail := GetTaskDetail(db.tasks, 1);
  }
}
