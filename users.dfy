/**
 * The `/users` handlers: reading one's own profile, updating it, and the
 * SUPERADMIN update of any user.  Each handler receives the actor that
 * `Auth.GetCurrentUser` resolved for the request.
 */
module Users {
  import opened Wrappers
  import opened Models
  import opened Database
  import opened Schemas
  import opened Web

  /** `get_current_user_profile`: the authenticated user, through `UserResponse`. */
  function GetCurrentUserProfile(actor: User): (r: HttpResult<UserResponse>)
    ensures r.Ok? <==> actor.email.Some? && actor.username.Some? && actor.role.Some?
    ensures r.Ok? ==> r.value.id == actor.id && Some(r.value.email) == actor.email &&
                      Some(r.value.username) == actor.username && Some(r.value.role) == actor.role
  {
    UserResponseOf(actor)
  }

  /** `setattr(user, field, value)` for one supplied field. */
  function SetUserAttr(u: User, a: UserAttr): User
  {
    match a
    case EmailAttr(e) => u.(email := e)
    case UsernameAttr(n) => u.(username := n)
  }

  /** The row after `setattr` over `items`, first to last. */
  ghost function SetUserAttrs(u: User, items: seq<UserAttr>): User
  {
    if items == [] then u else SetUserAttr(SetUserAttrs(u, items[..|items| - 1]), items[|items| - 1])
  }

  /** `u` with the fields `p` supplies replaced, and nothing else changed. */
  function PatchedUser(u: User, p: UserUpdate): User
  {
    u.(email := if p.email.Set? then p.email.value else u.email,
       username := if p.username.Set? then p.username.value else u.username)
  }

  lemma SetUserAttrsOfItems(u: User, p: UserUpdate)
    ensures SetUserAttrs(u, UserUpdateItems(p)) == PatchedUser(u, p)
  {
    var items := UserUpdateItems(p);
    if p.email.Set? && p.username.Set? {
      assert items[..1] == [EmailAttr(p.email.value)];
      assert SetUserAttrs(u, items[..1]) == u.(email := p.email.value);
    }
  }

  /**
   * The `setattr` loop of `update_current_user`: writes exactly the
   * supplied email and/or username; id, role and password digest stay.
   */
  method ApplyUserUpdate(u: User, p: UserUpdate) returns (r: User)
    ensures r == PatchedUser(u, p)
    ensures r.id == u.id && r.role == u.role && r.hashedPassword == u.hashedPassword
    ensures r.email == (if p.email.Set? then p.email.value else u.email)
    ensures r.username == (if p.username.Set? then p.username.value else u.username)
  {
    var items := UserUpdateItems(p);
    r := u;
    for i := 0 to |items|
      invariant r == SetUserAttrs(u, items[..i])
    {
      assert items[..i + 1][..i] == items[..i];
      r := SetUserAttr(r, items[i]);
    }
    assert items[..|items|] == items;
    SetUserAttrsOfItems(u, p);
  }

  /** The check of `update_current_user`: a new email that some user already has. */
  predicate SelfEmailConflict(users: map<int, User>, actor: User, p: UserUpdate)
  {
    p.email.Set? && p.email.value != actor.email && EmailTaken(users, p.email.value)
  }

  /**
   * `update_current_user`: refuses a new email that is taken, otherwise
   * writes the supplied fields, clears the `access_token` cookie and
   * commits.  A username another user holds fails at the commit.
   */
  method UpdateCurrentUser(db: Store, response: Response, actor: User, p: UserUpdate)
    returns (r: HttpResult<UserResponse>)
    requires db.Valid() && actor.id in db.users && db.users[actor.id] == actor
    modifies db, response
    ensures db.Valid()
    ensures db.tasks == old(db.tasks) && db.comments == old(db.comments)
    ensures db.nextUserId == old(db.nextUserId) && db.nextTaskId == old(db.nextTaskId)
    ensures SelfEmailConflict(old(db.users), actor, p) ==>
      && r == Err(Http(400, "Email already registered"))
      && db.users == old(db.users)
      && response.cookie == old(response.cookie)
    ensures !SelfEmailConflict(old(db.users), actor, p) ==>
      var staged := PatchedUser(actor, p);
      && response.cookie == DeleteCookie
      && (UserFits(old(db.users), staged) ==>
            db.users == old(db.users)[actor.id := staged] && r == UserResponseOf(staged))
      && (!UserFits(old(db.users), staged) ==>
            db.users == old(db.users) && r == Err(Unhandled("IntegrityError")))
  {
    if p.email.Set? && p.email.value != actor.email {
      if EmailTaken(db.users, p.email.value) {
        return Err(Http(400, "Email already registered"));
      }
    }
    var staged := ApplyUserUpdate(actor, p);
    response.DeleteAccessToken();
    var ok := db.SaveUser(staged);
    if !ok {
      return Err(Unhandled("IntegrityError"));
    }
    r := UserResponseOf(staged);
  }

  /**
   * Past the email check, a self update can fail at the commit only
   * because the new username belongs to another user.
   */
  lemma SelfUpdateFailsOnlyOnUsername(users: map<int, User>, actor: User, p: UserUpdate)
    requires UserTable(users) && actor.id in users && users[actor.id] == actor
    requires !SelfEmailConflict(users, actor, p)
    ensures UserFits(users, PatchedUser(actor, p)) <==>
      !(p.username.Set? && p.username.value.Some? &&
        exists id :: id in users && id != actor.id && users[id].username == p.username.value)
  {
    var staged := PatchedUser(actor, p);
    forall id | id in users && id != actor.id && staged.email.Some?
      ensures users[id].email != staged.email
    {
      if !p.email.Set? || p.email.value == actor.email {
        assert staged.email == actor.email;
      }
    }
    forall id | id in users && id != actor.id && staged.username.Some? && !p.username.Set?
      ensures users[id].username != staged.username
    {
      assert staged.username == actor.username;
    }
  }

  /** The email check of `update_user`: a new email held by a user other than the target. */
  predicate TargetEmailConflict(users: map<int, User>, userId: int, p: SuperadminUserUpdate)
    requires userId in users
  {
    && p.email.Set?
    && p.email.value != users[userId].email
    && exists id :: id in users && id != userId && users[id].email == p.email.value
  }

  /** The target row after `update_user` has assigned the supplied email, username and role. */
  function StagedTarget(target: User, p: SuperadminUserUpdate): User
  {
    target.(email := if p.email.Set? then p.email.value else target.email,
            username := if p.username.Set? then p.username.value else target.username,
            role := if p.role.Set? then p.role.value else target.role)
  }

  /**
   * `update_user`: a SUPERADMIN updates any user.  The checks run in order
   * (role of the actor, existence of the target, email, own role) and the
   * first that fails ends the call; changes are staged on the row and the
   * single commit comes last, so a failed check persists nothing.  The
   * payload type has no password field, so the password branch of the
   * source is never taken.
   */
  method UpdateUser(db: Store, actor: User, userId: int, p: SuperadminUserUpdate)
    returns (r: HttpResult<UserResponse>)
    requires db.Valid() && actor.id in db.users && db.users[actor.id] == actor
    modifies db
    ensures db.Valid()
    ensures db.tasks == old(db.tasks) && db.comments == old(db.comments)
    ensures db.nextUserId == old(db.nextUserId) && db.nextTaskId == old(db.nextTaskId)
    ensures r.Err? && r.error != Unhandled("ResponseValidationError") ==> db.users == old(db.users)
    ensures actor.role != Some(SUPERADMIN) ==> r == Err(Http(403, "Superadmin role required"))
    ensures actor.role == Some(SUPERADMIN) && userId !in old(db.users) ==>
      r == Err(Http(404, "User doesn't exist"))
    ensures actor.role == Some(SUPERADMIN) && userId in old(db.users) ==>
      && (TargetEmailConflict(old(db.users), userId, p) ==> r == Err(Http(400, "Email already registered")))
      && (!TargetEmailConflict(old(db.users), userId, p) && p.role.Set? && actor.id == userId ==>
            r == Err(Http(400, "Superadmin cannot change own role")))
      && (!TargetEmailConflict(old(db.users), userId, p) && !(p.role.Set? && actor.id == userId) ==>
            var staged := StagedTarget(old(db.users)[userId], p);
            && (UserFits(old(db.users), staged) ==>
                  db.users == old(db.users)[userId := staged] && r == UserResponseOf(staged))
            && (!UserFits(old(db.users), staged) ==> r == Err(Unhandled("IntegrityError"))))
  {
    if actor.role != Some(SUPERADMIN) {
      return Err(Http(403, "Superadmin role required"));
    }
    if userId !in db.users {
      return Err(Http(404, "User doesn't exist"));
    }
    var isSelfUpdate := actor.id == userId;
    var user := db.users[userId];
    if p.email.Set? && p.email.value != user.email {
      // `first()` of the rows with this email is never the target, whose email differs.
      if exists id :: id in db.users && id != userId && db.users[id].email == p.email.value {
        return Err(Http(400, "Email already registered"));
      }
      user := user.(email := p.email.value);
    }
    if p.username.Set? {
      user := user.(username := p.username.value);
    }
    if p.role.Set? {
      if isSelfUpdate {
        return Err(Http(400, "Superadmin cannot change own role"));
      }
      user := user.(role := p.role.value);
    }
    var ok := db.SaveUser(user);
    if !ok {
      return Err(Unhandled("IntegrityError"));
    }
    r := UserResponseOf(user);
  }
}
