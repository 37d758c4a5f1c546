/**
 * Token issuing and checking, credential hashing, and the `/auth`
 * handlers: register, login and refresh.
 */
module Auth {
  import opened Wrappers
  import opened Models
  import opened Database
  import opened Schemas
  import opened Web
  import opened Jwt
  import opened Decimal

  const ALGORITHM: string := "HS256"
  const TOKEN_EXPIRE_DAYS: int := 30
  const SECONDS_PER_DAY: int := 86400
  /** How long an issued token is valid, in seconds. */
  const TOKEN_LIFETIME: int := TOKEN_EXPIRE_DAYS * SECONDS_PER_DAY
  /** The process-wide signing secret (read from the environment at start-up). */
  const KEY: SigningKey := ServerKey

  /**
   * `create_token`: the claims `sub` = `str(user_id)`, `role` = the role's
   * value, `exp` = now + 30 days and `iat` = now, signed with HS256.
   */
  function CreateToken(userId: int, role: UserRole, now: int): (t: Jws)
    ensures SignedBy(t, KEY, ALGORITHM)
    ensures ParseInt(t.claims.sub) == Some(userId)
    ensures ParseRole(t.claims.role) == Some(role)
    ensures t.claims.iat == now && t.claims.exp == now + TOKEN_LIFETIME
  {
    ParseIntToString(userId);
    Encode(Claims(IntToString(userId), RoleValue(role), now + TOKEN_LIFETIME, now), KEY, ALGORITHM)
  }

  /** A request without a usable cookie: none at all, or the empty string. */
  predicate NoToken(cookie: Option<Jws>)
  {
    cookie.None? || cookie.value == Garbled("")
  }

  /**
   * `get_current_user`: resolves the `access_token` cookie to the user
   * whose id is the token's `sub`.  Any `PyJWTError` (bad format, algorithm
   * or signature, or expiry) is the one 401 "Invalid token"; a `sub` that is
   * not an integer raises `ValueError`, which nothing catches.
   */
  function GetCurrentUser(users: map<int, User>, cookie: Option<Jws>, now: int): (r: HttpResult<User>)
    ensures r == Err(Http(401, "Not authentificated")) <==> NoToken(cookie)
    ensures r == Err(Http(401, "Invalid token")) <==>
      !NoToken(cookie) && Decode(cookie.value, KEY, ALGORITHM, now, true).Err?
    ensures r.Ok? <==>
      && !NoToken(cookie)
      && Decode(cookie.value, KEY, ALGORITHM, now, true).Ok?
      && ParseInt(cookie.value.claims.sub).Some?
      && ParseInt(cookie.value.claims.sub).value in users
    ensures r.Ok? ==>
      && SignedBy(cookie.value, KEY, ALGORITHM)
      && now < cookie.value.claims.exp
      && r.value == users[ParseInt(cookie.value.claims.sub).value]
    ensures r == Err(Unhandled("ValueError")) <==>
      && !NoToken(cookie)
      && Decode(cookie.value, KEY, ALGORITHM, now, true).Ok?
      && ParseInt(cookie.value.claims.sub).None?
    ensures r == Err(Http(401, "User not found")) <==>
      && !NoToken(cookie)
      && Decode(cookie.value, KEY, ALGORITHM, now, true).Ok?
      && ParseInt(cookie.value.claims.sub).Some?
      && ParseInt(cookie.value.claims.sub).value !in users
  {
    if NoToken(cookie) then Err(Http(401, "Not authentificated"))
    else
      match Decode(cookie.value, KEY, ALGORITHM, now, true)
      case Err(_) => Err(Http(401, "Invalid token"))
      case Ok(claims) =>
        match ParseInt(claims.sub)
        case None => Err(Unhandled("ValueError"))
        case Some(userId) =>
          if userId !in users then Err(Http(401, "User not found"))
          else Ok(users[userId])
  }

  /** `hash_password`: the unsalted SHA-256 hex digest of the password. */
  function HashPassword(password: string): Digest
  {
    Sha256Of(password)
  }

  /** `verify_password`: recomputes the digest and compares. */
  function VerifyPassword(plain: string, hashed: Digest): (ok: bool)
    ensures ok <==> hashed == HashPassword(plain)
  {
    Sha256Of(plain) == hashed
  }

  /**
   * A digest made by `hash_password` verifies its own password and, the
   * digest being symbolic here, no other.
   */
  lemma HashThenVerify(password: string, attempt: string)
    ensures VerifyPassword(password, HashPassword(password))
    ensures VerifyPassword(attempt, HashPassword(password)) <==> attempt == password
  {
  }

  /**
   * The row `register` inserts: the caller's email and username, the
   * password's digest and the column default role; the role in the body
   * is not used.
   */
  function NewUser(id: int, data: UserCreate): User
  {
    User(id, Some(data.email), Some(data.username), HashPassword(data.password), Some(DEFAULT_ROLE))
  }

  /** `register`: adds a user unless the email is already registered. */
  method Register(db: Store, data: UserCreate) returns (r: HttpResult<UserResponse>)
    requires db.Valid()
    modifies db
    ensures db.Valid()
    ensures db.tasks == old(db.tasks) && db.comments == old(db.comments) && db.nextTaskId == old(db.nextTaskId)
    ensures db.nextUserId == if r.Ok? then old(db.nextUserId) + 1 else old(db.nextUserId)
    ensures EmailTaken(old(db.users), Some(data.email)) ==>
      r == Err(Http(400, "Email already registered")) && db.users == old(db.users)
    ensures !EmailTaken(old(db.users), Some(data.email)) && UsernameTaken(old(db.users), Some(data.username)) ==>
      r == Err(Unhandled("IntegrityError")) && db.users == old(db.users)
    ensures !EmailTaken(old(db.users), Some(data.email)) && !UsernameTaken(old(db.users), Some(data.username)) ==>
      var u := NewUser(old(db.nextUserId), data);
      && u.id !in old(db.users)
      && db.users == old(db.users)[u.id := u]
      && u.role == Some(USER)
      && r == Ok(UserResponse(u.id, data.email, data.username, USER))
  {
    if EmailTaken(db.users, Some(data.email)) {
      return Err(Http(400, "Email already registered"));
    }
    var ok, u := db.InsertUser(Some(data.email), Some(data.username), HashPassword(data.password), Some(DEFAULT_ROLE));
    if !ok {
      return Err(Unhandled("IntegrityError"));
    }
    r := UserResponseOf(u);
  }

  /**
   * The credential check of `login`: the user with this email, if the
   * password matches its digest.  An unknown email and a wrong password give
   * the same failure.
   */
  function Authenticate(users: map<int, User>, email: string, password: string): (r: HttpResult<User>)
    requires UserTable(users)
    ensures r.Ok? <==>
      exists id :: id in users && users[id].email == Some(email) && VerifyPassword(password, users[id].hashedPassword)
    ensures r.Ok? ==> r.value.id in users && users[r.value.id] == r.value
    ensures r.Ok? ==> r.value.email == Some(email) && r.value.hashedPassword == HashPassword(password)
    ensures r.Err? ==> r.error == Http(401, "Invalid credentials")
  {
    match UserWithEmail(users, email)
    case None => Err(Http(401, "Invalid credentials"))
    case Some(u) =>
      if !VerifyPassword(password, u.hashedPassword) then Err(Http(401, "Invalid credentials"))
      else Ok(u)
  }

  /**
   * `login`: on valid credentials, issues a token for the stored user's id
   * and role and sets it as the `access_token` cookie.  A user whose role
   * is NULL makes `create_token` raise `AttributeError`.
   */
  method Login(db: Store, response: Response, data: LoginRequest, now: int) returns (r: HttpResult<Jws>)
    requires db.Valid()
    modifies response
    ensures var a := Authenticate(db.users, data.email, data.password);
      && (a.Err? ==> r == Err(Http(401, "Invalid credentials")) && response.cookie == old(response.cookie))
      && (a.Ok? && a.value.role.None? ==>
            r == Err(Unhandled("AttributeError")) && response.cookie == old(response.cookie))
      && (a.Ok? && a.value.role.Some? ==>
            r == Ok(CreateToken(a.value.id, a.value.role.value, now)) && response.cookie == SetCookie(r.value))
  {
    var a := Authenticate(db.users, data.email, data.password);
    if a.Err? {
      return Err(a.error);
    }
    var user := a.value;
    if user.role.None? {
      return Err(Unhandled("AttributeError"));
    }
    var token := CreateToken(user.id, user.role.value, now);
    response.SetAccessToken(token);
    r := Ok(token);
  }

  /**
   * The token handling of `refresh`: checks the signature only (expiry is
   * switched off) and issues a new token from the old token's `sub` and
   * `role` claims.  The store is not consulted.
   */
  function RefreshToken(cookie: Option<Jws>, now: int): (r: HttpResult<Jws>)
    ensures NoToken(cookie) ==> r == Err(Http(401, "No access token"))
    ensures !NoToken(cookie) && !SignedBy(cookie.value, KEY, ALGORITHM) ==> r == Err(Http(401, "Invalid token"))
    ensures r.Ok? ==>
      && !NoToken(cookie)
      && SignedBy(cookie.value, KEY, ALGORITHM)
      && ParseInt(cookie.value.claims.sub).Some?
      && ParseRole(cookie.value.claims.role).Some?
      && r.value == CreateToken(ParseInt(cookie.value.claims.sub).value, ParseRole(cookie.value.claims.role).value, now)
    ensures
      (&& !NoToken(cookie)
       && SignedBy(cookie.value, KEY, ALGORITHM)
       && ParseInt(cookie.value.claims.sub).Some?
       && ParseRole(cookie.value.claims.role).Some?)
      ==> r.Ok?
    ensures r == Err(Unhandled("ValueError")) <==>
      && !NoToken(cookie)
      && SignedBy(cookie.value, KEY, ALGORITHM)
      && (ParseInt(cookie.value.claims.sub).None? || ParseRole(cookie.value.claims.role).None?)
  {
    if NoToken(cookie) then Err(Http(401, "No access token"))
    else
      match Decode(cookie.value, KEY, ALGORITHM, now, false)
      case Err(_) => Err(Http(401, "Invalid token"))
      case Ok(claims) =>
        match ParseInt(claims.sub)
        case None => Err(Unhandled("ValueError"))
        case Some(userId) =>
          match ParseRole(claims.role)
          case None => Err(Unhandled("ValueError"))
          case Some(role) => Ok(CreateToken(userId, role, now))
  }

  /** `refresh`: on success the new token also becomes the `access_token` cookie. */
  method Refresh(response: Response, cookie: Option<Jws>, now: int) returns (r: HttpResult<Jws>)
    modifies response
    ensures r == RefreshToken(cookie, now)
    ensures r.Ok? ==> response.cookie == SetCookie(r.value)
    ensures r.Err? ==> response.cookie == old(response.cookie)
  {
    r := RefreshToken(cookie, now);
    if r.Ok? {
      response.SetAccessToken(r.value);
    }
  }
}
