/**
 * What the token lifecycle and the credential handlers promise across
 * several calls: issue then verify, expiry, forgery, refresh, and the
 * register-then-login round trip.
 */
module AuthProperties {
  import opened Wrappers
  import opened Models
  import opened Schemas
  import opened Web
  import opened Jwt
  import opened Decimal
  import opened Auth

  /** An issued token verifies until `exp`, and from then on fails as expired. */
  lemma IssuedTokenLifetime(userId: int, role: UserRole, issuedAt: int, now: int)
    ensures var t := CreateToken(userId, role, issuedAt);
      Decode(t, KEY, ALGORITHM, now, true) ==
        if now < issuedAt + TOKEN_LIFETIME then Ok(t.claims) else Err(ExpiredSignatureError)
  {
  }

  /**
   * A token issued for a stored user's id resolves to that user while it is
   * unexpired, whatever role the token claims: authorization always uses
   * the role in the store.
   */
  lemma IssuedTokenAuthenticates(users: map<int, User>, userId: int, claimedRole: UserRole, issuedAt: int, now: int)
    requires userId in users
    requires now < issuedAt + TOKEN_LIFETIME
    ensures GetCurrentUser(users, Some(CreateToken(userId, claimedRole, issuedAt)), now) == Ok(users[userId])
  {
  }

  /** Once expired, an issued token is refused with the uniform "Invalid token". */
  lemma ExpiredTokenRejected(users: map<int, User>, userId: int, role: UserRole, issuedAt: int, now: int)
    requires issuedAt + TOKEN_LIFETIME <= now
    ensures GetCurrentUser(users, Some(CreateToken(userId, role, issuedAt)), now) == Err(Http(401, "Invalid token"))
  {
  }

  /** A token signed with any key but the server's is refused. */
  lemma ForeignKeyRejected(users: map<int, User>, claims: Claims, key: SigningKey, now: int)
    requires key != KEY
    ensures GetCurrentUser(users, Some(Encode(claims, key, ALGORITHM)), now) == Err(Http(401, "Invalid token"))
    ensures RefreshToken(Some(Encode(claims, key, ALGORITHM)), now) == Err(Http(401, "Invalid token"))
  {
  }

  /**
   * Editing the claims of an issued token (say, its role or subject)
   * without re-signing makes it worthless, for requests and for refresh.
   */
  lemma TamperedTokenRejected(users: map<int, User>, userId: int, role: UserRole, issuedAt: int, forged: Claims, now: int)
    requires forged != CreateToken(userId, role, issuedAt).claims
    ensures var t := CreateToken(userId, role, issuedAt);
      var tampered := Compact(t.alg, forged, t.signature);
      && GetCurrentUser(users, Some(tampered), now) == Err(Http(401, "Invalid token"))
      && RefreshToken(Some(tampered), now) == Err(Http(401, "Invalid token"))
  {
  }

  /** A token whose subject has left the store is refused with "User not found". */
  lemma UnknownSubjectRejected(users: map<int, User>, userId: int, role: UserRole, issuedAt: int, now: int)
    requires userId !in users
    requires now < issuedAt + TOKEN_LIFETIME
    ensures GetCurrentUser(users, Some(CreateToken(userId, role, issuedAt)), now) == Err(Http(401, "User not found"))
  {
  }

  /**
   * Refresh skips the expiry check: an issued token, even long expired,
   * is exchanged for a token with the same subject and role that is valid
   * for a full lifetime from now.
   */
  lemma RefreshRenewsIssuedToken(userId: int, role: UserRole, issuedAt: int, now: int)
    ensures var old_ := CreateToken(userId, role, issuedAt);
      && RefreshToken(Some(old_), now) == Ok(CreateToken(userId, role, now))
      && CreateToken(userId, role, now).claims.sub == old_.claims.sub
      && CreateToken(userId, role, now).claims.role == old_.claims.role
      && CreateToken(userId, role, now).claims.exp == now + TOKEN_LIFETIME
  {
  }

  /** No cookie, or an empty one, is refused before any decoding. */
  lemma MissingCookieRejected(users: map<int, User>, now: int)
    ensures GetCurrentUser(users, None, now) == Err(Http(401, "Not authentificated"))
    ensures GetCurrentUser(users, Some(Garbled("")), now) == Err(Http(401, "Not authentificated"))
    ensures RefreshToken(None, now) == Err(Http(401, "No access token"))
    ensures RefreshToken(Some(Garbled("")), now) == Err(Http(401, "No access token"))
  {
  }

  /**
   * Registering and then logging in with the same credentials succeeds:
   * the password matches its stored digest, the login token names the new
   * user's id and the role USER, and presenting it resolves to the new user.
   */
  lemma RegisterThenLogin(users: map<int, User>, id: int, data: UserCreate, now: int)
    requires UserTable(users) && id !in users
    requires !EmailTaken(users, Some(data.email)) && !UsernameTaken(users, Some(data.username))
    ensures var u := NewUser(id, data);
      var users' := users[id := u];
      var token := CreateToken(id, USER, now);
      && UserTable(users')
      && Authenticate(users', data.email, data.password) == Ok(u)
      && u.role == Some(USER)
      && ParseInt(token.claims.sub) == Some(id)
      && ParseRole(token.claims.role) == Some(USER)
      && GetCurrentUser(users', Some(token), now) == Ok(u)
  {
    var u := NewUser(id, data);
    var users' := users[id := u];
    assert UserFits(users, u);
    UserFitsKeepsTable(users, u);
    assert users'[id].email == Some(data.email) && VerifyPassword(data.password, users'[id].hashedPassword);
    var a := Authenticate(users', data.email, data.password);
    assert a.Ok?;
    assert a.value == u;
    IssuedTokenAuthenticates(users', id, USER, now, now);
  }
}
