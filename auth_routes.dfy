/** The auth service (routes/auth.routes.ts): one method per handler, each a fixed
    sequence of store reads and writes ending in a status code and a JSON body. The body
    validators and the 422 answer of the handlers that read their result (register, login,
    refresh, forgot-password, reset-password) are not modelled: each of those methods starts
    where its handler reads `req.body`. Logout never reads the validators' result and `/me`
    has no body. */
module AuthRoutes {
  import opened Wrappers
  import opened Jwt
  import opened Password
  import opened CredentialStore
  import opened Tokens
  import opened AuthMiddleware

  /** JSON bodies, one constructor per shape the handlers send. */
  datatype Body =
    | Registered(id: nat, email: string, emailVerified: bool, profile: ProfileRow, stats: StatsRow,
                 accessToken: string, refreshToken: string)
    | LoggedIn(id: nat, email: string, emailVerified: bool, isActive: bool, profile: ProfileRow,
               stats: StatsRow, accessToken: string, refreshToken: string)
    | Rotated(accessToken: string, refreshToken: string)
    | Acknowledged
    | CurrentUser(id: nat, email: string, isActive: bool, emailVerified: bool, createdAt: int)
    | ErrorBody(error: string)

  datatype Response = Response(status: nat, body: Body)

  /** What the reset-mail collaborator is asked to send. */
  datatype ResetEmail = ResetEmail(to: string, token: string)

  const EMAIL_IN_USE := Response(409, ErrorBody("Email already in use"))
  const INVALID_CREDENTIALS := Response(401, ErrorBody("Invalid email or password"))
  const ACCOUNT_DISABLED := Response(403, ErrorBody("Account disabled"))
  const INVALID_REFRESH := Response(401, ErrorBody("Invalid refresh token"))
  const INVALID_RESET := Response(400, ErrorBody("Invalid or expired token"))
  const USER_NOT_FOUND := Response(404, ErrorBody("User not found"))
  const OK := Response(200, Acknowledged)
  /** What the server's error handler sends when `parseRefreshExp` throws because the
      token it just signed has already expired (a zero refresh lifetime). */
  const JWT_EXPIRED := Response(500, ErrorBody("jwt expired"))

  /** JavaScript truthiness of the optional `name` field. */
  predicate Truthy(name: Option<string>) {
    name.Some? && name.value != ""
  }

  /** The token pair handed out at the end of register, login and refresh. */
  datatype Session = Session(accessToken: string, refreshToken: string)

  /** Issues an access/refresh pair for the user and persists the refresh token with the
      expiry read back from it. `None` is the throw of `parseRefreshExp`, which happens
      exactly when the refresh lifetime is zero; nothing is stored then. */
  method IssueSession(pool: MockPool, cfg: Config, id: nat, email: string, now: nat) returns (session: Option<Session>)
    modifies pool
    ensures RefreshTtl(cfg) == 0 ==> session.None? && unchanged(pool)
    ensures RefreshTtl(cfg) > 0 ==>
              && session == Some(Session(CreateAccessToken(cfg, id, email, now), CreateRefreshToken(cfg, id, email, now)))
              && pool.refreshTokens == old(pool.refreshTokens)
                                       + [RefreshRecord(id, CreateRefreshToken(cfg, id, email, now), RefreshExpiry(cfg, now), false)]
    ensures pool.users == old(pool.users) && pool.currentUserId == old(pool.currentUserId)
    ensures pool.userProfiles == old(pool.userProfiles) && pool.userStats == old(pool.userStats)
    ensures pool.resetTokens == old(pool.resetTokens)
    ensures old(pool.Valid()) ==> pool.Valid()
    ensures Genuine(cfg, old(pool.refreshTokens)) ==> Genuine(cfg, pool.refreshTokens)
  {
    var accessToken := CreateAccessToken(cfg, id, email, now);
    var refreshToken := CreateRefreshToken(cfg, id, email, now);
    ParseFreshRefreshExp(cfg, id, email, now);
    var expiresAt := ParseRefreshExp(cfg, refreshToken, now);
    if expiresAt.None? {
      return None;
    }
    StoreRefreshToken(pool, id, refreshToken, expiresAt.value);
    assert GenuineRecord(cfg, RefreshRecord(id, refreshToken, expiresAt.value, false));
    session := Some(Session(accessToken, refreshToken));
  }

  /** The three inserts of a registration: the user, the profile when a name was given,
      and zeroed stats. The new id owned no profile or stats row before. */
  method CreateAccount(pool: MockPool, email: string, passwordHash: PasswordHash, name: Option<string>, now: nat)
    returns (user: User)
    requires pool.Valid()
    modifies pool
    ensures pool.Valid()
    ensures user == User(old(pool.currentUserId), email, passwordHash, true, false, now, None)
    ensures pool.users == old(pool.users) + [user] && pool.currentUserId == user.id + 1
    ensures pool.userProfiles == old(pool.userProfiles) + (if Truthy(name) then [Profile(user.id, name.value)] else [])
    ensures pool.userStats == old(pool.userStats) + [Stats(user.id, 0, 0)]
    ensures pool.refreshTokens == old(pool.refreshTokens) && pool.resetTokens == old(pool.resetTokens)
    ensures forall p :: p in old(pool.userProfiles) ==> p.userId != user.id
    ensures forall s :: s in old(pool.userStats) ==> s.userId != user.id
  {
    user := pool.InsertUser(email, passwordHash, now);
    if Truthy(name) {
      pool.InsertProfile(user.id, name.value);
    }
    pool.InsertStats(user.id);
  }

  /** What the profile and stats lookups of a registration read back. */
  lemma FreshAccountRows(profiles: seq<Profile>, stats: seq<Stats>, userId: nat, name: Option<string>)
    requires forall p :: p in profiles ==> p.userId != userId
    requires forall s :: s in stats ==> s.userId != userId
    ensures ProfileRowOf(profiles + (if Truthy(name) then [Profile(userId, name.value)] else []), userId)
         == if Truthy(name) then ProfileRow(Some(name.value), None, None) else NO_PROFILE
    ensures StatsRowOf(stats + [Stats(userId, 0, 0)], userId) == StatsRow(0, 0)
  {
    if Truthy(name) {
      ProfileRowOfFresh(profiles, userId, name.value);
    } else {
      ProfileRowOfFresh(profiles, userId, "");
      assert profiles + [] == profiles;
    }
    StatsRowOfFresh(stats, userId);
  }

  /** POST /register. */
  method Register(pool: MockPool, cfg: Config, email: string, password: string, name: Option<string>,
                  now: nat, salt: nat) returns (resp: Response)
    requires pool.Valid()
    modifies pool
    ensures pool.Valid()
    ensures EmailRegistered(old(pool.users), email) ==> resp == EMAIL_IN_USE && unchanged(pool)
    ensures !EmailRegistered(old(pool.users), email) ==>
              var id := old(pool.currentUserId);
              && pool.users == old(pool.users) + [User(id, email, HashPassword(password, salt), true, false, now, None)]
              && pool.currentUserId == id + 1
              && pool.userProfiles == old(pool.userProfiles) + (if Truthy(name) then [Profile(id, name.value)] else [])
              && pool.userStats == old(pool.userStats) + [Stats(id, 0, 0)]
              && pool.resetTokens == old(pool.resetTokens)
    ensures !EmailRegistered(old(pool.users), email) && RefreshTtl(cfg) == 0 ==>
              resp == JWT_EXPIRED && pool.refreshTokens == old(pool.refreshTokens)
    ensures !EmailRegistered(old(pool.users), email) && RefreshTtl(cfg) > 0 ==>
              var id := old(pool.currentUserId);
              var refresh := CreateRefreshToken(cfg, id, email, now);
              && resp == Response(201, Registered(id, email, false,
                                                  if Truthy(name) then ProfileRow(Some(name.value), None, None) else NO_PROFILE,
                                                  StatsRow(0, 0), CreateAccessToken(cfg, id, email, now), refresh))
              && pool.refreshTokens == old(pool.refreshTokens) + [RefreshRecord(id, refresh, RefreshExpiry(cfg, now), false)]
    ensures Genuine(cfg, old(pool.refreshTokens)) ==> Genuine(cfg, pool.refreshTokens)
  {
    var existing := pool.EmailExists(email);
    if existing > 0 {
      return EMAIL_IN_USE;
    }
    var passwordHash := HashPassword(password, salt);
    ghost var profilesBefore, statsBefore := pool.userProfiles, pool.userStats;
    var user := CreateAccount(pool, email, passwordHash, name, now);
    FreshAccountRows(profilesBefore, statsBefore, user.id, name);
    var profile := pool.FindProfile(user.id);
    var stats := pool.FindStats(user.id);
    var session := IssueSession(pool, cfg, user.id, user.email, now);
    if session.None? {
      return JWT_EXPIRED;
    }
    resp := Response(201, Registered(user.id, user.email, user.emailVerified, profile, stats,
                                     session.value.accessToken, session.value.refreshToken));
  }

  /** The user the login lookup finds is active and the password matches its hash. */
  predicate SignsIn(users: seq<User>, email: string, password: string) {
    var found := UserWithEmail(users, email);
    found.Some? && found.value.isActive && ComparePassword(password, found.value.passwordHash)
  }

  /** POST /login. The disabled check comes before the password check, and an unknown
      email and a wrong password get the same answer. */
  method Login(pool: MockPool, cfg: Config, email: string, password: string, now: nat) returns (resp: Response)
    requires pool.Valid()
    modifies pool
    ensures pool.Valid()
    ensures UserWithEmail(old(pool.users), email).None? ==> resp == INVALID_CREDENTIALS
    ensures UserWithEmail(old(pool.users), email).Some? && !UserWithEmail(old(pool.users), email).value.isActive ==>
              resp == ACCOUNT_DISABLED
    ensures UserWithEmail(old(pool.users), email).Some? && UserWithEmail(old(pool.users), email).value.isActive
            && !ComparePassword(password, UserWithEmail(old(pool.users), email).value.passwordHash) ==>
              resp == INVALID_CREDENTIALS
    ensures !SignsIn(old(pool.users), email, password) ==> unchanged(pool)
    ensures SignsIn(old(pool.users), email, password) ==>
              var u := UserWithEmail(old(pool.users), email).value;
              && pool.users == WithLastLogin(old(pool.users), u.id, now)
              && pool.currentUserId == old(pool.currentUserId)
              && pool.userProfiles == old(pool.userProfiles) && pool.userStats == old(pool.userStats)
              && pool.resetTokens == old(pool.resetTokens)
              && (RefreshTtl(cfg) == 0 ==> resp == JWT_EXPIRED && pool.refreshTokens == old(pool.refreshTokens))
              && (RefreshTtl(cfg) > 0 ==>
                    var refresh := CreateRefreshToken(cfg, u.id, u.email, now);
                    && resp == Response(200, LoggedIn(u.id, u.email, u.emailVerified, u.isActive,
                                                      ProfileRowOf(old(pool.userProfiles), u.id),
                                                      StatsRowOf(old(pool.userStats), u.id),
                                                      CreateAccessToken(cfg, u.id, u.email, now), refresh))
                    && pool.refreshTokens == old(pool.refreshTokens) + [RefreshRecord(u.id, refresh, RefreshExpiry(cfg, now), false)])
    ensures resp.status == 200 <==> SignsIn(old(pool.users), email, password) && RefreshTtl(cfg) > 0
    ensures Genuine(cfg, old(pool.refreshTokens)) ==> Genuine(cfg, pool.refreshTokens)
  {
    var found := pool.FindUserByEmail(email);
    if found.None? {
      return INVALID_CREDENTIALS;
    }
    var user := found.value;
    if !user.isActive {
      return ACCOUNT_DISABLED;
    }
    if !ComparePassword(password, user.passwordHash) {
      return INVALID_CREDENTIALS;
    }
    pool.UpdateLastLogin(user.id, now);
    var profile := pool.FindProfile(user.id);
    var stats := pool.FindStats(user.id);
    var session := IssueSession(pool, cfg, user.id, user.email, now);
    if session.None? {
      return JWT_EXPIRED;
    }
    resp := Response(200, LoggedIn(user.id, user.email, user.emailVerified, user.isActive, profile, stats,
                                   session.value.accessToken, session.value.refreshToken));
  }

  /** The store check of the refresh handler lets the token through: its first record
      has not expired by the stored time and names a (truthy) user id. */
  predicate PassesStoreCheck(records: seq<RefreshRecord>, token: string, now: nat) {
    var owner := IsRefreshTokenValid(records, token, now);
    owner.Some? && owner.value != 0
  }

  /** The refresh handler once the store check has passed: verification, deletion of the
      presented token's records, and a new pair for the token's subject. A token that
      fails verification is deleted all the same. The purpose tag is not read. */
  method RotateRefresh(pool: MockPool, cfg: Config, token: string, now: nat) returns (resp: Response)
    requires pool.Valid()
    modifies pool
    ensures pool.Valid()
    ensures pool.users == old(pool.users) && pool.currentUserId == old(pool.currentUserId)
    ensures pool.userProfiles == old(pool.userProfiles) && pool.userStats == old(pool.userStats)
    ensures pool.resetTokens == old(pool.resetTokens)
    ensures VerifyJwt(token, cfg.refreshSecret, now).None? ==>
              resp == INVALID_REFRESH && pool.refreshTokens == WithoutToken(old(pool.refreshTokens), token)
    ensures VerifyJwt(token, cfg.refreshSecret, now).Some? ==>
              var c := VerifyJwt(token, cfg.refreshSecret, now).value;
              var rotated := CreateRefreshToken(cfg, c.sub, c.email, now);
              && (RefreshTtl(cfg) == 0 ==>
                    resp == JWT_EXPIRED && pool.refreshTokens == WithoutToken(old(pool.refreshTokens), token))
              && (RefreshTtl(cfg) > 0 ==>
                    && resp == Response(200, Rotated(CreateAccessToken(cfg, c.sub, c.email, now), rotated))
                    && pool.refreshTokens == WithoutToken(old(pool.refreshTokens), token)
                                             + [RefreshRecord(c.sub, rotated, RefreshExpiry(cfg, now), false)])
    ensures resp.status == 200 <==> VerifyJwt(token, cfg.refreshSecret, now).Some? && RefreshTtl(cfg) > 0
    ensures resp.status == 200 ==>
              resp.body.Rotated? && (RefreshIndex(pool.refreshTokens, token).Some? <==> resp.body.refreshToken == token)
    ensures Genuine(cfg, old(pool.refreshTokens)) ==> Genuine(cfg, pool.refreshTokens)
  {
    ghost var before := pool.refreshTokens;
    var payload := VerifyJwt(token, cfg.refreshSecret, now);
    RevokeRefreshToken(pool, token);
    if Genuine(cfg, before) {
      GenuineSubset(cfg, before, pool.refreshTokens);
    }
    if payload.None? {
      return INVALID_REFRESH;
    }
    var c := payload.value;
    var session := IssueSession(pool, cfg, c.sub, c.email, now);
    if session.None? {
      return JWT_EXPIRED;
    }
    RefreshIndexAfterRotation(before, token, pool.refreshTokens[|pool.refreshTokens| - 1]);
    resp := Response(200, Rotated(session.value.accessToken, session.value.refreshToken));
  }

  /** POST /refresh: the store check, then rotation. On a genuine table a token is
      rotated exactly when its first record expires strictly after `now`: a record whose
      stored expiry is `now` itself passes the store check, fails verification and is
      deleted. */
  method Refresh(pool: MockPool, cfg: Config, token: string, now: nat) returns (resp: Response)
    requires pool.Valid()
    modifies pool
    ensures pool.Valid()
    ensures !PassesStoreCheck(old(pool.refreshTokens), token, now) ==> resp == INVALID_REFRESH && unchanged(pool)
    ensures PassesStoreCheck(old(pool.refreshTokens), token, now) ==>
              && pool.users == old(pool.users) && pool.currentUserId == old(pool.currentUserId)
              && pool.userProfiles == old(pool.userProfiles) && pool.userStats == old(pool.userStats)
              && pool.resetTokens == old(pool.resetTokens)
    ensures PassesStoreCheck(old(pool.refreshTokens), token, now) && VerifyJwt(token, cfg.refreshSecret, now).None? ==>
              resp == INVALID_REFRESH && pool.refreshTokens == WithoutToken(old(pool.refreshTokens), token)
    ensures PassesStoreCheck(old(pool.refreshTokens), token, now) && VerifyJwt(token, cfg.refreshSecret, now).Some? ==>
              var c := VerifyJwt(token, cfg.refreshSecret, now).value;
              var rotated := CreateRefreshToken(cfg, c.sub, c.email, now);
              && (RefreshTtl(cfg) == 0 ==>
                    resp == JWT_EXPIRED && pool.refreshTokens == WithoutToken(old(pool.refreshTokens), token))
              && (RefreshTtl(cfg) > 0 ==>
                    && resp == Response(200, Rotated(CreateAccessToken(cfg, c.sub, c.email, now), rotated))
                    && pool.refreshTokens == WithoutToken(old(pool.refreshTokens), token)
                                             + [RefreshRecord(c.sub, rotated, RefreshExpiry(cfg, now), false)])
    ensures resp.status == 200 ==>
              resp.body.Rotated? && (RefreshIndex(pool.refreshTokens, token).Some? <==> resp.body.refreshToken == token)
    ensures Genuine(cfg, old(pool.refreshTokens)) ==> Genuine(cfg, pool.refreshTokens)
    ensures Genuine(cfg, old(pool.refreshTokens)) ==>
              (resp.status == 200 <==>
                 PassesStoreCheck(old(pool.refreshTokens), token, now)
                 && now < old(pool.refreshTokens)[RefreshIndex(old(pool.refreshTokens), token).value].expiresAt
                 && RefreshTtl(cfg) > 0)
  {
    var owner := IsRefreshTokenValid(pool.refreshTokens, token, now);
    if owner.None? || owner.value == 0 {
      return INVALID_REFRESH;
    }
    if Genuine(cfg, pool.refreshTokens) {
      StoreCheckVersusVerify(cfg, pool.refreshTokens, token, now);
    }
    resp := RotateRefresh(pool, cfg, token, now);
  }

  /** POST /logout: the body's `refreshToken` is never validated (the handler does not read
      the validator's result), so it may be absent; then the delete matches no row
      (`token = NULL` is never true). A present token's records are deleted. The answer is
      always 200, known token or not. */
  method Logout(pool: MockPool, cfg: Config, token: Option<string>) returns (resp: Response)
    requires pool.Valid()
    modifies pool
    ensures pool.Valid()
    ensures resp == OK
    ensures token.None? ==> pool.refreshTokens == old(pool.refreshTokens)
    ensures token.Some? ==> pool.refreshTokens == WithoutToken(old(pool.refreshTokens), token.value)
    ensures pool.users == old(pool.users) && pool.currentUserId == old(pool.currentUserId)
    ensures pool.userProfiles == old(pool.userProfiles) && pool.userStats == old(pool.userStats)
    ensures pool.resetTokens == old(pool.resetTokens)
    ensures token.Some? ==> forall t :: IsRefreshTokenValid(pool.refreshTokens, token.value, t).None?
    ensures Genuine(cfg, old(pool.refreshTokens)) ==> Genuine(cfg, pool.refreshTokens)
  {
    if token.Some? {
      ghost var before := pool.refreshTokens;
      RevokeRefreshToken(pool, token.value);
      forall t: int
        ensures IsRefreshTokenValid(pool.refreshTokens, token.value, t).None?
      {
        RevokedTokenRejected(before, token.value, t);
      }
      if Genuine(cfg, before) {
        GenuineSubset(cfg, before, pool.refreshTokens);
      }
    }
    resp := OK;
  }

  /** POST /forgot-password: the answer is the same whether or not the email is known; a
      reset mail carrying a fresh reset token goes out only when it is. Nothing is stored. */
  method ForgotPassword(pool: MockPool, cfg: Config, email: string, now: nat) returns (resp: Response, sent: Option<ResetEmail>)
    ensures resp == OK
    ensures sent.Some? <==> EmailRegistered(pool.users, email)
    ensures sent.Some? ==>
              var u := UserWithEmail(pool.users, email).value;
              sent.value == ResetEmail(u.email, CreatePasswordResetToken(cfg, u.id, u.email, now))
    ensures sent.Some? ==>
              sent.value.to == email &&
              (VerifyJwt(sent.value.token, cfg.resetSecret, now).Some? <==> ResetTtl(cfg) > 0)
  {
    var found := pool.FindUserByEmail(email);
    if found.None? {
      return OK, None;
    }
    var user := found.value;
    var token := CreatePasswordResetToken(cfg, user.id, user.email, now);
    VerifyFreshJwt(Payload(user.id, user.email, PASSWORD_RESET), cfg.resetSecret, ResetTtl(cfg), now);
    return OK, Some(ResetEmail(user.email, token));
  }

  /** The reset handler accepts the token: it verifies under the reset secret and carries
      the password-reset purpose tag. */
  predicate ResetAccepted(cfg: Config, token: string, now: nat) {
    var c := VerifyJwt(token, cfg.resetSecret, now);
    c.Some? && c.value.kind == PASSWORD_RESET
  }

  /** POST /reset-password: sets the new hash on the token's user and deletes all of that
      user's refresh tokens. The reset token itself is not recorded, so it stays usable
      until it expires. */
  method ResetPassword(pool: MockPool, cfg: Config, token: string, newPassword: string, now: nat, salt: nat)
    returns (resp: Response)
    requires pool.Valid()
    modifies pool
    ensures pool.Valid()
    ensures !ResetAccepted(cfg, token, now) ==> resp == INVALID_RESET && unchanged(pool)
    ensures ResetAccepted(cfg, token, now) ==>
              var id := VerifyJwt(token, cfg.resetSecret, now).value.sub;
              && resp == OK
              && pool.users == WithPassword(old(pool.users), id, HashPassword(newPassword, salt))
              && pool.refreshTokens == WithoutUser(old(pool.refreshTokens), id)
              && pool.currentUserId == old(pool.currentUserId)
              && pool.userProfiles == old(pool.userProfiles) && pool.userStats == old(pool.userStats)
              && pool.resetTokens == old(pool.resetTokens)
    ensures ResetAccepted(cfg, token, now) ==>
              var id := VerifyJwt(token, cfg.resetSecret, now).value.sub;
              && (forall r :: r in pool.refreshTokens ==> r.userId != id)
              && (UserIndex(old(pool.users), id).Some? ==>
                    forall p :: ComparePassword(p, pool.users[UserIndex(old(pool.users), id).value].passwordHash) <==>
                                BcryptInput(p) == BcryptInput(newPassword))
    ensures Genuine(cfg, old(pool.refreshTokens)) ==> Genuine(cfg, pool.refreshTokens)
  {
    var payload := VerifyJwt(token, cfg.resetSecret, now);
    if payload.None? || payload.value.kind != PASSWORD_RESET {
      return INVALID_RESET;
    }
    var id := payload.value.sub;
    ghost var before := pool.refreshTokens;
    var newHash := HashPassword(newPassword, salt);
    var _ := pool.UpdatePassword(newHash, id);
    pool.DeleteRefreshByUser(id);
    if Genuine(cfg, before) {
      GenuineSubset(cfg, before, pool.refreshTokens);
    }
    resp := OK;
  }

  /** GET /me behind `requireAuth`: the gate's rejection, or the authenticated user's row. */
  method Me(pool: MockPool, cfg: Config, header: Option<string>, now: nat) returns (resp: Response)
    ensures RequireAuth(header, cfg.accessSecret, now).Reject? ==>
              var g := RequireAuth(header, cfg.accessSecret, now);
              resp == Response(g.status, ErrorBody(g.message))
    ensures RequireAuth(header, cfg.accessSecret, now).Next? ==>
              var id := RequireAuth(header, cfg.accessSecret, now).user.id;
              && (UserIndex(pool.users, id).None? ==> resp == USER_NOT_FOUND)
              && (UserIndex(pool.users, id).Some? ==>
                    var u := pool.users[UserIndex(pool.users, id).value];
                    resp == Response(200, CurrentUser(u.id, u.email, u.isActive, u.emailVerified, u.createdAt)))
    ensures resp.status == 200 ==>
              VerifyJwt(header.value[|BEARER|..], cfg.accessSecret, now).Some? &&
              resp.body.CurrentUser? && resp.body.id == VerifyJwt(header.value[|BEARER|..], cfg.accessSecret, now).value.sub
  {
    var gate := RequireAuth(header, cfg.accessSecret, now);
    if gate.Reject? {
      return Response(gate.status, ErrorBody(gate.message));
    }
    var row := pool.FindUserById(gate.user.id);
    if row.None? {
      return USER_NOT_FOUND;
    }
    var u := row.value;
    resp := Response(200, CurrentUser(u.id, u.email, u.isActive, u.emailVerified, u.createdAt));
  }
}
