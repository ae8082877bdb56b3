/** End-to-end flows through the auth service: each method runs the handlers in sequence,
    on a given valid store or on a fresh, empty one, and states what the client sees. */
module Scenarios {
  import opened Wrappers
  import opened Jwt
  import opened Password
  import opened CredentialStore
  import opened Tokens
  import opened AuthMiddleware
  import opened AuthRoutes

  /** On any store where the email is new, the account just registered signs in with its
      password: login answers for the same id, with no profile (none was given) and zeroed
      stats. */
  method RegisterThenLogin(pool: MockPool, cfg: Config, email: string, password: string, t0: nat, t1: nat, salt: nat)
    returns (registered: Response, loggedIn: Response)
    requires pool.Valid() && !EmailRegistered(pool.users, email) && RefreshTtl(cfg) > 0
    modifies pool
    ensures registered.status == 201 && registered.body.Registered? && registered.body.id == old(pool.currentUserId)
    ensures loggedIn.status == 200 && loggedIn.body.LoggedIn? && loggedIn.body.id == registered.body.id
    ensures loggedIn.body.profile == NO_PROFILE && loggedIn.body.stats == StatsRow(0, 0)
  {
    ghost var users, profiles, stats, id := pool.users, pool.userProfiles, pool.userStats, pool.currentUserId;
    assert forall p :: p in profiles ==> p.userId != id;
    assert forall r :: r in stats ==> r.userId != id;
    registered := Register(pool, cfg, email, password, None, t0, salt);
    NewEmailFoundLast(users, User(id, email, HashPassword(password, salt), true, false, t0, None));
    FreshAccountRows(profiles, stats, id, None);
    loggedIn := Login(pool, cfg, email, password, t1);
  }

  /** On an empty store the first account gets id 1. */
  method FirstAccount(cfg: Config, email: string, password: string, t0: nat, t1: nat, salt: nat)
    returns (registered: Response, loggedIn: Response)
    requires RefreshTtl(cfg) > 0
    ensures registered.status == 201 && registered.body.Registered? && registered.body.id == 1
    ensures loggedIn.status == 200 && loggedIn.body.LoggedIn? && loggedIn.body.id == 1
  {
    var pool := new MockPool();
    registered, loggedIn := RegisterThenLogin(pool, cfg, email, password, t0, t1, salt);
  }

  /** A second registration with the same email is refused and creates nothing. */
  method DuplicateRegistration(cfg: Config, email: string, p1: string, p2: string, t0: nat, t1: nat, salt: nat)
    returns (second: Response, users: seq<User>)
    ensures second == EMAIL_IN_USE
    ensures |users| == 1 && users[0].email == email && ComparePassword(p1, users[0].passwordHash)
  {
    var pool := new MockPool();
    var first := Register(pool, cfg, email, p1, None, t0, salt);
    assert pool.users[0].email == email;
    second := Register(pool, cfg, email, p2, None, t1, salt);
    users := pool.users;
  }

  /** A wrong password and an unknown email get the same answer, so the response does not
      tell which accounts exist. */
  method NoAccountEnumeration(cfg: Config, email: string, password: string, other: string, stranger: string,
                              t0: nat, t1: nat, salt: nat)
    returns (wrongPassword: Response, unknownEmail: Response)
    requires BcryptInput(other) != BcryptInput(password) && stranger != email
    ensures wrongPassword == unknownEmail == INVALID_CREDENTIALS
  {
    var pool := new MockPool();
    var _ := Register(pool, cfg, email, password, None, t0, salt);
    wrongPassword := Login(pool, cfg, email, other, t1);
    unknownEmail := Login(pool, cfg, stranger, password, t1);
  }

  /** With the default fifteen-minute lifetime, a reset link works when it is mailed and
      is refused sixteen minutes later. */
  method ResetLinkExpires(cfg: Config, email: string, password: string, newPassword: string, t0: nat, salt: nat)
    returns (late: Response, onTime: Response)
    requires cfg.resetTtl.None?
    ensures late == INVALID_RESET
    ensures onTime == OK
  {
    var pool := new MockPool();
    var _ := Register(pool, cfg, email, password, None, t0, salt);
    assert pool.users[0].email == email;
    var ack, sent := ForgotPassword(pool, cfg, email, t0);
    var token := CreatePasswordResetToken(cfg, 1, email, t0);
    assert sent == Some(ResetEmail(email, token));
    VerifySignJwt(Payload(1, email, PASSWORD_RESET), cfg.resetSecret, ResetTtl(cfg), t0, t0 + 16 * 60 * 1000);
    VerifySignJwt(Payload(1, email, PASSWORD_RESET), cfg.resetSecret, ResetTtl(cfg), t0, t0);
    assert !ResetAccepted(cfg, token, t0 + 16 * 60 * 1000);
    assert ResetAccepted(cfg, token, t0);
    late := ResetPassword(pool, cfg, sent.value.token, newPassword, t0 + 16 * 60 * 1000, salt);
    onTime := ResetPassword(pool, cfg, sent.value.token, newPassword, t0, salt);
  }

  /** Rotation in a later second than issue hands out a new refresh token, and the old one
      is refused from then on. */
  method RotationRetiresOldToken(cfg: Config, email: string, password: string, t0: nat, t1: nat, salt: nat)
    returns (rotated: Response, replayed: Response)
    requires t0 / 1000 < t1 / 1000 < t0 / 1000 + RefreshTtl(cfg)
    ensures rotated.status == 200 && rotated.body.Rotated?
    ensures rotated.body.refreshToken != CreateRefreshToken(cfg, 1, email, t0)
    ensures replayed == INVALID_REFRESH
  {
    var pool := new MockPool();
    var registered := Register(pool, cfg, email, password, None, t0, salt);
    var token := registered.body.refreshToken;
    assert pool.refreshTokens == [RefreshRecord(1, token, RefreshExpiry(cfg, t0), false)];
    assert PassesStoreCheck(pool.refreshTokens, token, t1);
    VerifySignJwt(Payload(1, email, REFRESH), cfg.refreshSecret, RefreshTtl(cfg), t0, t1);
    ReissueWithinSecond(cfg, 1, email, t0, t1);
    rotated := Refresh(pool, cfg, token, t1);
    replayed := Refresh(pool, cfg, token, t1);
  }

  /** Rotation within the second the token was issued hands the same token back, and the
      store keeps a record for it: that refresh token can be presented again. */
  method SameSecondRotationReplays(cfg: Config, email: string, password: string, t0: nat, t1: nat, salt: nat)
    returns (registered: Response, first: Response, second: Response)
    requires RefreshTtl(cfg) > 0 && t0 / 1000 == t1 / 1000
    ensures registered.status == 201 && first.status == 200 && second.status == 200
    ensures registered.body.Registered? && first.body.Rotated? && first.body.refreshToken == registered.body.refreshToken
  {
    var pool := new MockPool();
    registered := Register(pool, cfg, email, password, None, t0, salt);
    var token := registered.body.refreshToken;
    assert pool.refreshTokens == [RefreshRecord(1, token, RefreshExpiry(cfg, t0), false)];
    VerifySignJwt(Payload(1, email, REFRESH), cfg.refreshSecret, RefreshTtl(cfg), t0, t1);
    ReissueWithinSecond(cfg, 1, email, t0, t1);
    first := Refresh(pool, cfg, token, t1);
    assert pool.refreshTokens == [] + [RefreshRecord(1, token, RefreshExpiry(cfg, t0), false)];
    second := Refresh(pool, cfg, token, t1);
  }

  /** A password reset ends every session of the user, and the same reset link can be
      used a second time while it is live. */
  method ResetEndsSessions(cfg: Config, email: string, password: string, newPassword: string, t0: nat, t1: nat, salt: nat)
    returns (reset: Response, refreshed: Response, resetAgain: Response)
    requires RefreshTtl(cfg) > 0 && t1 / 1000 < t0 / 1000 + ResetTtl(cfg)
    ensures reset == OK && resetAgain == OK
    ensures refreshed == INVALID_REFRESH
  {
    var pool := new MockPool();
    var registered := Register(pool, cfg, email, password, None, t0, salt);
    assert pool.users[0].email == email;
    var ack, sent := ForgotPassword(pool, cfg, email, t0);
    var link := CreatePasswordResetToken(cfg, 1, email, t0);
    assert sent == Some(ResetEmail(email, link));
    VerifySignJwt(Payload(1, email, PASSWORD_RESET), cfg.resetSecret, ResetTtl(cfg), t0, t1);
    assert ResetAccepted(cfg, link, t1);
    reset := ResetPassword(pool, cfg, link, newPassword, t1, salt);
    assert pool.refreshTokens == [];
    refreshed := Refresh(pool, cfg, registered.body.refreshToken, t1);
    resetAgain := ResetPassword(pool, cfg, link, newPassword, t1, salt);
  }

  /** The access token from registration opens /me for the new user while it is live; the
      refresh token does not, when the two secrets differ. */
  method MeAfterRegister(cfg: Config, email: string, password: string, t0: nat, t1: nat, salt: nat)
    returns (me: Response, withRefresh: Response)
    requires RefreshTtl(cfg) > 0 && t1 / 1000 < t0 / 1000 + AccessTtl(cfg)
    requires cfg.refreshSecret != cfg.accessSecret
    ensures me == Response(200, CurrentUser(1, email, true, false, t0))
    ensures withRefresh == Response(401, ErrorBody("Invalid or expired token"))
  {
    var pool := new MockPool();
    var registered := Register(pool, cfg, email, password, None, t0, salt);
    AccessTokenPasses(cfg, 1, email, t0, t1);
    me := Me(pool, cfg, Some(BEARER + registered.body.accessToken), t1);
    BearerExtraction(registered.body.refreshToken, cfg.accessSecret, t1);
    VerifyOtherSecret(Payload(1, email, REFRESH), cfg.refreshSecret, cfg.accessSecret, RefreshTtl(cfg), t0, t1);
    withRefresh := Me(pool, cfg, Some(BEARER + registered.body.refreshToken), t1);
  }
}
