/** `requireAuth` (middleware/auth.ts): the `Authorization: Bearer <token>` gate of
    section 2.1 of RFC 6750, followed by verification with the access secret. */
module AuthMiddleware {
  import opened Wrappers
  import opened Jwt
  import opened Tokens

  const BEARER := "Bearer "

  /** What the gate stores in `req.user`. */
  datatype AuthUser = AuthUser(id: nat, email: string)

  /** `Reject` is a 401 response with its message; `Next` stands for setting `req.user`
      and calling `next()`. */
  datatype Gate = Reject(status: nat, message: string) | Next(user: AuthUser)

  const MISSING_HEADER := Reject(401, "Missing or invalid Authorization header")
  const BAD_TOKEN := Reject(401, "Invalid or expired token")

  predicate StartsWith(s: string, prefix: string) {
    |prefix| <= |s| && s[..|prefix|] == prefix
  }

  function RequireAuth(header: Option<string>, accessSecret: string, now: nat): (g: Gate)
    ensures header.None? || !StartsWith(header.value, BEARER) ==> g == MISSING_HEADER
    ensures header.Some? && StartsWith(header.value, BEARER) ==>
              (g.Next? <==> VerifyJwt(header.value[7..], accessSecret, now).Some?) &&
              (g.Reject? ==> g == BAD_TOKEN)
    ensures g.Next? ==>
              var c := VerifyJwt(header.value[7..], accessSecret, now).value;
              g.user == AuthUser(c.sub, c.email)
  {
    if header.None? || !StartsWith(header.value, BEARER) then MISSING_HEADER
    else
      match VerifyJwt(header.value[|BEARER|..], accessSecret, now)
      case None => BAD_TOKEN
      case Some(c) => Next(AuthUser(c.sub, c.email))
  }

  /** The token handed to verification is exactly what follows the seven-character prefix. */
  lemma BearerExtraction(token: string, accessSecret: string, now: nat)
    ensures RequireAuth(Some(BEARER + token), accessSecret, now)
         == match VerifyJwt(token, accessSecret, now)
            case None => BAD_TOKEN
            case Some(c) => Next(AuthUser(c.sub, c.email))
  {
    assert (BEARER + token)[..7] == BEARER;
    assert (BEARER + token)[7..] == token;
  }

  /** An access token passes the gate, as its own user, exactly until its expiry second. */
  lemma AccessTokenPasses(cfg: Config, id: nat, email: string, issuedAt: nat, now: nat)
    ensures RequireAuth(Some(BEARER + CreateAccessToken(cfg, id, email, issuedAt)), cfg.accessSecret, now)
         == if now / 1000 < issuedAt / 1000 + AccessTtl(cfg) then Next(AuthUser(id, email)) else BAD_TOKEN
  {
    BearerExtraction(CreateAccessToken(cfg, id, email, issuedAt), cfg.accessSecret, now);
    VerifySignJwt(Payload(id, email, ACCESS), cfg.accessSecret, AccessTtl(cfg), issuedAt, now);
  }

  /** A password-reset token never passes the gate while the reset secret differs from the
      access secret. */
  lemma ResetTokenRejected(cfg: Config, id: nat, email: string, issuedAt: nat, now: nat)
    requires cfg.resetSecret != cfg.accessSecret
    ensures RequireAuth(Some(BEARER + CreatePasswordResetToken(cfg, id, email, issuedAt)), cfg.accessSecret, now) == BAD_TOKEN
  {
    BearerExtraction(CreatePasswordResetToken(cfg, id, email, issuedAt), cfg.accessSecret, now);
    VerifyOtherSecret(Payload(id, email, PASSWORD_RESET), cfg.resetSecret, cfg.accessSecret, ResetTtl(cfg), issuedAt, now);
  }

  /** The gate does not read the purpose tag: when the refresh and access secrets are
      configured equal, a live refresh token is accepted as an access token. */
  lemma RefreshTokenAcceptedUnderSharedSecret(cfg: Config, id: nat, email: string, issuedAt: nat, now: nat)
    requires cfg.refreshSecret == cfg.accessSecret
    requires now / 1000 < issuedAt / 1000 + RefreshTtl(cfg)
    ensures RequireAuth(Some(BEARER + CreateRefreshToken(cfg, id, email, issuedAt)), cfg.accessSecret, now)
         == Next(AuthUser(id, email))
  {
    BearerExtraction(CreateRefreshToken(cfg, id, email, issuedAt), cfg.accessSecret, now);
    VerifySignJwt(Payload(id, email, REFRESH), cfg.refreshSecret, RefreshTtl(cfg), issuedAt, now);
  }
}
