/** `signJwt` / `verifyJwt` (utils/jwt.ts) over the idealised token format of module
    TokenCodec, with the `jsonwebtoken` library's time rules: the issue time is the
    current time in whole seconds, the expiry is issue time plus the lifetime, and a
    token is expired once the current whole second reaches its expiry. Time is passed
    in explicitly, in milliseconds since the epoch. */
module Jwt {
  import opened Wrappers
  import opened TokenCodec

  /** The application part of a token: subject, email and purpose tag. */
  datatype Payload = Payload(sub: nat, email: string, kind: string)

  /** The claims a token signed at `now` with lifetime `ttl` seconds carries. */
  function IssuedClaims(p: Payload, ttl: nat, now: nat): (c: Claims)
    ensures c.sub == p.sub && c.email == p.email && c.kind == p.kind
    ensures c.iat * 1000 <= now < c.iat * 1000 + 1000
    ensures c.exp == c.iat + ttl
  {
    Claims(p.sub, p.email, p.kind, now / 1000, now / 1000 + ttl)
  }

  function SignJwt(p: Payload, secret: string, ttl: nat, now: nat): (token: string)
    ensures Open(token, secret) == Some(IssuedClaims(p, ttl, now))
  {
    OpenSeal(IssuedClaims(p, ttl, now), secret);
    Seal(IssuedClaims(p, ttl, now), secret)
  }

  /** Signature check, then expiry check: `None` stands for the library's thrown error. */
  function VerifyJwt(token: string, secret: string, now: nat): (r: Option<Claims>)
    ensures r.Some? ==> Open(token, secret) == r && now < r.value.exp * 1000
    ensures r.None? ==> Open(token, secret).None? || Open(token, secret).value.exp * 1000 <= now
  {
    var c :- Open(token, secret);
    if now / 1000 < c.exp then Some(c) else None
  }

  /** Round trip: a token verifies with its own secret, and gives back the signed
      payload, exactly while the current second is before its expiry. */
  lemma VerifySignJwt(p: Payload, secret: string, ttl: nat, issuedAt: nat, now: nat)
    ensures VerifyJwt(SignJwt(p, secret, ttl, issuedAt), secret, now)
         == if now / 1000 < issuedAt / 1000 + ttl then Some(IssuedClaims(p, ttl, issuedAt)) else None
  {
  }

  /** A token checked the same instant it was signed verifies iff its lifetime is positive. */
  lemma VerifyFreshJwt(p: Payload, secret: string, ttl: nat, now: nat)
    ensures VerifyJwt(SignJwt(p, secret, ttl, now), secret, now).Some? <==> ttl > 0
  {
    VerifySignJwt(p, secret, ttl, now, now);
  }

  /** A token never verifies under a secret other than the one that signed it. */
  lemma VerifyOtherSecret(p: Payload, secret: string, other: string, ttl: nat, issuedAt: nat, now: nat)
    requires secret != other
    ensures VerifyJwt(SignJwt(p, secret, ttl, issuedAt), other, now) == None
  {
    OpenOtherSecret(IssuedClaims(p, ttl, issuedAt), secret, other);
  }

  /** Two tokens signed with the same secret and lifetime coincide exactly when they carry
      the same payload and were signed within the same second: the format has no nonce. */
  lemma SignJwtCollision(p: Payload, q: Payload, secret: string, ttl: nat, t1: nat, t2: nat)
    ensures SignJwt(p, secret, ttl, t1) == SignJwt(q, secret, ttl, t2) <==> p == q && t1 / 1000 == t2 / 1000
  {
    SealInjective(IssuedClaims(p, ttl, t1), IssuedClaims(q, ttl, t2), secret);
  }
}
