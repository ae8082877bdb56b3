/** The session manager (services/tokens.ts): the three token constructors, and the
    refresh-token operations on the credential store. */
module Tokens {
  import opened Wrappers
  import opened TokenCodec
  import opened Jwt
  import opened CredentialStore

  /** Environment configuration: one signing secret per purpose, and the optional
      lifetime overrides (`JWT_*_TTL`), already converted to seconds. An unset or empty
      override is `None`. */
  datatype Config = Config(
    accessSecret: string,
    refreshSecret: string,
    resetSecret: string,
    accessTtl: Option<nat>,
    refreshTtl: Option<nat>,
    resetTtl: Option<nat>)

  /** Purpose tags, the `type` claim. */
  const ACCESS := "access"
  const REFRESH := "refresh"
  const PASSWORD_RESET := "password_reset"

  /** Default lifetimes in seconds: '15m', '30d' and '15m'. */
  const DEFAULT_ACCESS_TTL: nat := 15 * 60
  const DEFAULT_REFRESH_TTL: nat := 30 * 24 * 60 * 60
  const DEFAULT_RESET_TTL: nat := 15 * 60

  function OrDefault(ttl: Option<nat>, default: nat): nat {
    match ttl
    case Some(t) => t
    case None => default
  }

  function AccessTtl(cfg: Config): (ttl: nat)
    ensures cfg.accessTtl.None? ==> ttl == 900
    ensures cfg.accessTtl.Some? ==> ttl == cfg.accessTtl.value
  {
    OrDefault(cfg.accessTtl, DEFAULT_ACCESS_TTL)
  }

  function RefreshTtl(cfg: Config): (ttl: nat)
    ensures cfg.refreshTtl.None? ==> ttl == 2592000
    ensures cfg.refreshTtl.Some? ==> ttl == cfg.refreshTtl.value
  {
    OrDefault(cfg.refreshTtl, DEFAULT_REFRESH_TTL)
  }

  function ResetTtl(cfg: Config): (ttl: nat)
    ensures cfg.resetTtl.None? ==> ttl == 900
    ensures cfg.resetTtl.Some? ==> ttl == cfg.resetTtl.value
  {
    OrDefault(cfg.resetTtl, DEFAULT_RESET_TTL)
  }

  function CreateAccessToken(cfg: Config, id: nat, email: string, now: nat): (token: string)
    ensures Open(token, cfg.accessSecret) == Some(Claims(id, email, ACCESS, now / 1000, now / 1000 + AccessTtl(cfg)))
  {
    SignJwt(Payload(id, email, ACCESS), cfg.accessSecret, AccessTtl(cfg), now)
  }

  function CreateRefreshToken(cfg: Config, id: nat, email: string, now: nat): (token: string)
    ensures Open(token, cfg.refreshSecret) == Some(Claims(id, email, REFRESH, now / 1000, now / 1000 + RefreshTtl(cfg)))
  {
    SignJwt(Payload(id, email, REFRESH), cfg.refreshSecret, RefreshTtl(cfg), now)
  }

  function CreatePasswordResetToken(cfg: Config, id: nat, email: string, now: nat): (token: string)
    ensures Open(token, cfg.resetSecret) == Some(Claims(id, email, PASSWORD_RESET, now / 1000, now / 1000 + ResetTtl(cfg)))
  {
    SignJwt(Payload(id, email, PASSWORD_RESET), cfg.resetSecret, ResetTtl(cfg), now)
  }

  /** The three constructors never produce the same token, whatever the users, times
      and secrets: the purpose tag inside differs. */
  lemma PurposesNeverCollide(cfg: Config, i1: nat, e1: string, t1: nat, i2: nat, e2: string, t2: nat)
    ensures CreateAccessToken(cfg, i1, e1, t1) != CreateRefreshToken(cfg, i2, e2, t2)
    ensures CreateAccessToken(cfg, i1, e1, t1) != CreatePasswordResetToken(cfg, i2, e2, t2)
    ensures CreateRefreshToken(cfg, i1, e1, t1) != CreatePasswordResetToken(cfg, i2, e2, t2)
  {
    var a1 := IssuedClaims(Payload(i1, e1, ACCESS), AccessTtl(cfg), t1);
    var r1 := IssuedClaims(Payload(i1, e1, REFRESH), RefreshTtl(cfg), t1);
    var r2 := IssuedClaims(Payload(i2, e2, REFRESH), RefreshTtl(cfg), t2);
    var p2 := IssuedClaims(Payload(i2, e2, PASSWORD_RESET), ResetTtl(cfg), t2);
    if Seal(a1, cfg.accessSecret) == Seal(r2, cfg.refreshSecret) {
      SealDeterminesClaims(a1, cfg.accessSecret, r2, cfg.refreshSecret);
    }
    if Seal(a1, cfg.accessSecret) == Seal(p2, cfg.resetSecret) {
      SealDeterminesClaims(a1, cfg.accessSecret, p2, cfg.resetSecret);
    }
    if Seal(r1, cfg.refreshSecret) == Seal(p2, cfg.resetSecret) {
      SealDeterminesClaims(r1, cfg.refreshSecret, p2, cfg.resetSecret);
    }
  }

  /** `storeRefreshToken`: one new record, nothing else changes. */
  method StoreRefreshToken(pool: MockPool, userId: nat, token: string, expiresAt: int)
    modifies pool
    ensures pool.refreshTokens == old(pool.refreshTokens) + [RefreshRecord(userId, token, expiresAt, false)]
    ensures pool.users == old(pool.users) && pool.currentUserId == old(pool.currentUserId)
    ensures pool.userProfiles == old(pool.userProfiles) && pool.userStats == old(pool.userStats)
    ensures pool.resetTokens == old(pool.resetTokens)
    ensures old(pool.Valid()) ==> pool.Valid()
  {
    pool.InsertRefreshToken(userId, token, expiresAt);
  }

  /** `revokeRefreshToken`: deletes every record for the token; a missing token is no error. */
  method RevokeRefreshToken(pool: MockPool, token: string)
    modifies pool
    ensures pool.refreshTokens == WithoutToken(old(pool.refreshTokens), token)
    ensures forall r :: r in pool.refreshTokens ==> r.token != token
    ensures pool.users == old(pool.users) && pool.currentUserId == old(pool.currentUserId)
    ensures pool.userProfiles == old(pool.userProfiles) && pool.userStats == old(pool.userStats)
    ensures pool.resetTokens == old(pool.resetTokens)
    ensures old(pool.Valid()) ==> pool.Valid()
  {
    pool.DeleteRefreshByToken(token);
  }

  /** `isRefreshTokenValid`: the owner of the first record for the token, unless that
      record's stored expiry is strictly before `now` (ms). The revoked flag is not read. */
  function IsRefreshTokenValid(records: seq<RefreshRecord>, token: string, now: int): (r: Option<nat>)
    ensures (forall i :: 0 <= i < |records| ==> records[i].token != token) ==> r.None?
    ensures RefreshIndex(records, token).Some? ==>
              var rec := records[RefreshIndex(records, token).value];
              (rec.expiresAt < now ==> r.None?) && (now <= rec.expiresAt ==> r == Some(rec.userId))
    ensures r.Some? ==> exists rec :: rec in records && rec.token == token && now <= rec.expiresAt && rec.userId == r.value
  {
    match RefreshIndex(records, token)
    case None => None
    case Some(i) => if records[i].expiresAt < now then None else Some(records[i].userId)
  }

  /** `parseRefreshExp`: the `exp` claim in milliseconds, `None` where verification
      throws. A parsed expiry always lies after `now`. */
  function ParseRefreshExp(cfg: Config, token: string, now: nat): (r: Option<nat>)
    ensures r.Some? <==> VerifyJwt(token, cfg.refreshSecret, now).Some?
    ensures r.Some? ==> r.value == VerifyJwt(token, cfg.refreshSecret, now).value.exp * 1000
    ensures r.Some? ==> now < r.value
  {
    var c :- VerifyJwt(token, cfg.refreshSecret, now);
    Some(c.exp * 1000)
  }

  /** The expiry, in ms, stored for a refresh token issued at `now`. */
  function RefreshExpiry(cfg: Config, now: nat): nat {
    (now / 1000 + RefreshTtl(cfg)) * 1000
  }

  /** The expiry of a freshly issued refresh token parses back exactly when its lifetime
      is positive; it is then the issue second plus the lifetime, in milliseconds. */
  lemma ParseFreshRefreshExp(cfg: Config, id: nat, email: string, now: nat)
    ensures RefreshTtl(cfg) > 0 ==>
              ParseRefreshExp(cfg, CreateRefreshToken(cfg, id, email, now), now) == Some(RefreshExpiry(cfg, now))
    ensures RefreshTtl(cfg) == 0 ==> ParseRefreshExp(cfg, CreateRefreshToken(cfg, id, email, now), now) == None
  {
    var token := CreateRefreshToken(cfg, id, email, now);
    VerifySignJwt(Payload(id, email, REFRESH), cfg.refreshSecret, RefreshTtl(cfg), now, now);
    assert token == SignJwt(Payload(id, email, REFRESH), cfg.refreshSecret, RefreshTtl(cfg), now);
    if RefreshTtl(cfg) > 0 {
      var c := Claims(id, email, REFRESH, now / 1000, now / 1000 + RefreshTtl(cfg));
      assert IssuedClaims(Payload(id, email, REFRESH), RefreshTtl(cfg), now) == c;
      assert VerifyJwt(token, cfg.refreshSecret, now) == Some(c);
      assert ParseRefreshExp(cfg, token, now) == Some(c.exp * 1000);
      assert c.exp * 1000 == RefreshExpiry(cfg, now);
    } else {
      assert VerifyJwt(token, cfg.refreshSecret, now) == None;
    }
  }

  /** A stored refresh record is genuine when its token is a refresh token signed with
      the refresh secret for the record's user, and the stored expiry is the token's own. */
  predicate GenuineRecord(cfg: Config, r: RefreshRecord) {
    var c := Open(r.token, cfg.refreshSecret);
    c.Some? && c.value.sub == r.userId && c.value.kind == REFRESH && r.expiresAt == c.value.exp * 1000
  }

  predicate Genuine(cfg: Config, records: seq<RefreshRecord>) {
    forall i :: 0 <= i < |records| ==> GenuineRecord(cfg, records[i])
  }

  /** For a genuine table, the store check and the signature check disagree on exactly
      one instant: a token whose stored expiry equals `now` passes the store check (it
      is not strictly before `now`) but has expired for the verifier. */
  lemma StoreCheckVersusVerify(cfg: Config, records: seq<RefreshRecord>, token: string, now: nat)
    requires Genuine(cfg, records)
    requires IsRefreshTokenValid(records, token, now).Some?
    ensures VerifyJwt(token, cfg.refreshSecret, now).None? <==> records[RefreshIndex(records, token).value].expiresAt == now
    ensures VerifyJwt(token, cfg.refreshSecret, now).Some? ==>
              VerifyJwt(token, cfg.refreshSecret, now).value.sub == IsRefreshTokenValid(records, token, now).value
  {
    var rec := records[RefreshIndex(records, token).value];
    assert GenuineRecord(cfg, rec);
  }

  /** Once no record belongs to a user, none of that user's refresh tokens passes the
      store check, at any time. */
  lemma NoRecordNoSession(cfg: Config, records: seq<RefreshRecord>, userId: nat, token: string, now: int)
    requires Genuine(cfg, records)
    requires forall r :: r in records ==> r.userId != userId
    requires Open(token, cfg.refreshSecret).Some? && Open(token, cfg.refreshSecret).value.sub == userId
    ensures IsRefreshTokenValid(records, token, now).None?
  {
    if RefreshIndex(records, token).Some? {
      assert GenuineRecord(cfg, records[RefreshIndex(records, token).value]);
    }
  }

  /** Deleting rows never makes the table less genuine. */
  lemma GenuineSubset(cfg: Config, records: seq<RefreshRecord>, kept: seq<RefreshRecord>)
    requires Genuine(cfg, records)
    requires forall i :: 0 <= i < |kept| ==> kept[i] in records
    ensures Genuine(cfg, kept)
  {
    forall i | 0 <= i < |kept|
      ensures GenuineRecord(cfg, kept[i])
    {
      var j :| 0 <= j < |records| && records[j] == kept[i];
      assert GenuineRecord(cfg, records[j]);
    }
  }

  /** A refresh token whose records were deleted never passes the store check again. */
  lemma RevokedTokenRejected(records: seq<RefreshRecord>, token: string, now: int)
    ensures IsRefreshTokenValid(WithoutToken(records, token), token, now).None?
  {
    var kept := WithoutToken(records, token);
    assert forall i :: 0 <= i < |kept| ==> kept[i].token != token;
  }

  /** The refresh token issued for a user at `now` is the very token issued for them at
      `issuedAt` exactly when both instants fall in the same second: the format carries
      no nonce, so a rotation within the issuing second hands the old token back. */
  lemma ReissueWithinSecond(cfg: Config, id: nat, email: string, issuedAt: nat, now: nat)
    ensures CreateRefreshToken(cfg, id, email, now) == CreateRefreshToken(cfg, id, email, issuedAt)
        <==> now / 1000 == issuedAt / 1000
  {
    SignJwtCollision(Payload(id, email, REFRESH), Payload(id, email, REFRESH), cfg.refreshSecret, RefreshTtl(cfg), now, issuedAt);
  }
}
