# Fitness-MVP authentication core in Dafny

This project models the authentication and session-token subsystem of the Fitness-MVP
backend, and proves properties of that model. The subsystem covers:

- the refresh-token lifecycle of `services/tokens.ts`;
- the in-memory credential store of `db/mock-pool.ts`;
- the seven auth handlers of `routes/auth.routes.ts`: register, login, refresh, logout,
  forgot-password, reset-password and me;
- the `Authorization: Bearer` gate of `middleware/auth.ts`.

Modules, one per file:

- `Wrappers`: `Option` with the failure-propagation members.
- `Sequences`: `find`, `findIndex` and the row filter of a SQL `DELETE ... WHERE`.
- `TokenCodec`: an idealised compact token.
  - A token is a length-prefixed claims payload followed by a signature-like tag that depends on the secret and the payload.
  - The claims are `sub`, `email`, the purpose tag `type`, `iat` and `exp`.
  - Decoding inverts encoding, and a token sealed with one secret does not open under another.
- `Jwt`: `signJwt` / `verifyJwt` with the time rules of the `jsonwebtoken` library.
  - `iat` is the current whole second, and `exp` is `iat` plus the lifetime.
  - A token is expired once the current whole second reaches `exp`.
  - Time is a parameter, in milliseconds since the epoch.
- `Password`: an idealised bcrypt. The salt is a parameter. bcrypt reads only the first 72 bytes of a password, so a hash accepts exactly the passwords that agree with the hashed one on those bytes.
- `CredentialStore`: class `MockPool`, holding the five tables as sequence fields and the id counter.
  - There is one method per branch of the stand-in store, plus `UpdateLastLogin`, `DeleteRefreshByToken` and `DeleteRefreshByUser` for statements the handlers issue that the stand-in has no branch for.
  - No handler reaches five of those branch methods: `FindValidRefresh`, `RevokeRefresh`, `InsertResetToken`, `FindValidReset` and `MarkResetUsed`.
  - The refresh store check `SELECT user_id, expires_at` has no method. The function `Tokens.IsRefreshTokenValid` reads the table instead.
  - Pure search and update functions on the tables are the methods' specifications.
  - `Valid()` keeps ids positive, strictly increasing and below the counter.
- `Tokens`: the token constructors, their lifetimes and the refresh-token store operations.
  - Also the invariant `Genuine`: every stored refresh record carries a token signed with the refresh secret for the record's user and tagged `refresh`, and the expiry stored with it is the token's own.
- `AuthMiddleware`: `requireAuth`.
- `AuthRoutes`: one method per handler, over a `MockPool`, returning the status and the JSON body.
  - The body validators and the 422 answer are not modelled. Five handlers check the validators' result: register, login, refresh, forgot-password and reset-password. Logout never reads that result, so any body reaches it. `/me` has no body.
- `Scenarios`: end-to-end flows, on any valid store or on a fresh one.

### The store the handlers run against

`db/index.ts` connects the handlers to PostgreSQL. `db/mock-pool.ts` is a stand-in that
answers statements by substring match.

- `MockPool` models every branch of the stand-in as its own method. The substring dispatch itself is not modelled.
- Several statements the core issues match no branch of the stand-in, and would get its empty default answer:
  - `DELETE FROM refresh_tokens WHERE token` (`services/tokens.ts:33`);
  - `SELECT user_id, expires_at FROM refresh_tokens` (`services/tokens.ts:38`);
  - `UPDATE users SET last_login` (`routes/auth.routes.ts:100`);
  - `SELECT total_workouts, total_workout_minutes` (`routes/auth.routes.ts:57`);
  - `SELECT id, email FROM users` (`routes/auth.routes.ts:180`);
  - `DELETE FROM refresh_tokens WHERE user_id` (`routes/auth.routes.ts:216`);
  - the `/me` user query, whose column list differs from the stand-in's pattern (`routes/auth.routes.ts:228`).
- The model gives each of these statements its relational meaning, as extra store methods (`UpdateLastLogin`, `DeleteRefreshByToken`, `DeleteRefreshByUser`) or as reads through the store's functions (`IsRefreshTokenValid`, `FindStats`, `FindUserByEmail`, `FindUserById`).
- The stand-in does not handle these statements as written: for example, refresh would always answer 401 and `/me` always 404 against it.
- When the user has a profile, the profile lookup follows the relational `SELECT name, bio, avatar_url`: one row of three columns, with `bio` and `avatar_url` null. The stand-in instead returns the stored `{user_id, name}` object (`db/mock-pool.ts:44`, `:66`). Its answer has no `bio` or `avatar_url` key and carries a `user_id` key.
- When the user has no profile, the model keeps the stand-in's all-null row (`db/mock-pool.ts:66`). Against PostgreSQL the lookup returns no row, and the handlers then send `profile: null` (`routes/auth.routes.ts:69`, `:120`). Likewise a missing stats row reads as zeros, where PostgreSQL would give `stats: null`.

### Where the code departs from the documented design

The model follows the code in each of these cases:

- **Refresh purpose tag:** the refresh handler never checks the purpose tag of the token it verifies.
- **Purpose tag at the gate:** `requireAuth` does not check the purpose tag either. `RefreshTokenAcceptedUnderSharedSecret` shows that a refresh token opens `/me` when the two secrets are configured equal.
- **Reset links are reusable:** reset tokens are never stored or marked used by the handlers, so a reset link works again until it expires (`Scenarios.ResetEndsSessions`). The store operations for reset records exist in `MockPool` and are modelled, but no handler calls them.
- **Revoked flag ignored:** the refresh-token validity check reads only existence and stored expiry, not the `revoked` flag. Rotation deletes the row instead.
- **Single use only across seconds:** refresh tokens are single-use only when the rotation falls in a later second than the issue. Tokens carry no nonce, so a rotation within the issuing second returns the very token presented, and that token stays usable (`Tokens.ReissueWithinSecond`, `Scenarios.SameSecondRotationReplays`).
- **Expiry boundary:** the store check accepts a record whose stored expiry equals the current time. Verification refuses that token, and the handler deletes it (`Tokens.StoreCheckVersusVerify`).
- **Disabled accounts:** login answers 403 for a disabled account whatever password is given, so that answer does tell that the email is registered.

## Model

| member | source | states |
|---|---|---|
| Sequences.FirstIndex | backend/src/db/mock-pool.ts:93 | the index of the first element satisfying the condition; no earlier element satisfies it; none exactly when no element does |
| Sequences.Find | backend/src/db/mock-pool.ts:22 | the first element satisfying the condition, taken from the sequence; none exactly when no element satisfies it |
| Sequences.Filter | backend/src/services/tokens.ts:33 | every kept element satisfies the condition and comes from the input; each element occurs in the result as often as in the input when it satisfies the condition, and not at all otherwise |
| Sequences.FilterAppend | backend/src/services/tokens.ts:33 | filtering a concatenation is the concatenation of the filtered parts, so kept elements stay in their order |
| Sequences.FilterKeepsAll | backend/src/services/tokens.ts:33 | filtering a sequence whose elements all pass leaves it unchanged |
| Sequences.FilterIdempotent | backend/src/services/tokens.ts:33 | filtering twice by one condition equals filtering once |
| TokenCodec.NumeralRoundTrip | backend/src/utils/jwt.ts:5-9 | a decimal numeral reads back as the number it was written from |
| TokenCodec.FieldRoundTrip | backend/src/utils/jwt.ts:5-9 | a length-prefixed field parses back to its text and the untouched remainder |
| TokenCodec.ClaimsRoundTrip | backend/src/utils/jwt.ts:5-9 | decoding an encoded claims payload gives back the same five claims |
| TokenCodec.MacSeparatesSecrets | backend/src/utils/jwt.ts:5-9 | different secrets give different signatures over the same payload |
| TokenCodec.OpenSeal | backend/src/utils/jwt.ts:5-9 | a token opened with the secret that sealed it gives back its claims |
| TokenCodec.OpenOtherSecret | backend/src/utils/jwt.ts:8-9 | a token does not open under any other secret |
| TokenCodec.SealDeterminesClaims | backend/src/utils/jwt.ts:5-6 | two equal token strings carry equal claims, whatever secrets sealed them |
| TokenCodec.SealInjective | backend/src/utils/jwt.ts:5-6 | under one secret, tokens are equal exactly when their claims are |
| Jwt.IssuedClaims | backend/src/utils/jwt.ts:5-6 | the signed claims carry the payload; `iat` is the current whole second; `exp` is `iat` plus the lifetime |
| Jwt.SignJwt | backend/src/utils/jwt.ts:5-6 | the signed token opens under its secret to the issued claims |
| Jwt.VerifyJwt | backend/src/utils/jwt.ts:8-9 | verification succeeds only with the signing secret and strictly before the expiry instant, and then returns the token's claims; it fails otherwise |
| Jwt.VerifySignJwt | backend/src/utils/jwt.ts:5-9 | a signed token verifies to its claims exactly while the current second is before its expiry second |
| Jwt.VerifyFreshJwt | backend/src/utils/jwt.ts:5-9 | a token checked at its signing instant verifies exactly when its lifetime is positive |
| Jwt.VerifyOtherSecret | backend/src/utils/jwt.ts:8-9 | a token never verifies under a secret other than its signer's |
| Jwt.SignJwtCollision | backend/src/utils/jwt.ts:5-6 | two tokens signed with one secret and lifetime are equal exactly when payloads are equal and both fall in the same second |
| Password.HashPassword | backend/src/utils/password.ts:5-8 | the hash records the 12-round work factor and the salt, and accepts the hashed password |
| Password.BcryptInput | backend/src/utils/password.ts:5-11 | the part of a password bcrypt reads: the whole password when it has at most 72 bytes, and exactly its first 72 bytes otherwise |
| Password.ComparePassword | backend/src/utils/password.ts:10-11 | a candidate of at most 72 bytes is accepted exactly when it is the hashed text; a longer one exactly when its first 72 bytes are; `CompareHashed` gives the same against a hash of a given password |
| Password.CompareHashed | backend/src/utils/password.ts:10-11 | a hash accepts a candidate exactly when it agrees with the hashed password on the first 72 bytes, whatever the salt; for passwords of at most 72 bytes, exactly when they are equal |
| Password.LongPasswordTailIgnored | backend/src/utils/password.ts:10-11 | a password of 72 bytes or more is accepted with any tail after its 72nd byte |
| Tokens.AccessTtl | backend/src/services/tokens.ts:8 | a configured access lifetime is used as set; with none, 900 seconds (15m) |
| Tokens.RefreshTtl | backend/src/services/tokens.ts:15 | a configured refresh lifetime is used as set; with none, 2592000 seconds (30d) |
| Tokens.ResetTtl | backend/src/services/tokens.ts:22 | a configured reset lifetime is used as set; with none, 900 seconds (15m) |
| Tokens.CreateAccessToken | backend/src/services/tokens.ts:4-9 | the token opens under the access secret to sub = id, the email, tag `access`, and an expiry of issue second plus the access lifetime |
| Tokens.CreateRefreshToken | backend/src/services/tokens.ts:11-16 | the same for the refresh secret, tag `refresh` and the refresh lifetime |
| Tokens.CreatePasswordResetToken | backend/src/services/tokens.ts:18-23 | the same for the reset secret, tag `password_reset` and the reset lifetime |
| Tokens.PurposesNeverCollide | backend/src/services/tokens.ts:4-23 | no two of the three constructors ever produce the same token, for any users, times or secrets |
| Tokens.StoreRefreshToken | backend/src/services/tokens.ts:25-30 | exactly one record (user, token, expiry, not revoked) is appended; all other tables and the counter are unchanged |
| Tokens.RevokeRefreshToken | backend/src/services/tokens.ts:32-34 | every record for the token is deleted and no other record is; nothing else changes; a missing token is no error |
| Tokens.IsRefreshTokenValid | backend/src/services/tokens.ts:36-45 | none when no record matches; for the first matching record, none when its stored expiry is strictly before now, and otherwise its user id, so expiry == now passes |
| Tokens.ParseRefreshExp | backend/src/services/tokens.ts:47-50 | defined exactly when refresh verification succeeds, and then equal to the `exp` claim times 1000; that value always lies after now |
| Tokens.ParseFreshRefreshExp | backend/src/services/tokens.ts:47-50 | for a refresh token just issued, the parsed expiry is the issue second plus the refresh lifetime, in ms, when the lifetime is positive; verification throws when it is zero |
| Tokens.StoreCheckVersusVerify | backend/src/routes/auth.routes.ts:137-146 | on a genuine table, a token passing the store check fails verification exactly when its stored expiry equals now; otherwise verification names the same user |
| Tokens.NoRecordNoSession | backend/src/services/tokens.ts:36-45 | on a genuine table with no record of a user, none of that user's refresh tokens passes the store check, at any time |
| Tokens.GenuineSubset | backend/src/services/tokens.ts:32-34 | deleting records keeps the table genuine |
| Tokens.RevokedTokenRejected | backend/src/services/tokens.ts:32-45 | once a token's records are deleted, it never passes the store check again |
| Tokens.ReissueWithinSecond | backend/src/services/tokens.ts:11-16 | the refresh token issued for a user at one time equals the one issued at another exactly when both fall in the same second |
| CredentialStore.UserWithEmail | backend/src/db/mock-pool.ts:56-60 | the first stored user with that email (no earlier user has it); none exactly when no user has it |
| CredentialStore.UserIndex | backend/src/db/mock-pool.ts:123 | the position of the first user with the id; none exactly when no user has it |
| CredentialStore.ProfileOf | backend/src/db/mock-pool.ts:65 | the first stored profile of the user (no earlier profile is theirs); none exactly when the user has none |
| CredentialStore.StatsOf | backend/src/db/mock-pool.ts:72 | the first stored stats row of the user (no earlier row is theirs); none exactly when the user has none |
| CredentialStore.RefreshIndex | backend/src/db/mock-pool.ts:93 | the position of the first record for the token; none exactly when no record carries it |
| CredentialStore.LiveRefresh | backend/src/db/mock-pool.ts:86 | the first non-revoked record for the token (every earlier record has another token or is revoked); none exactly when every record for it is revoked or absent |
| CredentialStore.ResetIndex | backend/src/db/mock-pool.ts:115 | the position of the first reset record for the token; none exactly when no record carries it |
| CredentialStore.UnusedReset | backend/src/db/mock-pool.ts:108 | the first unused reset record for the token (every earlier record has another token or is used); none exactly when every record for it is used or absent |
| CredentialStore.WithoutToken | backend/src/services/tokens.ts:33 | the kept records are those of the table whose token differs, each as often as in the table; no record for the token remains |
| CredentialStore.WithoutUser | backend/src/routes/auth.routes.ts:216 | the kept records are those of the table whose owner differs, each as often as in the table; no record of the user remains |
| CredentialStore.WithoutTokenAppend | backend/src/services/tokens.ts:33 | deleting by token from a concatenation deletes from each part, so the remaining records keep their order |
| CredentialStore.WithoutUserAppend | backend/src/routes/auth.routes.ts:216 | deleting by user from a concatenation deletes from each part, so the remaining records keep their order |
| CredentialStore.WithoutTokenIdempotent | backend/src/services/tokens.ts:32-34 | deleting a token twice equals deleting it once |
| CredentialStore.WithoutMissingToken | backend/src/services/tokens.ts:32-34 | deleting a token no record carries leaves the table unchanged |
| CredentialStore.NewEmailFoundLast | backend/src/db/mock-pool.ts:27-60 | a user appended under an email no earlier user has is the one the email lookup finds |
| CredentialStore.RefreshIndexAfterRotation | backend/src/routes/auth.routes.ts:148-154 | after deleting a token and appending one record, the token is found exactly when the appended record carries it |
| CredentialStore.ProfileRowOf | backend/src/db/mock-pool.ts:63-67 | the user's profile name with null bio and avatar, or an all-null row when there is no profile |
| CredentialStore.StatsRowOf | backend/src/db/mock-pool.ts:70-74 | the user's counters, or zeros when there is no stats row |
| CredentialStore.ProfileRowOfFresh | backend/src/db/mock-pool.ts:42-46 | for a user without a profile, the lookup gives the all-null row, and after appending a profile it gives that name |
| CredentialStore.StatsRowOfFresh | backend/src/db/mock-pool.ts:49-53 | for a user without stats, the lookup after appending the zeroed row gives zeros |
| CredentialStore.WithPassword | backend/src/db/mock-pool.ts:121-126 | same length; only the user at the first index with the id changes, and only in its hash; no user with the id means no change |
| CredentialStore.WithLastLogin | backend/src/routes/auth.routes.ts:100 | same length; only the user at the first index with the id changes, and only in its last-login time |
| CredentialStore.Revoked | backend/src/db/mock-pool.ts:91-96 | same length; only the first record for the token changes, and only by becoming revoked; no record means no change |
| CredentialStore.MarkedUsed | backend/src/db/mock-pool.ts:113-118 | same length; only the first reset record for the token changes, and only by becoming used; no record means no change |
| CredentialStore.MockPool.constructor | backend/src/db/mock-pool.ts:9-14 | five empty tables and the counter at 1 |
| CredentialStore.MockPool.EmailExists | backend/src/db/mock-pool.ts:20-24 | the row count is 1 exactly when some user has the email, and 0 otherwise |
| CredentialStore.MockPool.InsertUser | backend/src/db/mock-pool.ts:27-39 | the new user takes the counter as id and is active and unverified; the counter then grows by one; the id exceeds every earlier id; nothing else changes |
| CredentialStore.MockPool.InsertProfile | backend/src/db/mock-pool.ts:42-46 | appends exactly the profile (user, name); nothing else changes |
| CredentialStore.MockPool.InsertStats | backend/src/db/mock-pool.ts:49-53 | appends a stats row with both counters at zero; nothing else changes |
| CredentialStore.MockPool.FindUserByEmail | backend/src/db/mock-pool.ts:56-60 | the first user with the email, or nothing when no user has it |
| CredentialStore.MockPool.FindProfile | backend/src/db/mock-pool.ts:63-67 | always one row, all nulls when the user has no profile |
| CredentialStore.MockPool.FindStats | backend/src/db/mock-pool.ts:70-74 | always one row, zeros when the user has no stats |
| CredentialStore.MockPool.InsertRefreshToken | backend/src/db/mock-pool.ts:77-81 | appends one record that is not revoked; nothing else changes |
| CredentialStore.MockPool.FindValidRefresh | backend/src/db/mock-pool.ts:84-88 | the user of the first non-revoked record for the token (`LiveRefresh`), or none when there is no such record |
| CredentialStore.MockPool.RevokeRefresh | backend/src/db/mock-pool.ts:91-96 | flags the first record for the token and no other; the row count is 1 exactly when one was found |
| CredentialStore.MockPool.InsertResetToken | backend/src/db/mock-pool.ts:99-103 | appends one reset record that is not used; nothing else changes |
| CredentialStore.MockPool.FindValidReset | backend/src/db/mock-pool.ts:106-110 | the user of the first unused reset record for the token (`UnusedReset`), or none when there is no such record |
| CredentialStore.MockPool.MarkResetUsed | backend/src/db/mock-pool.ts:113-118 | flags the first reset record for the token and no other; the row count is 1 exactly when one was found |
| CredentialStore.MockPool.UpdatePassword | backend/src/db/mock-pool.ts:121-126 | only the hash of the user with the id changes; the row count is 0 when there is no such user |
| CredentialStore.MockPool.FindUserById | backend/src/db/mock-pool.ts:129-133 | the first user with the id, or nothing exactly when no user has it |
| CredentialStore.MockPool.UpdateLastLogin | backend/src/routes/auth.routes.ts:100 | only the last-login time of the user with the id changes |
| CredentialStore.MockPool.DeleteRefreshByToken | backend/src/services/tokens.ts:33 | the refresh table loses exactly the records for the token |
| CredentialStore.MockPool.DeleteRefreshByUser | backend/src/routes/auth.routes.ts:216 | the refresh table loses exactly the records of the user |
| AuthMiddleware.RequireAuth | backend/src/middleware/auth.ts:12-28 | 401 "Missing or invalid Authorization header" without a `Bearer ` header; otherwise passes exactly when the text after the seven-character prefix verifies under the access secret, with `req.user` = (sub, email), and is 401 "Invalid or expired token" when it does not |
| AuthMiddleware.BearerExtraction | backend/src/middleware/auth.ts:15-19 | for `Bearer ` followed by a token, the gate's outcome is that token's verification outcome |
| AuthMiddleware.AccessTokenPasses | backend/src/middleware/auth.ts:21-24 | an access token passes as its own user exactly until its expiry second, and is refused after |
| AuthMiddleware.ResetTokenRejected | backend/src/middleware/auth.ts:25-27 | a reset token never passes while the reset and access secrets differ |
| AuthMiddleware.RefreshTokenAcceptedUnderSharedSecret | backend/src/middleware/auth.ts:21-24 | the purpose tag is not checked: a live refresh token passes when the refresh and access secrets are equal |
| AuthRoutes.IssueSession | backend/src/routes/auth.routes.ts:62-65 | with a positive refresh lifetime, returns the access/refresh pair and stores the refresh token with its own expiry; with lifetime 0, fails and stores nothing; the table stays genuine |
| AuthRoutes.CreateAccount | backend/src/routes/auth.routes.ts:38-49 | appends the user under the next id, a profile only for a non-empty name, and zeroed stats; no earlier profile or stats row belonged to the new id |
| AuthRoutes.FreshAccountRows | backend/src/routes/auth.routes.ts:51-59 | the profile and stats lookups after registration read back the given name, or nulls, and zeros |
| AuthRoutes.Register | backend/src/routes/auth.routes.ts:33-73 | a known email gives 409 and no change; otherwise the user, profile and stats rows as inserted, and 201 with both tokens and the refresh token stored for the new id (500 when the refresh lifetime is 0); validity and genuineness kept |
| AuthRoutes.Login | backend/src/routes/auth.routes.ts:88-124 | unknown email and wrong password give the same 401; a disabled account gives 403 before the password is checked; failures change nothing; success stamps last login and stores the returned refresh token for the user; 200 exactly when credentials are good and the refresh lifetime is positive |
| AuthRoutes.RotateRefresh | backend/src/routes/auth.routes.ts:140-156 | the presented token's records are deleted whether or not it verifies; on verification a new pair for its subject is returned and stored; the old token remains findable only if the reissued token is the same string |
| AuthRoutes.Refresh | backend/src/routes/auth.routes.ts:136-157 | a failed store check gives 401 and no change; otherwise as RotateRefresh; on a genuine table, 200 exactly when the token's first record names a user, expires strictly after now, and the refresh lifetime is positive |
| AuthRoutes.Logout | backend/src/routes/auth.routes.ts:161-168 | always 200 `{ok:true}`, as the validators' result is never read; a missing token deletes nothing; otherwise exactly the token's records are deleted, so the token never passes the store check again |
| AuthRoutes.ForgotPassword | backend/src/routes/auth.routes.ts:179-188 | always 200 `{ok:true}`; a mail is sent exactly when the email is registered, to that user, with a reset token for them that verifies while the reset lifetime is positive |
| AuthRoutes.ResetPassword | backend/src/routes/auth.routes.ts:200-219 | 400 and no change unless the token verifies under the reset secret with tag `password_reset`; on success, the user's hash is the new password's, all of that user's refresh tokens are deleted, and the stored hash accepts exactly the passwords that agree with the new one on its first 72 bytes |
| AuthRoutes.Me | backend/src/routes/auth.routes.ts:223-235 | the gate's 401 when it rejects; 404 for an unknown id; otherwise 200 with the row of the user the access token names |
| Scenarios.RegisterThenLogin | backend/src/routes/auth.routes.ts:33-124 | on any valid store where the email is new, the account registered under the next id signs in with its password as that id, with an all-null profile and zero stats |
| Scenarios.FirstAccount | backend/src/routes/auth.routes.ts:33-124 | on an empty store, the first account gets id 1 and signs in as id 1 |
| Scenarios.DuplicateRegistration | backend/src/routes/auth.routes.ts:33-34 | a second registration of an email gives 409 and leaves one user, with the first password |
| Scenarios.NoAccountEnumeration | backend/src/routes/auth.routes.ts:92-98 | a wrong password (one that differs from the registered one within its first 72 bytes) and an unknown email get the identical 401 |
| Scenarios.ResetLinkExpires | backend/src/routes/auth.routes.ts:202-207 | with the default lifetime, a reset link is accepted at once and refused sixteen minutes later |
| Scenarios.RotationRetiresOldToken | backend/src/routes/auth.routes.ts:137-154 | a rotation in a later second returns a new refresh token, and the old one then gets 401 |
| Scenarios.SameSecondRotationReplays | backend/src/routes/auth.routes.ts:148-154 | a rotation within the issuing second returns the same refresh token, which then rotates again with 200 |
| Scenarios.ResetEndsSessions | backend/src/routes/auth.routes.ts:210-218 | after a password reset, an earlier refresh token gets 401, and the same reset link is accepted a second time |
| Scenarios.MeAfterRegister | backend/src/middleware/auth.ts:12-28 | the access token from registration opens `/me` for user 1 while live; the refresh token gets 401 when the secrets differ |

## Left out

- HMAC-SHA256, base64url and JSON are left out. The token format is idealised as length-prefixed fields and a secret-dependent tag (`TokenCodec`). The model keeps determinism, round trip, and rejection under a wrong secret. It does not model forging, or tokens that parse under a secret other than their own by accident.
- bcrypt's hashing is left out. `Password` keeps "a hash accepts exactly the passwords with the same first 72 bytes". Its random salt is a parameter. One character stands for one UTF-8 byte, so multi-byte characters are not modelled.
- Clock reads (`Date.now`, `NOW()`) are parameters. Each handler takes a single `now` for all its clock reads, so a request is treated as one instant. The source reads the clock separately in `jwt.sign`, in `jwt.verify`, in `new Date()` (`services/tokens.ts:43`) and in `NOW()`. `Tokens.StoreCheckVersusVerify`'s boundary case, a stored expiry equal to now, relies on that single instant. Database timestamps are integers. `updated_at` is not modelled. Reset-password writes it (`routes/auth.routes.ts:211`), and `/me` returns it (`routes/auth.routes.ts:228`).
- `JWT_*_TTL` strings such as `'15m'` are not parsed. A configured override is given in seconds.
- The signing secrets are assumed set. An unset secret makes the library throw, and that case is not modelled.
- Input validation with express-validator is left out: `isEmail`, `normalizeEmail`, the minimum password length, the 422 answers, and the name length limit. Each handler that reads the validators' result takes the already-validated body. Logout takes its token as optional; a non-string token is not modelled.
- Sending the reset email is left out. `ForgotPassword` returns the message it would send (recipient and token) instead of printing it.
- The 500 answer for a zero refresh lifetime is the server's generic error handler applied to the `jwt expired` error of `parseRefreshExp`. No other thrown error, such as a store failure, is modelled.
- Concurrency between requests is not modelled, including the check-then-insert race in register. Handlers run one at a time.
- The SQL-text dispatch of `MockPool.query` and its empty default answer are not modelled. Each branch is its own method.
- CredentialStore.ProfileRowOf: for a stored profile, returns the relational three-column row, with `bio` and `avatar_url` null. It does not model the stand-in's stored `{user_id, name}` object. For a user with no profile it returns the stand-in's all-null row, not the `null` the handlers send when PostgreSQL returns no row.
- CredentialStore.StatsRowOf: a user with no stats row reads as zeros, the stand-in's answer, not the `null` the handlers send when PostgreSQL returns no row.
- The stats lookups of register and login query the column `total_workout_minutes` (`routes/auth.routes.ts:57`, `:108`), while the stand-in stores `total_minutes` (`db/mock-pool.ts:51`). The model assumes the queried column exists. If the table's column were `total_minutes`, that query would fail, and register and login would answer 500 after their earlier writes.
- Scenarios.ResetEndsSessions: states only the statuses of the three answers, not the store contents, which `AuthRoutes.ResetPassword` and `AuthRoutes.Refresh` already state.
