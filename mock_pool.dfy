/** The in-memory credential store (db/mock-pool.ts): five tables held as sequences and
    an id counter, one method per statement the auth core issues. Lookups take the first
    matching row, as `Array.prototype.find` does; updates change that row in place. */
module CredentialStore {
  import opened Wrappers
  import opened Sequences
  import opened Password

  datatype User = User(
    id: nat,
    email: string,
    passwordHash: PasswordHash,
    isActive: bool,
    emailVerified: bool,
    createdAt: int,
    lastLogin: Option<int>)

  datatype Profile = Profile(userId: nat, name: string)

  datatype Stats = Stats(userId: nat, totalWorkouts: int, totalMinutes: int)

  datatype RefreshRecord = RefreshRecord(userId: nat, token: string, expiresAt: int, revoked: bool)

  datatype ResetRecord = ResetRecord(userId: nat, token: string, expiresAt: int, used: bool)

  /** Row of `SELECT name, bio, avatar_url FROM user_profiles`; `None` is SQL null. */
  datatype ProfileRow = ProfileRow(name: Option<string>, bio: Option<string>, avatarUrl: Option<string>)

  /** Row of `SELECT total_workouts, total_minutes FROM user_stats`. */
  datatype StatsRow = StatsRow(totalWorkouts: int, totalMinutes: int)

  const NO_PROFILE := ProfileRow(None, None, None)

  // ---- searches over the tables ----

  /** The first user with the email, as `users.find` gives it. */
  function UserWithEmail(users: seq<User>, email: string): (r: Option<User>)
    ensures r.Some? ==> r.value in users && r.value.email == email
    ensures r.Some? ==> exists i :: 0 <= i < |users| && users[i] == r.value && forall j :: 0 <= j < i ==> users[j].email != email
    ensures r.None? <==> forall i :: 0 <= i < |users| ==> users[i].email != email
  {
    Find(users, (u: User) => u.email == email)
  }

  function UserIndex(users: seq<User>, id: nat): (r: Option<nat>)
    ensures r.Some? ==> r.value < |users| && users[r.value].id == id
    ensures r.Some? ==> forall j :: 0 <= j < r.value ==> users[j].id != id
    ensures r.None? <==> forall j :: 0 <= j < |users| ==> users[j].id != id
  {
    FirstIndex(users, (u: User) => u.id == id)
  }

  /** The first profile of the user. */
  function ProfileOf(profiles: seq<Profile>, userId: nat): (r: Option<Profile>)
    ensures r.Some? ==> r.value in profiles && r.value.userId == userId
    ensures r.Some? ==>
              exists i :: 0 <= i < |profiles| && profiles[i] == r.value && forall j :: 0 <= j < i ==> profiles[j].userId != userId
    ensures r.None? <==> forall i :: 0 <= i < |profiles| ==> profiles[i].userId != userId
  {
    Find(profiles, (p: Profile) => p.userId == userId)
  }

  /** The first stats row of the user. */
  function StatsOf(stats: seq<Stats>, userId: nat): (r: Option<Stats>)
    ensures r.Some? ==> r.value in stats && r.value.userId == userId
    ensures r.Some? ==> exists i :: 0 <= i < |stats| && stats[i] == r.value && forall j :: 0 <= j < i ==> stats[j].userId != userId
    ensures r.None? <==> forall i :: 0 <= i < |stats| ==> stats[i].userId != userId
  {
    Find(stats, (s: Stats) => s.userId == userId)
  }

  /** First refresh record for `token`, revoked or not. */
  function RefreshIndex(records: seq<RefreshRecord>, token: string): (r: Option<nat>)
    ensures r.Some? ==> r.value < |records| && records[r.value].token == token
    ensures r.Some? ==> forall j :: 0 <= j < r.value ==> records[j].token != token
    ensures r.None? <==> forall j :: 0 <= j < |records| ==> records[j].token != token
  {
    FirstIndex(records, (t: RefreshRecord) => t.token == token)
  }

  /** First refresh record for `token` that is not revoked. */
  function LiveRefresh(records: seq<RefreshRecord>, token: string): (r: Option<RefreshRecord>)
    ensures r.Some? ==> r.value in records && r.value.token == token && !r.value.revoked
    ensures r.Some? ==>
              exists i :: 0 <= i < |records| && records[i] == r.value &&
                forall j :: 0 <= j < i ==> records[j].token != token || records[j].revoked
    ensures r.None? <==> forall j :: 0 <= j < |records| ==> records[j].token != token || records[j].revoked
  {
    Find(records, (t: RefreshRecord) => t.token == token && !t.revoked)
  }

  /** First reset record for `token`, used or not. */
  function ResetIndex(records: seq<ResetRecord>, token: string): (r: Option<nat>)
    ensures r.Some? ==> r.value < |records| && records[r.value].token == token
    ensures r.Some? ==> forall j :: 0 <= j < r.value ==> records[j].token != token
    ensures r.None? <==> forall j :: 0 <= j < |records| ==> records[j].token != token
  {
    FirstIndex(records, (t: ResetRecord) => t.token == token)
  }

  /** First reset record for `token` that has not been used. */
  function UnusedReset(records: seq<ResetRecord>, token: string): (r: Option<ResetRecord>)
    ensures r.Some? ==> r.value in records && r.value.token == token && !r.value.used
    ensures r.Some? ==>
              exists i :: 0 <= i < |records| && records[i] == r.value &&
                forall j :: 0 <= j < i ==> records[j].token != token || records[j].used
    ensures r.None? <==> forall j :: 0 <= j < |records| ==> records[j].token != token || records[j].used
  {
    Find(records, (t: ResetRecord) => t.token == token && !t.used)
  }

  /** The refresh table after `DELETE FROM refresh_tokens WHERE token = $1`: every other
      record stays, as often as it occurred (order is `WithoutTokenAppend`). */
  function WithoutToken(records: seq<RefreshRecord>, token: string): (r: seq<RefreshRecord>)
    ensures forall i :: 0 <= i < |r| ==> r[i] in records && r[i].token != token
    ensures forall i :: 0 <= i < |records| && records[i].token != token ==> records[i] in r
    ensures forall x :: multiset(r)[x] == if x.token != token then multiset(records)[x] else 0
  {
    Filter(records, (t: RefreshRecord) => t.token != token)
  }

  /** The refresh table after `DELETE FROM refresh_tokens WHERE user_id = $1`: every
      record of another user stays, as often as it occurred (order is `WithoutUserAppend`). */
  function WithoutUser(records: seq<RefreshRecord>, userId: nat): (r: seq<RefreshRecord>)
    ensures forall i :: 0 <= i < |r| ==> r[i] in records && r[i].userId != userId
    ensures forall i :: 0 <= i < |records| && records[i].userId != userId ==> records[i] in r
    ensures forall x :: multiset(r)[x] == if x.userId != userId then multiset(records)[x] else 0
  {
    Filter(records, (t: RefreshRecord) => t.userId != userId)
  }

  /** Deleting by token keeps the order of the remaining records. */
  lemma WithoutTokenAppend(a: seq<RefreshRecord>, b: seq<RefreshRecord>, token: string)
    ensures WithoutToken(a + b, token) == WithoutToken(a, token) + WithoutToken(b, token)
  {
    FilterAppend(a, b, (t: RefreshRecord) => t.token != token);
  }

  /** Deleting by user keeps the order of the remaining records. */
  lemma WithoutUserAppend(a: seq<RefreshRecord>, b: seq<RefreshRecord>, userId: nat)
    ensures WithoutUser(a + b, userId) == WithoutUser(a, userId) + WithoutUser(b, userId)
  {
    FilterAppend(a, b, (t: RefreshRecord) => t.userId != userId);
  }

  /** Deleting a token is idempotent: the second delete finds nothing to remove. */
  lemma WithoutTokenIdempotent(records: seq<RefreshRecord>, token: string)
    ensures WithoutToken(WithoutToken(records, token), token) == WithoutToken(records, token)
  {
    FilterIdempotent(records, (t: RefreshRecord) => t.token != token);
  }

  /** Deleting a token that no record carries leaves the table as it was. */
  lemma WithoutMissingToken(records: seq<RefreshRecord>, token: string)
    requires forall i :: 0 <= i < |records| ==> records[i].token != token
    ensures WithoutToken(records, token) == records
  {
    FilterKeepsAll(records, (t: RefreshRecord) => t.token != token);
  }

  /** After deleting a token's records and appending one record, the token is found
      again exactly when the appended record carries it. */
  lemma RefreshIndexAfterRotation(records: seq<RefreshRecord>, token: string, added: RefreshRecord)
    ensures RefreshIndex(WithoutToken(records, token) + [added], token).Some? <==> added.token == token
  {
    var table := WithoutToken(records, token) + [added];
    assert table[|table| - 1] == added;
    if added.token != token {
      assert forall j :: 0 <= j < |table| ==> table[j].token != token;
    }
  }

  predicate EmailRegistered(users: seq<User>, email: string) {
    exists i :: 0 <= i < |users| && users[i].email == email
  }

  /** A user appended under an email no earlier user has is the one a lookup by that
      email finds. */
  lemma NewEmailFoundLast(users: seq<User>, u: User)
    requires !EmailRegistered(users, u.email)
    ensures UserWithEmail(users + [u], u.email) == Some(u)
  {
    assert (users + [u])[|users|] == u;
  }

  /** The one row a profile lookup returns: the profile's name, or all nulls. */
  function ProfileRowOf(profiles: seq<Profile>, userId: nat): (row: ProfileRow)
    ensures ProfileOf(profiles, userId).None? ==> row == NO_PROFILE
    ensures ProfileOf(profiles, userId).Some? ==>
              row.name == Some(ProfileOf(profiles, userId).value.name) && row.bio.None? && row.avatarUrl.None?
  {
    match ProfileOf(profiles, userId)
    case Some(p) => ProfileRow(Some(p.name), None, None)
    case None => NO_PROFILE
  }

  /** The one row a stats lookup returns: the user's counters, or zeros. */
  function StatsRowOf(stats: seq<Stats>, userId: nat): (row: StatsRow)
    ensures StatsOf(stats, userId).None? ==> row == StatsRow(0, 0)
    ensures StatsOf(stats, userId).Some? ==>
              row.totalWorkouts == StatsOf(stats, userId).value.totalWorkouts &&
              row.totalMinutes == StatsOf(stats, userId).value.totalMinutes
  {
    match StatsOf(stats, userId)
    case Some(s) => StatsRow(s.totalWorkouts, s.totalMinutes)
    case None => StatsRow(0, 0)
  }

  /** A profile row appended for a user who had none is what that user's lookup finds. */
  lemma ProfileRowOfFresh(profiles: seq<Profile>, userId: nat, name: string)
    requires forall p :: p in profiles ==> p.userId != userId
    ensures ProfileRowOf(profiles, userId) == NO_PROFILE
    ensures ProfileRowOf(profiles + [Profile(userId, name)], userId) == ProfileRow(Some(name), None, None)
  {
    var found := ProfileOf(profiles + [Profile(userId, name)], userId);
    assert (profiles + [Profile(userId, name)])[|profiles|].userId == userId;
    assert found.value in profiles || found.value == Profile(userId, name);
  }

  /** Stats appended with zero counters for a user who had none read back as zeros. */
  lemma StatsRowOfFresh(stats: seq<Stats>, userId: nat)
    requires forall s :: s in stats ==> s.userId != userId
    ensures StatsRowOf(stats + [Stats(userId, 0, 0)], userId) == StatsRow(0, 0)
  {
    var found := StatsOf(stats + [Stats(userId, 0, 0)], userId);
    assert (stats + [Stats(userId, 0, 0)])[|stats|].userId == userId;
    assert found.value in stats || found.value == Stats(userId, 0, 0);
  }

  /** The users table after setting the first user with `userId` to `hash`: no other
      user and no other column changes. */
  function WithPassword(users: seq<User>, userId: nat, hash: PasswordHash): (r: seq<User>)
    ensures |r| == |users|
    ensures forall j :: 0 <= j < |r| ==>
              r[j] == users[j] || (UserIndex(users, userId) == Some(j) && r[j] == users[j].(passwordHash := hash))
    ensures UserIndex(users, userId).Some? ==>
              r[UserIndex(users, userId).value].passwordHash == hash
    ensures UserIndex(users, userId).None? ==> r == users
  {
    match UserIndex(users, userId)
    case Some(i) => users[i := users[i].(passwordHash := hash)]
    case None => users
  }

  /** The users table after stamping the first user with `userId` with a login time. */
  function WithLastLogin(users: seq<User>, userId: nat, now: int): (r: seq<User>)
    ensures |r| == |users|
    ensures forall j :: 0 <= j < |r| ==>
              r[j] == users[j] || (UserIndex(users, userId) == Some(j) && r[j] == users[j].(lastLogin := Some(now)))
    ensures UserIndex(users, userId).Some? ==>
              r[UserIndex(users, userId).value].lastLogin == Some(now)
    ensures UserIndex(users, userId).None? ==> r == users
  {
    match UserIndex(users, userId)
    case Some(i) => users[i := users[i].(lastLogin := Some(now))]
    case None => users
  }

  /** The refresh table after flagging the first record for `token` as revoked. */
  function Revoked(records: seq<RefreshRecord>, token: string): (r: seq<RefreshRecord>)
    ensures |r| == |records|
    ensures forall j :: 0 <= j < |r| ==>
              r[j] == records[j] || (RefreshIndex(records, token) == Some(j) && r[j] == records[j].(revoked := true))
    ensures RefreshIndex(records, token).Some? ==> r[RefreshIndex(records, token).value].revoked
    ensures RefreshIndex(records, token).None? ==> r == records
  {
    match RefreshIndex(records, token)
    case Some(i) => records[i := records[i].(revoked := true)]
    case None => records
  }

  /** The reset table after flagging the first record for `token` as used. */
  function MarkedUsed(records: seq<ResetRecord>, token: string): (r: seq<ResetRecord>)
    ensures |r| == |records|
    ensures forall j :: 0 <= j < |r| ==>
              r[j] == records[j] || (ResetIndex(records, token) == Some(j) && r[j] == records[j].(used := true))
    ensures ResetIndex(records, token).Some? ==> r[ResetIndex(records, token).value].used
    ensures ResetIndex(records, token).None? ==> r == records
  {
    match ResetIndex(records, token)
    case Some(i) => records[i := records[i].(used := true)]
    case None => records
  }

  class MockPool {
    var users: seq<User>
    var userProfiles: seq<Profile>
    var userStats: seq<Stats>
    var refreshTokens: seq<RefreshRecord>
    var resetTokens: seq<ResetRecord>
    var currentUserId: nat

    /** Ids are assigned from the counter, so they are positive, strictly increasing in
        insertion order and below the counter; profile and stats rows belong to ids
        already handed out. */
    ghost predicate Valid()
      reads this
    {
      && currentUserId >= 1
      && (forall i :: 0 <= i < |users| ==> 1 <= users[i].id < currentUserId)
      && (forall i, j :: 0 <= i < j < |users| ==> users[i].id < users[j].id)
      && (forall i :: 0 <= i < |userProfiles| ==> userProfiles[i].userId < currentUserId)
      && (forall i :: 0 <= i < |userStats| ==> userStats[i].userId < currentUserId)
    }

    constructor ()
      ensures Valid()
      ensures users == [] && userProfiles == [] && userStats == []
      ensures refreshTokens == [] && resetTokens == [] && currentUserId == 1
    {
      users, userProfiles, userStats := [], [], [];
      refreshTokens, resetTokens := [], [];
      currentUserId := 1;
    }

    /** `SELECT 1 FROM users WHERE email = $1`. */
    method EmailExists(email: string) returns (rowCount: nat)
      ensures rowCount <= 1
      ensures rowCount == 1 <==> EmailRegistered(users, email)
    {
      rowCount := if UserWithEmail(users, email).Some? then 1 else 0;
    }

    /** `INSERT INTO users`: the new user takes the counter as id, is active and not verified. */
    method InsertUser(email: string, passwordHash: PasswordHash, now: int) returns (user: User)
      modifies this
      ensures user == User(old(currentUserId), email, passwordHash, true, false, now, None)
      ensures users == old(users) + [user] && currentUserId == old(currentUserId) + 1
      ensures userProfiles == old(userProfiles) && userStats == old(userStats)
      ensures refreshTokens == old(refreshTokens) && resetTokens == old(resetTokens)
      ensures old(Valid()) ==> Valid() && forall u :: u in old(users) ==> u.id < user.id
    {
      user := User(currentUserId, email, passwordHash, true, false, now, None);
      currentUserId := currentUserId + 1;
      users := users + [user];
    }

    /** `INSERT INTO user_profiles (user_id, name)`. */
    method InsertProfile(userId: nat, name: string)
      modifies this
      ensures userProfiles == old(userProfiles) + [Profile(userId, name)]
      ensures users == old(users) && currentUserId == old(currentUserId) && userStats == old(userStats)
      ensures refreshTokens == old(refreshTokens) && resetTokens == old(resetTokens)
      ensures old(Valid()) && userId < currentUserId ==> Valid()
    {
      userProfiles := userProfiles + [Profile(userId, name)];
    }

    /** `INSERT INTO user_stats (user_id)`: both counters start at zero. */
    method InsertStats(userId: nat)
      modifies this
      ensures userStats == old(userStats) + [Stats(userId, 0, 0)]
      ensures users == old(users) && currentUserId == old(currentUserId) && userProfiles == old(userProfiles)
      ensures refreshTokens == old(refreshTokens) && resetTokens == old(resetTokens)
      ensures old(Valid()) && userId < currentUserId ==> Valid()
    {
      userStats := userStats + [Stats(userId, 0, 0)];
    }

    /** `SELECT ... FROM users WHERE email = $1`: the first user with that email, if any. */
    method FindUserByEmail(email: string) returns (row: Option<User>)
      ensures row == UserWithEmail(users, email)
      ensures row.Some? ==> row.value in users && row.value.email == email
      ensures row.None? <==> forall u :: u in users ==> u.email != email
    {
      row := UserWithEmail(users, email);
    }

    /** `SELECT name, bio, avatar_url FROM user_profiles WHERE user_id = $1`: always one row,
        all nulls when the user has no profile. */
    method FindProfile(userId: nat) returns (row: ProfileRow)
      ensures row == ProfileRowOf(userProfiles, userId)
      ensures (forall p :: p in userProfiles ==> p.userId != userId) ==> row == NO_PROFILE
    {
      row := ProfileRowOf(userProfiles, userId);
    }

    /** `SELECT total_workouts, total_minutes FROM user_stats WHERE user_id = $1`: always one
        row, zeros when the user has no stats. */
    method FindStats(userId: nat) returns (row: StatsRow)
      ensures row == StatsRowOf(userStats, userId)
      ensures (forall s :: s in userStats ==> s.userId != userId) ==> row == StatsRow(0, 0)
    {
      row := StatsRowOf(userStats, userId);
    }

    /** `INSERT INTO refresh_tokens`: a new record that is not revoked. */
    method InsertRefreshToken(userId: nat, token: string, expiresAt: int)
      modifies this
      ensures refreshTokens == old(refreshTokens) + [RefreshRecord(userId, token, expiresAt, false)]
      ensures users == old(users) && currentUserId == old(currentUserId)
      ensures userProfiles == old(userProfiles) && userStats == old(userStats) && resetTokens == old(resetTokens)
    {
      refreshTokens := refreshTokens + [RefreshRecord(userId, token, expiresAt, false)];
    }

    /** `SELECT user_id FROM refresh_tokens WHERE token = $1` and not revoked. */
    method FindValidRefresh(token: string) returns (userId: Option<nat>)
      ensures userId == if LiveRefresh(refreshTokens, token).Some? then Some(LiveRefresh(refreshTokens, token).value.userId) else None
      ensures userId.Some? <==> exists i :: 0 <= i < |refreshTokens| && refreshTokens[i].token == token && !refreshTokens[i].revoked
      ensures userId.Some? ==> exists r :: r in refreshTokens && r.token == token && !r.revoked && r.userId == userId.value
    {
      match LiveRefresh(refreshTokens, token)
      case Some(r) => userId := Some(r.userId);
      case None => userId := None;
    }

    /** `UPDATE refresh_tokens SET revoked = true`: flags the first record for the token. */
    method RevokeRefresh(token: string) returns (rowCount: nat)
      modifies this
      ensures refreshTokens == Revoked(old(refreshTokens), token)
      ensures rowCount == if RefreshIndex(old(refreshTokens), token).Some? then 1 else 0
      ensures users == old(users) && currentUserId == old(currentUserId)
      ensures userProfiles == old(userProfiles) && userStats == old(userStats) && resetTokens == old(resetTokens)
    {
      rowCount := if RefreshIndex(refreshTokens, token).Some? then 1 else 0;
      refreshTokens := Revoked(refreshTokens, token);
    }

    /** `INSERT INTO password_reset_tokens`: a new record that is not used. */
    method InsertResetToken(userId: nat, token: string, expiresAt: int)
      modifies this
      ensures resetTokens == old(resetTokens) + [ResetRecord(userId, token, expiresAt, false)]
      ensures users == old(users) && currentUserId == old(currentUserId)
      ensures userProfiles == old(userProfiles) && userStats == old(userStats) && refreshTokens == old(refreshTokens)
    {
      resetTokens := resetTokens + [ResetRecord(userId, token, expiresAt, false)];
    }

    /** `SELECT user_id FROM password_reset_tokens WHERE token = $1` and not used. */
    method FindValidReset(token: string) returns (userId: Option<nat>)
      ensures userId == if UnusedReset(resetTokens, token).Some? then Some(UnusedReset(resetTokens, token).value.userId) else None
      ensures userId.Some? <==> exists i :: 0 <= i < |resetTokens| && resetTokens[i].token == token && !resetTokens[i].used
      ensures userId.Some? ==> exists r :: r in resetTokens && r.token == token && !r.used && r.userId == userId.value
    {
      match UnusedReset(resetTokens, token)
      case Some(r) => userId := Some(r.userId);
      case None => userId := None;
    }

    /** `UPDATE password_reset_tokens SET used = true`: flags the first record for the token. */
    method MarkResetUsed(token: string) returns (rowCount: nat)
      modifies this
      ensures resetTokens == MarkedUsed(old(resetTokens), token)
      ensures rowCount == if ResetIndex(old(resetTokens), token).Some? then 1 else 0
      ensures users == old(users) && currentUserId == old(currentUserId)
      ensures userProfiles == old(userProfiles) && userStats == old(userStats) && refreshTokens == old(refreshTokens)
    {
      rowCount := if ResetIndex(resetTokens, token).Some? then 1 else 0;
      resetTokens := MarkedUsed(resetTokens, token);
    }

    /** `UPDATE users SET password_hash = $1 WHERE id = $2`: only that user's hash changes. */
    method UpdatePassword(passwordHash: PasswordHash, userId: nat) returns (rowCount: nat)
      modifies this
      ensures users == WithPassword(old(users), userId, passwordHash)
      ensures rowCount == if UserIndex(old(users), userId).Some? then 1 else 0
      ensures currentUserId == old(currentUserId) && userProfiles == old(userProfiles) && userStats == old(userStats)
      ensures refreshTokens == old(refreshTokens) && resetTokens == old(resetTokens)
      ensures old(Valid()) ==> Valid()
    {
      rowCount := if UserIndex(users, userId).Some? then 1 else 0;
      users := WithPassword(users, userId, passwordHash);
    }

    /** `SELECT ... FROM users WHERE id = $1`. */
    method FindUserById(userId: nat) returns (row: Option<User>)
      ensures row.Some? <==> exists i :: 0 <= i < |users| && users[i].id == userId
      ensures row.Some? ==> row.value in users && row.value.id == userId
      ensures row.Some? ==> row == Some(users[UserIndex(users, userId).value])
    {
      match UserIndex(users, userId)
      case Some(i) => row := Some(users[i]);
      case None => row := None;
    }

    /** `UPDATE users SET last_login = NOW() WHERE id = $1`. */
    method UpdateLastLogin(userId: nat, now: int)
      modifies this
      ensures users == WithLastLogin(old(users), userId, now)
      ensures currentUserId == old(currentUserId) && userProfiles == old(userProfiles) && userStats == old(userStats)
      ensures refreshTokens == old(refreshTokens) && resetTokens == old(resetTokens)
      ensures old(Valid()) ==> Valid()
    {
      users := WithLastLogin(users, userId, now);
    }

    /** `DELETE FROM refresh_tokens WHERE token = $1`: every record for the token goes. */
    method DeleteRefreshByToken(token: string)
      modifies this
      ensures refreshTokens == WithoutToken(old(refreshTokens), token)
      ensures users == old(users) && currentUserId == old(currentUserId)
      ensures userProfiles == old(userProfiles) && userStats == old(userStats) && resetTokens == old(resetTokens)
    {
      refreshTokens := WithoutToken(refreshTokens, token);
    }

    /** `DELETE FROM refresh_tokens WHERE user_id = $1`: every record of the user goes. */
    method DeleteRefreshByUser(userId: nat)
      modifies this
      ensures refreshTokens == WithoutUser(old(refreshTokens), userId)
      ensures users == old(users) && currentUserId == old(currentUserId)
      ensures userProfiles == old(userProfiles) && userStats == old(userStats) && resetTokens == old(resetTokens)
    {
      refreshTokens := WithoutUser(refreshTokens, userId);
    }
  }
}
