/**
 Users, sessions and the tokens that stand for them: password login with a timed lockout,
 one-time codes, rotating refresh tokens, token versions and single-use reset tokens.

 A random token and the hash stored for it are one number, taken from a supply that never
 repeats; a session is named by its refresh token. Times are in milliseconds.
 */
module AuthTables {
  import opened Options

  const REFRESH_TOKEN_TTL_MS := 30 * 24 * 60 * 60 * 1000
  const RESET_TOKEN_TTL_MS := 60 * 60 * 1000
  const MAX_FAILED_ATTEMPTS := 5
  const LOCK_DURATION_MS := 15 * 60 * 1000
  const INACTIVITY_MS := 7 * 24 * 60 * 60 * 1000
  const OTP_TTL_MS := 5 * 60 * 1000

  type UserId = nat
  type Token = nat

  datatype Otp = Otp(code: string, expiry: int)

  datatype Reset = Reset(token: Token, expiresAt: int, usedAt: Option<int>)

  datatype User = User(
    password: string,
    status: bool,
    twoFactor: bool,
    tokenVersion: nat,
    failedLoginAttempts: nat,
    lockedUntil: Option<int>,
    otp: Option<Otp>,
    reset: Option<Reset>)

  datatype Session = Session(
    user: UserId,
    createdAt: int,
    lastUsedAt: Option<int>,
    expiresAt: int,
    revokedAt: Option<int>)

  /** The signed content of an access token; a re-authentication token carries neither version nor session. */
  datatype Payload = Payload(user: UserId, tokenVersion: Option<nat>, session: Option<Token>)

  type Users = map<UserId, User>
  type Sessions = map<Token, Session>

  /** The two tables and the next unused token. */
  datatype Tables = Tables(users: Users, sessions: Sessions, supply: Token)

  datatype AuthError =
    | InvalidCredentials | AccountTemporarilyLocked | DeactivatedUser | EmailInUse
    | InvalidOtp | OtpExpired
    | UserNotFound | ResetTokenInvalid | ResetTokenUsed | ResetTokenExpired | InvalidCurrentPassword
    | InvalidRefreshToken | SessionNotFound
    | Unauthorized | TokenRevoked

  datatype Outcome =
    | Rejected(error: AuthError)
    | Done
    | OtpSent
    | ResetSent(token: Token)
    | Issued(access: Payload, refresh: Token)

  datatype Reply = Reply(tables: Tables, outcome: Outcome)

  function NewUser(password: string, status: bool): User {
    User(password, status, false, 0, 0, None, None, None)
  }

  // -------------------------------------------------------------------------
  // Pieces
  // -------------------------------------------------------------------------

  function Revoked(s: Session, now: int): Session {
    if s.revokedAt.None? then s.(revokedAt := Some(now)) else s
  }

  /** Every session of the user that was not revoked is now. */
  function RevokedAll(sessions: Sessions, user: UserId, now: int): (r: Sessions)
    ensures r.Keys == sessions.Keys
  {
    map k | k in sessions :: if sessions[k].user == user then Revoked(sessions[k], now) else sessions[k]
  }

  /** Logging in over another user's access token ends that user's session. */
  function RevokedPresented(sessions: Sessions, presented: Option<Payload>, user: UserId, now: int): (r: Sessions)
    ensures r.Keys == sessions.Keys
  {
    if presented.Some? && presented.value.session.Some? && presented.value.user != user
       && presented.value.session.value in sessions && sessions[presented.value.session.value].user != user
    then sessions[presented.value.session.value := Revoked(sessions[presented.value.session.value], now)]
    else sessions
  }

  /** A new session and the access token signed for it. */
  function WithTokenPair(t: Tables, user: UserId, now: int, lastUsedAt: Option<int>): Reply
    requires user in t.users
  {
    Reply(
      t.(sessions := t.sessions[t.supply := Session(user, now, lastUsedAt, now + REFRESH_TOKEN_TTL_MS, None)],
         supply := t.supply + 1),
      Issued(Payload(user, Some(t.users[user].tokenVersion), Some(t.supply)), t.supply))
  }

  function AfterFailure(user: User, now: int): User {
    var n := user.failedLoginAttempts + 1;
    if n >= MAX_FAILED_ATTEMPTS
    then user.(failedLoginAttempts := n, lockedUntil := Some(now + LOCK_DURATION_MS),
               tokenVersion := user.tokenVersion + 1)
    else user.(failedLoginAttempts := n)
  }

  function WithPassword(user: User, password: string): User {
    user.(password := password, tokenVersion := user.tokenVersion + 1)
  }

  predicate Locked(user: User, now: int) {
    user.lockedUntil.Some? && user.lockedUntil.value > now
  }

  // -------------------------------------------------------------------------
  // Operations
  // -------------------------------------------------------------------------

  function Signup(t: Tables, now: int, u: UserId, password: string): Reply {
    if u in t.users then Reply(t, Rejected(EmailInUse))
    else WithTokenPair(t.(users := t.users[u := NewUser(password, true)]), u, now, None)
  }

  function Login(t: Tables, now: int, u: UserId, password: string, code: string, presented: Option<Payload>): Reply {
    if u !in t.users then Reply(t, Rejected(InvalidCredentials))
    else if Locked(t.users[u], now) then Reply(t, Rejected(AccountTemporarilyLocked))
    else if t.users[u].password != password then
      var user := AfterFailure(t.users[u], now);
      Reply(t.(users := t.users[u := user],
               sessions := if user.failedLoginAttempts >= MAX_FAILED_ATTEMPTS then RevokedAll(t.sessions, u, now)
                           else t.sessions),
            Rejected(InvalidCredentials))
    else if !t.users[u].status then Reply(t, Rejected(DeactivatedUser))
    else
      var user := t.users[u].(failedLoginAttempts := 0, lockedUntil := None);
      if user.twoFactor then
        Reply(t.(users := t.users[u := user.(otp := Some(Otp(code, now + OTP_TTL_MS)))]), OtpSent)
      else
        WithTokenPair(
          t.(users := t.users[u := user], sessions := RevokedPresented(t.sessions, presented, u, now)), u, now, None)
  }

  function ValidateOtp(t: Tables, now: int, u: UserId, code: string, presented: Option<Payload>): Reply {
    if u !in t.users then Reply(t, Rejected(InvalidCredentials))
    else if t.users[u].otp.None? || t.users[u].otp.value.code != code then Reply(t, Rejected(InvalidOtp))
    else if now > t.users[u].otp.value.expiry then Reply(t, Rejected(OtpExpired))
    else
      WithTokenPair(
        t.(users := t.users[u := t.users[u].(otp := None)],
           sessions := RevokedPresented(t.sessions, presented, u, now)),
        u, now, None)
  }

  function RequestPasswordReset(t: Tables, now: int, u: UserId): Reply {
    if u !in t.users then Reply(t, Rejected(UserNotFound))
    else
      Reply(t.(users := t.users[u := t.users[u].(reset := Some(Reset(t.supply, now + RESET_TOKEN_TTL_MS, None)))],
               supply := t.supply + 1),
            ResetSent(t.supply))
  }

  predicate HoldsReset(user: User, token: Token) {
    user.reset.Some? && user.reset.value.token == token
  }

  /** A possible answer to the search for the user with this reset token. */
  predicate FoundByReset(users: Users, token: Token, row: Option<UserId>) {
    match row
    case Some(u) => u in users && HoldsReset(users[u], token)
    case None => forall u :: u in users ==> !HoldsReset(users[u], token)
  }

  function ResetPassword(t: Tables, now: int, token: Token, row: Option<UserId>, password: string): Reply
    requires FoundByReset(t.users, token, row)
  {
    if row.None? then Reply(t, Rejected(ResetTokenInvalid))
    else
      var u := row.value;
      var user := t.users[u];
      if user.reset.value.usedAt.Some? then Reply(t, Rejected(ResetTokenUsed))
      else if user.reset.value.expiresAt < now then Reply(t, Rejected(ResetTokenExpired))
      else
        var used := user.reset.value.(usedAt := Some(now));
        Reply(t.(users := t.users[u := WithPassword(user, password).(reset := Some(used))],
                 sessions := RevokedAll(t.sessions, u, now)),
              Done)
  }

  function ChangePassword(t: Tables, now: int, u: UserId, current: string, password: string): Reply {
    if u !in t.users then Reply(t, Rejected(InvalidCredentials))
    else if t.users[u].password != current then Reply(t, Rejected(InvalidCurrentPassword))
    else
      Reply(t.(users := t.users[u := WithPassword(t.users[u], password)], sessions := RevokedAll(t.sessions, u, now)),
            Done)
  }

  predicate Inactive(s: Session, now: int) {
    (match s.lastUsedAt case Some(at) => at case None => s.createdAt) < now - INACTIVITY_MS
  }

  function RefreshToken(t: Tables, now: int, token: Token): Reply {
    if token !in t.sessions then Reply(t, Rejected(InvalidRefreshToken))
    else
      var s := t.sessions[token];
      if s.revokedAt.Some? then
        Reply(t.(sessions := RevokedAll(t.sessions, s.user, now)), Rejected(InvalidRefreshToken))
      else if s.expiresAt < now then Reply(t, Rejected(InvalidRefreshToken))
      else
        var rotated := t.(sessions := t.sessions[token := s.(revokedAt := Some(now))]);
        if Inactive(s, now) || s.user !in t.users || !t.users[s.user].status
        then Reply(rotated, Rejected(InvalidRefreshToken))
        else WithTokenPair(rotated, s.user, now, Some(now))
  }

  function RevokeSession(t: Tables, now: int, u: UserId, session: Token): Reply {
    if session in t.sessions && t.sessions[session].user == u && t.sessions[session].revokedAt.None?
    then Reply(t.(sessions := t.sessions[session := Revoked(t.sessions[session], now)]), Done)
    else Reply(t, Rejected(SessionNotFound))
  }

  function Logout(t: Tables, now: int, token: Token): Reply {
    Reply(if token in t.sessions then t.(sessions := t.sessions[token := Revoked(t.sessions[token], now)]) else t, Done)
  }

  function LogoutAll(t: Tables, now: int, u: UserId): Reply {
    Reply(
      if u in t.users
      then t.(users := t.users[u := t.users[u].(tokenVersion := t.users[u].tokenVersion + 1)],
              sessions := RevokedAll(t.sessions, u, now))
      else t,
      Done)
  }

  /** What an access token's bearer is told. */
  function Validate(t: Tables, now: int, p: Payload): Outcome {
    if p.user !in t.users || !t.users[p.user].status then Rejected(Unauthorized)
    else if p.tokenVersion.Some? && t.users[p.user].tokenVersion != p.tokenVersion.value then Rejected(TokenRevoked)
    else if p.session.Some? && !Accepts(t.sessions, now, p.session.value, p.user) then Rejected(InvalidRefreshToken)
    else Done
  }

  predicate Accepts(sessions: Sessions, now: int, session: Token, user: UserId) {
    session in sessions && sessions[session].revokedAt.None? && sessions[session].expiresAt >= now
        && sessions[session].user == user
  }
}
