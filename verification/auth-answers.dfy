/**
 What the authentication service answers, and what it changes, in terms of the request and the rows:
 exactly when each request succeeds, that what it issues works, and that nothing else is touched.
 */
module AuthAnswers {
  import opened Options
  import opened T = AuthTables
  import opened R = AuthRuns
  import opened AuthSessions

  // -------------------------------------------------------------------------
  // Tokens
  // -------------------------------------------------------------------------

  /** An access token of a session is accepted exactly if its user is active, and version and session are current. */
  lemma AccessIff(t: Tables, now: int, u: UserId, version: nat, k: Token)
    ensures
      Validate(t, now, Payload(u, Some(version), Some(k))) == Done <==>
      && u in t.users && t.users[u].status && t.users[u].tokenVersion == version
      && Live(t, k) && t.sessions[k].user == u && now <= t.sessions[k].expiresAt
  {}

  /** Why an access token is refused: its user, its version, its session, in this order. */
  lemma AccessRefused(t: Tables, now: int, p: Payload)
    ensures
      Validate(t, now, p) ==
      if p.user !in t.users || !t.users[p.user].status then Rejected(Unauthorized)
      else if p.tokenVersion.Some? && p.tokenVersion.value != t.users[p.user].tokenVersion then Rejected(TokenRevoked)
      else if p.session.Some? && !(Live(t, p.session.value) && t.sessions[p.session.value].user == p.user
                                   && now <= t.sessions[p.session.value].expiresAt)
      then Rejected(InvalidRefreshToken)
      else Done
  {}

  /** The time a session was used last: when it was refreshed, or else created. */
  function LastUse(s: Session): int {
    if s.lastUsedAt.Some? then s.lastUsedAt.value else s.createdAt
  }

  /**
   A refresh token is exchanged exactly if its session is live, not expired and was used within
   seven days, and its user is active.
   */
  lemma RefreshIff(w: World, k: Token)
    ensures
      Answer(w, RefreshToken(k)).Issued? <==>
      && Live(w.tables, k) && w.now <= w.tables.sessions[k].expiresAt
      && w.now <= LastUse(w.tables.sessions[k]) + 7 * 24 * 60 * 60 * 1000
      && w.tables.sessions[k].user in w.tables.users && w.tables.users[w.tables.sessions[k].user].status
    ensures !Answer(w, RefreshToken(k)).Issued? ==> Answer(w, RefreshToken(k)) == Rejected(InvalidRefreshToken)
  {}

  /** A pair that works: the access token is accepted, and the refresh token can be exchanged. */
  predicate Works(w: World, u: UserId, access: Payload, refresh: Token) {
    && access.user == u && Validate(w.tables, w.now, access) == Done
    && Live(w.tables, refresh) && w.tables.sessions[refresh].user == u && access.session == Some(refresh)
    && T.RefreshToken(w.tables, w.now, refresh).outcome.Issued?
  }

  /** A session just issued: new, for thirty days, and bearing the time of a refresh if it comes from one. */
  lemma NewSession(w: World, step: Step)
    requires Consistent(w.tables) && Enabled(w, step) && Answer(w, step).Issued?
    ensures Answer(w, step).refresh !in w.tables.sessions && Answer(w, step).refresh in Next(w, step).tables.sessions
    ensures
      Next(w, step).tables.sessions[Answer(w, step).refresh] ==
      Session(Answer(w, step).access.user, w.now, if step.RefreshToken? then Some(w.now) else None,
              w.now + 30 * 24 * 60 * 60 * 1000, None)
  {}

  /** Every pair issued works at once, if its user is active. */
  lemma IssuedWorks(w: World, step: Step)
    requires Consistent(w.tables) && Enabled(w, step) && Answer(w, step).Issued?
    ensures
      var u, next := Answer(w, step).access.user, Next(w, step);
      u in next.tables.users
      && (next.tables.users[u].status ==> Works(next, u, Answer(w, step).access, Answer(w, step).refresh))
  {
    NewSession(w, step);
    IssuedPayload(w, step);
    var u, next := Answer(w, step).access.user, Next(w, step);
    AccessIff(next.tables, next.now, u, next.tables.users[u].tokenVersion, Answer(w, step).refresh);
    RefreshIff(next, Answer(w, step).refresh);
  }

  lemma IssuedPayload(w: World, step: Step)
    requires Enabled(w, step) && Answer(w, step).Issued?
    ensures
      var access, refresh, users := Answer(w, step).access, Answer(w, step).refresh, Next(w, step).tables.users;
      access.user in users && access == Payload(access.user, Some(users[access.user].tokenVersion), Some(refresh))
  {}

  // -------------------------------------------------------------------------
  // Logging in
  // -------------------------------------------------------------------------

  /** The password is right, and the account neither locked nor deactivated. */
  predicate MayEnter(w: World, u: UserId, password: string) {
    && u in w.tables.users && w.tables.users[u].password == password && w.tables.users[u].status
    && (w.tables.users[u].lockedUntil.Some? ==> w.tables.users[u].lockedUntil.value <= w.now)
  }

  /** A login that may enter sends a code to a user with two-factor login, and lets any other user in. */
  lemma LoginIff(w: World, u: UserId, password: string, code: string, presented: Option<Payload>)
    ensures
      var answer := Answer(w, Login(u, password, code, presented));
      && (answer == OtpSent <==> MayEnter(w, u, password) && w.tables.users[u].twoFactor)
      && (answer.Issued? <==> MayEnter(w, u, password) && !w.tables.users[u].twoFactor)
      && (answer.Issued? ==> answer.access.user == u)
      && (!MayEnter(w, u, password) ==> answer.Rejected?)
  {}

  /** Why a login is turned down: unknown user, lock, password, deactivation, in this order. */
  lemma LoginRefused(w: World, u: UserId, password: string, code: string, presented: Option<Payload>)
    requires !MayEnter(w, u, password)
    ensures
      Answer(w, Login(u, password, code, presented)) ==
      Rejected(
        if u !in w.tables.users then InvalidCredentials
        else if w.tables.users[u].lockedUntil.Some? && w.tables.users[u].lockedUntil.value > w.now
        then AccountTemporarilyLocked
        else if w.tables.users[u].password != password then InvalidCredentials
        else DeactivatedUser)
  {}

  /** A user without two-factor login who may enter gets a pair that works. */
  lemma LoginWorks(w: World, u: UserId, password: string, code: string, presented: Option<Payload>)
    requires Consistent(w.tables) && MayEnter(w, u, password) && !w.tables.users[u].twoFactor
    ensures
      var login := Login(u, password, code, presented);
      var answer := Answer(w, login);
      answer.Issued? && Works(Next(w, login), u, answer.access, answer.refresh)
  {
    LoginIff(w, u, password, code, presented);
    IssuedWorks(w, Login(u, password, code, presented));
  }

  /** A user with two-factor login gets a code for five minutes, and no session. */
  lemma LoginSendsCode(w: World, u: UserId, password: string, code: string, presented: Option<Payload>)
    requires MayEnter(w, u, password) && w.tables.users[u].twoFactor
    ensures
      var login := Login(u, password, code, presented);
      && Answer(w, login) == OtpSent && Next(w, login).tables.sessions == w.tables.sessions
      && u in Next(w, login).tables.users
      && Next(w, login).tables.users[u].otp == Some(Otp(code, w.now + 5 * 60 * 1000))
  {}

  /** The code sent, while it is the latest, is the one that is exchanged, once, until it expires. */
  lemma CodeIff(w: World, u: UserId, code: string, presented: Option<Payload>)
    ensures
      var validate := ValidateOtp(u, code, presented);
      var holds := u in w.tables.users && w.tables.users[u].otp.Some? && w.tables.users[u].otp.value.code == code;
      if holds && w.now <= w.tables.users[u].otp.value.expiry then
        && Answer(w, validate).Issued? && Answer(w, validate).access.user == u
        && u in Next(w, validate).tables.users && Next(w, validate).tables.users[u].otp == None
      else
        && Next(w, validate).tables == w.tables
        && Answer(w, validate) == Rejected(if u !in w.tables.users then InvalidCredentials
                                           else if holds then OtpExpired else InvalidOtp)
  {}

  /** A new account, with the password given, active and without two-factor login; a known one is left alone. */
  lemma SignupIff(w: World, u: UserId, password: string)
    ensures
      var signup := Signup(u, password);
      if u in w.tables.users then Answer(w, signup) == Rejected(EmailInUse) && Next(w, signup).tables == w.tables
      else
        && Answer(w, signup).Issued? && Answer(w, signup).access.user == u
        && u in Next(w, signup).tables.users
        && var user := Next(w, signup).tables.users[u];
           user.password == password && user.status && !user.twoFactor && user.otp == None && user.reset == None
           && user.failedLoginAttempts == 0 && user.lockedUntil == None
  {}

  // -------------------------------------------------------------------------
  // Passwords
  // -------------------------------------------------------------------------

  /** The password is changed exactly if the current one is given. */
  lemma ChangeIff(w: World, u: UserId, current: string, password: string)
    ensures
      var change := ChangePassword(u, current, password);
      if u in w.tables.users && w.tables.users[u].password == current then
        Answer(w, change) == Done && u in Next(w, change).tables.users
        && Next(w, change).tables.users[u].password == password
      else
        Next(w, change).tables == w.tables
        && Answer(w, change) == Rejected(if u in w.tables.users then InvalidCurrentPassword else InvalidCredentials)
  {}

  /** A request for a reset gives a new token for one hour, in place of any before. */
  lemma RequestIff(w: World, u: UserId)
    ensures
      var request := RequestPasswordReset(u);
      if u in w.tables.users then
        && Answer(w, request) == ResetSent(w.tables.supply) && Next(w, request).tables.supply > w.tables.supply
        && u in Next(w, request).tables.users
        && Next(w, request).tables.users[u].reset == Some(Reset(w.tables.supply, w.now + 60 * 60 * 1000, None))
      else Answer(w, request) == Rejected(UserNotFound) && Next(w, request).tables == w.tables
  {}

  /** A reset token sets the password exactly if a user holds it, unused, within its hour. */
  lemma ResetIff(w: World, token: Token, row: Option<UserId>, password: string)
    requires Enabled(w, ResetPassword(token, row, password))
    ensures
      var reset := ResetPassword(token, row, password);
      if row.None? then Answer(w, reset) == Rejected(ResetTokenInvalid) && Next(w, reset).tables == w.tables
      else
        var held := w.tables.users[row.value].reset.value;
        if held.usedAt == None && w.now <= held.expiresAt then
          && Answer(w, reset) == Done && row.value in Next(w, reset).tables.users
          && Next(w, reset).tables.users[row.value].password == password
          && Next(w, reset).tables.users[row.value].reset == Some(Reset(token, held.expiresAt, Some(w.now)))
        else
          Next(w, reset).tables == w.tables
          && Answer(w, reset) == Rejected(if held.usedAt.Some? then ResetTokenUsed else ResetTokenExpired)
  {}

  /** The step gives the user this password. */
  predicate SetsPassword(w: World, step: Step, u: UserId, password: string)
    requires Enabled(w, step)
  {
    match step
    case Signup(v, p) => v == u && u !in w.tables.users && p == password
    case AddUser(v, p, _) => v == u && p == password
    case ChangePassword(v, _, p) => v == u && Answer(w, step) == Done && p == password
    case ResetPassword(_, row, p) => row == Some(u) && Answer(w, step) == Done && p == password
    case AdminResetPassword(v, p) => v == u && p == password
    case _ => false
  }

  /** After a step a user has the password that the step set, or else the one before. */
  lemma PasswordMoves(w: World, step: Step, u: UserId)
    requires Enabled(w, step) && u in Next(w, step).tables.users
    ensures
      var password := Next(w, step).tables.users[u].password;
      || SetsPassword(w, step, u, password)
      || (u in w.tables.users && password == w.tables.users[u].password
          && forall p :: !SetsPassword(w, step, u, p))
  {}

  lemma {:induction false} PasswordStays(w: World, steps: seq<Step>, u: UserId)
    requires IsRun(w, steps) && u in w.tables.users && KeepsPassword(w, steps, u)
    ensures u in After(w, steps).tables.users
    ensures After(w, steps).tables.users[u].password == w.tables.users[u].password
    decreases |steps|
  {
    if steps != [] {
      UserStays(w, steps[0], u);
      PasswordMoves(w, steps[0], u);
      PasswordStays(Next(w, steps[0]), steps[1..], u);
    }
  }

  /** No step sets the user's password. */
  ghost predicate KeepsPassword(w: World, steps: seq<Step>, u: UserId)
    requires IsRun(w, steps)
    decreases |steps|
  {
    steps == []
    || ((forall p :: !SetsPassword(w, steps[0], u, p)) && KeepsPassword(Next(w, steps[0]), steps[1..], u))
  }

  lemma UserStays(w: World, step: Step, u: UserId)
    requires Enabled(w, step) && u in w.tables.users
    ensures u in Next(w, step).tables.users
  {}

  /**
   A password that was set is the one that lets the user in, and the only one, until another is
   set: at any such point an active account that is not locked turns a login down exactly for
   another password.
   */
  lemma {:induction false} NewPasswordOnly(w: World, step: Step, u: UserId, password: string, steps: seq<Step>,
                                           tried: string, code: string, presented: Option<Payload>)
    requires Enabled(w, step) && SetsPassword(w, step, u, password)
    requires IsRun(Next(w, step), steps) && KeepsPassword(Next(w, step), steps, u)
    ensures u in After(Next(w, step), steps).tables.users
    ensures
      var later := After(Next(w, step), steps);
      var user := later.tables.users[u];
      user.status && (user.lockedUntil.Some? ==> user.lockedUntil.value <= later.now) ==>
        (Answer(later, Login(u, tried, code, presented)) == Rejected(InvalidCredentials) <==> tried != password)
  {
    assert u in Next(w, step).tables.users;
    PasswordMoves(w, step, u);
    PasswordStays(Next(w, step), steps, u);
    var later := After(Next(w, step), steps);
    LoginIff(later, u, tried, code, presented);
    if !MayEnter(later, u, tried) {
      LoginRefused(later, u, tried, code, presented);
    }
  }

  /** A user ends one session that is live and their own; logging out always succeeds. */
  lemma EndingIff(w: World, u: UserId, k: Token)
    ensures
      Answer(w, RevokeSession(u, k)) ==
      if Live(w.tables, k) && w.tables.sessions[k].user == u then Done else Rejected(SessionNotFound)
    ensures Answer(w, Logout(k)) == Done && Answer(w, LogoutAll(u)) == Done
  {}

  // -------------------------------------------------------------------------
  // What is left alone
  // -------------------------------------------------------------------------

  /** The user whose row the step may change. */
  predicate Concerns(step: Step, u: UserId) {
    match step
    case Signup(v, _) => v == u
    case Login(v, _, _, _) => v == u
    case ValidateOtp(v, _, _) => v == u
    case RequestPasswordReset(v) => v == u
    case ResetPassword(_, row, _) => row == Some(u)
    case ChangePassword(v, _, _) => v == u
    case LogoutAll(v) => v == u
    case AddUser(v, _, _) => v == u
    case SetStatus(v, _) => v == u
    case SetTwoFactor(v, _) => v == u
    case AdminResetPassword(v, _) => v == u
    case _ => false
  }

  /** A step leaves every other user alone. */
  lemma OtherUsersStay(w: World, step: Step, u: UserId)
    requires Enabled(w, step) && u in w.tables.users && !Concerns(step, u)
    ensures u in Next(w, step).tables.users && Next(w, step).tables.users[u] == w.tables.users[u]
  {}

  /** Activation and two-factor login change only by the steps that set them. */
  lemma SettingsMove(w: World, step: Step, u: UserId)
    requires Enabled(w, step) && u in w.tables.users
    ensures u in Next(w, step).tables.users
    ensures
      var user, user' := w.tables.users[u], Next(w, step).tables.users[u];
      && user'.status == (if step.SetStatus? && step.u == u then step.status else user.status)
      && user'.twoFactor == (if step.SetTwoFactor? && step.u == u then step.on else user.twoFactor)
  {}

  /** The token version rises by one with an invalidation or a reset by an administrator, and stays otherwise. */
  lemma VersionMoves(w: World, step: Step, u: UserId)
    requires Enabled(w, step) && u in w.tables.users
    requires step.Login? && step.u == u ==> LocksHold(w.tables.users[u])
    ensures u in Next(w, step).tables.users
    ensures
      Next(w, step).tables.users[u].tokenVersion ==
      w.tables.users[u].tokenVersion
      + if Invalidates(w, step, u) || (step.AdminResetPassword? && step.u == u) then 1 else 0
  {}

  /** An account whose counter is below five has no lock time, as in every run. */
  predicate LocksHold(user: User) {
    user.failedLoginAttempts < 5 ==> user.lockedUntil == None
  }

  /** The step ends this session, by rotation, replay, revocation, logout, invalidation, or a login over its token. */
  predicate EndsSession(w: World, step: Step, k: Token)
    requires Enabled(w, step) && k in w.tables.sessions
  {
    var u := w.tables.sessions[k].user;
    match step
    case RefreshToken(token) =>
      if token == k then w.now <= w.tables.sessions[k].expiresAt
      else token in w.tables.sessions && w.tables.sessions[token].user == u && !Live(w.tables, token)
    case RevokeSession(v, session) => session == k && v == u
    case Logout(token) => token == k
    case Login(v, _, _, presented) =>
      (v == u && u in w.tables.users && Invalidates(w, step, u))
          || (Answer(w, step).Issued? && v != u && Over(presented, k, v))
    case ValidateOtp(v, _, presented) => Answer(w, step).Issued? && v != u && Over(presented, k, v)
    case _ => u in w.tables.users && Invalidates(w, step, u)
  }

  /** The access token presented along with the login is another user's, of this session. */
  predicate Over(presented: Option<Payload>, k: Token, v: UserId) {
    presented.Some? && presented.value.session == Some(k) && presented.value.user != v
  }

  /** A live session is revoked, at the time of the step, exactly if the step ends it; else it stays as it is. */
  lemma SessionEndsIff(w: World, step: Step, k: Token)
    requires Consistent(w.tables) && Enabled(w, step) && Live(w.tables, k)
    requires step.Login? && step.u in w.tables.users ==> LocksHold(w.tables.users[step.u])
    ensures k in Next(w, step).tables.sessions
    ensures
      Next(w, step).tables.sessions[k] ==
      if EndsSession(w, step, k) then w.tables.sessions[k].(revokedAt := Some(w.now)) else w.tables.sessions[k]
  {}
}
