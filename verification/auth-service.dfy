/**
 The authentication service: each handler loads a row, changes it and saves it back, and leaves
 the tables and the answer that AuthTables gives for the operation. Serving requests one after
 another is a run in the sense of AuthRuns, so what holds of runs holds of the service.
 */
module AuthService {
  import opened Options
  import opened T = AuthTables
  import R = AuthRuns
  import AuthSessions
  import AuthLimits

  /** What every reachable world satisfies: sessions, chains, issued tokens, lockouts and reset tokens are sound. */
  ghost predicate Sound(w: R.World) {
    AuthSessions.Inv(w) && AuthLimits.LocksSound(w.tables, w.log.failures, w.now) && AuthLimits.ResetsSound(w.tables)
  }

  lemma StepKeepsSound(w: R.World, step: R.Step)
    requires Sound(w) && R.Enabled(w, step)
    ensures Sound(R.Next(w, step))
  {
    AuthSessions.StepKeepsInv(w, step);
    AuthLimits.StepKeepsLocks(w, step);
    AuthLimits.StepKeepsResets(w.tables, w.now, step);
  }

  class Service {
    var users: Users
    var sessions: Sessions
    var supply: Token
    var clock: int
    ghost var log: R.Log

    constructor (now: int)
      ensures World() == R.Start(now) && Valid()
    {
      users, sessions, supply, clock := map[], map[], 0, now;
      log := R.Log({}, map[], map[]);
    }

    ghost function Rows(): Tables
      reads this`users, this`sessions, this`supply
    {
      Tables(users, sessions, supply)
    }

    ghost function World(): R.World
      reads this
    {
      R.World(clock, Rows(), log)
    }

    ghost predicate Valid()
      reads this
    {
      Sound(World())
    }

    method SaveSession(key: Token, session: Session)
      modifies this`sessions
      ensures sessions == old(sessions)[key := session]
    {
      sessions := sessions[key := session];
    }

    method SaveUser(key: UserId, user: User)
      modifies this`users
      ensures users == old(users)[key := user]
    {
      users := users[key := user];
    }

    method CreateSession(user: UserId, now: int, lastUsedAt: Option<int>) returns (rawToken: Token)
      modifies this`sessions, this`supply
      ensures rawToken == old(supply) && supply == old(supply) + 1
      ensures sessions == old(sessions)[rawToken := Session(user, now, lastUsedAt, now + REFRESH_TOKEN_TTL_MS, None)]
    {
      rawToken := supply;
      supply := supply + 1;
      var expiresAt := now + REFRESH_TOKEN_TTL_MS;
      SaveSession(rawToken, Session(user, now, lastUsedAt, expiresAt, None));
    }

    method IssueTokenPair(user: UserId, now: int, lastUsedAt: Option<int>) returns (outcome: Outcome)
      requires user in users
      modifies this`sessions, this`supply
      ensures Reply(Rows(), outcome) == WithTokenPair(old(Rows()), user, now, lastUsedAt)
    {
      var rawRefresh := CreateSession(user, now, lastUsedAt);
      var access := Payload(user, Some(users[user].tokenVersion), Some(rawRefresh));
      outcome := Issued(access, rawRefresh);
    }

    method RevokeAllSessions(user: UserId, now: int)
      modifies this`sessions
      ensures sessions == RevokedAll(old(sessions), user, now)
    {
      sessions := map k | k in sessions ::
        if sessions[k].user == user && sessions[k].revokedAt.None? then sessions[k].(revokedAt := Some(now))
            else sessions[k];
    }

    method RevokePresentedSessionForOtherUser(presented: Option<Payload>, user: UserId, now: int)
      modifies this`sessions
      ensures sessions == RevokedPresented(old(sessions), presented, user, now)
    {
      if presented.None? { return; }
      var payload := presented.value;
      if payload.session.None? || payload.user == user { return; }
      var key := payload.session.value;
      if key in sessions {
        var session := sessions[key];
        if session.user != user && session.revokedAt.None? {
          SaveSession(key, session.(revokedAt := Some(now)));
        } else {
          assert sessions[key := session] == sessions;
        }
      }
    }

    method Signup(u: UserId, password: string, now: int) returns (outcome: Outcome)
      modifies this`users, this`sessions, this`supply
      ensures Reply(Rows(), outcome) == T.Signup(old(Rows()), now, u, password)
    {
      if u in users {
        return Rejected(EmailInUse);
      }
      SaveUser(u, User(password, true, false, 0, 0, None, None, None));
      outcome := IssueTokenPair(u, now, None);
    }

    method Login(u: UserId, password: string, code: string, presented: Option<Payload>, now: int)
      returns (outcome: Outcome)
      modifies this`users, this`sessions, this`supply
      ensures Reply(Rows(), outcome) == T.Login(old(Rows()), now, u, password, code, presented)
    {
      if u !in users {
        return Rejected(InvalidCredentials);
      }
      var user := users[u];
      if user.lockedUntil.Some? && user.lockedUntil.value > now {
        return Rejected(AccountTemporarilyLocked);
      }
      if user.password != password {
        user := user.(failedLoginAttempts := user.failedLoginAttempts + 1);
        if user.failedLoginAttempts >= MAX_FAILED_ATTEMPTS {
          user := user.(lockedUntil := Some(now + LOCK_DURATION_MS));
          user := user.(tokenVersion := user.tokenVersion + 1);
          RevokeAllSessions(u, now);
        }
        SaveUser(u, user);
        return Rejected(InvalidCredentials);
      }
      if !user.status {
        return Rejected(DeactivatedUser);
      }
      user := user.(failedLoginAttempts := 0, lockedUntil := None);
      SaveUser(u, user);
      if user.twoFactor {
        user := user.(otp := Some(Otp(code, now + OTP_TTL_MS)));
        SaveUser(u, user);
        return OtpSent;
      }
      RevokePresentedSessionForOtherUser(presented, u, now);
      outcome := IssueTokenPair(u, now, None);
    }

    method ValidateOTP(u: UserId, code: string, presented: Option<Payload>, now: int) returns (outcome: Outcome)
      modifies this`users, this`sessions, this`supply
      ensures Reply(Rows(), outcome) == T.ValidateOtp(old(Rows()), now, u, code, presented)
    {
      if u !in users {
        return Rejected(InvalidCredentials);
      }
      var user := users[u];
      if user.otp.None? || user.otp.value.code != code {
        return Rejected(InvalidOtp);
      }
      if now > user.otp.value.expiry {
        return Rejected(OtpExpired);
      }
      SaveUser(u, user.(otp := None));
      RevokePresentedSessionForOtherUser(presented, u, now);
      outcome := IssueTokenPair(u, now, None);
    }

    method RequestPasswordReset(u: UserId, now: int) returns (outcome: Outcome)
      modifies this`users, this`sessions, this`supply
      ensures Reply(Rows(), outcome) == T.RequestPasswordReset(old(Rows()), now, u)
    {
      if u !in users {
        return Rejected(UserNotFound);
      }
      var rawToken := supply;
      supply := supply + 1;
      SaveUser(u, users[u].(reset := Some(Reset(rawToken, now + RESET_TOKEN_TTL_MS, None))));
      outcome := ResetSent(rawToken);
    }

    method ResetPassword(token: Token, row: Option<UserId>, password: string, now: int) returns (outcome: Outcome)
      requires FoundByReset(users, token, row)
      modifies this`users, this`sessions, this`supply
      ensures Reply(Rows(), outcome) == T.ResetPassword(old(Rows()), now, token, row, password)
    {
      if row.None? {
        return Rejected(ResetTokenInvalid);
      }
      var user := users[row.value];
      if user.reset.value.usedAt.Some? {
        return Rejected(ResetTokenUsed);
      }
      if user.reset.value.expiresAt < now {
        return Rejected(ResetTokenExpired);
      }
      user := user.(password := password);
      user := user.(tokenVersion := user.tokenVersion + 1);
      user := user.(reset := Some(user.reset.value.(usedAt := Some(now))));
      SaveUser(row.value, user);
      RevokeAllSessions(row.value, now);
      outcome := Done;
    }

    method ChangePassword(u: UserId, current: string, password: string, now: int) returns (outcome: Outcome)
      modifies this`users, this`sessions, this`supply
      ensures Reply(Rows(), outcome) == T.ChangePassword(old(Rows()), now, u, current, password)
    {
      if u !in users {
        return Rejected(InvalidCredentials);
      }
      var user := users[u];
      if user.password != current {
        return Rejected(InvalidCurrentPassword);
      }
      user := user.(password := password);
      user := user.(tokenVersion := user.tokenVersion + 1);
      SaveUser(u, user);
      RevokeAllSessions(u, now);
      outcome := Done;
    }

    method RefreshToken(token: Token, now: int) returns (outcome: Outcome)
      modifies this`users, this`sessions, this`supply
      ensures Reply(Rows(), outcome) == T.RefreshToken(old(Rows()), now, token)
    {
      if token !in sessions {
        return Rejected(InvalidRefreshToken);
      }
      var session := sessions[token];
      if session.revokedAt.Some? {
        RevokeAllSessions(session.user, now);
        return Rejected(InvalidRefreshToken);
      }
      if session.expiresAt < now {
        return Rejected(InvalidRefreshToken);
      }
      var lastActivity := if session.lastUsedAt.Some? then session.lastUsedAt.value else session.createdAt;
      if lastActivity < now - INACTIVITY_MS {
        SaveSession(token, session.(revokedAt := Some(now)));
        return Rejected(InvalidRefreshToken);
      }
      SaveSession(token, session.(revokedAt := Some(now)));
      if session.user !in users || !users[session.user].status {
        return Rejected(InvalidRefreshToken);
      }
      outcome := IssueTokenPair(session.user, now, Some(now));
    }

    method RevokeSession(u: UserId, key: Token, now: int) returns (outcome: Outcome)
      modifies this`users, this`sessions, this`supply
      ensures Reply(Rows(), outcome) == T.RevokeSession(old(Rows()), now, u, key)
    {
      if !(key in sessions && sessions[key].user == u && sessions[key].revokedAt.None?) {
        return Rejected(SessionNotFound);
      }
      SaveSession(key, sessions[key].(revokedAt := Some(now)));
      outcome := Done;
    }

    method Logout(token: Token, now: int) returns (outcome: Outcome)
      modifies this`users, this`sessions, this`supply
      ensures Reply(Rows(), outcome) == T.Logout(old(Rows()), now, token)
    {
      outcome := Done;
      if token in sessions {
        if sessions[token].revokedAt.None? {
          SaveSession(token, sessions[token].(revokedAt := Some(now)));
        } else {
          assert sessions[token := sessions[token]] == sessions;
        }
      }
    }

    method LogoutAll(u: UserId, now: int) returns (outcome: Outcome)
      modifies this`users, this`sessions, this`supply
      ensures Reply(Rows(), outcome) == T.LogoutAll(old(Rows()), now, u)
    {
      outcome := Done;
      if u in users {
        var user := users[u];
        SaveUser(u, user.(tokenVersion := user.tokenVersion + 1));
        RevokeAllSessions(u, now);
      }
    }

    /** Route one request to its handler; the last four are writes of other services to the user table. */
    method Route(step: R.Step) returns (outcome: Outcome)
      requires R.Enabled(R.World(clock, Rows(), log), step)
      modifies this`users, this`sessions, this`supply
      ensures Reply(Rows(), outcome) == R.Respond(old(Rows()), clock, step)
    {
      outcome := Done;
      match step
      case Tick(_) =>
      case Signup(u, password) => outcome := Signup(u, password, clock);
      case Login(u, password, code, presented) => outcome := Login(u, password, code, presented, clock);
      case ValidateOtp(u, code, presented) => outcome := ValidateOTP(u, code, presented, clock);
      case RequestPasswordReset(u) => outcome := RequestPasswordReset(u, clock);
      case ResetPassword(token, row, password) => outcome := ResetPassword(token, row, password, clock);
      case ChangePassword(u, current, password) => outcome := ChangePassword(u, current, password, clock);
      case RefreshToken(token) => outcome := RefreshToken(token, clock);
      case RevokeSession(u, session) => outcome := RevokeSession(u, session, clock);
      case Logout(token) => outcome := Logout(token, clock);
      case LogoutAll(u) => outcome := LogoutAll(u, clock);
      case AddUser(u, password, status) => SaveUser(u, NewUser(password, status));
      case SetStatus(u, status) => SaveUser(u, users[u].(status := status));
      case SetTwoFactor(u, on) => SaveUser(u, users[u].(twoFactor := on));
      case AdminResetPassword(u, password) => SaveUser(u, WithPassword(users[u], password));
    }

    /** Note the step in the log, and let time pass if that is the step. */
    method Note(step: R.Step, outcome: Outcome, ghost w: R.World)
      requires R.Enabled(w, step) && clock == w.now && log == w.log
      requires Reply(Rows(), outcome) == R.Respond(w.tables, w.now, step)
      modifies this`clock, this`log
      ensures World() == R.Next(w, step)
    {
      log := R.LogAfter(log, clock, step, outcome);
      if step.Tick? {
        clock := clock + step.ms;
      }
    }

    /** One request, or the clock moving on: exactly one step of a run. */
    method Handle(step: R.Step) returns (outcome: Outcome)
      requires Valid() && R.Enabled(World(), step)
      modifies this
      ensures World() == R.Next(old(World()), step) && outcome == R.Answer(old(World()), step)
      ensures Valid()
    {
      ghost var w := World();
      StepKeepsSound(w, step);
      outcome := Route(step);
      Note(step, outcome, w);
    }

    /** Any requests, one after another: a run, with every invariant kept. */
    method Serve(steps: seq<R.Step>)
      requires Valid() && R.IsRun(World(), steps)
      modifies this
      ensures World() == R.After(old(World()), steps) && Valid()
      decreases |steps|
    {
      if steps != [] {
        var outcome := Handle(steps[0]);
        Serve(steps[1..]);
      }
    }
  }
}
