/**
 Runs of the authentication service: any sequence of its calls, of time passing, and of the
 changes that other services and administrators make to users. What one step may do to the
 tables, and so what any run may do.
 */
module AuthRuns {
  import opened Options
  import opened T = AuthTables

  datatype Step =
    | Tick(ms: nat)
    | Signup(u: UserId, password: string)
    | Login(u: UserId, password: string, code: string, presented: Option<Payload>)
    | ValidateOtp(u: UserId, code: string, presented: Option<Payload>)
    | RequestPasswordReset(u: UserId)
    | ResetPassword(token: Token, row: Option<UserId>, password: string)
    | ChangePassword(u: UserId, current: string, password: string)
    | RefreshToken(token: Token)
    | RevokeSession(u: UserId, session: Token)
    | Logout(token: Token)
    | LogoutAll(u: UserId)
    | AddUser(u: UserId, password: string, status: bool)
    | SetStatus(u: UserId, status: bool)
    | SetTwoFactor(u: UserId, on: bool)
    | AdminResetPassword(u: UserId, password: string)

  /**
   Histories that no step looks at: every access token issued, the first session of the
   rotation chain each session belongs to, and for each user the times of the failed password
   comparisons since the last login that got past them.
   */
  datatype Log = Log(issued: set<Payload>, family: map<Token, Token>, failures: map<UserId, seq<int>>)

  datatype World = World(now: int, tables: Tables, log: Log)

  predicate Enabled(w: World, step: Step) {
    match step
    case ResetPassword(token, row, _) => FoundByReset(w.tables.users, token, row)
    case AddUser(u, _, _) => u !in w.tables.users
    case SetStatus(u, _) => u in w.tables.users
    case SetTwoFactor(u, _) => u in w.tables.users
    case AdminResetPassword(u, _) => u in w.tables.users
    case _ => true
  }

  function WithUser(t: Tables, u: UserId, user: User): Reply {
    Reply(t.(users := t.users[u := user]), Done)
  }

  function Respond(t: Tables, now: int, step: Step): Reply
    requires Enabled(World(now, t, Log({}, map[], map[])), step)
  {
    match step
    case Tick(_) => Reply(t, Done)
    case Signup(u, password) => T.Signup(t, now, u, password)
    case Login(u, password, code, presented) => T.Login(t, now, u, password, code, presented)
    case ValidateOtp(u, code, presented) => T.ValidateOtp(t, now, u, code, presented)
    case RequestPasswordReset(u) => T.RequestPasswordReset(t, now, u)
    case ResetPassword(token, row, password) => T.ResetPassword(t, now, token, row, password)
    case ChangePassword(u, current, password) => T.ChangePassword(t, now, u, current, password)
    case RefreshToken(token) => T.RefreshToken(t, now, token)
    case RevokeSession(u, session) => T.RevokeSession(t, now, u, session)
    case Logout(token) => T.Logout(t, now, token)
    case LogoutAll(u) => T.LogoutAll(t, now, u)
    case AddUser(u, password, status) => WithUser(t, u, NewUser(password, status))
    case SetStatus(u, status) => WithUser(t, u, t.users[u].(status := status))
    case SetTwoFactor(u, on) => WithUser(t, u, t.users[u].(twoFactor := on))
    case AdminResetPassword(u, password) => WithUser(t, u, WithPassword(t.users[u], password))
  }

  function FailuresAfter(failures: map<UserId, seq<int>>, now: int, step: Step, outcome: Outcome)
    : map<UserId, seq<int>>
  {
    match step
    case Login(u, _, _, _) =>
      if u !in failures then failures
      else if outcome == Rejected(InvalidCredentials) then failures[u := failures[u] + [now]]
      else if outcome.Rejected? then failures
      else failures[u := []]
    case Signup(u, _) => if outcome.Rejected? then failures else failures[u := []]
    case AddUser(u, _, _) => failures[u := []]
    case _ => failures
  }

  function FamilyAfter(family: map<Token, Token>, step: Step, outcome: Outcome): map<Token, Token> {
    if !outcome.Issued? then family
    else if step.RefreshToken? && step.token in family then family[outcome.refresh := family[step.token]]
    else family[outcome.refresh := outcome.refresh]
  }

  function LogAfter(log: Log, now: int, step: Step, outcome: Outcome): Log {
    Log(if outcome.Issued? then log.issued + {outcome.access} else log.issued,
        FamilyAfter(log.family, step, outcome),
        FailuresAfter(log.failures, now, step, outcome))
  }

  function Next(w: World, step: Step): World
    requires Enabled(w, step)
  {
    var reply := Respond(w.tables, w.now, step);
    World(if step.Tick? then w.now + step.ms else w.now, reply.tables, LogAfter(w.log, w.now, step, reply.outcome))
  }

  function Answer(w: World, step: Step): Outcome
    requires Enabled(w, step)
  {
    Respond(w.tables, w.now, step).outcome
  }

  predicate IsRun(w: World, steps: seq<Step>)
    decreases |steps|
  {
    steps == [] || (Enabled(w, steps[0]) && IsRun(Next(w, steps[0]), steps[1..]))
  }

  function After(w: World, steps: seq<Step>): World
    requires IsRun(w, steps)
    decreases |steps|
  {
    if steps == [] then w else After(Next(w, steps[0]), steps[1..])
  }

  /** No users, no sessions, nothing issued. */
  function Start(now: int): World {
    World(now, Tables(map[], map[], 0), Log({}, map[], map[]))
  }

  // -------------------------------------------------------------------------
  // What a step may change
  // -------------------------------------------------------------------------

  /** A later state of the same session: revocation is written once, all else stays. */
  predicate Continues(s: Session, s': Session) {
    s'.(revokedAt := None) == s.(revokedAt := None) && (s.revokedAt.Some? ==> s'.revokedAt == s.revokedAt)
  }

  /** A later state of the tables: rows stay, token versions rise, new sessions use new tokens. */
  ghost predicate Evolves(t: Tables, t': Tables) {
    && t.supply <= t'.supply
    && (forall u :: u in t.users ==> u in t'.users && t.users[u].tokenVersion <= t'.users[u].tokenVersion)
    && (forall k :: k in t.sessions ==> k in t'.sessions && Continues(t.sessions[k], t'.sessions[k]))
    && (forall k :: k in t'.sessions && k !in t.sessions ==> t.supply <= k)
  }

  ghost predicate Consistent(t: Tables) {
    forall k :: k in t.sessions ==> k < t.supply && t.sessions[k].user in t.users
  }

  lemma EvolvesFurther(a: Tables, b: Tables, c: Tables)
    requires Evolves(a, b) && Evolves(b, c)
    ensures Evolves(a, c)
  {}

  lemma RevokingEvolves(t: Tables, u: UserId, user: User, sessions: Sessions)
    requires Consistent(t) && sessions.Keys == t.sessions.Keys
             && (u in t.users ==> user.tokenVersion >= t.users[u].tokenVersion)
    requires forall k :: k in sessions ==> Continues(t.sessions[k], sessions[k])
    ensures
      var t' := Tables(t.users[u := user], sessions, t.supply);
      Evolves(t, t') && Consistent(t')
  {}

  lemma RevocationContinues(sessions: Sessions, now: int, u: UserId, presented: Option<Payload>)
    ensures forall k :: k in sessions ==> Continues(sessions[k], RevokedAll(sessions, u, now)[k])
    ensures forall k :: k in sessions ==> Continues(sessions[k], RevokedPresented(sessions, presented, u, now)[k])
  {}

  lemma PairEvolves(t: Tables, u: UserId, now: int, lastUsedAt: Option<int>)
    requires Consistent(t) && u in t.users
    ensures Evolves(t, WithTokenPair(t, u, now, lastUsedAt).tables)
            && Consistent(WithTokenPair(t, u, now, lastUsedAt).tables)
  {}

  /** Changing a user, revoking sessions, and perhaps issuing a pair. */
  lemma ChangeEvolves(t: Tables, u: UserId, user: User, sessions: Sessions, now: int)
    requires Consistent(t) && sessions.Keys == t.sessions.Keys
             && (u in t.users ==> user.tokenVersion >= t.users[u].tokenVersion)
    requires forall k :: k in sessions ==> Continues(t.sessions[k], sessions[k])
    ensures
      var t1 := Tables(t.users[u := user], sessions, t.supply);
      var t2 := WithTokenPair(t1, u, now, None).tables;
      Evolves(t, t1) && Consistent(t1) && Evolves(t, t2) && Consistent(t2)
  {}

  lemma LoginEvolves(t: Tables, now: int, u: UserId, password: string, code: string, presented: Option<Payload>)
    requires Consistent(t)
    ensures
      var t' := T.Login(t, now, u, password, code, presented).tables;
      Evolves(t, t') && Consistent(t')
  {
    RevocationContinues(t.sessions, now, u, presented);
    if u in t.users && !Locked(t.users[u], now) {
      if t.users[u].password != password {
        var user := AfterFailure(t.users[u], now);
        RevokingEvolves(t, u, user, RevokedAll(t.sessions, u, now));
        RevokingEvolves(t, u, user, t.sessions);
      } else if t.users[u].status {
        var user := t.users[u].(failedLoginAttempts := 0, lockedUntil := None);
        RevokingEvolves(t, u, user.(otp := Some(Otp(code, now + OTP_TTL_MS))), t.sessions);
        ChangeEvolves(t, u, user, RevokedPresented(t.sessions, presented, u, now), now);
      }
    }
  }

  lemma ValidateOtpEvolves(t: Tables, now: int, u: UserId, code: string, presented: Option<Payload>)
    requires Consistent(t)
    ensures
      var t' := T.ValidateOtp(t, now, u, code, presented).tables;
      Evolves(t, t') && Consistent(t')
  {
    RevocationContinues(t.sessions, now, u, presented);
    if u in t.users {
      ChangeEvolves(t, u, t.users[u].(otp := None), RevokedPresented(t.sessions, presented, u, now), now);
    }
  }

  lemma SignupEvolves(t: Tables, now: int, u: UserId, password: string)
    requires Consistent(t)
    ensures
      var t' := T.Signup(t, now, u, password).tables;
      Evolves(t, t') && Consistent(t')
  {}

  /** The operations that raise a user's token version and revoke all of the user's sessions. */
  lemma InvalidatingEvolves(t: Tables, u: UserId, user: User, now: int)
    requires Consistent(t) && u in t.users && user.tokenVersion >= t.users[u].tokenVersion
    ensures
      var t' := t.(users := t.users[u := user], sessions := RevokedAll(t.sessions, u, now));
      Evolves(t, t') && Consistent(t')
  {}

  lemma RefreshEvolves(t: Tables, now: int, token: Token)
    requires Consistent(t)
    ensures
      var t' := T.RefreshToken(t, now, token).tables;
      Evolves(t, t') && Consistent(t')
  {
    if token in t.sessions {
      var s := t.sessions[token];
      RevocationContinues(t.sessions, now, s.user, None);
      var rotated := t.(sessions := t.sessions[token := s.(revokedAt := Some(now))]);
      if s.revokedAt.None? {
        PairEvolves(rotated, s.user, now, Some(now));
        EvolvesFurther(t, rotated, WithTokenPair(rotated, s.user, now, Some(now)).tables);
      }
    }
  }

  lemma ResetPasswordEvolves(t: Tables, now: int, token: Token, row: Option<UserId>, password: string)
    requires Consistent(t) && FoundByReset(t.users, token, row)
    ensures
      var t' := T.ResetPassword(t, now, token, row, password).tables;
      Evolves(t, t') && Consistent(t')
  {
    if row.Some? && t.users[row.value].reset.value.usedAt.None? {
      var user := t.users[row.value];
      var used := user.reset.value.(usedAt := Some(now));
      InvalidatingEvolves(t, row.value, WithPassword(user, password).(reset := Some(used)), now);
    }
  }

  lemma InvalidatingStepEvolves(t: Tables, now: int, step: Step)
    requires Consistent(t) && (step.ChangePassword? || step.LogoutAll?)
    ensures
      var t' := Respond(t, now, step).tables;
      Evolves(t, t') && Consistent(t')
  {
    if step.u in t.users {
      var user := t.users[step.u];
      var changed := if step.ChangePassword? then WithPassword(user, step.password)
                     else user.(tokenVersion := user.tokenVersion + 1);
      InvalidatingEvolves(t, step.u, changed, now);
    }
  }

  /** The steps that change users only, or nothing. */
  lemma UserStepEvolves(t: Tables, now: int, step: Step)
    requires Consistent(t) && Enabled(World(now, t, Log({}, map[], map[])), step)
    requires step.AddUser? || step.SetStatus? || step.SetTwoFactor? || step.AdminResetPassword?
             || step.RequestPasswordReset? || step.Tick?
    ensures
      var t' := Respond(t, now, step).tables;
      Evolves(t, t') && Consistent(t')
  {}

  /** The steps that end at most one session. */
  lemma EndingStepEvolves(t: Tables, now: int, step: Step)
    requires Consistent(t) && (step.RevokeSession? || step.Logout?)
    ensures
      var t' := Respond(t, now, step).tables;
      Evolves(t, t') && Consistent(t')
  {}

  lemma StepEvolves(t: Tables, now: int, step: Step)
    requires Consistent(t) && Enabled(World(now, t, Log({}, map[], map[])), step)
    ensures
      var t' := Respond(t, now, step).tables;
      Evolves(t, t') && Consistent(t')
  {
    match step
    case Login(u, password, code, presented) => LoginEvolves(t, now, u, password, code, presented);
    case ValidateOtp(u, code, presented) => ValidateOtpEvolves(t, now, u, code, presented);
    case Signup(u, password) => SignupEvolves(t, now, u, password);
    case RefreshToken(token) => RefreshEvolves(t, now, token);
    case ResetPassword(token, row, password) => ResetPasswordEvolves(t, now, token, row, password);
    case ChangePassword(_, _, _) => InvalidatingStepEvolves(t, now, step);
    case LogoutAll(_) => InvalidatingStepEvolves(t, now, step);
    case RevokeSession(_, _) => EndingStepEvolves(t, now, step);
    case Logout(_) => EndingStepEvolves(t, now, step);
    case _ => UserStepEvolves(t, now, step);
  }

  lemma {:induction false} RunEvolves(w: World, steps: seq<Step>)
    requires Consistent(w.tables) && IsRun(w, steps)
    ensures
      var t' := After(w, steps).tables;
      Evolves(w.tables, t') && Consistent(t')
    decreases |steps|
  {
    if steps != [] {
      var next := Next(w, steps[0]);
      StepEvolves(w.tables, w.now, steps[0]);
      RunEvolves(next, steps[1..]);
      EvolvesFurther(w.tables, next.tables, After(next, steps[1..]).tables);
    }
  }
}
