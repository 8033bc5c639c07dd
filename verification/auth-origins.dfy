/**
 What a session goes back to once everything issued before has been invalidated: a new proof of who
 the user is. And which secrets an invalidation leaves in force.
 */
module AuthOrigins {
  import opened Options
  import opened T = AuthTables
  import opened R = AuthRuns
  import opened AuthSessions
  import opened AuthLimits
  import opened AuthAnswers

  /** The step logs an active, unlocked user without two-factor login in with the password of that time. */
  predicate LogsIn(w: World, step: Step, u: UserId) {
    step.Login? && step.u == u && MayEnter(w, u, step.password) && !w.tables.users[u].twoFactor
  }

  /** The step presents the code that the user holds at that time, before it expires. */
  predicate GivesCode(w: World, step: Step, u: UserId) {
    && step.ValidateOtp? && step.u == u && u in w.tables.users && w.tables.users[u].otp.Some?
    && w.tables.users[u].otp.value.code == step.code && w.now <= w.tables.users[u].otp.value.expiry
  }

  predicate SignsUp(w: World, step: Step, u: UserId) {
    step.Signup? && step.u == u && u !in w.tables.users
  }

  /** What a new chain of sessions can start with. */
  predicate Proves(w: World, step: Step, u: UserId) {
    LogsIn(w, step, u) || GivesCode(w, step, u) || SignsUp(w, step, u)
  }

  /** A pair is issued for a proof of identity, or in exchange for a live session of the same user. */
  lemma IssuedFor(w: World, step: Step)
    requires Inv(w) && Enabled(w, step) && Answer(w, step).Issued?
    ensures
      var u := Answer(w, step).access.user;
      && Answer(w, step).refresh == w.tables.supply
      && Next(w, step).tables.sessions.Keys == w.tables.sessions.Keys + {w.tables.supply}
      && Next(w, step).tables.sessions[w.tables.supply].user == u
      && if step.RefreshToken? then Live(w.tables, step.token) && w.tables.sessions[step.token].user == u
         else Proves(w, step, u)
  {
    StepIssues(w.tables, w.now, step);
  }

  lemma SessionsOnlyIssued(w: World, step: Step)
    requires Inv(w) && Enabled(w, step) && !Answer(w, step).Issued?
    ensures Next(w, step).tables.sessions.Keys == w.tables.sessions.Keys
  {
    StepIssues(w.tables, w.now, step);
  }

  lemma {:induction false} AtInv(start: int, steps: seq<Step>, n: nat)
    requires IsRun(Start(start), steps) && n <= |steps|
    ensures Inv(At(Start(start), steps, n))
  {
    assert steps[..n] + steps[n..] == steps;
    RunsJoin(Start(start), steps[..n], steps[n..]);
    ReachableInv(start, steps[..n]);
  }

  // -------------------------------------------------------------------------
  // A new proof is needed
  // -------------------------------------------------------------------------

  /** A session of the user. */
  predicate SessionOf(w: World, k: Token, u: UserId) {
    k in w.tables.sessions && w.tables.sessions[k].user == u
  }

  /** Step j issued the first session of a chain, for a proof that the user gave in it. */
  ghost predicate StartedBy(w: World, steps: seq<Step>, j: nat, first: Token, u: UserId)
    requires IsRun(w, steps)
  {
    && j < |steps| && Enabled(At(w, steps, j), steps[j])
    && Answer(At(w, steps, j), steps[j]).Issued? && Answer(At(w, steps, j), steps[j]).refresh == first
    && Proves(At(w, steps, j), steps[j], u)
  }

  lemma SameBefore(w: World, step: Step, k: Token, u: UserId)
    requires Inv(w) && Enabled(w, step) && k in w.tables.sessions && SessionOf(Next(w, step), k, u)
    ensures SessionOf(w, k, u) && (Live(Next(w, step).tables, k) ==> Live(w.tables, k))
  {
    StepEvolves(w.tables, w.now, step);
    assert Continues(w.tables.sessions[k], Next(w, step).tables.sessions[k]);
  }

  lemma ChainStays(w: World, step: Step, k: Token)
    requires Inv(w) && Enabled(w, step) && k in w.tables.sessions
    ensures k in w.log.family && k in Next(w, step).log.family && Next(w, step).log.family[k] == w.log.family[k]
  {
    if Answer(w, step).Issued? {
      IssuedFor(w, step);
    }
  }

  /** The session that a step adds: started by a proof, or continuing the chain of a live session. */
  lemma NewStarts(w: World, step: Step, k: Token, u: UserId)
    requires Inv(w) && Enabled(w, step) && k !in w.tables.sessions && SessionOf(Next(w, step), k, u)
    ensures Answer(w, step).Issued? && Answer(w, step).refresh == k && k in Next(w, step).log.family
    ensures
      if step.RefreshToken? then
        SessionOf(w, step.token, u) && Live(w.tables, step.token) && step.token in w.log.family
        && Next(w, step).log.family[k] == w.log.family[step.token]
      else Next(w, step).log.family[k] == k && Proves(w, step, u)
  {
    if Answer(w, step).Issued? {
      IssuedFor(w, step);
    } else {
      SessionsOnlyIssued(w, step);
    }
  }

  /** Before the step: the same session, the one it was exchanged for, or none, if the step starts the chain. */
  lemma Predecessor(w: World, step: Step, k: Token, u: UserId) returns (before: Option<Token>)
    requires Inv(w) && Enabled(w, step) && SessionOf(Next(w, step), k, u)
    ensures k in Next(w, step).log.family
    ensures
      match before
      case Some(l) =>
        SessionOf(w, l, u) && (Live(Next(w, step).tables, k) ==> Live(w.tables, l)) && l in w.log.family
        && Next(w, step).log.family[k] == w.log.family[l]
      case None =>
        && Answer(w, step).Issued? && Answer(w, step).refresh == Next(w, step).log.family[k] && Proves(w, step, u)
  {
    if k in w.tables.sessions {
      SameBefore(w, step, k, u);
      ChainStays(w, step, k);
      before := Some(k);
    } else {
      NewStarts(w, step, k, u);
      before := if step.RefreshToken? then Some(step.token) else None;
    }
  }

  lemma {:induction false} StillKnown(start: int, steps: seq<Step>, m: nat, n: nat, u: UserId)
    requires IsRun(Start(start), steps) && m <= n <= |steps| && u in At(Start(start), steps, m).tables.users
    ensures u in At(Start(start), steps, n).tables.users
    decreases n
  {
    if m < n {
      StillKnown(start, steps, m, n - 1, u);
      AtInv(start, steps, n - 1);
      AtNext(Start(start), steps, n - 1);
      UserStays(At(Start(start), steps, n - 1), steps[n - 1], u);
    }
  }

  lemma NoneLeft(w: World, step: Step, u: UserId, k: Token)
    requires Inv(w) && Enabled(w, step) && Invalidates(w, step, u) && SessionOf(Next(w, step), k, u)
    ensures !Live(Next(w, step).tables, k)
  {
    InvalidatingRevokes(w, step, u);
    SessionsOnlyIssued(w, step);
    StepEvolves(w.tables, w.now, step);
  }

  /** Step m changes or resets the user's password, logs the user out everywhere, or locks the account. */
  ghost predicate Invalidated(start: int, steps: seq<Step>, m: nat, u: UserId)
    requires IsRun(Start(start), steps)
  {
    && m < |steps| && Enabled(At(Start(start), steps, m), steps[m])
    && Invalidates(At(Start(start), steps, m), steps[m], u)
  }

  lemma {:induction false} NoneLeftAt(start: int, steps: seq<Step>, m: nat, k: Token, u: UserId)
    requires IsRun(Start(start), steps) && Invalidated(start, steps, m, u)
    requires SessionOf(At(Start(start), steps, m + 1), k, u)
    ensures !Live(At(Start(start), steps, m + 1).tables, k)
  {
    AtInv(start, steps, m);
    AtNext(Start(start), steps, m);
    NoneLeft(At(Start(start), steps, m), steps[m], u, k);
  }

  /** What Predecessor says of step n - 1 of a run. */
  lemma {:induction false} PredecessorAt(start: int, steps: seq<Step>, n: nat, k: Token, u: UserId)
    returns (before: Option<Token>)
    requires IsRun(Start(start), steps) && 0 < n <= |steps| && SessionOf(At(Start(start), steps, n), k, u)
    ensures k in At(Start(start), steps, n).log.family
    ensures
      match before
      case Some(l) =>
        && SessionOf(At(Start(start), steps, n - 1), l, u)
        && (Live(At(Start(start), steps, n).tables, k) ==> Live(At(Start(start), steps, n - 1).tables, l))
        && l in At(Start(start), steps, n - 1).log.family
        && At(Start(start), steps, n).log.family[k] == At(Start(start), steps, n - 1).log.family[l]
      case None => StartedBy(Start(start), steps, n - 1, At(Start(start), steps, n).log.family[k], u)
  {
    AtInv(start, steps, n - 1);
    AtNext(Start(start), steps, n - 1);
    before := Predecessor(At(Start(start), steps, n - 1), steps[n - 1], k, u);
  }

  /**
   Every session goes back, through refreshes, to a sign-up, a login of a user without two-factor
   login at that time, or a code. From a live session the proof comes after the last invalidation.
   */
  lemma {:induction false} SessionOrigin(start: int, steps: seq<Step>, m: Option<nat>, n: nat, k: Token, u: UserId)
    returns (j: nat)
    requires IsRun(Start(start), steps) && n <= |steps| && SessionOf(At(Start(start), steps, n), k, u)
    requires m.Some? ==> m.value < n && Invalidated(start, steps, m.value, u)
    requires m.Some? ==> Live(At(Start(start), steps, n).tables, k)
    ensures k in At(Start(start), steps, n).log.family
    ensures j < n && StartedBy(Start(start), steps, j, At(Start(start), steps, n).log.family[k], u)
    ensures m.Some? ==> m.value < j
    decreases n
  {
    if n == 0 {
      assert false;
    } else {
      if m == Some(n - 1) {
        NoneLeftAt(start, steps, n - 1, k, u);
      }
      var before := PredecessorAt(start, steps, n, k, u);
      if before.Some? {
        j := SessionOrigin(start, steps, m, n - 1, before.value, u);
      } else {
        j := n - 1;
      }
    }
  }

  /**
   Step i sent the code that step j presents within five minutes, to a user with two-factor login,
   for the password of that time.
   */
  ghost predicate CodeSent(w: World, steps: seq<Step>, i: nat, j: nat, u: UserId)
    requires IsRun(w, steps) && j < |steps|
  {
    && i < j && Enabled(At(w, steps, i), steps[i]) && Answer(At(w, steps, i), steps[i]) == OtpSent
    && steps[i].Login? && steps[i].u == u && MayEnter(At(w, steps, i), u, steps[i].password)
    && At(w, steps, i).tables.users[u].twoFactor
    && steps[j].ValidateOtp? && steps[j].code == steps[i].code
    && At(w, steps, j).now <= At(w, steps, i).now + 5 * 60 * 1000
  }

  lemma {:induction false} CodeOrigin(start: int, steps: seq<Step>, j: nat, u: UserId) returns (i: nat)
    requires IsRun(Start(start), steps) && j < |steps|
    requires GivesCode(At(Start(start), steps, j), steps[j], u)
    ensures CodeSent(Start(start), steps, i, j, u)
  {
    i := OtpOrigin(start, steps, j, u);
    var w := At(Start(start), steps, i);
    LoginIff(w, u, steps[i].password, steps[i].code, steps[i].presented);
  }

  /**
   After a changed or reset password, a logout everywhere or a lockout, every session of the user
   that is live at any later point goes back, through refreshes, to a login after it with the
   password of that time, by a user without two-factor login then, or to a code that a login with
   the password and two-factor login sent at most five minutes earlier. The code may have been sent
   before.
   */
  lemma {:induction false} NewProofNeeded(start: int, steps: seq<Step>, m: nat, k: Token, u: UserId)
    returns (j: nat, i: nat)
    requires IsRun(Start(start), steps) && Invalidated(start, steps, m, u)
    requires SessionOf(After(Start(start), steps), k, u) && Live(After(Start(start), steps).tables, k)
    ensures k in After(Start(start), steps).log.family
    ensures m < j && StartedBy(Start(start), steps, j, After(Start(start), steps).log.family[k], u)
    ensures LogsIn(At(Start(start), steps, j), steps[j], u) || CodeSent(Start(start), steps, i, j, u)
  {
    assert steps[..|steps|] == steps;
    j := SessionOrigin(start, steps, Some(m), |steps|, k, u);
    i := 0;
    StillKnown(start, steps, m, j, u);
    if !LogsIn(At(Start(start), steps, j), steps[j], u) {
      i := CodeOrigin(start, steps, j, u);
    }
  }

  /** A session of a user who has had two-factor login since before its chain started goes back to a code. */
  lemma {:induction false} TwoFactorNeedsCode(start: int, steps: seq<Step>, m: nat, k: Token, u: UserId)
    returns (j: nat, i: nat)
    requires IsRun(Start(start), steps) && SessionOf(After(Start(start), steps), k, u) && m <= |steps|
    requires forall n :: m <= n <= |steps| ==>
               u in At(Start(start), steps, n).tables.users && At(Start(start), steps, n).tables.users[u].twoFactor
    ensures k in After(Start(start), steps).log.family
    ensures StartedBy(Start(start), steps, j, After(Start(start), steps).log.family[k], u)
    ensures j < m || CodeSent(Start(start), steps, i, j, u)
  {
    assert steps[..|steps|] == steps;
    j := SessionOrigin(start, steps, None, |steps|, k, u);
    i := 0;
    if m <= j {
      i := CodeOrigin(start, steps, j, u);
    }
  }

  // -------------------------------------------------------------------------
  // When a session ends
  // -------------------------------------------------------------------------

  lemma {:induction false} LocksHoldAlways(start: int, steps: seq<Step>, u: UserId)
    requires IsRun(Start(start), steps) && u in After(Start(start), steps).tables.users
    ensures LocksHold(After(Start(start), steps).tables.users[u])
  {
    RunKeepsLocks(Start(start), steps);
    var w := After(Start(start), steps);
    assert LockSound(w.tables.users[u], w.log.failures[u], w.now);
  }

  /**
   At every point of every run, a live session is revoked by a step exactly if the step ends it, and
   otherwise stays as it is.
   */
  lemma {:induction false} SessionEndsWhen(start: int, steps: seq<Step>, step: Step, k: Token)
    requires IsRun(Start(start), steps) && Enabled(After(Start(start), steps), step)
    requires Live(After(Start(start), steps).tables, k)
    ensures k in Next(After(Start(start), steps), step).tables.sessions
    ensures
      var w := After(Start(start), steps);
      Next(w, step).tables.sessions[k] ==
      if EndsSession(w, step, k) then w.tables.sessions[k].(revokedAt := Some(w.now)) else w.tables.sessions[k]
  {
    ReachableInv(start, steps);
    if step.Login? && step.u in After(Start(start), steps).tables.users {
      LocksHoldAlways(start, steps, step.u);
    }
    SessionEndsIff(After(Start(start), steps), step, k);
  }

  // -------------------------------------------------------------------------
  // How long a refresh token lasts
  // -------------------------------------------------------------------------

  /** Step j issued the session k, in a refresh or otherwise. */
  ghost predicate IssuedAt(w: World, steps: seq<Step>, j: nat, k: Token, s: Session)
    requires IsRun(w, steps)
  {
    && j < |steps| && Enabled(At(w, steps, j), steps[j])
    && Answer(At(w, steps, j), steps[j]).Issued? && Answer(At(w, steps, j), steps[j]).refresh == k
    && LastUse(s) == At(w, steps, j).now && s.expiresAt == At(w, steps, j).now + 30 * 24 * 60 * 60 * 1000
  }

  lemma SessionTimes(w: World, step: Step, k: Token)
    requires Inv(w) && Enabled(w, step) && k in Next(w, step).tables.sessions
    ensures
      var s := Next(w, step).tables.sessions[k];
      if k in w.tables.sessions then
        LastUse(s) == LastUse(w.tables.sessions[k]) && s.expiresAt == w.tables.sessions[k].expiresAt
      else
        && Answer(w, step).Issued? && Answer(w, step).refresh == k
        && LastUse(s) == w.now && s.expiresAt == w.now + 30 * 24 * 60 * 60 * 1000
  {
    if k in w.tables.sessions {
      StepEvolves(w.tables, w.now, step);
      assert Continues(w.tables.sessions[k], Next(w, step).tables.sessions[k]);
    } else {
      NewStarts(w, step, k, Next(w, step).tables.sessions[k].user);
      NewSession(w, step);
    }
  }

  lemma {:induction false} IssueTime(start: int, steps: seq<Step>, n: nat, k: Token) returns (j: nat)
    requires IsRun(Start(start), steps) && n <= |steps| && k in At(Start(start), steps, n).tables.sessions
    ensures j < n && IssuedAt(Start(start), steps, j, k, At(Start(start), steps, n).tables.sessions[k])
    decreases n
  {
    if n == 0 {
      assert false;
    } else {
      var w := At(Start(start), steps, n - 1);
      AtInv(start, steps, n - 1);
      AtNext(Start(start), steps, n - 1);
      SessionTimes(w, steps[n - 1], k);
      if k in w.tables.sessions {
        j := IssueTime(start, steps, n - 1, k);
      } else {
        j := n - 1;
      }
    }
  }

  /**
   At every point of every run, a refresh token is exchanged exactly if it was issued at most seven
   days ago, its session has not been revoked, and its user is active.
   */
  lemma {:induction false} ExchangeWindow(start: int, steps: seq<Step>, k: Token) returns (j: nat)
    requires IsRun(Start(start), steps) && k in After(Start(start), steps).tables.sessions
    ensures IssuedAt(Start(start), steps, j, k, After(Start(start), steps).tables.sessions[k])
    ensures
      var w := After(Start(start), steps);
      var s := w.tables.sessions[k];
      s.user in w.tables.users
      && (Answer(w, RefreshToken(k)).Issued? <==>
          s.revokedAt == None && w.tables.users[s.user].status
          && w.now <= At(Start(start), steps, j).now + 7 * 24 * 60 * 60 * 1000)
  {
    assert steps[..|steps|] == steps;
    ReachableInv(start, steps);
    j := IssueTime(start, steps, |steps|, k);
    RefreshIff(After(Start(start), steps), k);
  }

  // -------------------------------------------------------------------------
  // What an invalidation leaves in force
  // -------------------------------------------------------------------------

  /** An invalidation uses up no code, and no reset token but the one presented. */
  lemma SecretsKept(w: World, step: Step, u: UserId)
    requires Enabled(w, step) && Invalidates(w, step, u)
    ensures u in Next(w, step).tables.users && Next(w, step).now == w.now
    ensures Next(w, step).tables.users[u].otp == w.tables.users[u].otp
    ensures !step.ResetPassword? ==> Next(w, step).tables.users[u].reset == w.tables.users[u].reset
  {}

  /** The codes that yield tokens right after an invalidation are those that did right before. */
  lemma CodesSurvive(w: World, step: Step, u: UserId, code: string, presented: Option<Payload>)
    requires Enabled(w, step) && Invalidates(w, step, u)
    ensures Answer(Next(w, step), ValidateOtp(u, code, presented)).Issued? <==>
            Answer(w, ValidateOtp(u, code, presented)).Issued?
  {
    SecretsKept(w, step, u);
  }

  /** So are, unless one was just used, the reset tokens that change the password. */
  lemma ResetTokensSurvive(w: World, step: Step, u: UserId, token: Token, password: string)
    requires Enabled(w, step) && Invalidates(w, step, u) && !step.ResetPassword?
    requires HoldsReset(w.tables.users[u], token)
    ensures Enabled(w, ResetPassword(token, Some(u), password))
    ensures Enabled(Next(w, step), ResetPassword(token, Some(u), password))
    ensures Answer(Next(w, step), ResetPassword(token, Some(u), password)) ==
            Answer(w, ResetPassword(token, Some(u), password))
  {
    SecretsKept(w, step, u);
  }

  /**
   A password reset by an administrator is weaker: access tokens issued to the user before are
   refused for good, but refresh tokens are exchanged as before.
   */
  lemma {:induction false} AdminResetKeepsSessions(w: World, u: UserId, password: string, k: Token, p: Payload,
                                                   steps: seq<Step>)
    requires Inv(w) && u in w.tables.users && p in w.log.issued && p.user == u
    requires IsRun(Next(w, AdminResetPassword(u, password)), steps)
    ensures
      var next := Next(w, AdminResetPassword(u, password));
      && Validate(After(next, steps).tables, After(next, steps).now, p).Rejected?
      && (Answer(next, RefreshToken(k)).Issued? <==> Answer(w, RefreshToken(k)).Issued?)
  {
    BehindVersion(w, u, password, p);
    RefreshAfterReset(w, u, password, k);
    RunEvolves(Next(w, AdminResetPassword(u, password)), steps);
  }

  lemma BehindVersion(w: World, u: UserId, password: string, p: Payload)
    requires Inv(w) && u in w.tables.users && p in w.log.issued && p.user == u
    ensures
      var t' := Next(w, AdminResetPassword(u, password)).tables;
      Consistent(t') && u in t'.users && p.tokenVersion.Some? && p.tokenVersion.value < t'.users[u].tokenVersion
  {
    assert PayloadSound(w.tables, p);
    StepEvolves(w.tables, w.now, AdminResetPassword(u, password));
  }

  lemma RefreshAfterReset(w: World, u: UserId, password: string, k: Token)
    requires u in w.tables.users
    ensures Answer(Next(w, AdminResetPassword(u, password)), RefreshToken(k)).Issued? <==>
            Answer(w, RefreshToken(k)).Issued?
  {}
}
