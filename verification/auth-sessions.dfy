/**
 Refresh-token rotation, replay detection and global invalidation, over whole runs.
 */
module AuthSessions {
  import opened Options
  import opened T = AuthTables
  import opened R = AuthRuns

  // -------------------------------------------------------------------------
  // Invariants
  // -------------------------------------------------------------------------

  ghost predicate PayloadSound(t: Tables, p: Payload) {
    && p.tokenVersion.Some? && p.session.Some?
    && p.user in t.users && p.tokenVersion.value <= t.users[p.user].tokenVersion
    && p.session.value in t.sessions && t.sessions[p.session.value].user == p.user
  }

  predicate Live(t: Tables, k: Token) {
    k in t.sessions && t.sessions[k].revokedAt.None?
  }

  /** Every session has a chain, named by its first session, and no chain has two unrevoked sessions. */
  ghost predicate ChainsSound(t: Tables, family: map<Token, Token>) {
    && family.Keys == t.sessions.Keys
    && (forall k :: k in family ==> family[k] <= k)
    && forall k, l :: Live(t, k) && Live(t, l) && family[k] == family[l] ==> k == l
  }

  ghost predicate Inv(w: World) {
    && Consistent(w.tables)
    && ChainsSound(w.tables, w.log.family)
    && forall p :: p in w.log.issued ==> PayloadSound(w.tables, p)
  }

  /** A step that issues a pair adds one unrevoked session under the next token; no other step adds any. */
  ghost predicate IssueShape(t: Tables, reply: Reply) {
    if reply.outcome.Issued? then
      && reply.outcome.refresh == t.supply && Live(reply.tables, t.supply)
      && reply.tables.sessions.Keys == t.sessions.Keys + {t.supply}
      && reply.outcome.access.session == Some(t.supply)
      && PayloadSound(reply.tables, reply.outcome.access)
    else reply.tables.sessions.Keys == t.sessions.Keys
  }

  lemma PairIssues(t: Tables, u: UserId, user: User, sessions: Sessions, now: int, lastUsedAt: Option<int>)
    requires sessions.Keys == t.sessions.Keys
    ensures IssueShape(t, WithTokenPair(Tables(t.users[u := user], sessions, t.supply), u, now, lastUsedAt))
  {}

  lemma StepIssues(t: Tables, now: int, step: Step)
    requires Consistent(t) && Enabled(World(now, t, Log({}, map[], map[])), step)
    ensures IssueShape(t, Respond(t, now, step))
  {
    match step
    case Login(u, password, code, presented) =>
      if u in t.users {
        PairIssues(t, u, t.users[u].(failedLoginAttempts := 0, lockedUntil := None),
                   RevokedPresented(t.sessions, presented, u, now), now, None);
      }
    case ValidateOtp(u, code, presented) =>
      if u in t.users {
        PairIssues(t, u, t.users[u].(otp := None), RevokedPresented(t.sessions, presented, u, now), now, None);
      }
    case Signup(u, password) => PairIssues(t, u, NewUser(password, true), t.sessions, now, None);
    case RefreshToken(token) => RefreshIssues(t, now, token);
    case _ =>
  }

  lemma RefreshIssues(t: Tables, now: int, token: Token)
    requires Consistent(t)
    ensures IssueShape(t, T.RefreshToken(t, now, token))
    ensures T.RefreshToken(t, now, token).outcome.Issued? ==>
              Live(t, token) && !Live(T.RefreshToken(t, now, token).tables, token)
  {}

  lemma StillLive(t: Tables, t': Tables, k: Token)
    requires Evolves(t, t') && k in t.sessions && Live(t', k)
    ensures Live(t, k)
  {}

  /** What keeps chains sound: a new session starts a chain, or takes over from one revoked in the same step. */
  lemma ReplyKeepsChains(t: Tables, reply: Reply, step: Step, family: map<Token, Token>)
    requires Consistent(t) && ChainsSound(t, family) && Evolves(t, reply.tables) && IssueShape(t, reply)
    requires step.RefreshToken? && reply.outcome.Issued? ==> Live(t, step.token) && !Live(reply.tables, step.token)
    ensures ChainsSound(reply.tables, FamilyAfter(family, step, reply.outcome))
  {
    var t', family' := reply.tables, FamilyAfter(family, step, reply.outcome);
    forall k, l | Live(t', k) && Live(t', l) && family'[k] == family'[l] ensures k == l {
      if k in t.sessions {
        StillLive(t, t', k);
      }
      if l in t.sessions {
        StillLive(t, t', l);
      }
    }
  }

  lemma StepKeepsChains(t: Tables, now: int, step: Step, family: map<Token, Token>)
    requires Consistent(t) && ChainsSound(t, family) && Enabled(World(now, t, Log({}, map[], map[])), step)
    ensures ChainsSound(Respond(t, now, step).tables, FamilyAfter(family, step, Respond(t, now, step).outcome))
  {
    StepIssues(t, now, step);
    StepEvolves(t, now, step);
    if step.RefreshToken? {
      RefreshIssues(t, now, step.token);
    }
    ReplyKeepsChains(t, Respond(t, now, step), step, family);
  }

  lemma PayloadStays(t: Tables, t': Tables, p: Payload)
    requires Evolves(t, t') && PayloadSound(t, p)
    ensures PayloadSound(t', p)
  {}

  lemma StepKeepsInv(w: World, step: Step)
    requires Inv(w) && Enabled(w, step)
    ensures Inv(Next(w, step))
  {
    var w' := Next(w, step);
    StepEvolves(w.tables, w.now, step);
    StepIssues(w.tables, w.now, step);
    StepKeepsChains(w.tables, w.now, step, w.log.family);
    forall p | p in w'.log.issued ensures PayloadSound(w'.tables, p) {
      if p in w.log.issued {
        PayloadStays(w.tables, w'.tables, p);
      }
    }
  }

  lemma {:induction false} RunKeepsInv(w: World, steps: seq<Step>)
    requires Inv(w) && IsRun(w, steps)
    ensures Inv(After(w, steps))
    decreases |steps|
  {
    if steps != [] {
      StepKeepsInv(w, steps[0]);
      RunKeepsInv(Next(w, steps[0]), steps[1..]);
    }
  }

  /** The invariant holds at every point of every run. */
  lemma {:induction false} ReachableInv(now: int, steps: seq<Step>)
    requires IsRun(Start(now), steps)
    ensures Inv(After(Start(now), steps))
  {
    RunKeepsInv(Start(now), steps);
  }

  /** At every point of every run, a rotation chain has at most one unrevoked session. */
  lemma {:induction false} OneLivePerChain(now: int, steps: seq<Step>, k: Token, l: Token)
    requires IsRun(Start(now), steps)
    requires Live(After(Start(now), steps).tables, k) && Live(After(Start(now), steps).tables, l)
    ensures
      var family := After(Start(now), steps).log.family;
      k in family && l in family && (family[k] == family[l] ==> k == l)
  {
    ReachableInv(now, steps);
  }

  // -------------------------------------------------------------------------
  // Revocation lasts
  // -------------------------------------------------------------------------

  /** Once written, a revocation time is never rewritten; nothing else of a session ever changes. */
  lemma {:induction false} RevokedForever(w: World, steps: seq<Step>, k: Token)
    requires Inv(w) && IsRun(w, steps) && k in w.tables.sessions
    ensures k in After(w, steps).tables.sessions && Continues(w.tables.sessions[k], After(w, steps).tables.sessions[k])
  {
    RunEvolves(w, steps);
  }

  /** A refresh token that has been exchanged for a new pair is refused at any later time. */
  lemma {:induction false} RefreshOnce(w: World, token: Token, steps: seq<Step>)
    requires Inv(w) && Answer(w, RefreshToken(token)).Issued? && IsRun(Next(w, RefreshToken(token)), steps)
    ensures Answer(After(Next(w, RefreshToken(token)), steps), RefreshToken(token)) == Rejected(InvalidRefreshToken)
  {
    var next := Next(w, RefreshToken(token));
    StepKeepsInv(w, RefreshToken(token));
    StepEvolves(w.tables, w.now, RefreshToken(token));
    RefreshIssues(w.tables, w.now, token);
    RevokedForever(next, steps, token);
  }

  /** Nothing issued to the user before is accepted: no access token, no refresh token. */
  ghost predicate ShutOut(u: UserId, before: World, after: World) {
    && (forall p :: p in before.log.issued && p.user == u ==> Validate(after.tables, after.now, p).Rejected?)
    && forall k :: k in before.tables.sessions && before.tables.sessions[k].user == u ==>
         T.RefreshToken(after.tables, after.now, k).outcome == Rejected(InvalidRefreshToken)
  }

  ghost predicate AllRevoked(u: UserId, before: Tables, after: Tables) {
    forall k :: k in before.sessions && before.sessions[k].user == u ==>
        k in after.sessions && after.sessions[k].revokedAt.Some?
  }

  lemma {:induction false} AllRevokedStays(u: UserId, before: Tables, w: World, steps: seq<Step>)
    requires Inv(w) && IsRun(w, steps) && AllRevoked(u, before, w.tables)
    ensures AllRevoked(u, before, After(w, steps).tables)
  {
    forall k | k in before.sessions && before.sessions[k].user == u
      ensures k in After(w, steps).tables.sessions && After(w, steps).tables.sessions[k].revokedAt.Some?
    {
      RevokedForever(w, steps, k);
    }
  }

  lemma RevokedShutsOut(u: UserId, before: World, after: World)
    requires Inv(before) && AllRevoked(u, before.tables, after.tables)
    ensures ShutOut(u, before, after)
  {}

  /**
   Presenting a revoked refresh token leaves its owner with no unrevoked session, and shuts
   out, for good, everything issued to the owner so far.
   */
  lemma {:induction false} ReplayShutsOut(w: World, token: Token, steps: seq<Step>)
    requires Inv(w) && token in w.tables.sessions && w.tables.sessions[token].revokedAt.Some?
    requires IsRun(Next(w, RefreshToken(token)), steps)
    ensures
      var u, next := w.tables.sessions[token].user, Next(w, RefreshToken(token));
      && (forall k :: Live(next.tables, k) ==> next.tables.sessions[k].user != u)
      && ShutOut(u, w, After(next, steps))
  {
    var u, next := w.tables.sessions[token].user, Next(w, RefreshToken(token));
    StepKeepsInv(w, RefreshToken(token));
    assert AllRevoked(u, w.tables, next.tables);
    AllRevokedStays(u, w.tables, next, steps);
    RevokedShutsOut(u, w, After(next, steps));
  }

  // -------------------------------------------------------------------------
  // Global invalidation
  // -------------------------------------------------------------------------

  /** The step changes or resets the user's password, logs the user out everywhere, or locks the account. */
  predicate Invalidates(w: World, step: Step, u: UserId)
    requires Enabled(w, step)
  {
    && u in w.tables.users
    && match step
       case ChangePassword(who, _, _) => who == u && Answer(w, step) == Done
       case ResetPassword(_, row, _) => row == Some(u) && Answer(w, step) == Done
       case LogoutAll(who) => who == u
       case Login(who, _, _, _) => who == u && !Locked(w.tables.users[u], w.now)
           && Locked(Next(w, step).tables.users[u], w.now)
       case _ => false
  }

  lemma InvalidatingRevokes(w: World, step: Step, u: UserId)
    requires Inv(w) && Enabled(w, step) && Invalidates(w, step, u)
    ensures AllRevoked(u, w.tables, Next(w, step).tables)
    ensures Next(w, step).tables.users[u].tokenVersion == w.tables.users[u].tokenVersion + 1
  {}

  /**
   Global invalidation: after a changed or reset password, a logout everywhere or a lockout,
   nothing issued to the user earlier is accepted at any later point of any run; each old
   access token is behind the user's token version, and its session is revoked.
   */
  lemma {:induction false} GlobalInvalidation(w: World, step: Step, u: UserId, steps: seq<Step>)
    requires Inv(w) && Enabled(w, step) && Invalidates(w, step, u) && IsRun(Next(w, step), steps)
    ensures
      var later := After(Next(w, step), steps);
      && ShutOut(u, w, later)
      && forall p :: p in w.log.issued && p.user == u ==>
           u in later.tables.users && p.tokenVersion.value < later.tables.users[u].tokenVersion
  {
    var next := Next(w, step);
    StepKeepsInv(w, step);
    InvalidatingRevokes(w, step, u);
    AllRevokedStays(u, w.tables, next, steps);
    RevokedShutsOut(u, w, After(next, steps));
    RunEvolves(next, steps);
    forall p | p in w.log.issued && p.user == u
      ensures p.tokenVersion.value < After(next, steps).tables.users[u].tokenVersion
    {
      assert PayloadSound(w.tables, p);
    }
  }

  // -------------------------------------------------------------------------
  // Ending one session
  // -------------------------------------------------------------------------

  /**
   The step ends this session: by its owner, by logging out with it, or by another user logging in
   over its access token.
   */
  predicate Ends(w: World, step: Step, k: Token)
    requires Enabled(w, step)
  {
    && k in w.tables.sessions
    && match step
       case RevokeSession(_, session) => session == k && Answer(w, step) == Done
       case Logout(token) => token == k
       case Login(u, _, _, presented) => Presents(w, presented, u, k) && Answer(w, step).Issued?
       case ValidateOtp(u, _, presented) => Presents(w, presented, u, k) && Answer(w, step).Issued?
       case _ => false
  }

  predicate Presents(w: World, presented: Option<Payload>, u: UserId, k: Token) {
    presented.Some? && presented.value in w.log.issued && presented.value.session == Some(k)
        && presented.value.user != u
  }

  lemma EndingRevokes(w: World, step: Step, k: Token)
    requires Inv(w) && Enabled(w, step) && Ends(w, step, k)
    ensures k in Next(w, step).tables.sessions && Next(w, step).tables.sessions[k].revokedAt.Some?
  {
    if step.Login? || step.ValidateOtp? {
      assert PayloadSound(w.tables, step.presented.value);
    }
  }

  /** A session that has been ended is never refreshed again, and its access tokens are refused for good. */
  lemma {:induction false} EndedForever(w: World, step: Step, k: Token, steps: seq<Step>, p: Payload)
    requires Inv(w) && Enabled(w, step) && Ends(w, step, k) && IsRun(Next(w, step), steps) && p.session == Some(k)
    ensures
      var later := After(Next(w, step), steps);
      && T.RefreshToken(later.tables, later.now, k).outcome == Rejected(InvalidRefreshToken)
      && Validate(later.tables, later.now, p).Rejected?
  {
    StepKeepsInv(w, step);
    EndingRevokes(w, step, k);
    RevokedForever(Next(w, step), steps, k);
  }
}
