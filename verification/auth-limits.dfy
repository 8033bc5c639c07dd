/**
 What limits guessing and reuse over whole runs: the timed lockout after failed passwords, and
 reset tokens that work once, for an hour, and only while they are the latest.
 */
module AuthLimits {
  import opened Options
  import opened T = AuthTables
  import opened R = AuthRuns

  // -------------------------------------------------------------------------
  // Lockout
  // -------------------------------------------------------------------------

  /**
   The failed password comparisons of one user since the last login that got past them: the
   counter counts them, the lock is set by the fifth and renewed by each one after it, and none
   of those came before the lock of the one before had run out.
   */
  predicate LockSound(user: User, failures: seq<int>, now: int) {
    && user.failedLoginAttempts == |failures|
    && user.lockedUntil ==
       (if |failures| >= MAX_FAILED_ATTEMPTS then Some(failures[|failures| - 1] + LOCK_DURATION_MS) else None)
    && (failures != [] ==> failures[|failures| - 1] <= now)
    && (forall k :: 0 < k < |failures| ==> failures[k - 1] <= failures[k])
    && forall k :: MAX_FAILED_ATTEMPTS <= k < |failures| ==> failures[k - 1] + LOCK_DURATION_MS <= failures[k]
  }

  ghost predicate LocksSound(t: Tables, failures: map<UserId, seq<int>>, now: int) {
    failures.Keys == t.users.Keys && forall u :: u in t.users ==> LockSound(t.users[u], failures[u], now)
  }

  lemma OneMoreFailure(user: User, failures: seq<int>, now: int)
    requires LockSound(user, failures, now) && !Locked(user, now)
    ensures LockSound(AfterFailure(user, now), failures + [now], now)
  {}

  predicate SameCounters(user: User, user': User) {
    user'.failedLoginAttempts == user.failedLoginAttempts && user'.lockedUntil == user.lockedUntil
  }

  predicate CountersReset(user: User) {
    user.failedLoginAttempts == 0 && user.lockedUntil.None?
  }

  /** The step adds a user. */
  predicate Registers(t: Tables, now: int, step: Step)
    requires Enabled(World(now, t, Log({}, map[], map[])), step)
  {
    step.AddUser? || (step.Signup? && !Respond(t, now, step).outcome.Rejected?)
  }

  /** No step other than a login touches a known user's counters. */
  lemma OthersKeepCounters(t: Tables, now: int, step: Step, u: UserId)
    requires Enabled(World(now, t, Log({}, map[], map[])), step) && !step.Login?
    ensures
      var t' := Respond(t, now, step).tables;
      && (u in t.users ==> u in t'.users && SameCounters(t.users[u], t'.users[u]))
      && (u in t'.users && u !in t.users ==>
            CountersReset(t'.users[u]) && Registers(t, now, step) && step.u == u)
      && (Registers(t, now, step) ==> step.u in t'.users && step.u !in t.users)
  {}

  /** What a login does to the counters of the user: nothing, one more failure, or a fresh start. */
  lemma LoginCounters(t: Tables, now: int, step: Step, failures: map<UserId, seq<int>>)
    requires step.Login? && step.u in t.users && step.u in failures
    ensures
      var reply := Respond(t, now, step);
      var user, user', failures' := t.users[step.u], reply.tables.users[step.u],
          FailuresAfter(failures, now, step, reply.outcome);
      && reply.tables.users == t.users[step.u := user']
      && ((user' == user && failures' == failures)
          || (!Locked(user, now) && user' == AfterFailure(user, now)
              && failures' == failures[step.u := failures[step.u] + [now]])
          || (CountersReset(user') && failures' == failures[step.u := []]))
  {}

  lemma LoginKeepsLocks(t: Tables, failures: map<UserId, seq<int>>, now: int, step: Step)
    requires LocksSound(t, failures, now) && step.Login?
    ensures
      var reply := Respond(t, now, step);
      LocksSound(reply.tables, FailuresAfter(failures, now, step, reply.outcome), now)
  {
    if step.u in t.users {
      LoginCounters(t, now, step, failures);
      if !Locked(t.users[step.u], now) {
        OneMoreFailure(t.users[step.u], failures[step.u], now);
      }
    }
  }

  lemma OthersKeepLocks(t: Tables, failures: map<UserId, seq<int>>, now: int, step: Step)
    requires Enabled(World(now, t, Log({}, map[], map[])), step)
    requires LocksSound(t, failures, now) && !step.Login?
    ensures
      var reply := Respond(t, now, step);
      LocksSound(reply.tables, FailuresAfter(failures, now, step, reply.outcome), now)
  {
    var reply := Respond(t, now, step);
    var failures' := FailuresAfter(failures, now, step, reply.outcome);
    forall u ensures u in failures' <==> u in reply.tables.users {
      OthersKeepCounters(t, now, step, u);
    }
    forall u | u in reply.tables.users ensures LockSound(reply.tables.users[u], failures'[u], now) {
      OthersKeepCounters(t, now, step, u);
    }
  }

  lemma TimePasses(t: Tables, failures: map<UserId, seq<int>>, now: int, later: int)
    requires LocksSound(t, failures, now) && now <= later
    ensures LocksSound(t, failures, later)
  {}

  lemma StepKeepsLocks(w: World, step: Step)
    requires LocksSound(w.tables, w.log.failures, w.now) && Enabled(w, step)
    ensures
      var next := Next(w, step);
      LocksSound(next.tables, next.log.failures, next.now)
  {
    var next := Next(w, step);
    if step.Login? {
      LoginKeepsLocks(w.tables, w.log.failures, w.now, step);
    } else {
      OthersKeepLocks(w.tables, w.log.failures, w.now, step);
    }
    TimePasses(next.tables, next.log.failures, w.now, next.now);
  }

  lemma {:induction false} RunKeepsLocks(w: World, steps: seq<Step>)
    requires LocksSound(w.tables, w.log.failures, w.now) && IsRun(w, steps)
    ensures
      var w' := After(w, steps);
      LocksSound(w'.tables, w'.log.failures, w'.now)
    decreases |steps|
  {
    if steps != [] {
      StepKeepsLocks(w, steps[0]);
      RunKeepsLocks(Next(w, steps[0]), steps[1..]);
    }
  }

  lemma {:induction false} FailuresSpread(failures: seq<int>, k: nat)
    requires forall i :: MAX_FAILED_ATTEMPTS <= i < |failures| ==> failures[i - 1] + LOCK_DURATION_MS <= failures[i]
    requires MAX_FAILED_ATTEMPTS - 1 <= k < |failures|
    ensures failures[MAX_FAILED_ATTEMPTS - 1] + LOCK_DURATION_MS * (k - (MAX_FAILED_ATTEMPTS - 1)) <= failures[k]
  {
    if k > MAX_FAILED_ATTEMPTS - 1 {
      FailuresSpread(failures, k - 1);
    }
  }

  /**
   The lockout, at every point of every run: an account has a lock time exactly when its
   counter has reached five, and of the failed comparisons since the last reset the j-th after
   the fifth came at least fifteen minutes times j after it.
   */
  lemma {:induction false} LockoutRate(start: int, steps: seq<Step>, u: UserId)
    requires IsRun(Start(start), steps) && u in After(Start(start), steps).tables.users
    ensures
      var w := After(Start(start), steps);
      var user := w.tables.users[u];
      && u in w.log.failures && |w.log.failures[u]| == user.failedLoginAttempts
      && (user.failedLoginAttempts >= 5 <==> user.lockedUntil.Some?)
      && forall k :: 4 <= k < |w.log.failures[u]| ==>
           w.log.failures[u][k] >= w.log.failures[u][4] + 15 * 60 * 1000 * (k - 4)
  {
    RunKeepsLocks(Start(start), steps);
    var failures := After(Start(start), steps).log.failures[u];
    forall k | 4 <= k < |failures| ensures failures[k] >= failures[4] + 15 * 60 * 1000 * (k - 4) {
      FailuresSpread(failures, k);
    }
  }

  // -------------------------------------------------------------------------
  // Reset tokens
  // -------------------------------------------------------------------------

  /** The token was issued, and any user still holding it has used it. */
  ghost predicate Spent(t: Tables, token: Token) {
    token < t.supply && forall u :: u in t.users && HoldsReset(t.users[u], token) ==>
        t.users[u].reset.value.usedAt.Some?
  }

  /** A step leaves a user's reset token alone, or replaces it by a fresh one, or marks it used; new users have none. */
  lemma ResetMoves(t: Tables, now: int, step: Step, u: UserId)
    requires Enabled(World(now, t, Log({}, map[], map[])), step) && u in Respond(t, now, step).tables.users
    ensures
      var user' := Respond(t, now, step).tables.users[u];
      if step == RequestPasswordReset(u) then
        u in t.users && user'.reset == Some(Reset(t.supply, now + RESET_TOKEN_TTL_MS, None))
      else if u !in t.users then user'.reset.None?
      else if step.ResetPassword? && step.row == Some(u) && Respond(t, now, step).outcome == Done then
        user'.reset == Some(t.users[u].reset.value.(usedAt := Some(now)))
      else user'.reset == t.users[u].reset
  {}

  lemma SupplyRises(t: Tables, now: int, step: Step)
    requires Enabled(World(now, t, Log({}, map[], map[])), step)
    ensures t.supply <= Respond(t, now, step).tables.supply
    ensures forall u :: u in t.users ==> u in Respond(t, now, step).tables.users
    ensures step.RequestPasswordReset? && step.u in t.users ==> t.supply < Respond(t, now, step).tables.supply
  {}

  lemma StepKeepsSpent(t: Tables, now: int, step: Step, token: Token)
    requires Enabled(World(now, t, Log({}, map[], map[])), step) && Spent(t, token)
    ensures Spent(Respond(t, now, step).tables, token)
  {
    var t' := Respond(t, now, step).tables;
    SupplyRises(t, now, step);
    forall u | u in t'.users && HoldsReset(t'.users[u], token) ensures t'.users[u].reset.value.usedAt.Some? {
      ResetMoves(t, now, step, u);
    }
  }

  lemma {:induction false} SpentForever(w: World, steps: seq<Step>, token: Token)
    requires IsRun(w, steps) && Spent(w.tables, token)
    ensures Spent(After(w, steps).tables, token)
    decreases |steps|
  {
    if steps != [] {
      StepKeepsSpent(w.tables, w.now, steps[0], token);
      SpentForever(Next(w, steps[0]), steps[1..], token);
    }
  }

  /** Reset tokens are issued ones, and no two users hold the same. */
  ghost predicate ResetsSound(t: Tables) {
    && (forall u :: u in t.users && t.users[u].reset.Some? ==> t.users[u].reset.value.token < t.supply)
    && forall u, v :: u in t.users && v in t.users && t.users[u].reset.Some? && t.users[v].reset.Some? && u != v ==>
         t.users[u].reset.value.token != t.users[v].reset.value.token
  }

  lemma StepKeepsResets(t: Tables, now: int, step: Step)
    requires Enabled(World(now, t, Log({}, map[], map[])), step) && ResetsSound(t)
    ensures ResetsSound(Respond(t, now, step).tables)
  {
    var t' := Respond(t, now, step).tables;
    SupplyRises(t, now, step);
    forall u | u in t'.users && t'.users[u].reset.Some? ensures t'.users[u].reset.value.token < t'.supply {
      ResetMoves(t, now, step, u);
    }
    forall u, v | u in t'.users && v in t'.users && t'.users[u].reset.Some? && t'.users[v].reset.Some? && u != v
      ensures t'.users[u].reset.value.token != t'.users[v].reset.value.token
    {
      ResetMoves(t, now, step, u);
      ResetMoves(t, now, step, v);
    }
  }

  lemma {:induction false} RunKeepsResets(w: World, steps: seq<Step>)
    requires ResetsSound(w.tables) && IsRun(w, steps)
    ensures ResetsSound(After(w, steps).tables)
    decreases |steps|
  {
    if steps != [] {
      StepKeepsResets(w.tables, w.now, steps[0]);
      RunKeepsResets(Next(w, steps[0]), steps[1..]);
    }
  }

  /** A reset token that has changed a password never changes one again, whichever row the search finds. */
  lemma {:induction false} ResetOnce(start: int, before: seq<Step>, reset: Step, later: seq<Step>, again: Step)
    requires IsRun(Start(start), before) && reset.ResetPassword? && Enabled(After(Start(start), before), reset)
    requires Answer(After(Start(start), before), reset) == Done
    requires IsRun(Next(After(Start(start), before), reset), later)
    requires again.ResetPassword? && again.token == reset.token
    requires Enabled(After(Next(After(Start(start), before), reset), later), again)
    ensures Answer(After(Next(After(Start(start), before), reset), later), again).Rejected?
  {
    var w := After(Start(start), before);
    RunKeepsResets(Start(start), before);
    var next := Next(w, reset);
    assert Spent(next.tables, reset.token) by {
      forall u | u in next.tables.users && HoldsReset(next.tables.users[u], reset.token)
        ensures next.tables.users[u].reset.value.usedAt.Some?
      {
        ResetMoves(w.tables, w.now, reset, u);
      }
    }
    SpentForever(next, later, reset.token);
  }

  lemma {:induction false} RunsJoin(w: World, first: seq<Step>, second: seq<Step>)
    requires IsRun(w, first + second)
    ensures IsRun(w, first) && IsRun(After(w, first), second)
    ensures After(w, first + second) == After(After(w, first), second)
    decreases |first|
  {
    if first == [] {
      assert first + second == second;
    } else {
      assert (first + second)[1..] == first[1..] + second;
      RunsJoin(Next(w, first[0]), first[1..], second);
    }
  }

  /** The steps up to the k-th, and the world they lead to. */
  function At(w: World, steps: seq<Step>, k: nat): World
    requires IsRun(w, steps) && k <= |steps|
  {
    assert steps[..k] + steps[k..] == steps;
    RunsJoin(w, steps[..k], steps[k..]);
    After(w, steps[..k])
  }

  lemma {:induction false} AtNext(w: World, steps: seq<Step>, k: nat)
    requires IsRun(w, steps) && k < |steps|
    ensures Enabled(At(w, steps, k), steps[k]) && At(w, steps, k + 1) == Next(At(w, steps, k), steps[k])
  {
    assert steps[..k] + steps[k..] == steps;
    RunsJoin(w, steps[..k], steps[k..]);
    assert steps[..k] + [steps[k]] == steps[..k + 1];
    assert steps[..k + 1] + steps[k + 1..] == steps;
    RunsJoin(w, steps[..k + 1], steps[k + 1..]);
    RunsJoin(w, steps[..k], [steps[k]]);
  }

  /** Step i issued the reset token that the user holds after n steps, and the user made no later request. */
  ghost predicate IssuedBy(w: World, steps: seq<Step>, n: nat, i: nat, u: UserId, reset: Reset)
    requires IsRun(w, steps) && n <= |steps|
  {
    && i < n && Enabled(At(w, steps, i), steps[i])
    && steps[i] == RequestPasswordReset(u) && Answer(At(w, steps, i), steps[i]) == ResetSent(reset.token)
    && reset.expiresAt == At(w, steps, i).now + RESET_TOKEN_TTL_MS
    && forall j :: i < j < n ==> steps[j] != RequestPasswordReset(u)
  }

  lemma {:induction false} ResetOrigin(start: int, steps: seq<Step>, n: nat, u: UserId) returns (i: nat)
    requires IsRun(Start(start), steps) && n <= |steps|
    requires u in At(Start(start), steps, n).tables.users && At(Start(start), steps, n).tables.users[u].reset.Some?
    ensures IssuedBy(Start(start), steps, n, i, u, At(Start(start), steps, n).tables.users[u].reset.value)
    decreases n
  {
    if n == 0 {
      assert false;
    } else {
      var w := At(Start(start), steps, n - 1);
      AtNext(Start(start), steps, n - 1);
      ResetMoves(w.tables, w.now, steps[n - 1], u);
      if steps[n - 1] == RequestPasswordReset(u) {
        i := n - 1;
      } else {
        i := ResetOrigin(start, steps, n - 1, u);
      }
    }
  }

  /**
   A reset token changes a password only if it was issued to that user by an earlier request,
   at most one hour before, and the user made no request after that one.
   */
  lemma {:induction false} ResetWindow(start: int, steps: seq<Step>, reset: Step)
    requires IsRun(Start(start), steps) && reset.ResetPassword? && Enabled(After(Start(start), steps), reset)
    requires Answer(After(Start(start), steps), reset) == Done
    ensures reset.row.Some?
    ensures exists i :: 0 <= i < |steps|
              && Enabled(At(Start(start), steps, i), steps[i])
              && steps[i] == RequestPasswordReset(reset.row.value)
              && Answer(At(Start(start), steps, i), steps[i]) == ResetSent(reset.token)
              && After(Start(start), steps).now <= At(Start(start), steps, i).now + 60 * 60 * 1000
              && forall j :: i < j < |steps| ==> steps[j] != RequestPasswordReset(reset.row.value)
  {
    assert steps[..|steps|] == steps;
    var i := ResetOrigin(start, steps, |steps|, reset.row.value);
  }

  // -------------------------------------------------------------------------
  // One-time codes
  // -------------------------------------------------------------------------

  /** The step sends the user a code, or exchanges the user's code for tokens. */
  predicate SetsOtp(w: World, step: Step, u: UserId)
    requires Enabled(w, step)
  {
    || (step.Login? && step.u == u && Answer(w, step).OtpSent?)
    || (step.ValidateOtp? && step.u == u && Answer(w, step).Issued?)
  }

  lemma OtpMoves(w: World, step: Step, u: UserId)
    requires Enabled(w, step) && u in Next(w, step).tables.users
    ensures
      var otp := Next(w, step).tables.users[u].otp;
      if SetsOtp(w, step, u) then otp == if step.Login? then Some(Otp(step.code, w.now + OTP_TTL_MS)) else None
      else if u in w.tables.users then otp == w.tables.users[u].otp
      else otp.None?
  {}

  /** Step i sent the code that the user holds after n steps; none was sent or exchanged since. */
  ghost predicate SentBy(w: World, steps: seq<Step>, n: nat, i: nat, u: UserId, otp: Otp)
    requires IsRun(w, steps) && n <= |steps|
  {
    && i < n && Enabled(At(w, steps, i), steps[i])
    && steps[i].Login? && steps[i].u == u && Answer(At(w, steps, i), steps[i]) == OtpSent
    && otp == Otp(steps[i].code, At(w, steps, i).now + OTP_TTL_MS)
    && forall j :: i < j < n ==> Enabled(At(w, steps, j), steps[j]) && !SetsOtp(At(w, steps, j), steps[j], u)
  }

  lemma {:induction false} SentEarlier(w: World, steps: seq<Step>, n: nat, i: nat, u: UserId, otp: Otp)
    requires IsRun(w, steps) && n < |steps| && SentBy(w, steps, n, i, u, otp)
    requires Enabled(At(w, steps, n), steps[n]) && !SetsOtp(At(w, steps, n), steps[n], u)
    ensures SentBy(w, steps, n + 1, i, u, otp)
  {}

  lemma {:induction false} OtpOrigin(start: int, steps: seq<Step>, n: nat, u: UserId) returns (i: nat)
    requires IsRun(Start(start), steps) && n <= |steps|
    requires u in At(Start(start), steps, n).tables.users && At(Start(start), steps, n).tables.users[u].otp.Some?
    ensures SentBy(Start(start), steps, n, i, u, At(Start(start), steps, n).tables.users[u].otp.value)
    decreases n
  {
    if n == 0 {
      assert false;
    } else {
      var w := At(Start(start), steps, n - 1);
      AtNext(Start(start), steps, n - 1);
      OtpMoves(w, steps[n - 1], u);
      if SetsOtp(w, steps[n - 1], u) {
        i := n - 1;
      } else {
        i := OtpOrigin(start, steps, n - 1, u);
        SentEarlier(Start(start), steps, n - 1, i, u, w.tables.users[u].otp.value);
      }
    }
  }

  /**
   A one-time code yields tokens only if an earlier login sent it to that user, at most five
   minutes before, and since then no code was sent to the user and none exchanged: each code
   works once, and only the latest.
   */
  lemma {:induction false} OtpWindow(start: int, steps: seq<Step>, validate: Step)
    requires IsRun(Start(start), steps) && validate.ValidateOtp?
    requires Answer(After(Start(start), steps), validate).Issued?
    ensures exists i :: 0 <= i < |steps|
              && Enabled(At(Start(start), steps, i), steps[i])
              && steps[i].Login? && steps[i].u == validate.u && steps[i].code == validate.code
              && Answer(At(Start(start), steps, i), steps[i]) == OtpSent
              && After(Start(start), steps).now <= At(Start(start), steps, i).now + 5 * 60 * 1000
              && forall j :: i < j < |steps| ==>
                   Enabled(At(Start(start), steps, j), steps[j])
                       && !SetsOtp(At(Start(start), steps, j), steps[j], validate.u)
  {
    assert steps[..|steps|] == steps;
    var i := OtpOrigin(start, steps, |steps|, validate.u);
  }
}
