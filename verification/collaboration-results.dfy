/**
 What holds at every point of every run of the project and workspace services.
 */
module CollaborationResults {
  import opened Options
  import opened Circles
  import opened CircleInvariants
  import opened InviteHistory
  import opened Collaboration
  import opened CollaborationRuns

  lemma {:induction false} ReachableInv(steps: seq<Step>)
    requires IsRun(START, steps)
    ensures Inv(After(START, steps))
  {
    RunKeepsInv(START, steps);
  }

  // -------------------------------------------------------------------------
  // Roles, members and invites
  // -------------------------------------------------------------------------

  ghost predicate RolesValid(c: Circle) {
    && (forall m :: m in c.members && c.members[m].status == Active ==>
        RoleUsable(c, c.members[m].space, c.members[m].role))
    && forall i :: i in c.invites && c.invites[i].status == Pending ==>
         RoleUsable(c, c.invites[i].space, c.invites[i].role)
  }

  lemma SoundRolesValid(c: Circle, scope: Scope, x: bool)
    requires Sound(c, scope, x)
    ensures RolesValid(c)
  {
    forall m | m in c.members && c.members[m].status == Active
      ensures RoleUsable(c, c.members[m].space, c.members[m].role)
    {
      assert MemberSound(c, scope, m, c.members[m]);
    }
    forall i | i in c.invites && c.invites[i].status == Pending
      ensures RoleUsable(c, c.invites[i].space, c.invites[i].role)
    {
      assert InviteSound(c, scope, i, c.invites[i]);
    }
  }

  /** Every active membership and every pending invite has an existing, enabled role of its own space. */
  lemma {:induction false} RolesStayValid(steps: seq<Step>, level: Level)
    requires IsRun(START, steps)
    ensures RolesValid(At(After(START, steps), level))
  {
    ReachableSound(steps, level);
    SoundRolesValid(At(After(START, steps), level), ScopeOf(After(START, steps), level), level == InProject);
  }

  /** At most one membership row and one pending invite. */
  ghost predicate OneOfEach(c: Circle, space: Id, user: Id) {
    && (forall m, m' | m in c.members && m' in c.members ::
          IsMemberOf(c.members[m], space, user) && IsMemberOf(c.members[m'], space, user) ==> m == m')
    && forall i, i' | i in c.invites && i' in c.invites ::
         IsPendingFor(c.invites[i], space, user) && IsPendingFor(c.invites[i'], space, user) ==> i == i'
  }

  lemma SoundOneOfEach(c: Circle, scope: Scope, x: bool, space: Id, user: Id)
    requires Sound(c, scope, x)
    ensures OneOfEach(c, space, user)
    ensures x ==> FindActive(c, space, user).None? || FindPending(c, space, user).None?
  {
    forall m, m' | m in c.members && m' in c.members && IsMemberOf(c.members[m], space, user)
        && IsMemberOf(c.members[m'], space, user)
      ensures m == m'
    {
      assert SameSeat(c.members[m], c.members[m']);
    }
    forall i, i' | i in c.invites && i' in c.invites && IsPendingFor(c.invites[i], space, user)
        && IsPendingFor(c.invites[i'], space, user)
      ensures i == i'
    {
      assert BothPending(c.invites[i], c.invites[i']);
    }
  }

  /** A user has at most one membership row and one pending invite per space, and in a project not both active. */
  lemma {:induction false} OneSeatOneInvite(steps: seq<Step>, level: Level, space: Id, user: Id)
    requires IsRun(START, steps)
    ensures
      var c := At(After(START, steps), level);
      && OneOfEach(c, space, user)
      && (level == InProject ==> FindActive(c, space, user).None? || FindPending(c, space, user).None?)
  {
    ReachableSound(steps, level);
    var w := After(START, steps);
    SoundOneOfEach(At(w, level), ScopeOf(w, level), level == InProject, space, user);
  }

  ghost predicate AcceptanceTimed(c: Circle) {
    && (forall i :: i in c.invites ==> (c.invites[i].acceptedAt.Some? <==> c.invites[i].status == Accepted))
    && forall i, i' :: i in c.invites && i' in c.invites && c.invites[i].token == c.invites[i'].token ==> i == i'
  }

  lemma SoundAcceptanceTimed(c: Circle, scope: Scope, x: bool)
    requires Sound(c, scope, x)
    ensures AcceptanceTimed(c)
  {
    forall i | i in c.invites ensures c.invites[i].acceptedAt.Some? <==> c.invites[i].status == Accepted {
      assert InviteSound(c, scope, i, c.invites[i]);
    }
  }

  /** An invite has an acceptance time exactly when it is accepted, and no two invites share a token. */
  lemma {:induction false} AcceptanceTimes(steps: seq<Step>, level: Level)
    requires IsRun(START, steps)
    ensures AcceptanceTimed(At(After(START, steps), level))
  {
    ReachableSound(steps, level);
    SoundAcceptanceTimed(At(After(START, steps), level), ScopeOf(After(START, steps), level), level == InProject);
  }

  lemma TokenNeverUnavailable(c: Circle, scope: Scope, x: bool, now: int, token: Option<Id>)
    requires Sound(c, scope, x)
    ensures
      var outcome := Circles.AcceptInvite(c, now, scope.users, token).outcome;
      outcome != Rejected(RoleUnavailable) && outcome != Rejected(InviteeNotFound)
  {}

  lemma IdNeverUnavailable(c: Circle, scope: Scope, x: bool, now: int, id: Id, user: Id)
    requires Sound(c, scope, x)
    ensures
      var outcome := Circles.AcceptInviteById(c, now, scope.users, id, user).outcome;
      outcome != Rejected(RoleUnavailable) && outcome != Rejected(InviteeNotFound)
  {}

  lemma {:induction false} ReachableSound(steps: seq<Step>, level: Level)
    requires IsRun(START, steps)
    ensures Sound(At(After(START, steps), level), ScopeOf(After(START, steps), level), level == InProject)
  {
    ReachableInv(steps);
  }

  /** No accept, by token or by id, is ever turned down for its role or its invitee's account. */
  lemma {:induction false} AcceptNeverUnavailable(steps: seq<Step>, level: Level, token: Option<Id>, id: Id, user: Id)
    requires IsRun(START, steps)
    ensures
      var w := After(START, steps);
      var byToken := Circles.AcceptInvite(At(w, level), w.now, w.users, token).outcome;
      var byId := Circles.AcceptInviteById(At(w, level), w.now, w.users, id, user).outcome;
      && byToken != Rejected(RoleUnavailable) && byToken != Rejected(InviteeNotFound)
      && byId != Rejected(RoleUnavailable) && byId != Rejected(InviteeNotFound)
  {
    ReachableSound(steps, level);
    var w := After(START, steps);
    TokenNeverUnavailable(At(w, level), ScopeOf(w, level), level == InProject, w.now, token);
    IdNeverUnavailable(At(w, level), ScopeOf(w, level), level == InProject, w.now, id, user);
  }

  /** In a project, the accept branch for a user who is already an active member is dead. */
  lemma {:induction false} ProjectInviteeIsNotActive(steps: seq<Step>, id: Id)
    requires IsRun(START, steps)
    requires id in After(START, steps).inProject.invites && After(START, steps).inProject.invites[id].status == Pending
    ensures
      var c := After(START, steps).inProject;
      match FindMember(c, c.invites[id].space, c.invites[id].invitee)
      case None => true
      case Some(m) => c.members[m].status == Removed
  {
    ReachableInv(steps);
    var c := After(START, steps).inProject;
    var found := FindMember(c, c.invites[id].space, c.invites[id].invitee);
    if found.Some? {
      assert !Clash(c.members[found.value], c.invites[id]);
    }
  }

  // -------------------------------------------------------------------------
  // Invites over time
  // -------------------------------------------------------------------------

  lemma CallContinues(w: World, step: Step, level: Level)
    requires Inv(w) && IsCall(step)
    ensures Continues(At(w, level), At(Next(w, step), level))
    ensures At(w, level).invites.Keys <= At(Next(w, step), level).invites.Keys
  {
    var reply := Respond(w, step);
    CallAdvances(w, step);
    var put := Put(w, LevelOf(step), reply);
    assert Next(w, step) == WithWorkspace(put, LevelOf(step), reply.outcome);
    assert Continues(At(w, level), At(put, level)) && At(w, level).invites.Keys <= At(put, level).invites.Keys;
    if WithWorkspace(put, LevelOf(step), reply.outcome) != put && level == InWorkspace {
      var invite := put.inProject.invites[reply.outcome.invite];
      WithGuestInvites(put.inWorkspace, put.now, put.projects[invite.space], invite.invitee);
    }
  }

  lemma OtherContinues(w: World, step: Step, level: Level)
    requires Enabled(w, step) && !IsCall(step)
    ensures Continues(At(w, level), At(Next(w, step), level))
    ensures !(step.DeleteProject? && level == InProject) ==> At(Next(w, step), level).invites == At(w, level).invites
  {
    if step.AddWorkspaceMember? {
      EnrolledInvites(w.inWorkspace, w.now, step.workspace, step.user, step.role);
    }
    var c, c' := At(w, level), At(Next(w, step), level);
    assert c.supply <= c'.supply && forall i :: i in c'.invites ==> i in c.invites && c'.invites[i] == c.invites[i];
  }

  /** The step deletes the project this is an invite to. */
  predicate Drops(w: World, step: Step, level: Level, id: Id) {
    level == InProject && id in w.inProject.invites && step == DeleteProject(w.inProject.invites[id].space)
  }

  /** An invite goes only with its project. */
  lemma InviteStays(w: World, step: Step, level: Level, id: Id)
    requires Inv(w) && Enabled(w, step) && id in At(w, level).invites && !Drops(w, step, level, id)
    ensures id in At(Next(w, step), level).invites
    ensures At(Next(w, step), level).invites[id].space == At(w, level).invites[id].space
  {
    if IsCall(step) {
      CallContinues(w, step, level);
    } else {
      OtherContinues(w, step, level);
    }
  }

  lemma {:induction false} RunContinues(w: World, steps: seq<Step>, level: Level)
    requires Inv(w) && IsRun(w, steps)
    ensures Continues(At(w, level), At(After(w, steps), level))
    decreases |steps|
  {
    if steps != [] {
      var next := Next(w, steps[0]);
      if IsCall(steps[0]) {
        CallContinues(w, steps[0], level);
      } else {
        OtherContinues(w, steps[0], level);
      }
      StepKeepsInv(w, steps[0]);
      RunContinues(next, steps[1..], level);
      InvitesBelow(At(w, level), ScopeOf(w, level), level == InProject);
      ContinuesFurther(At(w, level), At(next, level), At(After(next, steps[1..]), level));
    }
  }

  lemma {:induction false} InviteKept(w: World, steps: seq<Step>, level: Level, id: Id)
    requires Inv(w) && IsRun(w, steps) && id in At(w, level).invites
    requires level == InProject ==> DeleteProject(w.inProject.invites[id].space) !in steps
    ensures id in At(After(w, steps), level).invites
    decreases |steps|
  {
    if steps != [] {
      InviteStays(w, steps[0], level, id);
      StepKeepsInv(w, steps[0]);
      InviteKept(Next(w, steps[0]), steps[1..], level, id);
    }
  }

  /** An invite that is not pending never changes again; only deleting its project removes it. */
  lemma {:induction false} ClosedForever(w: World, steps: seq<Step>, level: Level, id: Id)
    requires Inv(w) && IsRun(w, steps)
    requires id in At(w, level).invites && At(w, level).invites[id].status != Pending
    ensures
      if id in At(After(w, steps), level).invites then
        At(After(w, steps), level).invites[id] == At(w, level).invites[id]
      else level == InProject && DeleteProject(w.inProject.invites[id].space) in steps
  {
    RunContinues(w, steps, level);
    if id in At(After(w, steps), level).invites {
      ClosedStays(At(w, level), At(After(w, steps), level), id);
    } else if !(level == InProject && DeleteProject(w.inProject.invites[id].space) in steps) {
      InviteKept(w, steps, level, id);
    }
  }

  predicate IsAccept(step: Step, level: Level) {
    (step.AcceptInvite? || step.AcceptInviteById?) && LevelOf(step) == level
  }

  lemma EntityJoins(c: Circle, now: int, users: set<Id>, id: Id)
    requires id in c.invites && AcceptEntity(c, now, users, id).outcome.Joined?
    ensures AcceptEntity(c, now, users, id).outcome == Joined(id)
    ensures AcceptEntity(c, now, users, id).circle.invites ==
            c.invites[id := c.invites[id].(status := Accepted, acceptedAt := Some(now))]
    ensures AcceptEntity(c, now, users, id).circle.members ==
            Enrolled(c, now, c.invites[id].space, c.invites[id].invitee, c.invites[id].role).members
  {}

  /** The invite was pending and had not expired when it was accepted. */
  predicate Acceptable(c: Circle, now: int, id: Id) {
    id in c.invites && c.invites[id].status == Pending && c.invites[id].expiresAt >= now
  }

  lemma TokenJoins(c: Circle, now: int, users: set<Id>, token: Option<Id>)
    requires Circles.AcceptInvite(c, now, users, token).outcome.Joined?
    ensures
      var reply := Circles.AcceptInvite(c, now, users, token);
      var id := reply.outcome.invite;
      Acceptable(c, now, id) && token == Some(c.invites[id].token) && reply == AcceptEntity(c, now, users, id)
  {}

  lemma IdJoins(c: Circle, now: int, users: set<Id>, id: Id, user: Id)
    requires Circles.AcceptInviteById(c, now, users, id, user).outcome.Joined?
    ensures
      var reply := Circles.AcceptInviteById(c, now, users, id, user);
      reply.outcome.invite == id && Acceptable(c, now, id) && user == c.invites[id].invitee
          && reply == AcceptEntity(c, now, users, id)
  {}

  /**
   An accept that succeeds presents the current token, or the invitee, of a pending invite that
   has not expired, and comes within a week of that token being issued.
   */
  lemma AcceptConditions(w: World, accept: Step, level: Level)
    requires Inv(w) && IsAccept(accept, level) && Respond(w, accept).outcome.Joined?
    ensures
      var id, c := Respond(w, accept).outcome.invite, At(w, level);
      var sent := if level == InProject then w.sentProject else w.sentWorkspace;
      && Acceptable(c, w.now, id)
      && Respond(w, accept) == AcceptEntity(c, w.now, w.users, id)
      && (accept.AcceptInvite? ==> accept.token == Some(c.invites[id].token))
      && (accept.AcceptInviteById? ==> accept.invite == id && accept.user == c.invites[id].invitee)
      && c.invites[id].token in sent && w.now <= sent[c.invites[id].token] + 7 * 24 * 60 * 60 * 1000
  {
    var c := At(w, level);
    if accept.AcceptInvite? {
      TokenJoins(c, w.now, w.users, accept.token);
    } else {
      IdJoins(c, w.now, w.users, accept.invite, accept.user);
    }
  }

  lemma AcceptCloses(w: World, accept: Step, level: Level)
    requires Inv(w) && IsAccept(accept, level) && Respond(w, accept).outcome.Joined?
    ensures
      var id, next := Respond(w, accept).outcome.invite, Next(w, accept);
      && id in At(next, level).invites
      && At(next, level).invites[id].status == Accepted && At(next, level).invites[id].acceptedAt == Some(w.now)
  {
    var reply := Respond(w, accept);
    AcceptConditions(w, accept, level);
    EntityJoins(At(w, level), w.now, w.users, reply.outcome.invite);
    var put := Put(w, level, reply);
    assert Next(w, accept) == WithWorkspace(put, level, reply.outcome);
    assert level == InWorkspace ==> WithWorkspace(put, level, reply.outcome) == put;
  }

  /** An invite is accepted at most once, by token or by id. */
  lemma {:induction false} AcceptOnce(w: World, accept: Step, level: Level, steps: seq<Step>, again: Step)
    requires Inv(w) && IsAccept(accept, level) && Respond(w, accept).outcome.Joined?
    requires IsRun(Next(w, accept), steps) && IsAccept(again, level)
    ensures Respond(After(Next(w, accept), steps), again).outcome != Respond(w, accept).outcome
  {
    var id, next := Respond(w, accept).outcome.invite, Next(w, accept);
    StepKeepsInv(w, accept);
    AcceptCloses(w, accept, level);
    ClosedForever(next, steps, level, id);
    RunKeepsInv(next, steps);
    if Respond(After(next, steps), again).outcome == Joined(id) {
      AcceptConditions(After(next, steps), again, level);
      assert false;
    }
  }

  lemma ResendSupersedes(c: Circle, scope: Scope, x: bool, now: int, id: Id)
    requires Sound(c, scope, x) && id in c.invites && c.invites[id].status == Pending
    ensures Superseded(Circles.ResendInvite(c, now, id).circle, c.invites[id].token)
  {}

  lemma SupersededUnknown(c: Circle, now: int, users: set<Id>, token: Id)
    requires Superseded(c, token)
    ensures Circles.AcceptInvite(c, now, users, Some(token)).outcome == Rejected(InviteNotFound)
  {}

  lemma ResendStep(w: World, level: Level, id: Id)
    requires Enabled(w, ResendInvite(level, id))
    ensures At(Next(w, ResendInvite(level, id)), level) == Circles.ResendInvite(At(w, level), w.now, id).circle
  {}

  lemma {:induction false} SupersededForever(w: World, level: Level, token: Id, steps: seq<Step>)
    requires Inv(w) && IsRun(w, steps) && Superseded(At(w, level), token)
    ensures Superseded(At(After(w, steps), level), token)
  {
    RunContinues(w, steps, level);
    SupersededStays(At(w, level), At(After(w, steps), level), token);
  }

  /** Once an invite has been resent, its old token is unknown for good. */
  lemma {:induction false} OldTokenForgotten(w: World, level: Level, id: Id, steps: seq<Step>)
    requires Inv(w) && id in At(w, level).invites && At(w, level).invites[id].status == Pending
    requires IsRun(Next(w, ResendInvite(level, id)), steps)
    ensures
      var later, token := After(Next(w, ResendInvite(level, id)), steps), At(w, level).invites[id].token;
      Circles.AcceptInvite(At(later, level), later.now, later.users, Some(token)).outcome == Rejected(InviteNotFound)
  {
    var next := Next(w, ResendInvite(level, id));
    var later, token := After(next, steps), At(w, level).invites[id].token;
    ResendSupersedes(At(w, level), ScopeOf(w, level), level == InProject, w.now, id);
    ResendStep(w, level, id);
    StepKeepsInv(w, ResendInvite(level, id));
    SupersededForever(next, level, token, steps);
    SupersededUnknown(At(later, level), later.now, later.users, token);
  }

  // -------------------------------------------------------------------------
  // Joining a project
  // -------------------------------------------------------------------------

  /** The user is an active member of the space, in that role. */
  ghost predicate Holds(c: Circle, space: Id, user: Id, role: Id) {
    exists m :: m in c.members && IsActiveIn(c.members[m], space, user) && c.members[m].role == role
  }

  /**
   The role a workspace gives to someone who joins one of its projects: the one held there before,
   or a guest role.
   */
  ghost predicate WorkspaceRole(before: Circle, after: Circle, space: Id, user: Id, role: Id) {
    match FindMember(before, space, user)
    case Some(k) => role == before.members[k].role
    case None => role in after.roles && after.roles[role].space == space && after.roles[role].isGuest
  }

  lemma EnrolledHolds(c: Circle, now: int, space: Id, user: Id, role: Id)
    ensures Holds(Enrolled(c, now, space, user, role), space, user, role)
  {
    var c' := Enrolled(c, now, space, user, role);
    match FindMember(c, space, user)
    case None => assert IsActiveIn(c'.members[c.supply], space, user);
    case Some(m) => assert IsActiveIn(c'.members[m], space, user);
  }

  lemma GuestHolds(c: Circle, now: int, space: Id, user: Id) returns (role: Id)
    ensures Holds(WithGuest(c, now, space, user), space, user, role)
    ensures WorkspaceRole(c, WithGuest(c, now, space, user), space, user, role)
  {
    var c' := WithGuest(c, now, space, user);
    match FindMember(c, space, user)
    case Some(k) =>
      role := c.members[k].role;
      assert IsActiveIn(c'.members[k], space, user);
    case None =>
      match FindGuestRole(c, space)
      case Some(r) =>
        role := r;
        assert IsActiveIn(c'.members[c.supply], space, user);
      case None =>
        role := c.supply;
        assert IsActiveIn(c'.members[c.supply + 1], space, user);
  }

  /**
   Accepting a project invite leaves the invitee an active member of the project in the role
   offered, and an active member of its workspace: in the role held there before, or as a guest.
   */
  lemma ProjectAcceptEnrols(w: World, accept: Step) returns (role: Id)
    requires Inv(w) && IsAccept(accept, InProject) && Respond(w, accept).outcome.Joined?
    ensures Respond(w, accept).outcome.invite in w.inProject.invites
    ensures w.inProject.invites[Respond(w, accept).outcome.invite].space in w.projects
    ensures
      var invite, next := w.inProject.invites[Respond(w, accept).outcome.invite], Next(w, accept);
      var workspace := w.projects[invite.space];
      && Holds(next.inProject, invite.space, invite.invitee, invite.role)
      && Holds(next.inWorkspace, workspace, invite.invitee, role)
      && WorkspaceRole(w.inWorkspace, next.inWorkspace, workspace, invite.invitee, role)
  {
    var reply := Respond(w, accept);
    var id := reply.outcome.invite;
    AcceptConditions(w, accept, InProject);
    EntityJoins(w.inProject, w.now, w.users, id);
    var invite := w.inProject.invites[id];
    assert InviteSound(w.inProject, ScopeOf(w, InProject), id, invite);
    EnrolledHolds(w.inProject, w.now, invite.space, invite.invitee, invite.role);
    role := GuestHolds(w.inWorkspace, w.now, w.projects[invite.space], invite.invitee);
    ProjectAcceptNext(w, accept, reply);
  }

  lemma ProjectAcceptNext(w: World, accept: Step, reply: Reply)
    requires IsAccept(accept, InProject) && reply == Respond(w, accept) && reply.outcome.Joined?
    requires reply.outcome.invite in w.inProject.invites
             && w.inProject.invites[reply.outcome.invite].space in w.projects
    requires reply.outcome.invite in reply.circle.invites
    requires reply.circle.invites[reply.outcome.invite].space == w.inProject.invites[reply.outcome.invite].space
    requires reply.circle.invites[reply.outcome.invite].invitee == w.inProject.invites[reply.outcome.invite].invitee
    ensures
      var invite := w.inProject.invites[reply.outcome.invite];
      && Next(w, accept).inProject == reply.circle
      && Next(w, accept).inWorkspace == WithGuest(w.inWorkspace, w.now, w.projects[invite.space], invite.invitee)
  {}

  /**
   In a workspace an active member may still have a pending invite: joining one of its projects
   overtakes an open workspace invite. This never happens in a project.
   */
  lemma ProjectAcceptOvertakes(w: World, accept: Step, open: Id)
    requires Inv(w) && IsAccept(accept, InProject) && Respond(w, accept).outcome.Joined?
    requires Respond(w, accept).outcome.invite in w.inProject.invites
    requires w.inProject.invites[Respond(w, accept).outcome.invite].space in w.projects
    requires
      var invite := w.inProject.invites[Respond(w, accept).outcome.invite];
      open in w.inWorkspace.invites
      && IsPendingFor(w.inWorkspace.invites[open], w.projects[invite.space], invite.invitee)
    ensures
      var c := Next(w, accept).inWorkspace;
      open in c.invites && exists m :: m in c.members && Clash(c.members[m], c.invites[open])
  {
    var role := ProjectAcceptEnrols(w, accept);
    var invite, c := w.inProject.invites[Respond(w, accept).outcome.invite], Next(w, accept).inWorkspace;
    CallContinues(w, accept, InWorkspace);
    ProjectAcceptLeavesInvites(w, accept);
    var m :| m in c.members && IsActiveIn(c.members[m], w.projects[invite.space], invite.invitee)
        && c.members[m].role == role;
    assert Clash(c.members[m], c.invites[open]);
  }

  lemma ProjectAcceptLeavesInvites(w: World, accept: Step)
    requires IsAccept(accept, InProject)
    ensures Next(w, accept).inWorkspace.invites == w.inWorkspace.invites
  {
    var reply := Respond(w, accept);
    var put := Put(w, InProject, reply);
    assert Next(w, accept) == WithWorkspace(put, InProject, reply.outcome);
    if WithWorkspace(put, InProject, reply.outcome) != put {
      var invite := put.inProject.invites[reply.outcome.invite];
      WithGuestInvites(put.inWorkspace, put.now, put.projects[invite.space], invite.invitee);
    }
  }
}
