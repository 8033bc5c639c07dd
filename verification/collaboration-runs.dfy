/**
 The joint invariant of roles, members and invites over every run, and what follows from it.
 */
module CollaborationRuns {
  import opened Options
  import opened Circles
  import opened CircleInvariants
  import opened InviteHistory
  import opened Collaboration

  // -------------------------------------------------------------------------
  // Steps that are not calls
  // -------------------------------------------------------------------------

  lemma {:induction false} NewSpaceRoles(c: Circle, scope: Scope, x: bool, space: Id, n: nat)
    requires Sound(c, scope, x)
    ensures
      var c' := c.(roles := c.roles + DefaultRoles(space, c.supply, n), supply := c.supply + n + 1);
      && Sound(c', scope, x)
      && (n > 0 ==> RoleUsable(c', space, c.supply))
      && (forall r :: r in c.roles ==> c'.roles[r] == c.roles[r])
      && ((forall r :: r in c.roles ==> c.roles[r].status) ==> forall r :: r in c'.roles ==> c'.roles[r].status)
  {
    var c' := c.(roles := c.roles + DefaultRoles(space, c.supply, n), supply := c.supply + n + 1);
    DefaultRolesAre(space, c.supply, n);
    forall m | m in c.members ensures MemberSound(c', scope, m, c.members[m]) {
      assert MemberSound(c, scope, m, c.members[m]);
    }
    forall i | i in c.invites ensures InviteSound(c', scope, i, c.invites[i]) {
      assert InviteSound(c, scope, i, c.invites[i]);
    }
  }

  lemma NewSpaceKeeps(c: Circle, scope: Scope, x: bool, now: int, space: Id, creator: Id, n: nat)
    requires Sound(c, scope, x) && space !in scope.spaces && 0 < n
    ensures Sound(NewSpace(c, now, space, creator, n), Scope(scope.users, scope.spaces + {space}), x)
  {
    var wider := Scope(scope.users, scope.spaces + {space});
    NewSpaceRoles(c, scope, x, space, n);
    var c' := c.(roles := c.roles + DefaultRoles(space, c.supply, n), supply := c.supply + n + 1);
    WiderScope(c', scope, wider, x);
    var m := Member(space, creator, c.supply, Active, now);
    forall k | k in c'.members ensures !SameSeat(c'.members[k], m) {
      assert MemberSound(c, scope, k, c.members[k]);
    }
    forall i | i in c'.invites ensures !Clash(m, c'.invites[i]) {
      assert InviteSound(c, scope, i, c.invites[i]);
    }
    PutMember(c', wider, x, c.supply + n, m, c'.supply);
  }

  lemma NewSpacePermanent(c: Circle, scope: Scope, now: int, space: Id, creator: Id)
    requires Sound(c, scope, false) && Permanent(c)
    ensures Permanent(NewSpace(c, now, space, creator, 1))
  {
    NewSpaceRoles(c, scope, false, space, 1);
    var c' := NewSpace(c, now, space, creator, 1);
    forall m | m in c'.members ensures RoleUsable(c', c'.members[m].space, c'.members[m].role) {
      if m in c.members {
        assert RoleUsable(c, c.members[m].space, c.members[m].role);
        assert MemberSound(c, scope, m, c.members[m]);
      }
    }
  }

  lemma EnrolledPermanent(c: Circle, scope: Scope, now: int, space: Id, user: Id, role: Id)
    requires Sound(c, scope, false) && Permanent(c) && RoleUsable(c, space, role)
    ensures Permanent(Enrolled(c, now, space, user, role))
  {}

  lemma WithGuestPermanent(c: Circle, scope: Scope, now: int, space: Id, user: Id)
    requires Sound(c, scope, false) && Permanent(c)
    ensures Permanent(WithGuest(c, now, space, user))
  {}

  // -------------------------------------------------------------------------
  // Calls
  // -------------------------------------------------------------------------

  lemma InvitesBelow(c: Circle, scope: Scope, x: bool)
    requires Sound(c, scope, x)
    ensures forall i :: i in c.invites ==> i < c.supply
  {}

  lemma RoleCallAdvances(w: World, step: Step)
    requires step.CreateProjectRole? || step.UpdateProjectRole? || step.DeleteProjectRole?
    ensures Advances(w.inProject, w.now, Respond(w, step))
  {
    var c, p := w.inProject, step.project;
    match step
    case CreateProjectRole(_) => RolesAdvance(c, w.now, p in w.projects, p, 0, 0, None);
    case UpdateProjectRole(_, role, status) => RolesAdvance(c, w.now, p in w.projects, p, 0, role, status);
    case DeleteProjectRole(_, role) => RolesAdvance(c, w.now, p in w.projects, p, 0, role, None);
  }

  lemma SendingCallAdvances(w: World, step: Step)
    requires step.AssignProjectMember? || step.UpdateMemberRole? || step.CreateInvite? || step.ResendInvite?
    requires var c := At(w, LevelOf(step)); forall i :: i in c.invites ==> i < c.supply
    ensures Advances(At(w, LevelOf(step)), w.now, Respond(w, step))
  {
    var c := At(w, LevelOf(step));
    match step
    case AssignProjectMember(p, user, role) => AssignAdvances(c, w.now, p in w.projects, w.users, p, role, user);
    case UpdateMemberRole(level, space, user, role) =>
      RolesAdvance(c, w.now, space in Spaces(w, level), space, user, role, None);
    case CreateInvite(level, space, role, user) =>
      CreateAdvances(c, w.now, space in Spaces(w, level), w.users, space, role, user);
    case ResendInvite(_, id) => ResendAdvances(c, w.now, id);
  }

  lemma AnsweringCallAdvances(w: World, step: Step)
    requires step.CancelInvite? || step.DeclineInvite? || step.AcceptInvite? || step.AcceptInviteById?
    ensures Advances(At(w, LevelOf(step)), w.now, Respond(w, step))
  {
    match step
    case CancelInvite(level, id) => ClosingAdvances(At(w, level), w.now, id, 0);
    case DeclineInvite(level, id, user) => ClosingAdvances(At(w, level), w.now, id, user);
    case AcceptInvite(level, token) => AcceptAdvances(At(w, level), w.now, w.users, token);
    case AcceptInviteById(level, id, user) => AcceptByIdAdvances(At(w, level), w.now, w.users, id, user);
  }

  lemma CallAdvances(w: World, step: Step)
    requires Inv(w) && IsCall(step)
    ensures Advances(At(w, LevelOf(step)), w.now, Respond(w, step))
  {
    InvitesBelow(At(w, LevelOf(step)), ScopeOf(w, LevelOf(step)), LevelOf(step) == InProject);
    if step.CreateProjectRole? || step.UpdateProjectRole? || step.DeleteProjectRole? {
      RoleCallAdvances(w, step);
    } else if step.AssignProjectMember? || step.UpdateMemberRole? || step.CreateInvite? || step.ResendInvite? {
      SendingCallAdvances(w, step);
    } else {
      AnsweringCallAdvances(w, step);
    }
  }

  lemma AdvanceKeepsDated(c: Circle, scope: Scope, now: int, reply: Reply, sent: SentLog)
    requires RowsSound(c, scope) && Dated(c, sent) && Advances(c, now, reply)
    ensures Dated(reply.circle, SentAfter(sent, now, reply.outcome))
  {}

  lemma SendingLeavesMembers(c: Circle, now: int, known: bool, users: set<Id>, space: Id, role: Id, user: Id, id: Id)
    ensures
      var created, sent := Circles.CreateInvite(c, now, known, users, space, role, user).circle,
          Circles.ResendInvite(c, now, id).circle;
      created.roles == c.roles && created.members == c.members && sent.roles == c.roles && sent.members == c.members
  {}

  lemma ClosingLeavesMembers(c: Circle, id: Id, user: Id)
    ensures
      var canceled, declined := Circles.CancelInvite(c, id).circle, Circles.DeclineInvite(c, id, user).circle;
      canceled.roles == c.roles && canceled.members == c.members && declined.roles == c.roles
          && declined.members == c.members
  {}

  lemma SameMembersPermanent(c: Circle, c': Circle)
    requires Permanent(c) && c'.roles == c.roles && c'.members == c.members
    ensures Permanent(c')
  {}

  lemma TokenAcceptPermanent(c: Circle, scope: Scope, now: int, users: set<Id>, token: Option<Id>)
    requires Sound(c, scope, false) && Permanent(c)
    ensures Permanent(Circles.AcceptInvite(c, now, users, token).circle)
  {
    if token.Some? && FindToken(c, token.value).Some? {
      var id := FindToken(c, token.value).value;
      AcceptPermanent(c, scope, now, users, id);
      SameMembersPermanent(c, Closed(c, id, Expired));
    }
  }

  lemma IdAcceptPermanent(c: Circle, scope: Scope, now: int, users: set<Id>, id: Id, user: Id)
    requires Sound(c, scope, false) && Permanent(c)
    ensures Permanent(Circles.AcceptInviteById(c, now, users, id, user).circle)
  {
    if id in c.invites {
      AcceptPermanent(c, scope, now, users, id);
      SameMembersPermanent(c, Closed(c, id, Expired));
    }
  }

  lemma UpdatePermanent(c: Circle, known: bool, space: Id, user: Id, role: Id)
    requires Permanent(c)
    ensures Permanent(Circles.UpdateMemberRole(c, known, space, user, role).circle)
  {}

  lemma WorkspaceCallPermanent(w: World, step: Step)
    requires Inv(w) && IsCall(step) && LevelOf(step) == InWorkspace
    ensures Permanent(Respond(w, step).circle)
  {
    var c, scope := w.inWorkspace, ScopeOf(w, InWorkspace);
    if step.AcceptInvite? {
      TokenAcceptPermanent(c, scope, w.now, w.users, step.token);
    } else if step.AcceptInviteById? {
      IdAcceptPermanent(c, scope, w.now, w.users, step.invite, step.user);
    } else {
      if step.UpdateMemberRole? {
        UpdatePermanent(c, step.space in w.workspaces, step.space, step.user, step.role);
        return;
      } else if step.CreateInvite? {
        SendingLeavesMembers(c, w.now, step.space in w.workspaces, w.users, step.space, step.role, step.user, 0);
      } else if step.ResendInvite? {
        SendingLeavesMembers(c, w.now, false, {}, 0, 0, 0, step.invite);
      } else {
        ClosingLeavesMembers(c, step.invite, if step.DeclineInvite? then step.user else 0);
      }
      SameMembersPermanent(c, Respond(w, step).circle);
    }
  }

  lemma AcceptPermanent(c: Circle, scope: Scope, now: int, users: set<Id>, id: Id)
    requires Sound(c, scope, false) && Permanent(c) && id in c.invites
    ensures Permanent(AcceptEntity(c, now, users, id).circle)
  {}

  /** What an operation on one level leaves, before the workspace side of a project accept. */
  lemma PutKeepsInv(w: World, step: Step)
    requires Inv(w) && IsCall(step)
    ensures Inv(Put(w, LevelOf(step), Respond(w, step)))
  {
    var level, reply := LevelOf(step), Respond(w, step);
    CallKeepsSound(w, step, level == InProject);
    CallAdvances(w, step);
    match level
    case InProject => AdvanceKeepsDated(w.inProject, ScopeOf(w, level), w.now, reply, w.sentProject);
    case InWorkspace =>
      AdvanceKeepsDated(w.inWorkspace, ScopeOf(w, level), w.now, reply, w.sentWorkspace);
      WorkspaceCallPermanent(w, step);
  }

  lemma WithGuestInvites(c: Circle, now: int, space: Id, user: Id)
    ensures WithGuest(c, now, space, user).invites == c.invites && c.supply <= WithGuest(c, now, space, user).supply
  {}

  lemma WithWorkspaceKeepsInv(w: World, level: Level, outcome: Outcome)
    requires Inv(w)
    ensures Inv(WithWorkspace(w, level, outcome))
  {
    if WithWorkspace(w, level, outcome) != w {
      var invite := w.inProject.invites[outcome.invite];
      var workspace := w.projects[invite.space];
      WithGuestKeeps(w.inWorkspace, ScopeOf(w, InWorkspace), w.now, workspace, invite.invitee);
      WithGuestPermanent(w.inWorkspace, ScopeOf(w, InWorkspace), w.now, workspace, invite.invitee);
      WithGuestInvites(w.inWorkspace, w.now, workspace, invite.invitee);
    }
  }

  lemma AddWorkspaceKeepsInv(w: World, step: Step)
    requires Inv(w) && step.AddWorkspace? && Enabled(w, step)
    ensures Inv(Next(w, step))
  {
    NewSpaceKeeps(w.inWorkspace, ScopeOf(w, InWorkspace), false, w.now, step.workspace, step.creator, 1);
    NewSpacePermanent(w.inWorkspace, ScopeOf(w, InWorkspace), w.now, step.workspace, step.creator);
  }

  lemma CreateProjectKeepsInv(w: World, step: Step)
    requires Inv(w) && step.CreateProject? && Enabled(w, step)
    ensures Inv(Next(w, step))
  {
    NewSpaceKeeps(w.inProject, ScopeOf(w, InProject), true, w.now, step.project, step.creator, DEFAULT_ROLES);
    assert w.projects[step.project := step.workspace].Keys == w.projects.Keys + {step.project};
  }

  lemma DeleteProjectKeepsInv(w: World, project: Id)
    requires Inv(w) && project in w.projects
    ensures Inv(Next(w, DeleteProject(project)))
  {
    WithoutSpaceKeeps(w.inProject, ScopeOf(w, InProject), true, project);
    assert (w.projects - {project}).Keys == w.projects.Keys - {project};
  }

  lemma AddUserKeepsInv(w: World, user: Id)
    requires Inv(w)
    ensures Inv(w.(users := w.users + {user}))
  {
    var w' := w.(users := w.users + {user});
    WiderScope(w.inProject, ScopeOf(w, InProject), ScopeOf(w', InProject), true);
    WiderScope(w.inWorkspace, ScopeOf(w, InWorkspace), ScopeOf(w', InWorkspace), false);
  }

  lemma AddWorkspaceMemberKeepsInv(w: World, step: Step)
    requires Inv(w) && step.AddWorkspaceMember? && Enabled(w, step)
    ensures Inv(Next(w, step))
  {
    var w1 := w.(users := w.users + {step.user});
    AddUserKeepsInv(w, step.user);
    EnrolledKeeps(w1.inWorkspace, ScopeOf(w1, InWorkspace), false, w.now, step.workspace, step.user, step.role);
    EnrolledPermanent(w1.inWorkspace, ScopeOf(w1, InWorkspace), w.now, step.workspace, step.user, step.role);
    EnrolledInvites(w1.inWorkspace, w.now, step.workspace, step.user, step.role);
  }

  lemma PutRolePermanent(c: Circle, scope: Scope, id: Id, r: Role, supply: Id)
    requires Sound(c, scope, false) && Permanent(c) && c.supply <= supply && id < supply && r.status
    requires if id in c.roles then r.space == c.roles[id].space else id == c.supply
    ensures Sound(c.(roles := c.roles[id := r], supply := supply), scope, false)
    ensures Permanent(c.(roles := c.roles[id := r], supply := supply))
  {}

  lemma RenameKeepsInv(w: World, step: Step)
    requires Inv(w) && (step.RenameWorkspaceRole? || step.AddWorkspaceRole?) && Enabled(w, step)
    ensures Inv(Next(w, step))
  {
    var c, scope := w.inWorkspace, ScopeOf(w, InWorkspace);
    if step.RenameWorkspaceRole? {
      var renamed := c.roles[step.role].(isGuest := step.isGuest);
      PutRolePermanent(c, scope, step.role, renamed, c.supply);
      assert c.(roles := c.roles[step.role := renamed], supply := c.supply) ==
             c.(roles := c.roles[step.role := renamed]);
    } else {
      PutRolePermanent(c, scope, c.supply, Role(step.workspace, true, false, false), c.supply + 1);
    }
  }

  lemma RemovePermanent(c: Circle, id: Id)
    requires Permanent(c) && id in c.members
    ensures Permanent(c.(members := c.members[id := c.members[id].(status := Removed)]))
  {
    var c' := c.(members := c.members[id := c.members[id].(status := Removed)]);
    forall m | m in c'.members ensures RoleUsable(c', c'.members[m].space, c'.members[m].role) {
      assert RoleUsable(c, c.members[m].space, c.members[m].role);
    }
  }

  lemma RemoveMemberKeepsInv(w: World, step: Step)
    requires Inv(w) && step.RemoveMember? && Enabled(w, step)
    ensures Inv(Next(w, step))
  {
    var c := At(w, step.level);
    var c' := c.(members := c.members[step.member := c.members[step.member].(status := Removed)]);
    RemoveKeeps(c, ScopeOf(w, step.level), step.level == InProject, step.member);
    match step.level
    case InProject => assert Next(w, step) == w.(inProject := c');
    case InWorkspace =>
      RemovePermanent(c, step.member);
      assert Next(w, step) == w.(inWorkspace := c');
  }

  lemma CallKeepsInv(w: World, step: Step)
    requires Inv(w) && IsCall(step)
    ensures Inv(Next(w, step))
  {
    var reply := Respond(w, step);
    PutKeepsInv(w, step);
    WithWorkspaceKeepsInv(Put(w, LevelOf(step), reply), LevelOf(step), reply.outcome);
    assert Next(w, step) == WithWorkspace(Put(w, LevelOf(step), reply), LevelOf(step), reply.outcome);
  }

  lemma StepKeepsInv(w: World, step: Step)
    requires Inv(w) && Enabled(w, step)
    ensures Inv(Next(w, step))
  {
    match step
    case Tick(_) =>
    case AddUser(user) => AddUserKeepsInv(w, user);
    case AddWorkspace(_, _) => AddWorkspaceKeepsInv(w, step);
    case CreateProject(_, _, _) => CreateProjectKeepsInv(w, step);
    case DeleteProject(project) => DeleteProjectKeepsInv(w, project);
    case AddWorkspaceMember(_, _, _) => AddWorkspaceMemberKeepsInv(w, step);
    case RemoveMember(_, _) => RemoveMemberKeepsInv(w, step);
    case AddWorkspaceRole(_) => RenameKeepsInv(w, step);
    case RenameWorkspaceRole(_, _) => RenameKeepsInv(w, step);
    case _ => CallKeepsInv(w, step);
  }

  lemma {:induction false} RunKeepsInv(w: World, steps: seq<Step>)
    requires Inv(w) && IsRun(w, steps)
    ensures Inv(After(w, steps))
    decreases |steps|
  {
    if steps != [] {
      StepKeepsInv(w, steps[0]);
      RunKeepsInv(Next(w, steps[0]), steps[1..]);
    }
  }
}
