/**
 What a step of a run changes, at the level it is meant for and at the other one.
 */
module CollaborationEffects {
  import opened Circles
  import opened CircleInvariants
  import opened CircleEffects
  import opened Collaboration
  import opened CollaborationResults

  predicate IsSpace(w: World, level: Level, space: Id) {
    if level.InProject? then space in w.projects else space in w.workspaces
  }

  /** Each call does what its operation is for, in the tables of its level. */
  ghost predicate Effect(w: World, step: Step, reply: Reply) {
    match step
    case CreateProjectRole(p) => CreatesRole(w.inProject, reply, p in w.projects, p)
    case UpdateProjectRole(p, role, status) => UpdatesRole(w.inProject, reply, p in w.projects, p, role, status)
    case DeleteProjectRole(p, role) => DeletesRole(w.inProject, reply, p in w.projects, p, role)
    case AssignProjectMember(p, user, role) =>
      Assigns(w.inProject, reply, w.now, p in w.projects, w.users, p, user, role)
    case UpdateMemberRole(level, space, user, role) =>
      ChangesRole(At(w, level), reply, IsSpace(w, level, space), space, user, role)
    case CreateInvite(level, space, role, user) =>
      Creates(At(w, level), reply, w.now, IsSpace(w, level, space), w.users, space, role, user)
    case ResendInvite(level, id) => Resends(At(w, level), reply, w.now, id)
    case CancelInvite(level, id) => Cancels(At(w, level), reply, id)
    case AcceptInvite(level, token) => AcceptsByToken(At(w, level), reply, w.now, token)
    case AcceptInviteById(level, id, user) => AcceptsById(At(w, level), reply, w.now, id, user)
    case DeclineInvite(level, id, user) => Declines(At(w, level), reply, id, user)
    case _ => true
  }

  lemma CallEffect(w: World, step: Step)
    requires Inv(w) && IsCall(step)
    ensures Effect(w, step, Respond(w, step))
  {
    var x := LevelOf(step) == InProject;
    var c, scope := At(w, LevelOf(step)), ScopeOf(w, LevelOf(step));
    match step
    case CreateProjectRole(p) => CreateRoleEffect(c, scope, x, p in w.projects, p);
    case UpdateProjectRole(p, role, status) => UpdateRoleEffect(c, p in w.projects, p, role, status);
    case DeleteProjectRole(p, role) => DeleteRoleEffect(c, p in w.projects, p, role);
    case AssignProjectMember(p, user, role) => AssignEffect(c, scope, x, w.now, p in w.projects, p, user, role);
    case UpdateMemberRole(level, space, user, role) =>
      UpdateMemberRoleEffect(c, scope, x, IsSpace(w, level, space), space, user, role);
    case CreateInvite(level, space, role, user) =>
      CreateInviteEffect(c, scope, x, w.now, IsSpace(w, level, space), space, role, user);
    case ResendInvite(_, id) => ResendEffect(c, scope, x, w.now, id);
    case CancelInvite(_, id) => CancelEffect(c, id);
    case AcceptInvite(_, token) => AcceptByTokenEffect(c, scope, x, w.now, token);
    case AcceptInviteById(_, id, user) => AcceptByIdEffect(c, scope, x, w.now, id, user);
    case DeclineInvite(_, id, user) => DeclineEffect(c, id, user);
  }

  /**
   A call changes the tables of its own level only, but for a project accept that succeeds, which
   makes the invitee a member of the project's workspace; time, accounts and spaces stay.
   */
  lemma CallNext(w: World, step: Step)
    requires IsCall(step)
    ensures At(Next(w, step), LevelOf(step)) == Respond(w, step).circle
    ensures LevelOf(step) == InWorkspace ==> Next(w, step).inProject == w.inProject
    ensures LevelOf(step) == InProject && !Respond(w, step).outcome.Joined? ==>
              Next(w, step).inWorkspace == w.inWorkspace
    ensures
      var next := Next(w, step);
      next.now == w.now && next.users == w.users && next.workspaces == w.workspaces && next.projects == w.projects
  {
    var reply := Respond(w, step);
    assert Next(w, step) == WithWorkspace(Put(w, LevelOf(step), reply), LevelOf(step), reply.outcome);
  }

  /** Joining a project also joins its workspace, and changes nothing else there. */
  lemma JoinedNext(w: World, accept: Step)
    requires Inv(w) && IsAccept(accept, InProject) && Respond(w, accept).outcome.Joined?
    ensures Respond(w, accept).outcome.invite in w.inProject.invites
    ensures w.inProject.invites[Respond(w, accept).outcome.invite].space in w.projects
    ensures
      var invite := w.inProject.invites[Respond(w, accept).outcome.invite];
      Next(w, accept).inWorkspace == WithGuest(w.inWorkspace, w.now, w.projects[invite.space], invite.invitee)
  {
    var id := Respond(w, accept).outcome.invite;
    AcceptConditions(w, accept, InProject);
    EntityJoins(w.inProject, w.now, w.users, id);
    assert InviteSound(w.inProject, ScopeOf(w, InProject), id, w.inProject.invites[id]);
    ProjectAcceptNext(w, accept, Respond(w, accept));
  }

  lemma CreateProjectFields(w: World, project: Id, workspace: Id, creator: Id)
    requires Enabled(w, CreateProject(project, workspace, creator))
    ensures
      var next := Next(w, CreateProject(project, workspace, creator));
      next == w.(projects := w.projects[project := workspace], inProject := next.inProject)
      && next.inProject == NewSpace(w.inProject, w.now, project, creator, 5)
  {}

  /** A new project: five roles and its creator's membership, and its place in the workspace; nothing else changes. */
  lemma CreateProjectNext(w: World, project: Id, workspace: Id, creator: Id)
    requires Sound(w.inProject, ScopeOf(w, InProject), true) && Enabled(w, CreateProject(project, workspace, creator))
    ensures
      var next := Next(w, CreateProject(project, workspace, creator));
      && next == w.(projects := w.projects[project := workspace], inProject := next.inProject)
      && exists owner, m :: Founded(w.inProject, next.inProject, w.now, project, creator, 5, owner, m)
  {
    CreateProjectFields(w, project, workspace, creator);
    NewSpaceEffect(w.inProject, ScopeOf(w, InProject), true, w.now, project, creator, 5);
  }

  /** Deleting a project removes it and its rows, and nothing else. */
  lemma DeleteProjectNext(w: World, project: Id, id: Id)
    requires Enabled(w, DeleteProject(project))
    ensures
      var next := Next(w, DeleteProject(project));
      && next.projects == w.projects - {project} && next.inWorkspace == w.inWorkspace
      && next.users == w.users && next.workspaces == w.workspaces && next.now == w.now
      && (id in next.inProject.roles <==> id in w.inProject.roles && w.inProject.roles[id].space != project)
      && (id in next.inProject.members <==> id in w.inProject.members && w.inProject.members[id].space != project)
      && (id in next.inProject.invites <==> id in w.inProject.invites && w.inProject.invites[id].space != project)
  {
    WithoutSpaceEffect(w.inProject, project, id);
  }
}
