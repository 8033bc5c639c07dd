/**
 Projects and workspaces together: runs of any calls to the project, role and invite services,
 of time passing, and of the changes other parts of the system make.
 */
module Collaboration {
  import opened Options
  import opened Circles
  import opened CircleInvariants

  datatype Level = InProject | InWorkspace

  /** For each token, when it was issued; no step looks at it. */
  type SentLog = map<Id, int>

  datatype World = World(
    now: int,
    users: set<Id>,
    workspaces: set<Id>,
    projects: map<Id, Id>,   // each project's workspace
    inProject: Circle,
    inWorkspace: Circle,
    sentProject: SentLog,
    sentWorkspace: SentLog)

  datatype Step =
    | Tick(ms: nat)
    | AddUser(user: Id)
    | AddWorkspace(workspace: Id, creator: Id)
    | AddWorkspaceRole(workspace: Id)
    | RenameWorkspaceRole(role: Id, isGuest: bool)
    | AddWorkspaceMember(workspace: Id, user: Id, role: Id)
    | RemoveMember(level: Level, member: Id)
    | CreateProject(project: Id, workspace: Id, creator: Id)
    | DeleteProject(project: Id)
    | CreateProjectRole(project: Id)
    | UpdateProjectRole(project: Id, role: Id, status: Option<bool>)
    | DeleteProjectRole(project: Id, role: Id)
    | AssignProjectMember(project: Id, user: Id, role: Id)
    | UpdateMemberRole(level: Level, space: Id, user: Id, role: Id)
    | CreateInvite(level: Level, space: Id, role: Id, user: Id)
    | ResendInvite(level: Level, invite: Id)
    | CancelInvite(level: Level, invite: Id)
    | AcceptInvite(level: Level, token: Option<Id>)
    | AcceptInviteById(level: Level, invite: Id, user: Id)
    | DeclineInvite(level: Level, invite: Id, user: Id)

  const START := World(0, {}, {}, map[], NOTHING, NOTHING, map[], map[])

  const NOTHING := Circle(map[], map[], map[], 0)

  function At(w: World, level: Level): Circle {
    match level case InProject => w.inProject case InWorkspace => w.inWorkspace
  }

  function Spaces(w: World, level: Level): set<Id> {
    match level case InProject => w.projects.Keys case InWorkspace => w.workspaces
  }

  function ScopeOf(w: World, level: Level): Scope {
    Scope(w.users, Spaces(w, level))
  }

  predicate Enabled(w: World, step: Step) {
    match step
    case AddUser(user) => user !in w.users
    case AddWorkspace(workspace, creator) => workspace !in w.workspaces && creator in w.users
    case AddWorkspaceRole(workspace) => workspace in w.workspaces
    case RenameWorkspaceRole(role, _) => role in w.inWorkspace.roles
    case AddWorkspaceMember(workspace, user, role) =>
      workspace in w.workspaces && user !in w.users && RoleUsable(w.inWorkspace, workspace, role)
    case RemoveMember(level, member) => member in At(w, level).members
    case CreateProject(project, workspace, creator) =>
      project !in w.projects && workspace in w.workspaces && creator in w.users
    case DeleteProject(project) => project in w.projects
    case _ => true
  }

  /** What an operation does to the one circle it works in; other steps leave both circles to Next. */
  function Respond(w: World, step: Step): Reply {
    match step
    case CreateProjectRole(p) => Circles.CreateRole(w.inProject, p in w.projects, p)
    case UpdateProjectRole(p, role, status) => Circles.UpdateRole(w.inProject, p in w.projects, p, role, status)
    case DeleteProjectRole(p, role) => Circles.DeleteRole(w.inProject, p in w.projects, p, role)
    case AssignProjectMember(p, user, role) =>
      Circles.AssignMember(w.inProject, w.now, p in w.projects, w.users, p, user, role)
    case UpdateMemberRole(level, space, user, role) =>
      Circles.UpdateMemberRole(At(w, level), space in Spaces(w, level), space, user, role)
    case CreateInvite(level, space, role, user) =>
      Circles.CreateInvite(At(w, level), w.now, space in Spaces(w, level), w.users, space, role, user)
    case ResendInvite(level, id) => Circles.ResendInvite(At(w, level), w.now, id)
    case CancelInvite(level, id) => Circles.CancelInvite(At(w, level), id)
    case AcceptInvite(level, token) => Circles.AcceptInvite(At(w, level), w.now, w.users, token)
    case AcceptInviteById(level, id, user) => Circles.AcceptInviteById(At(w, level), w.now, w.users, id, user)
    case DeclineInvite(level, id, user) => Circles.DeclineInvite(At(w, level), id, user)
    case _ => Reply(w.inProject, Done)
  }

  function LevelOf(step: Step): Level {
    match step
    case UpdateMemberRole(level, _, _, _) => level
    case CreateInvite(level, _, _, _) => level
    case ResendInvite(level, _) => level
    case CancelInvite(level, _) => level
    case AcceptInvite(level, _) => level
    case AcceptInviteById(level, _, _) => level
    case DeclineInvite(level, _, _) => level
    case _ => InProject
  }

  function SentAfter(sent: SentLog, now: int, outcome: Outcome): SentLog {
    if outcome.Sent? then sent[outcome.token := now] else sent
  }

  /** The world after an operation on one level, without the workspace side of a project accept. */
  function Put(w: World, level: Level, reply: Reply): World {
    match level
    case InProject => w.(inProject := reply.circle, sentProject := SentAfter(w.sentProject, w.now, reply.outcome))
    case InWorkspace => w.(inWorkspace := reply.circle,
                           sentWorkspace := SentAfter(w.sentWorkspace, w.now, reply.outcome))
  }

  /** Joining a project also makes the user a member of its workspace. */
  function WithWorkspace(w: World, level: Level, outcome: Outcome): World {
    if level == InProject && outcome.Joined? && outcome.invite in w.inProject.invites
       && w.inProject.invites[outcome.invite].space in w.projects
    then
      var invite := w.inProject.invites[outcome.invite];
      w.(inWorkspace := WithGuest(w.inWorkspace, w.now, w.projects[invite.space], invite.invitee))
    else w
  }

  function Next(w: World, step: Step): World
    requires Enabled(w, step)
  {
    match step
    case Tick(ms) => w.(now := w.now + ms)
    case AddUser(user) => w.(users := w.users + {user})
    case AddWorkspace(workspace, creator) =>
      w.(workspaces := w.workspaces + {workspace}, inWorkspace := NewSpace(w.inWorkspace, w.now, workspace, creator, 1))
    case AddWorkspaceRole(workspace) => w.(inWorkspace := CreateRole(w.inWorkspace, true, workspace).circle)
    case RenameWorkspaceRole(role, isGuest) =>
      var roles := w.inWorkspace.roles;
      w.(inWorkspace := w.inWorkspace.(roles := roles[role := roles[role].(isGuest := isGuest)]))
    case AddWorkspaceMember(workspace, user, role) =>
      w.(users := w.users + {user}, inWorkspace := Enrolled(w.inWorkspace, w.now, workspace, user, role))
    case RemoveMember(level, member) =>
      var c := At(w, level);
      Put(w, level, Reply(c.(members := c.members[member := c.members[member].(status := Removed)]), Done))
    case CreateProject(project, workspace, creator) =>
      w.(projects := w.projects[project := workspace],
         inProject := NewSpace(w.inProject, w.now, project, creator, DEFAULT_ROLES))
    case DeleteProject(project) =>
      w.(projects := w.projects - {project}, inProject := WithoutSpace(w.inProject, project))
    case _ =>
      var reply := Respond(w, step);
      WithWorkspace(Put(w, LevelOf(step), reply), LevelOf(step), reply.outcome)
  }

  predicate IsRun(w: World, steps: seq<Step>)
    decreases |steps|
  {
    steps == [] || (Enabled(w, steps[0]) && IsRun(Next(w, steps[0]), steps[1..]))
  }

  function After(w: World, steps: seq<Step>): World
    requires IsRun(w, steps)
    decreases |steps|
  {
    if steps == [] then w else After(Next(w, steps[0]), steps[1..])
  }

  /** The calls of the services, as opposed to time passing and changes made elsewhere. */
  predicate IsCall(step: Step) {
    !(step.Tick? || step.AddUser? || step.AddWorkspace? || step.AddWorkspaceRole? || step.RenameWorkspaceRole?
      || step.AddWorkspaceMember? || step.RemoveMember? || step.CreateProject? || step.DeleteProject?)
  }

  // -------------------------------------------------------------------------
  // The invariant
  // -------------------------------------------------------------------------

  /** Workspace roles are never disabled or deleted, so every membership keeps a usable one. */
  ghost predicate Permanent(c: Circle) {
    && (forall r :: r in c.roles ==> c.roles[r].status)
    && forall m :: m in c.members ==> RoleUsable(c, c.members[m].space, c.members[m].role)
  }

  /** Every invite expires a week after its current token was issued. */
  ghost predicate Dated(c: Circle, sent: SentLog) {
    forall i :: i in c.invites ==>
      c.invites[i].token in sent && c.invites[i].expiresAt == sent[c.invites[i].token] + INVITE_TTL_MS
  }

  ghost predicate Inv(w: World) {
    && Sound(w.inProject, ScopeOf(w, InProject), true)
    && Sound(w.inWorkspace, ScopeOf(w, InWorkspace), false)
    && Permanent(w.inWorkspace)
    && (forall p :: p in w.projects ==> w.projects[p] in w.workspaces)
    && Dated(w.inProject, w.sentProject) && Dated(w.inWorkspace, w.sentWorkspace)
  }

  lemma CallKeepsSound(w: World, step: Step, x: bool)
    requires IsCall(step) && Sound(At(w, LevelOf(step)), ScopeOf(w, LevelOf(step)), x)
    ensures Sound(Respond(w, step).circle, ScopeOf(w, LevelOf(step)), x)
  {
    var c, scope := At(w, LevelOf(step)), ScopeOf(w, LevelOf(step));
    match step
    case CreateProjectRole(p) => RoleOpsKeep(c, scope, x, p in w.projects, p, 0, None);
    case UpdateProjectRole(p, role, status) => RoleOpsKeep(c, scope, x, p in w.projects, p, role, status);
    case DeleteProjectRole(p, role) => RoleOpsKeep(c, scope, x, p in w.projects, p, role, None);
    case AssignProjectMember(p, user, role) => AssignKeeps(c, scope, x, w.now, p in w.projects, p, user, role);
    case UpdateMemberRole(level, space, user, role) =>
      UpdateMemberRoleKeeps(c, scope, x, space in Spaces(w, level), space, user, role);
    case CreateInvite(level, space, role, user) =>
      CreateInviteKeeps(c, scope, x, w.now, space in Spaces(w, level), space, role, user);
    case ResendInvite(_, id) => ResendKeeps(c, scope, x, w.now, id);
    case CancelInvite(_, id) => CloseKeeps(c, scope, x, id, 0);
    case AcceptInvite(_, token) => AcceptInviteKeeps(c, scope, x, w.now, token);
    case AcceptInviteById(_, id, user) => AcceptInviteByIdKeeps(c, scope, x, w.now, id, user);
    case DeclineInvite(_, id, user) => CloseKeeps(c, scope, x, id, user);
  }
}
