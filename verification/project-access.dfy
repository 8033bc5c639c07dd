/**
 Who may use a project route: the decision of the route guard, and the decision the service
 takes again behind it. They are meant to agree.
 */
module ProjectAccess {
  import opened Options
  import opened Circles
  import opened CircleInvariants
  import opened Collaboration
  import opened CollaborationRuns
  import opened CollaborationResults
  import opened CollaborationWitness

  datatype Domain =
    | TaskManagement | TaskChecklistManagement | TaskScheduleManagement
    | TaskTeamAssigneeManagement | TaskTeamReporteeManagement
    | DocumentManagement | ChangeRequestManagement
    | ProjectRoleManagement | ProjectConfigManagement | ProjectMemberManagement

  datatype Action = Create | Update | View | Delete

  /** What a route declares: the project-manager flag, or a domain; with or without an action. */
  datatype Required = CanManageProject(action: Option<Action>) | Resource(domain: Domain, action: Option<Action>)

  /** The permissions that are true in a project role's matrix. */
  datatype ProjectPermissions = ProjectPermissions(canManageProject: bool, granted: set<(Domain, Action)>)

  /** The permissions that are true in a workspace role's matrix. */
  datatype WorkspacePermissions = WorkspacePermissions(projectManagement: set<Action>, granted: set<(Domain, Action)>)

  datatype WorkspaceMember = WorkspaceMember(workspace: Id, isAdmin: bool, permissions: Option<WorkspacePermissions>)

  /** The caller's active membership row, with its role. */
  datatype Membership = Membership(roleStatus: bool, permissions: ProjectPermissions)

  datatype Decision = Allow | NotFound | Forbidden | BadRequest

  // -------------------------------------------------------------------------
  // The guard
  // -------------------------------------------------------------------------

  predicate IsAdminDomain(domain: Domain) {
    domain.ProjectRoleManagement? || domain.ProjectConfigManagement? || domain.ProjectMemberManagement?
  }

  function WorkspaceAction(required: Option<Required>): Option<Action> {
    match required
    case None => Some(View)
    case Some(CanManageProject(action)) => if action.Some? then action else Some(Update)
    case Some(Resource(domain, action)) =>
      if !IsAdminDomain(domain) || action.None? then None
      else if action == Some(Create) then Some(Update)
      else action
  }

  predicate CanUseWorkspacePermission(required: Option<Required>, member: WorkspaceMember) {
    && member.permissions.Some?
    && (|| member.isAdmin
        || match WorkspaceAction(required)
           case Some(action) => action in member.permissions.value.projectManagement
           case None =>
             && required.Some? && required.value.Resource? && required.value.action.Some?
             && (required.value.domain, required.value.action.value) in member.permissions.value.granted)
  }

  predicate CanUseProjectPermission(required: Required, permissions: ProjectPermissions) {
    match required
    case CanManageProject(_) => permissions.canManageProject
    case Resource(domain, action) =>
      action.Some?
      && ((domain, action.value) in permissions.granted || (IsAdminDomain(domain) && permissions.canManageProject))
  }

  /** The guard, for a project found in `project`'s workspace, a caller and the caller's active membership. */
  function CanActivate(required: Option<Required>, project: Option<Id>, member: Option<WorkspaceMember>,
                       membership: Option<Membership>)
    : Decision
  {
    if project.None? then NotFound
    else if member.Some? && member.value.workspace == project.value && CanUseWorkspacePermission(required, member.value)
    then Allow
    else if membership.None? then Forbidden
    else if required.None? || required == Some(Resource(TaskManagement, Some(View))) then Allow
    else if required.value.Resource? && required.value.action.None? then BadRequest
    else if CanUseProjectPermission(required.value, membership.value.permissions) then Allow
    else Forbidden
  }

  // -------------------------------------------------------------------------
  // The service
  // -------------------------------------------------------------------------

  predicate HasWorkspaceProjectPermission(member: Option<WorkspaceMember>, action: Action) {
    member.Some?
    && (|| member.value.isAdmin
        || (member.value.permissions.Some? && action in member.value.permissions.value.projectManagement))
  }

  predicate MembershipCanManage(membership: Option<Membership>) {
    membership.Some? && membership.value.roleStatus && membership.value.permissions.canManageProject
  }

  predicate MembershipIsActive(membership: Option<Membership>) {
    membership.Some? && membership.value.roleStatus
  }

  /** Loading a project for a caller; the project is looked up in the caller's workspace. */
  function LoadAuthorized(manage: bool, project: Option<Id>, workspace: Id, member: Option<WorkspaceMember>,
                          membership: Option<Membership>)
    : Decision
  {
    if project != Some(workspace) then NotFound
    else if HasWorkspaceProjectPermission(member, if manage then Update else View) then Allow
    else if if manage then MembershipCanManage(membership) else MembershipIsActive(membership) then Allow
    else Forbidden
  }

  function GetProject(project: Option<Id>, workspace: Id, member: Option<WorkspaceMember>,
                      membership: Option<Membership>): Decision {
    if !HasWorkspaceProjectPermission(member, View) && !MembershipIsActive(membership) then Forbidden
    else if project != Some(workspace) then NotFound
    else Allow
  }

  // -------------------------------------------------------------------------
  // The routes
  // -------------------------------------------------------------------------

  datatype Route = ReadRoute | UpdateRoute | DeleteRoute | ListMembersRoute | AssignMemberRoute | ChangeRoleRoute

  function RequiredBy(route: Route): Option<Required> {
    match route
    case ReadRoute => None
    case UpdateRoute => Some(CanManageProject(None))
    case DeleteRoute => Some(CanManageProject(None))
    case ListMembersRoute => Some(Resource(ProjectMemberManagement, Some(View)))
    case AssignMemberRoute => Some(Resource(ProjectMemberManagement, Some(Create)))
    case ChangeRoleRoute => Some(Resource(ProjectMemberManagement, Some(Update)))
  }

  function Guard(route: Route, project: Option<Id>, member: WorkspaceMember, membership: Option<Membership>): Decision {
    CanActivate(RequiredBy(route), project, Some(member), membership)
  }

  function Service(route: Route, project: Option<Id>, member: WorkspaceMember,
                   membership: Option<Membership>): Decision {
    match route
    case ReadRoute => GetProject(project, member.workspace, Some(member), membership)
    case ListMembersRoute => LoadAuthorized(false, project, member.workspace, Some(member), membership)
    case _ => LoadAuthorized(true, project, member.workspace, Some(member), membership)
  }

  /** The caller's active membership of a project, as both checks load it; permission matrices are given by role. */
  function ActiveMembership(c: Circle, project: Id, user: Id, permissions: map<Id, ProjectPermissions>)
    : Option<Membership>
  {
    match FindActive(c, project, user)
    case None => None
    case Some(m) =>
      var role := c.members[m].role;
      if role in c.roles && role in permissions then Some(Membership(c.roles[role].status, permissions[role])) else None
  }

  /** In every reachable state an active membership has an enabled role, so testing the role again changes nothing. */
  lemma {:induction false} RoleIsEnabled(steps: seq<Step>, project: Id, user: Id,
                                         permissions: map<Id, ProjectPermissions>)
    requires IsRun(START, steps)
    ensures
      var membership := ActiveMembership(After(START, steps).inProject, project, user, permissions);
      membership.Some? ==> membership.value.roleStatus
  {
    var c := At(After(START, steps), InProject);
    assert c == After(START, steps).inProject;
    RolesStayValid(steps, InProject);
    var active := FindActive(c, project, user);
    if active.Some? {
      var m := c.members[active.value];
      assert IsActiveIn(m, project, user);
      assert RoleUsable(c, m.space, m.role);
    }
  }

  /**
   Where guard and service look at different permissions: listing members, the service lets any
   active member through; assigning and changing roles, it wants the project-manager flag.
   */
  predicate Diverges(route: Route, membership: Option<Membership>) {
    membership.Some?
    && match route
       case ListMembersRoute =>
         (ProjectMemberManagement, View) !in membership.value.permissions.granted
             && !membership.value.permissions.canManageProject
       case AssignMemberRoute =>
         (ProjectMemberManagement, Create) in membership.value.permissions.granted
             && !membership.value.permissions.canManageProject
       case ChangeRoleRoute =>
         (ProjectMemberManagement, Update) in membership.value.permissions.granted
             && !membership.value.permissions.canManageProject
       case _ => false
  }

  function ActionOf(route: Route): Action {
    if route.ReadRoute? || route.ListMembersRoute? then View else Update
  }

  /**
   For a project in the caller's workspace and at every reachable state, guard and service agree
   on whether to allow the read, update and delete routes; on the member routes they disagree
   exactly when no workspace permission decides and the membership diverges. Then the guard alone
   refuses to list members, and the service alone refuses to assign members and change roles.
   */
  lemma {:induction false} GuardServiceAgreement(steps: seq<Step>, route: Route, project: Id, user: Id,
                                                 member: WorkspaceMember,
                                                 permissions: map<Id, ProjectPermissions>)
    requires IsRun(START, steps) && member.permissions.Some?
    requires project in After(START, steps).projects && member.workspace == After(START, steps).projects[project]
    ensures
      var w := After(START, steps);
      var membership := ActiveMembership(w.inProject, project, user, permissions);
      var guard := Guard(route, Some(w.projects[project]), member, membership);
      var service := Service(route, Some(w.projects[project]), member, membership);
      if Diverges(route, membership) && !HasWorkspaceProjectPermission(Some(member), ActionOf(route))
      then (guard, service) == if route.ListMembersRoute? then (Forbidden, Allow) else (Allow, Forbidden)
      else guard == Allow <==> service == Allow
  {
    RoleIsEnabled(steps, project, user, permissions);
    var w := After(START, steps);
    Agreement(route, w.projects[project], member, ActiveMembership(w.inProject, project, user, permissions));
  }

  lemma Agreement(route: Route, workspace: Id, member: WorkspaceMember, membership: Option<Membership>)
    requires member.permissions.Some? && member.workspace == workspace
    requires membership.Some? ==> membership.value.roleStatus
    ensures
      var guard, service := Guard(route, Some(workspace), member, membership),
          Service(route, Some(workspace), member, membership);
      if Diverges(route, membership) && !HasWorkspaceProjectPermission(Some(member), ActionOf(route))
      then (guard, service) == if route.ListMembersRoute? then (Forbidden, Allow) else (Allow, Forbidden)
      else guard == Allow <==> service == Allow
  {}

  /** A corollary: the three project routes never diverge. */
  lemma {:induction false} ProjectRoutesAgree(steps: seq<Step>, route: Route, project: Id, user: Id,
                                              member: WorkspaceMember,
                           permissions: map<Id, ProjectPermissions>)
    requires IsRun(START, steps) && member.permissions.Some?
             && (route.ReadRoute? || route.UpdateRoute? || route.DeleteRoute?)
    requires project in After(START, steps).projects && member.workspace == After(START, steps).projects[project]
    ensures
      var w := After(START, steps);
      var membership := ActiveMembership(w.inProject, project, user, permissions);
      Guard(route, Some(w.projects[project]), member, membership) == Allow
      <==> Service(route, Some(w.projects[project]), member, membership) == Allow
  {
    GuardServiceAgreement(steps, route, project, user, member, permissions);
  }

  /** Without the role invariant they would not: the service alone looks at the role's status. */
  lemma DisabledRoleWouldDiverge(route: Route, workspace: Id, permissions: ProjectPermissions)
    requires route.ReadRoute? || (route.UpdateRoute? && permissions.canManageProject)
    ensures
      var member := WorkspaceMember(workspace, false, Some(WorkspacePermissions({}, {})));
      var membership := Some(Membership(false, permissions));
      Guard(route, Some(workspace), member, membership) == Allow
          && Service(route, Some(workspace), member, membership) == Forbidden
  {}

  // -------------------------------------------------------------------------
  // Who is let through
  // -------------------------------------------------------------------------

  /** An administrator of the project's workspace passes the guard, whatever a route declares, and the service. */
  lemma AdminsPass(required: Option<Required>, route: Route, member: WorkspaceMember, membership: Option<Membership>)
    requires member.isAdmin && member.permissions.Some?
    ensures CanActivate(required, Some(member.workspace), Some(member), membership) == Allow
    ensures Service(route, Some(member.workspace), member, membership) == Allow
  {}

  /** Someone without membership, and not in the workspace, passes nothing. */
  lemma OutsidersStop(required: Option<Required>, route: Route, workspace: Id, member: WorkspaceMember)
    requires member.workspace != workspace
    ensures CanActivate(required, Some(workspace), Some(member), None) == Forbidden
    ensures CanActivate(required, Some(workspace), None, None) == Forbidden
    ensures Service(route, Some(workspace), member, None) != Allow
  {}

  /** The workspace permission lets the caller in: as an administrator, or to view or to update projects. */
  predicate WorkspaceLets(member: WorkspaceMember, action: Action) {
    member.isAdmin || (member.permissions.Some? && action in member.permissions.value.projectManagement)
  }

  /** The guard on the six routes, in terms of the two matrices and the membership. */
  lemma GuardIff(route: Route, member: WorkspaceMember, membership: Option<Membership>)
    requires member.permissions.Some?
    ensures
      Guard(route, Some(member.workspace), member, membership) == Allow <==>
      || WorkspaceLets(member, if route.ReadRoute? || route.ListMembersRoute? then View else Update)
      || (membership.Some?
          && (|| route.ReadRoute? || membership.value.permissions.canManageProject
              || (route.ListMembersRoute? && (ProjectMemberManagement, View) in membership.value.permissions.granted)
              || (route.AssignMemberRoute? && (ProjectMemberManagement, Create) in membership.value.permissions.granted)
              || (route.ChangeRoleRoute? && (ProjectMemberManagement, Update) in membership.value.permissions.granted)))
  {}

  /** The service on the six routes: any enabled role may read and list, the rest needs the manager flag. */
  lemma ServiceIff(route: Route, member: WorkspaceMember, membership: Option<Membership>)
    ensures
      Service(route, Some(member.workspace), member, membership) == Allow <==>
      || WorkspaceLets(member, if route.ReadRoute? || route.ListMembersRoute? then View else Update)
      || (membership.Some? && membership.value.roleStatus
          && (route.ReadRoute? || route.ListMembersRoute? || membership.value.permissions.canManageProject))
  {}

  /** What a workspace action is worth on a resource: an administration domain counts as managing projects. */
  predicate WorkspaceGrants(member: WorkspaceMember, domain: Domain, action: Action) {
    member.permissions.Some?
    && var p := member.permissions.value;
       || member.isAdmin
       || (if domain.ProjectRoleManagement? || domain.ProjectConfigManagement? || domain.ProjectMemberManagement?
           then (if action.Create? then Update else action) in p.projectManagement
           else (domain, action) in p.granted)
  }

  /** The guard on a resource: the workspace grants it, or the project role does, as the manager flag in its domains. */
  lemma ResourceIff(domain: Domain, action: Action, member: WorkspaceMember, membership: Option<Membership>)
    ensures
      CanActivate(Some(Resource(domain, Some(action))), Some(member.workspace), Some(member), membership) == Allow <==>
      || WorkspaceGrants(member, domain, action)
      || (membership.Some?
          && (|| (domain.TaskManagement? && action.View?) || (domain, action) in membership.value.permissions.granted
              || (membership.value.permissions.canManageProject
                  && (domain.ProjectRoleManagement? || domain.ProjectConfigManagement?
                      || domain.ProjectMemberManagement?))))
  {}

  /** How the guard refuses: unknown project, a declaration without an action, or no permission. */
  lemma GuardRefusal(required: Option<Required>, project: Option<Id>, member: Option<WorkspaceMember>,
                     membership: Option<Membership>)
    requires CanActivate(required, project, member, membership) != Allow
    ensures
      CanActivate(required, project, member, membership) ==
      if project == None then NotFound
      else if membership.Some? && required.Some? && required.value.Resource? && required.value.action == None
      then BadRequest
      else Forbidden
  {}

  /** How the service refuses: reading looks at the permission first, everything else at the project. */
  lemma ServiceRefusal(route: Route, project: Option<Id>, member: WorkspaceMember, membership: Option<Membership>)
    requires Service(route, project, member, membership) != Allow
    ensures
      Service(route, project, member, membership) ==
      if route.ReadRoute? then
        if WorkspaceLets(member, View) || (membership.Some? && membership.value.roleStatus) then NotFound else Forbidden
      else if project != Some(member.workspace) then NotFound
      else Forbidden
  {}

  // -------------------------------------------------------------------------
  // The disagreements occur
  // -------------------------------------------------------------------------

  /** A caller of workspace 0 whose workspace role grants nothing. */
  const PLAIN_MEMBER := WorkspaceMember(0, false, Some(WorkspacePermissions({}, {})))

  lemma CreatorIsActive(permissions: ProjectPermissions)
    ensures
      var w := After(START, CREATED);
      ActiveMembership(w.inProject, 0, 0, map[0 := permissions]) == Some(Membership(true, permissions))
  {
    ProjectCreated();
    DefaultRolesAre(0, 0, DEFAULT_ROLES);
    var c := W4().inProject;
    assert IsActiveIn(c.members[5], 0, 0);
    assert FindActive(c, 0, 0) == Some(5);
  }

  /** A member whose role grants nothing: the guard refuses to list the members of the project, the service would. */
  lemma ListingDiverges()
    ensures IsRun(START, CREATED) && After(START, CREATED).projects == map[0 := 0]
    ensures
      var membership := ActiveMembership(After(START, CREATED).inProject, 0, 0,
                                         map[0 := ProjectPermissions(false, {})]);
      && Guard(ListMembersRoute, Some(0), PLAIN_MEMBER, membership) == Forbidden
      && Service(ListMembersRoute, Some(0), PLAIN_MEMBER, membership) == Allow
  {
    ProjectCreated();
    CreatorIsActive(ProjectPermissions(false, {}));
  }

  /**
   A member whose role grants member management only: the guard lets assigning and role changes
   through, the service refuses.
   */
  lemma AssigningDiverges(route: Route)
    requires route.AssignMemberRoute? || route.ChangeRoleRoute?
    ensures IsRun(START, CREATED) && After(START, CREATED).projects == map[0 := 0]
    ensures
      var granted := ProjectPermissions(false, {(ProjectMemberManagement, Create), (ProjectMemberManagement, Update)});
      var membership := ActiveMembership(After(START, CREATED).inProject, 0, 0, map[0 := granted]);
      Guard(route, Some(0), PLAIN_MEMBER, membership) == Allow
          && Service(route, Some(0), PLAIN_MEMBER, membership) == Forbidden
  {
    ProjectCreated();
    CreatorIsActive(ProjectPermissions(false, {(ProjectMemberManagement, Create), (ProjectMemberManagement, Update)}));
  }
}
