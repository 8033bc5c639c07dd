/**
 The invite, member and role services over mutable tables: each method loads a row, assigns its
 fields and saves it, and leaves what Circles gives for the operation. The services together
 take exactly the steps of Collaboration, so what holds of its runs holds of them.
 */
module CollaborationService {
  import opened Options
  import opened C = Circles
  import opened M = Collaboration
  import opened CollaborationRuns

  /** The tables of one kind of space. */
  class Space {
    var roles: map<Id, Role>
    var members: map<Id, Member>
    var invites: map<Id, Invite>
    var supply: Id

    constructor ()
      ensures Rows() == Circle(map[], map[], map[], 0)
    {
      roles, members, invites, supply := map[], map[], map[], 0;
    }

    function Rows(): Circle
      reads this
    {
      Circle(roles, members, invites, supply)
    }

    method SaveInvite(id: Id, invite: Invite)
      modifies this`invites
      ensures invites == old(invites)[id := invite]
    {
      invites := invites[id := invite];
    }

    method SaveMember(id: Id, member: Member)
      modifies this`members
      ensures members == old(members)[id := member]
    {
      members := members[id := member];
    }

    /** A number never used before. */
    method Fresh() returns (id: Id)
      modifies this`supply
      ensures id == old(supply) && supply == old(supply) + 1
    {
      id := supply;
      supply := supply + 1;
    }

    method SaveNewInvite(space: Id, role: Id, user: Id, now: int) returns (outcome: Outcome)
      modifies this
      ensures Reply(Rows(), outcome) == C.NewInvite(old(Rows()), now, space, role, user)
    {
      var id := Fresh();
      var token := Fresh();
      SaveInvite(id, Invite(space, user, role, token, Pending, now + INVITE_TTL_MS, None));
      outcome := Sent(id, token);
    }

    method CreateInvite(known: bool, users: set<Id>, space: Id, role: Id, user: Id, now: int) returns (outcome: Outcome)
      modifies this
      ensures Reply(Rows(), outcome) == C.CreateInvite(old(Rows()), now, known, users, space, role, user)
    {
      if !known {
        return Rejected(SpaceNotFound);
      }
      if !(role in roles && roles[role].space == space && roles[role].status) {
        return Rejected(RoleInvalid);
      }
      if user !in users {
        return Rejected(InviteeNotFound);
      }
      if FindActive(Rows(), space, user).Some? {
        return Rejected(AlreadyMember);
      }
      if FindPending(Rows(), space, user).Some? {
        return Rejected(DuplicateInvite);
      }
      outcome := SaveNewInvite(space, role, user, now);
    }

    method ResendInvite(id: Id, now: int) returns (outcome: Outcome)
      modifies this
      ensures Reply(Rows(), outcome) == C.ResendInvite(old(Rows()), now, id)
    {
      if id !in invites {
        return Rejected(InviteNotFound);
      }
      var invite := invites[id];
      if invite.status != Pending {
        return Rejected(InviteNotPending);
      }
      var token := Fresh();
      invite := invite.(token := token);
      invite := invite.(expiresAt := now + INVITE_TTL_MS);
      SaveInvite(id, invite);
      outcome := Sent(id, token);
    }

    method CancelInvite(id: Id) returns (outcome: Outcome)
      modifies this
      ensures Reply(Rows(), outcome) == C.CancelInvite(old(Rows()), id)
    {
      if id !in invites {
        return Rejected(InviteNotFound);
      }
      var invite := invites[id];
      if invite.status != Pending {
        return Rejected(InviteNotPending);
      }
      invite := invite.(status := Revoked);
      SaveInvite(id, invite);
      outcome := Done;
    }

    method DeclineInvite(id: Id, user: Id) returns (outcome: Outcome)
      modifies this
      ensures Reply(Rows(), outcome) == C.DeclineInvite(old(Rows()), id, user)
    {
      if id !in invites {
        return Rejected(InviteNotFound);
      }
      var invite := invites[id];
      if invite.invitee != user {
        return Rejected(NotYours);
      }
      if invite.status != Pending {
        return Rejected(InviteNotPending);
      }
      invite := invite.(status := Declined);
      SaveInvite(id, invite);
      outcome := Done;
    }

    /** Add a membership, or bring the one there is up to date. */
    method UpsertMember(space: Id, user: Id, role: Id, now: int)
      modifies this`members, this`supply
      ensures Rows() == C.Enrolled(old(Rows()), now, space, user, role)
    {
      var found := FindMember(Rows(), space, user);
      if found.None? {
        var id := Fresh();
        SaveMember(id, Member(space, user, role, Active, now));
        return;
      }
      var member := members[found.value];
      if member.status == Removed {
        member := member.(status := Active);
        member := member.(joinedAt := now);
        member := member.(role := role);
      } else {
        member := member.(role := role);
      }
      SaveMember(found.value, member);
    }

    method AcceptInviteEntity(id: Id, users: set<Id>, now: int) returns (outcome: Outcome)
      requires id in invites
      modifies this
      ensures Reply(Rows(), outcome) == C.AcceptEntity(old(Rows()), now, users, id)
    {
      var invite := invites[id];
      if !(invite.role in roles && roles[invite.role].space == invite.space && roles[invite.role].status) {
        return Rejected(RoleUnavailable);
      }
      if invite.invitee !in users {
        return Rejected(InviteeNotFound);
      }
      UpsertMember(invite.space, invite.invitee, invite.role, now);
      invite := invite.(status := Accepted);
      invite := invite.(acceptedAt := Some(now));
      SaveInvite(id, invite);
      outcome := Joined(id);
    }

    method Expire(id: Id)
      requires id in invites
      modifies this`invites
      ensures Rows() == C.Closed(old(Rows()), id, Expired)
    {
      SaveInvite(id, invites[id].(status := Expired));
    }

    method AcceptInvite(token: Option<Id>, users: set<Id>, now: int) returns (outcome: Outcome)
      modifies this
      ensures Reply(Rows(), outcome) == C.AcceptInvite(old(Rows()), now, users, token)
    {
      if token.None? {
        return Rejected(TokenRequired);
      }
      var found := FindToken(Rows(), token.value);
      if found.None? {
        return Rejected(InviteNotFound);
      }
      var invite := invites[found.value];
      if invite.status != Pending {
        return Rejected(TokenInvalid);
      }
      if invite.expiresAt < now {
        Expire(found.value);
        return Rejected(TokenInvalid);
      }
      outcome := AcceptInviteEntity(found.value, users, now);
    }

    method AcceptInviteById(id: Id, user: Id, users: set<Id>, now: int) returns (outcome: Outcome)
      modifies this
      ensures Reply(Rows(), outcome) == C.AcceptInviteById(old(Rows()), now, users, id, user)
    {
      if id !in invites {
        return Rejected(InviteNotFound);
      }
      var invite := invites[id];
      if invite.status != Pending {
        return Rejected(InviteNotPending);
      }
      if invite.expiresAt < now {
        Expire(id);
        return Rejected(TokenInvalid);
      }
      if invite.invitee != user {
        return Rejected(NotYours);
      }
      outcome := AcceptInviteEntity(id, users, now);
    }

    method EnsureMembership(space: Id, user: Id, now: int)
      modifies this`roles, this`members, this`supply
      ensures Rows() == C.WithGuest(old(Rows()), now, space, user)
    {
      var existing := FindMember(Rows(), space, user);
      if existing.Some? {
        var member := members[existing.value];
        if member.status == Removed {
          member := member.(status := Active);
          member := member.(joinedAt := now);
          SaveMember(existing.value, member);
        }
        return;
      }
      var guestRole := FindGuestRole(Rows(), space);
      if guestRole.None? {
        var id := Fresh();
        roles := roles[id := Role(space, true, false, true)];
        guestRole := Some(id);
      }
      var id := Fresh();
      SaveMember(id, Member(space, user, guestRole.value, Active, now));
    }

    method AssignMember(known: bool, users: set<Id>, space: Id, user: Id, role: Id, now: int) returns (outcome: Outcome)
      modifies this
      ensures Reply(Rows(), outcome) == C.AssignMember(old(Rows()), now, known, users, space, user, role)
    {
      if !known {
        return Rejected(SpaceNotFound);
      }
      if user !in users {
        return Rejected(InviteeNotFound);
      }
      if !(role in roles && roles[role].space == space && roles[role].status) {
        return Rejected(RoleInvalid);
      }
      var active := FindActive(Rows(), space, user);
      if active.Some? {
        SaveMember(active.value, members[active.value].(role := role));
        return Done;
      }
      var pending := FindPending(Rows(), space, user);
      if pending.Some? {
        SaveInvite(pending.value, invites[pending.value].(role := role));
        return Done;
      }
      outcome := SaveNewInvite(space, role, user, now);
    }

    method UpdateMemberRole(known: bool, space: Id, user: Id, role: Id) returns (outcome: Outcome)
      modifies this`members
      ensures Reply(Rows(), outcome) == C.UpdateMemberRole(old(Rows()), known, space, user, role)
    {
      if !known {
        return Rejected(SpaceNotFound);
      }
      var active := FindActive(Rows(), space, user);
      if active.None? {
        return Rejected(MemberNotFound);
      }
      if !(role in roles && roles[role].space == space && roles[role].status) {
        return Rejected(RoleInvalid);
      }
      SaveMember(active.value, members[active.value].(role := role));
      outcome := Done;
    }

    method CreateRole(known: bool, space: Id) returns (outcome: Outcome)
      modifies this
      ensures Reply(Rows(), outcome) == C.CreateRole(old(Rows()), known, space)
    {
      if !known {
        return Rejected(SpaceNotFound);
      }
      var id := Fresh();
      roles := roles[id := Role(space, true, false, false)];
      outcome := Done;
    }

    method UpdateRole(known: bool, space: Id, role: Id, status: Option<bool>) returns (outcome: Outcome)
      modifies this`roles
      ensures Reply(Rows(), outcome) == C.UpdateRole(old(Rows()), known, space, role, status)
    {
      if !known {
        return Rejected(SpaceNotFound);
      }
      if role !in roles || roles[role].space != space {
        return Rejected(RoleNotFound);
      }
      if status.Some? {
        if roles[role].isProtected && !status.value {
          return Rejected(RoleProtected);
        }
        if !status.value && HeldRole(Rows(), role) {
          return Rejected(RoleInUse);
        }
        roles := roles[role := roles[role].(status := status.value)];
      }
      outcome := Done;
    }

    method DeleteRole(known: bool, space: Id, role: Id) returns (outcome: Outcome)
      modifies this`roles
      ensures Reply(Rows(), outcome) == C.DeleteRole(old(Rows()), known, space, role)
    {
      if !known {
        return Rejected(SpaceNotFound);
      }
      if role !in roles || roles[role].space != space {
        return Rejected(RoleNotFound);
      }
      if roles[role].isProtected {
        return Rejected(RoleProtected);
      }
      if HeldRole(Rows(), role) {
        return Rejected(RoleInUse);
      }
      if Referenced(Rows(), role) {
        return Rejected(RoleReferenced);
      }
      roles := roles - {role};
      outcome := Done;
    }

    /** The default roles of a new space, the owner's first. */
    method SaveDefaultRoles(space: Id, n: nat)
      modifies this`roles, this`supply
      ensures roles == old(roles) + DefaultRoles(space, old(supply), n) && supply == old(supply) + n
    {
      for k := 0 to n
        invariant roles == old(roles) + DefaultRoles(space, old(supply), k) && supply == old(supply) + k
      {
        var id := Fresh();
        roles := roles[id := Role(space, true, k == 0, false)];
      }
    }

    /** A new space, with its creator as the sole member in the owner's role. */
    method CreateSpace(space: Id, creator: Id, n: nat, now: int)
      requires 0 < n
      modifies this`roles, this`members, this`supply
      ensures Rows() == C.NewSpace(old(Rows()), now, space, creator, n)
    {
      var ownerRole := supply;
      SaveDefaultRoles(space, n);
      var id := Fresh();
      SaveMember(id, Member(space, creator, ownerRole, Active, now));
    }

    /** Deleting a space; its rows in the three tables go with it. */
    method DeleteSpace(space: Id)
      modifies this`roles, this`members, this`invites
      ensures Rows() == C.WithoutSpace(old(Rows()), space)
    {
      roles := map r | r in roles && roles[r].space != space :: roles[r];
      members := map m | m in members && members[m].space != space :: members[m];
      invites := map i | i in invites && invites[i].space != space :: invites[i];
    }
  }

  /**
   The services over one database: projects and workspaces, each with their tables. Serving
   requests one after another is a run in the sense of Collaboration.
   */
  class Services {
    const inProject: Space
    const inWorkspace: Space
    var clock: int
    var users: set<Id>
    var workspaces: set<Id>
    var projects: map<Id, Id>
    ghost var sentProject: SentLog
    ghost var sentWorkspace: SentLog

    constructor ()
      ensures World() == START && Valid() && fresh(inProject) && fresh(inWorkspace)
    {
      inProject := new Space();
      inWorkspace := new Space();
      clock, users, workspaces, projects := 0, {}, {}, map[];
      sentProject, sentWorkspace := map[], map[];
    }

    ghost function World(): World
      reads this, inProject, inWorkspace
    {
      M.World(clock, users, workspaces, projects, inProject.Rows(), inWorkspace.Rows(), sentProject, sentWorkspace)
    }

    /** The joint invariant of roles, members and invites, at both levels. */
    ghost predicate Valid()
      reads this, inProject, inWorkspace
    {
      inProject != inWorkspace && Inv(World())
    }

    function SpaceOf(level: Level): Space {
      if level.InProject? then inProject else inWorkspace
    }

    /** Route one call to its handler. */
    method Route(step: Step) returns (outcome: Outcome)
      requires IsCall(step) && inProject != inWorkspace
      modifies inProject, inWorkspace
      ensures Reply(SpaceOf(LevelOf(step)).Rows(), outcome) == old(Respond(World(), step))
      ensures LevelOf(step) == InProject ==> inWorkspace.Rows() == old(inWorkspace.Rows())
      ensures LevelOf(step) == InWorkspace ==> inProject.Rows() == old(inProject.Rows())
    {
      var tables := SpaceOf(LevelOf(step));
      match step
      case CreateProjectRole(p) => outcome := tables.CreateRole(p in projects, p);
      case UpdateProjectRole(p, role, status) => outcome := tables.UpdateRole(p in projects, p, role, status);
      case DeleteProjectRole(p, role) => outcome := tables.DeleteRole(p in projects, p, role);
      case AssignProjectMember(p, user, role) =>
        outcome := tables.AssignMember(p in projects, users, p, user, role, clock);
      case UpdateMemberRole(level, space, user, role) =>
        outcome := tables.UpdateMemberRole(IsKnown(level, space), space, user, role);
      case CreateInvite(level, space, role, user) =>
        outcome := tables.CreateInvite(IsKnown(level, space), users, space, role, user, clock);
      case ResendInvite(_, id) => outcome := tables.ResendInvite(id, clock);
      case CancelInvite(_, id) => outcome := tables.CancelInvite(id);
      case AcceptInvite(_, token) => outcome := tables.AcceptInvite(token, users, clock);
      case AcceptInviteById(_, id, user) => outcome := tables.AcceptInviteById(id, user, users, clock);
      case DeclineInvite(_, id, user) => outcome := tables.DeclineInvite(id, user);
    }

    predicate IsKnown(level: Level, space: Id)
      reads this
    {
      if level.InProject? then space in projects else space in workspaces
    }

    /** The workspace side of a project accept, in the same transaction. */
    method JoinWorkspace(level: Level, outcome: Outcome)
      requires inProject != inWorkspace
      modifies inWorkspace
      ensures World() == WithWorkspace(old(World()), level, outcome)
    {
      if level == InProject && outcome.Joined? && outcome.invite in inProject.invites {
        var invite := inProject.invites[outcome.invite];
        if invite.space in projects {
          inWorkspace.EnsureMembership(projects[invite.space], invite.invitee, clock);
        }
      }
    }

    /** One call of a service. */
    method Call(step: Step) returns (outcome: Outcome)
      requires IsCall(step) && inProject != inWorkspace
      modifies this, inProject, inWorkspace
      ensures World() == Next(old(World()), step) && outcome == Respond(old(World()), step).outcome
    {
      ghost var w, level := World(), LevelOf(step);
      outcome := Route(step);
      if level == InProject {
        sentProject := SentAfter(sentProject, clock, outcome);
      } else {
        sentWorkspace := SentAfter(sentWorkspace, clock, outcome);
      }
      assert World() == Put(w, level, Respond(w, step));
      JoinWorkspace(LevelOf(step), outcome);
    }

    /** A step taken elsewhere: time, accounts, workspaces, and the creation and deletion of projects. */
    method Environment(step: Step)
      requires !IsCall(step) && inProject != inWorkspace && Enabled(World(), step)
      modifies this, inProject, inWorkspace
      ensures World() == Next(old(World()), step)
    {
      match step
      case Tick(ms) => clock := clock + ms;
      case AddUser(user) => users := users + {user};
      case AddWorkspace(workspace, creator) =>
        workspaces := workspaces + {workspace};
        inWorkspace.CreateSpace(workspace, creator, 1, clock);
      case AddWorkspaceRole(workspace) =>
        var outcome := inWorkspace.CreateRole(true, workspace);
      case RenameWorkspaceRole(role, isGuest) =>
        inWorkspace.roles := inWorkspace.roles[role := inWorkspace.roles[role].(isGuest := isGuest)];
      case AddWorkspaceMember(workspace, user, role) =>
        users := users + {user};
        inWorkspace.UpsertMember(workspace, user, role, clock);
      case RemoveMember(level, member) =>
        var tables := SpaceOf(level);
        tables.SaveMember(member, tables.members[member].(status := Removed));
      case CreateProject(project, workspace, creator) =>
        projects := projects[project := workspace];
        inProject.CreateSpace(project, creator, DEFAULT_ROLES, clock);
      case DeleteProject(project) =>
        projects := projects - {project};
        inProject.DeleteSpace(project);
    }

    /** One step of a run, which keeps the joint invariant. */
    method Handle(step: Step)
      requires Valid() && Enabled(World(), step)
      modifies this, inProject, inWorkspace
      ensures World() == Next(old(World()), step) && Valid()
    {
      StepKeepsInv(World(), step);
      if IsCall(step) {
        var outcome := Call(step);
      } else {
        Environment(step);
      }
    }

    /** Any steps, one after another: a run, with the joint invariant kept. */
    method Serve(steps: seq<Step>)
      requires Valid() && IsRun(World(), steps)
      modifies this, inProject, inWorkspace
      ensures World() == After(old(World()), steps) && Valid()
      decreases |steps|
    {
      if steps != [] {
        Handle(steps[0]);
        Serve(steps[1..]);
      }
    }
  }
}
