/**
 Exactly when a workspace has an active member whose invite is still pending: after an accepted
 project invite has overtaken a workspace invite, and never otherwise.
 */
module CollaborationClashes {
  import opened Options
  import opened Circles
  import opened CircleInvariants
  import opened Collaboration
  import opened CollaborationRuns
  import opened CollaborationResults

  /** The project invite that the step presents: by its current token, or by its id and on behalf of its invitee. */
  function Presented(w: World, step: Step): Option<Id> {
    match step
    case AcceptInvite(InProject, Some(token)) => FindToken(w.inProject, token)
    case AcceptInviteById(InProject, id, user) =>
      if id in w.inProject.invites && w.inProject.invites[id].invitee == user then Some(id) else None
    case _ => None
  }

  /** The invite by which the step makes its invitee a member of the project. */
  function Joining(w: World, step: Step): Option<Id> {
    var id := Presented(w, step);
    if id.Some? && Acceptable(w.inProject, w.now, id.value) then id else None
  }

  /** The step makes someone join a project who has a pending invite to its workspace. */
  predicate Overtakes(w: World, step: Step) {
    match Joining(w, step)
    case None => false
    case Some(id) =>
      var invite := w.inProject.invites[id];
      invite.space in w.projects && FindPending(w.inWorkspace, w.projects[invite.space], invite.invitee).Some?
  }

  lemma PendingJoins(w: World, id: Id)
    requires Inv(w) && Acceptable(w.inProject, w.now, id)
    ensures AcceptEntity(w.inProject, w.now, w.users, id).outcome == Joined(id)
    ensures w.inProject.invites[id].space in w.projects
  {
    assert InviteSound(w.inProject, ScopeOf(w, InProject), id, w.inProject.invites[id]);
  }

  lemma OnlyAcceptsJoin(w: World, step: Step)
    requires IsCall(step) && LevelOf(step) == InProject && !IsAccept(step, InProject)
    ensures !Respond(w, step).outcome.Joined? && Joining(w, step).None?
  {}

  /** The guards of an accept, in terms of the request and the tables. */
  lemma JoiningIff(w: World, step: Step)
    requires Inv(w) && IsAccept(step, InProject)
    ensures
      match Joining(w, step)
      case Some(id) => Respond(w, step).outcome == Joined(id) && w.inProject.invites[id].space in w.projects
      case None => !Respond(w, step).outcome.Joined?
  {
    var id := Presented(w, step);
    if id.Some? && Acceptable(w.inProject, w.now, id.value) {
      PendingJoins(w, id.value);
    } else if Respond(w, step).outcome.Joined? {
      AcceptConditions(w, step, InProject);
      PresentedIsJoined(w, step);
    }
  }

  lemma PresentedIsJoined(w: World, step: Step)
    requires IsAccept(step, InProject) && Respond(w, step).outcome.Joined?
    ensures Presented(w, step) == Some(Respond(w, step).outcome.invite)
  {}

  // -------------------------------------------------------------------------
  // One step
  // -------------------------------------------------------------------------

  /** A guest membership clashes exactly with a pending invite of that user. */
  lemma GuestClash(c: Circle, scope: Scope, now: int, space: Id, user: Id)
    requires RowsSound(c, scope) && NoClash(c)
    ensures NoClash(WithGuest(c, now, space, user)) <==> FindPending(c, space, user).None?
  {
    var c' := WithGuest(c, now, space, user);
    WithGuestInvites(c, now, space, user);
    var pending := FindPending(c, space, user);
    if pending.Some? {
      var role := GuestHolds(c, now, space, user);
      var m :| m in c'.members && IsActiveIn(c'.members[m], space, user);
      assert Clash(c'.members[m], c'.invites[pending.value]);
    } else {
      forall m, i | m in c'.members && i in c'.invites ensures !Clash(c'.members[m], c'.invites[i]) {
        GuestRows(c, now, space, user, m);
        assert InviteSound(c, scope, i, c.invites[i]);
      }
    }
  }

  lemma GuestRows(c: Circle, now: int, space: Id, user: Id, m: Id)
    requires m in WithGuest(c, now, space, user).members
    ensures
      var c' := WithGuest(c, now, space, user);
      IsMemberOf(c'.members[m], space, user) || (m in c.members && c'.members[m] == c.members[m])
  {}

  lemma JoinClash(w: World, step: Step)
    requires Inv(w) && IsAccept(step, InProject) && NoClash(w.inWorkspace) && Joining(w, step).Some?
    requires Respond(w, step).outcome == Joined(Joining(w, step).value)
    requires w.inProject.invites[Joining(w, step).value].space in w.projects
    ensures NoClash(Next(w, step).inWorkspace) <==> !Overtakes(w, step)
  {
    var id := Joining(w, step).value;
    var invite := w.inProject.invites[id];
    AcceptConditions(w, step, InProject);
    EntityJoins(w.inProject, w.now, w.users, id);
    ProjectAcceptNext(w, step, Respond(w, step));
    GuestClash(w.inWorkspace, ScopeOf(w, InWorkspace), w.now, w.projects[invite.space], invite.invitee);
  }

  lemma NoJoinNoChange(w: World, step: Step)
    requires IsCall(step) && LevelOf(step) == InProject && !Respond(w, step).outcome.Joined?
    ensures Next(w, step).inWorkspace == w.inWorkspace
  {}

  lemma ProjectCallClash(w: World, step: Step)
    requires Inv(w) && IsCall(step) && LevelOf(step) == InProject && NoClash(w.inWorkspace)
    ensures NoClash(Next(w, step).inWorkspace) <==> !Overtakes(w, step)
  {
    if IsAccept(step, InProject) {
      JoiningIff(w, step);
    } else {
      OnlyAcceptsJoin(w, step);
    }
    if Joining(w, step).Some? {
      JoinClash(w, step);
    } else {
      NoJoinNoChange(w, step);
    }
  }

  lemma WorkspaceCallNext(w: World, step: Step)
    requires IsCall(step) && LevelOf(step) == InWorkspace
    ensures Next(w, step).inWorkspace == Respond(w, step).circle
  {}

  lemma WorkspaceCallClash(w: World, step: Step)
    requires Sound(w.inWorkspace, ScopeOf(w, InWorkspace), true) && IsCall(step) && LevelOf(step) == InWorkspace
    ensures NoClash(Next(w, step).inWorkspace)
  {
    CallKeepsSound(w, step, true);
    WorkspaceCallNext(w, step);
  }

  lemma EnvironmentClash(w: World, step: Step)
    requires Inv(w) && Enabled(w, step) && !IsCall(step) && NoClash(w.inWorkspace)
    ensures NoClash(Next(w, step).inWorkspace)
  {
    var c, scope := w.inWorkspace, ScopeOf(w, InWorkspace);
    match step
    case AddWorkspace(workspace, creator) => NewSpaceKeeps(c, scope, true, w.now, workspace, creator, 1);
    case AddWorkspaceMember(workspace, user, role) =>
      forall i | i in c.invites ensures !IsPendingFor(c.invites[i], workspace, user) {
        assert InviteSound(c, scope, i, c.invites[i]);
      }
      EnrolledKeeps(c, scope, true, w.now, workspace, user, role);
    case RemoveMember(InWorkspace, member) => RemoveKeeps(c, scope, true, member);
    case _ =>
      assert Next(w, step).inWorkspace.members == c.members && Next(w, step).inWorkspace.invites == c.invites;
  }

  /** A workspace without active invitees stays so in every step that does not overtake an invite, and in no other. */
  lemma StepClashIff(w: World, step: Step)
    requires Inv(w) && Enabled(w, step) && NoClash(w.inWorkspace)
    ensures NoClash(Next(w, step).inWorkspace) <==> !Overtakes(w, step)
  {
    if !IsCall(step) {
      EnvironmentClash(w, step);
    } else if LevelOf(step) == InWorkspace {
      WorkspaceCallClash(w, step);
    } else {
      ProjectCallClash(w, step);
    }
  }

  // -------------------------------------------------------------------------
  // Runs
  // -------------------------------------------------------------------------

  /** No workspace has an active member with a pending invite before, between and after the steps. */
  ghost predicate ClashFree(w: World, steps: seq<Step>)
    requires IsRun(w, steps)
    decreases |steps|
  {
    NoClash(w.inWorkspace) && (steps == [] || ClashFree(Next(w, steps[0]), steps[1..]))
  }

  predicate NoneOvertakes(w: World, steps: seq<Step>)
    requires IsRun(w, steps)
    decreases |steps|
  {
    steps == [] || (!Overtakes(w, steps[0]) && NoneOvertakes(Next(w, steps[0]), steps[1..]))
  }

  lemma {:induction false} RunClashIff(w: World, steps: seq<Step>)
    requires Inv(w) && IsRun(w, steps) && NoClash(w.inWorkspace)
    ensures ClashFree(w, steps) <==> NoneOvertakes(w, steps)
    decreases |steps|
  {
    if steps != [] {
      StepClashIff(w, steps[0]);
      StepKeepsInv(w, steps[0]);
      if NoClash(Next(w, steps[0]).inWorkspace) {
        RunClashIff(Next(w, steps[0]), steps[1..]);
      }
    }
  }

  /**
   From the start on: throughout a run no user is both active in a workspace and invited to it,
   exactly when no accepted project invite of the run overtakes a workspace invite.
   */
  lemma {:induction false} WorkspaceExclusiveIff(steps: seq<Step>)
    requires IsRun(START, steps)
    ensures ClashFree(START, steps) <==> NoneOvertakes(START, steps)
  {
    RunClashIff(START, steps);
  }
}
