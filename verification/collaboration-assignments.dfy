/**
 Assigning a project member, from the request to the membership: the role last assigned is the one the
 user holds, at once or after accepting the invite.
 */
module CollaborationAssignments {
  import opened Circles
  import opened CircleInvariants
  import opened CircleEffects
  import opened InviteHistory
  import opened Collaboration
  import opened CollaborationRuns
  import opened CollaborationResults

  /** A pending project invite of the user that offers the role. */
  predicate Offers(w: World, id: Id, space: Id, user: Id, role: Id) {
    id in w.inProject.invites && IsPendingFor(w.inProject.invites[id], space, user)
    && w.inProject.invites[id].role == role
  }

  /** The user is an active member of the space, in no other role than this. */
  ghost predicate HoldsOnly(c: Circle, space: Id, user: Id, role: Id) {
    Holds(c, space, user, role)
    && forall m :: m in c.members && IsActiveIn(c.members[m], space, user) ==> c.members[m].role == role
  }

  /** Unless it is turned down, assigning gives an active member the role, and offers it to anyone else. */
  ghost predicate Assigned(c: Circle, c': Circle, space: Id, user: Id, role: Id) {
    if IsActive(c, space, user) then HoldsOnly(c', space, user, role)
    else exists id :: id in c'.invites && IsPendingFor(c'.invites[id], space, user) && c'.invites[id].role == role
  }

  lemma CircleAssigned(c: Circle, scope: Scope, now: int, known: bool, space: Id, user: Id, role: Id)
    requires Sound(c, scope, true)
    requires !Circles.AssignMember(c, now, known, scope.users, space, user, role).outcome.Rejected?
    ensures
      Assigned(c, Circles.AssignMember(c, now, known, scope.users, space, user, role).circle, space, user, role)
  {
    var reply := Circles.AssignMember(c, now, known, scope.users, space, user, role);
    AssignEffect(c, scope, true, now, known, space, user, role);
    if IsActive(c, space, user) {
      var m :| m in c.members && IsActiveIn(c.members[m], space, user)
          && MemberWritten(c, reply.circle, m, c.members[m].(role := role));
      RoleWrittenHolds(c, scope, reply.circle, m, space, user, role);
    } else if IsInvited(c, space, user) {
      var id :| id in c.invites && IsPendingFor(c.invites[id], space, user)
          && InviteWritten(c, reply.circle, id, c.invites[id].(role := role));
      assert IsPendingFor(reply.circle.invites[id], space, user) && reply.circle.invites[id].role == role;
    } else {
      assert IsPendingFor(reply.circle.invites[reply.outcome.invite], space, user);
    }
  }

  /** Assigning, as a step of a run. */
  lemma AssignGives(w: World, project: Id, user: Id, role: Id)
    requires Inv(w) && !Respond(w, AssignProjectMember(project, user, role)).outcome.Rejected?
    ensures Assigned(w.inProject, Next(w, AssignProjectMember(project, user, role)).inProject, project, user, role)
  {
    ProjectCallNext(w, AssignProjectMember(project, user, role));
    CircleAssigned(w.inProject, ScopeOf(w, InProject), w.now, project in w.projects, project, user, role);
  }

  lemma RoleWrittenHolds(c: Circle, scope: Scope, c': Circle, m: Id, space: Id, user: Id, role: Id)
    requires Sound(c, scope, true) && m in c.members && IsActiveIn(c.members[m], space, user)
    requires MemberWritten(c, c', m, c.members[m].(role := role))
    ensures HoldsOnly(c', space, user, role)
  {
    assert IsActiveIn(c'.members[m], space, user) && c'.members[m].role == role;
    forall k | k in c'.members && IsActiveIn(c'.members[k], space, user) ensures c'.members[k].role == role {
      if k != m {
        assert SameSeat(c.members[k], c.members[m]);
      }
    }
  }

  /** The step assigns this user a role of the project. */
  predicate Reassigns(step: Step, space: Id, user: Id) {
    step.AssignProjectMember? && step.project == space && step.user == user
  }

  lemma AssignKeepsOffer(c: Circle, scope: Scope, now: int, known: bool, space: Id, user: Id, role: Id, id: Id)
    requires Sound(c, scope, true) && id in c.invites && !IsPendingFor(c.invites[id], space, user)
    ensures
      var c' := Circles.AssignMember(c, now, known, scope.users, space, user, role).circle;
      id in c'.invites && c'.invites[id] == c.invites[id]
  {
    AssignEffect(c, scope, true, now, known, space, user, role);
  }

  lemma SendingKeepsOffer(c: Circle, scope: Scope, now: int, known: bool, space: Id, user: Id, role: Id, sent: Id,
                          id: Id)
    requires Sound(c, scope, true) && id in c.invites
    ensures
      var created := Circles.CreateInvite(c, now, known, scope.users, space, role, user).circle;
      var resent := Circles.ResendInvite(c, now, sent).circle;
      && id in created.invites && created.invites[id].role == c.invites[id].role
      && id in resent.invites && resent.invites[id].role == c.invites[id].role
  {
    CreateInviteEffect(c, scope, true, now, known, space, role, user);
    ResendEffect(c, scope, true, now, sent);
  }

  /** The answers to an invite change its status, not its role. */
  lemma AnsweringKeepsOffer(w: World, step: Step, id: Id)
    requires step.CancelInvite? || step.DeclineInvite? || step.AcceptInvite? || step.AcceptInviteById?
    requires LevelOf(step) == InProject && id in w.inProject.invites
    ensures id in Respond(w, step).circle.invites
    ensures Respond(w, step).circle.invites[id].role == w.inProject.invites[id].role
  {}

  lemma RoleCallKeepsInvites(w: World, step: Step)
    requires step.UpdateMemberRole? || step.CreateProjectRole? || step.UpdateProjectRole? || step.DeleteProjectRole?
    requires LevelOf(step) == InProject
    ensures Respond(w, step).circle.invites == w.inProject.invites
  {}

  /** What a step leaves of a pending invite: closed, or with the same role, unless its user is assigned another. */
  lemma OfferStays(w: World, step: Step, id: Id, space: Id, user: Id, role: Id)
    requires Inv(w) && Enabled(w, step) && Offers(w, id, space, user, role) && !Reassigns(step, space, user)
    requires id in Next(w, step).inProject.invites
    ensures Next(w, step).inProject.invites[id].role == role
  {
    var c, scope := w.inProject, ScopeOf(w, InProject);
    if IsCall(step) && LevelOf(step) == InProject {
      ProjectCallNext(w, step);
      match step
      case AssignProjectMember(p, u, r) => AssignKeepsOffer(c, scope, w.now, p in w.projects, p, u, r, id);
      case CreateInvite(_, p, r, u) => SendingKeepsOffer(c, scope, w.now, p in w.projects, p, u, r, 0, id);
      case ResendInvite(_, i) => SendingKeepsOffer(c, scope, w.now, false, 0, 0, 0, i, id);
      case CancelInvite(_, _) => AnsweringKeepsOffer(w, step, id);
      case DeclineInvite(_, _, _) => AnsweringKeepsOffer(w, step, id);
      case AcceptInvite(_, _) => AnsweringKeepsOffer(w, step, id);
      case AcceptInviteById(_, _, _) => AnsweringKeepsOffer(w, step, id);
      case _ => RoleCallKeepsInvites(w, step);
    } else {
      OtherNext(w, step);
    }
  }

  lemma ProjectCallNext(w: World, step: Step)
    requires IsCall(step) && LevelOf(step) == InProject
    ensures Next(w, step).inProject == Respond(w, step).circle
  {}

  lemma OtherNext(w: World, step: Step)
    requires Enabled(w, step) && !(IsCall(step) && LevelOf(step) == InProject)
    ensures forall i :: i in Next(w, step).inProject.invites ==>
              i in w.inProject.invites && Next(w, step).inProject.invites[i] == w.inProject.invites[i]
  {}

  /** An invite still pending after a run was so throughout, and offers the same role if it was not assigned anew. */
  lemma {:induction false} OfferHeld(w: World, steps: seq<Step>, id: Id, space: Id, user: Id, role: Id)
    requires Inv(w) && IsRun(w, steps) && Offers(w, id, space, user, role)
    requires forall k :: 0 <= k < |steps| ==> !Reassigns(steps[k], space, user)
    requires id in After(w, steps).inProject.invites && After(w, steps).inProject.invites[id].status == Pending
    ensures Offers(After(w, steps), id, space, user, role)
    decreases |steps|
  {
    if steps != [] {
      var next := Next(w, steps[0]);
      StepKeepsInv(w, steps[0]);
      PendingBefore(w, steps[0], steps[1..], id);
      OfferStays(w, steps[0], id, space, user, role);
      StepContinues(w, steps[0], InProject);
      OfferHeld(next, steps[1..], id, space, user, role);
    }
  }

  lemma {:induction false} PendingBefore(w: World, step: Step, steps: seq<Step>, id: Id)
    requires Inv(w) && Enabled(w, step) && IsRun(Next(w, step), steps) && id in w.inProject.invites
    requires id in After(Next(w, step), steps).inProject.invites
    requires After(Next(w, step), steps).inProject.invites[id].status == Pending
    ensures id in Next(w, step).inProject.invites && Next(w, step).inProject.invites[id].status == Pending
  {
    var next := Next(w, step);
    StepKeepsInv(w, step);
    StepContinues(w, step, InProject);
    InvitesBelow(w.inProject, ScopeOf(w, InProject), true);
    RunContinues(next, steps, InProject);
  }

  lemma StepContinues(w: World, step: Step, level: Level)
    requires Inv(w) && Enabled(w, step)
    ensures Continues(At(w, level), At(Next(w, step), level))
  {
    if IsCall(step) {
      CallContinues(w, step, level);
    } else {
      OtherContinues(w, step, level);
    }
  }

  /**
   Someone who is assigned a role before joining a project holds exactly that role after accepting,
   if it was the last one assigned.
   */
  lemma {:induction false} AssignedRoleIsJoined(w: World, project: Id, user: Id, role: Id, id: Id, steps: seq<Step>,
                                                accept: Step)
    requires Inv(w)
    requires
      var next := Next(w, AssignProjectMember(project, user, role));
      && Offers(next, id, project, user, role) && IsRun(next, steps)
      && (forall k :: 0 <= k < |steps| ==> !Reassigns(steps[k], project, user))
      && IsAccept(accept, InProject) && Respond(After(next, steps), accept).outcome == Joined(id)
    ensures
      var later := After(Next(w, AssignProjectMember(project, user, role)), steps);
      HoldsOnly(Next(later, accept).inProject, project, user, role)
  {
    var next := Next(w, AssignProjectMember(project, user, role));
    var later := After(next, steps);
    StepKeepsInv(w, AssignProjectMember(project, user, role));
    RunKeepsInv(next, steps);
    AcceptConditions(later, accept, InProject);
    OfferHeld(next, steps, id, project, user, role);
    var _ := ProjectAcceptEnrols(later, accept);
    StepKeepsInv(later, accept);
    OneHolds(Next(later, accept).inProject, ScopeOf(Next(later, accept), InProject), project, user, role);
  }

  lemma OneHolds(c: Circle, scope: Scope, space: Id, user: Id, role: Id)
    requires Sound(c, scope, true) && Holds(c, space, user, role)
    ensures HoldsOnly(c, space, user, role)
  {
    var m :| m in c.members && IsActiveIn(c.members[m], space, user) && c.members[m].role == role;
    forall k | k in c.members && IsActiveIn(c.members[k], space, user) ensures c.members[k].role == role {
      assert SameSeat(c.members[k], c.members[m]);
    }
  }
}
