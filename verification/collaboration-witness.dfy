/**
 A run in which the workspace accept branch for an already active member is taken: a user invited
 to a workspace and to one of its projects accepts the project invite first.
 */
module CollaborationWitness {
  import opened Options
  import opened Circles
  import opened CircleInvariants
  import opened InviteHistory
  import opened Collaboration
  import opened CollaborationRuns

  const OWNER := Role(0, true, true, false)
  const CREATOR := Member(0, 0, 0, Active, 0)
  const GUEST_ROLE := Role(0, true, false, true)
  const TO_PROJECT := Invite(0, 1, 0, 7, Pending, INVITE_TTL_MS, None)
  const TO_WORKSPACE := Invite(0, 1, 0, 3, Pending, INVITE_TTL_MS, None)

  function Workspace(invites: map<Id, Invite>, supply: Id): Circle {
    Circle(map[0 := OWNER], map[1 := CREATOR], invites, supply)
  }

  function Project(invites: map<Id, Invite>, supply: Id): Circle {
    Circle(DefaultRoles(0, 0, DEFAULT_ROLES), map[5 := CREATOR], invites, supply)
  }

  /** The workspace once the user is a guest, with the workspace invite still open. */
  function GuestInvited(): Circle {
    Circle(map[0 := OWNER, 4 := GUEST_ROLE], map[1 := CREATOR, 5 := Member(0, 1, 4, Active, 0)],
           map[2 := TO_WORKSPACE], 6)
  }

  const STEPS := [
    AddUser(0), AddUser(1), AddWorkspace(0, 0), CreateProject(0, 0, 0),
    CreateInvite(InWorkspace, 0, 0, 1), CreateInvite(InProject, 0, 0, 1), AcceptInvite(InProject, Some(7))]

  function W3(): World {
    World(0, {0, 1}, {0}, map[], NOTHING, Workspace(map[], 2), map[], map[])
  }

  function W4(): World {
    W3().(projects := map[0 := 0], inProject := Project(map[], 6))
  }

  function W5(): World {
    W4().(inWorkspace := Workspace(map[2 := TO_WORKSPACE], 4), sentWorkspace := map[3 := 0])
  }

  function W6(): World {
    W5().(inProject := Project(map[6 := TO_PROJECT], 8), sentProject := map[7 := 0])
  }

  function W2(): World {
    World(0, {0, 1}, {}, map[], NOTHING, NOTHING, map[], map[])
  }

  lemma WorkspaceStep()
    ensures Next(W2(), AddWorkspace(0, 0)) == W3()
  {}

  lemma ProjectStep()
    ensures Next(W3(), CreateProject(0, 0, 0)) == W4()
  {}

  lemma WorkspaceInviteStep()
    ensures Next(W4(), CreateInvite(InWorkspace, 0, 0, 1)) == W5()
  {
    var c := Workspace(map[], 2);
    assert Circles.CreateInvite(c, 0, true, {0, 1}, 0, 0, 1) == Reply(Workspace(map[2 := TO_WORKSPACE], 4), Sent(2, 3));
  }

  lemma ProjectInviteStep()
    ensures Next(W5(), CreateInvite(InProject, 0, 0, 1)) == W6()
  {
    InvitedToProject();
  }

  lemma InvitedToProject()
    ensures Circles.CreateInvite(Project(map[], 6), 0, true, {0, 1}, 0, 0, 1) ==
            Reply(Project(map[6 := TO_PROJECT], 8), Sent(6, 7))
  {}

  lemma ProjectAccept()
    ensures
      var reply := Circles.AcceptInvite(W6().inProject, 0, {0, 1}, Some(7));
      reply.outcome == Joined(6) && 6 in reply.circle.invites
      && reply.circle.invites[6].space == 0 && reply.circle.invites[6].invitee == 1
  {
    var c := W6().inProject;
    DefaultRolesAre(0, 0, DEFAULT_ROLES);
    assert c.invites[6].token == 7;
    assert FindToken(c, 7) == Some(6);
    EnrolledInvites(c, 0, 0, 1, 0);
  }

  lemma GuestJoins()
    ensures WithGuest(W6().inWorkspace, 0, 0, 1) == GuestInvited()
  {}

  lemma TokenAcceptNext(w: World, token: Id, id: Id, project: Id, user: Id)
    requires
      var reply := Circles.AcceptInvite(w.inProject, w.now, w.users, Some(token));
      && reply.outcome == Joined(id) && id in reply.circle.invites
      && reply.circle.invites[id].space == project && reply.circle.invites[id].invitee == user
    requires project in w.projects
    ensures Next(w, AcceptInvite(InProject, Some(token))).inWorkspace ==
            WithGuest(w.inWorkspace, w.now, w.projects[project], user)
  {
    var reply := Circles.AcceptInvite(w.inProject, w.now, w.users, Some(token));
    var put := Put(w, InProject, reply);
    assert Next(w, AcceptInvite(InProject, Some(token))) == WithWorkspace(put, InProject, reply.outcome);
  }

  lemma LastStep()
    ensures Next(W6(), AcceptInvite(InProject, Some(7))).inWorkspace == GuestInvited()
  {
    ProjectAccept();
    GuestJoins();
    TokenAcceptNext(W6(), 7, 6, 0, 1);
  }

  lemma {:induction false} Before(w: World, step: Step, next: World, rest: seq<Step>)
    requires Enabled(w, step) && Next(w, step) == next && IsRun(next, rest)
    ensures IsRun(w, [step] + rest) && After(w, [step] + rest) == After(next, rest)
  {}

  lemma LaterRun()
    ensures
      var steps := [CreateProject(0, 0, 0)] + ([CreateInvite(InWorkspace, 0, 0, 1)]
                   + ([CreateInvite(InProject, 0, 0, 1)] + ([AcceptInvite(InProject, Some(7))] + [])));
      IsRun(W3(), steps) && After(W3(), steps).inWorkspace == GuestInvited()
  {
    LastStep();
    ProjectInviteStep();
    WorkspaceInviteStep();
    ProjectStep();
    var last := Next(W6(), AcceptInvite(InProject, Some(7)));
    Before(W6(), AcceptInvite(InProject, Some(7)), last, []);
    var s6 := [AcceptInvite(InProject, Some(7))] + [];
    Before(W5(), CreateInvite(InProject, 0, 0, 1), W6(), s6);
    var s5 := [CreateInvite(InProject, 0, 0, 1)] + s6;
    Before(W4(), CreateInvite(InWorkspace, 0, 0, 1), W5(), s5);
    Before(W3(), CreateProject(0, 0, 0), W4(), [CreateInvite(InWorkspace, 0, 0, 1)] + s5);
  }

  lemma WholeRun()
    ensures IsRun(START, STEPS) && After(START, STEPS).inWorkspace == GuestInvited()
  {
    LaterRun();
    WorkspaceStep();
    var s3 := [CreateProject(0, 0, 0)] + ([CreateInvite(InWorkspace, 0, 0, 1)]
              + ([CreateInvite(InProject, 0, 0, 1)] + ([AcceptInvite(InProject, Some(7))] + [])));
    Before(W2(), AddWorkspace(0, 0), W3(), s3);
    var w1 := Next(START, AddUser(0));
    assert Next(w1, AddUser(1)) == W2();
    Before(w1, AddUser(1), W2(), [AddWorkspace(0, 0)] + s3);
    Before(START, AddUser(0), w1, [AddUser(1)] + ([AddWorkspace(0, 0)] + s3));
    assert [AddUser(0)] + ([AddUser(1)] + ([AddWorkspace(0, 0)] + s3)) == STEPS;
  }

  /** The first steps: a workspace and a project in it. */
  const CREATED := [AddUser(0), AddUser(1), AddWorkspace(0, 0), CreateProject(0, 0, 0)]

  lemma ProjectCreated()
    ensures IsRun(START, CREATED) && After(START, CREATED) == W4()
  {
    WorkspaceStep();
    ProjectStep();
    Before(W3(), CreateProject(0, 0, 0), W4(), []);
    var s3 := [CreateProject(0, 0, 0)] + [];
    Before(W2(), AddWorkspace(0, 0), W3(), s3);
    var w1 := Next(START, AddUser(0));
    assert Next(w1, AddUser(1)) == W2();
    Before(w1, AddUser(1), W2(), [AddWorkspace(0, 0)] + s3);
    Before(START, AddUser(0), w1, [AddUser(1)] + ([AddWorkspace(0, 0)] + s3));
    assert [AddUser(0)] + ([AddUser(1)] + ([AddWorkspace(0, 0)] + s3)) == CREATED;
  }

  /**
   After this run the user is an active guest of the workspace and the workspace invite is still
   open; accepting it changes the role of a member who is already active.
   */
  lemma WorkspaceInviteeMayBeActive()
    ensures IsRun(START, STEPS)
    ensures
      var w := After(START, STEPS);
      && (exists m, i ::
            m in w.inWorkspace.members && i in w.inWorkspace.invites
                && Clash(w.inWorkspace.members[m], w.inWorkspace.invites[i]))
      && exists m :: m in w.inWorkspace.members && w.inWorkspace.members[m].status == Active
           && var c := Circles.AcceptInvite(w.inWorkspace, 0, {0, 1}, Some(3)).circle;
              m in c.members && c.members[m].role != w.inWorkspace.members[m].role
  {
    WholeRun();
    AcceptedByGuest();
    var c := GuestInvited();
    assert Clash(c.members[5], c.invites[2]);
    assert c.members[5].status == Active;
  }

  lemma AcceptedByGuest()
    ensures
      var c := Circles.AcceptInvite(GuestInvited(), 0, {0, 1}, Some(3)).circle;
      5 in c.members && c.members[5].role == 0
  {}
}
