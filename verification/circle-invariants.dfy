/**
 What every operation on a circle keeps: roles of active members and pending invites are
 usable, and a user has at most one membership row and one pending invite per space. In a
 project, moreover, an active member has no pending invite. The parts hold only together.
 */
module CircleInvariants {
  import opened Options
  import opened Circles

  /** The accounts and the spaces there are. */
  datatype Scope = Scope(users: set<Id>, spaces: set<Id>)

  predicate MemberSound(c: Circle, scope: Scope, id: Id, m: Member) {
    id < c.supply && m.space in scope.spaces && (m.status == Active ==> RoleUsable(c, m.space, m.role))
  }

  predicate InviteSound(c: Circle, scope: Scope, id: Id, i: Invite) {
    && id < c.supply && i.token < c.supply && i.space in scope.spaces
    && (i.acceptedAt.Some? <==> i.status == Accepted)
    && (i.status == Pending ==> RoleUsable(c, i.space, i.role) && i.invitee in scope.users)
  }

  ghost predicate RowsSound(c: Circle, scope: Scope) {
    && (forall r :: r in c.roles ==> r < c.supply)
    && (forall m :: m in c.members ==> MemberSound(c, scope, m, c.members[m]))
    && forall i :: i in c.invites ==> InviteSound(c, scope, i, c.invites[i])
  }

  predicate SameSeat(m: Member, m': Member) {
    m.space == m'.space && m.user == m'.user
  }

  ghost predicate OneRow(members: map<Id, Member>) {
    forall m, m' :: m in members && m' in members && SameSeat(members[m], members[m']) ==> m == m'
  }

  predicate BothPending(i: Invite, i': Invite) {
    i.space == i'.space && i.invitee == i'.invitee && i.status == Pending && i'.status == Pending
  }

  ghost predicate OnePending(invites: map<Id, Invite>) {
    forall i, i' :: i in invites && i' in invites && BothPending(invites[i], invites[i']) ==> i == i'
  }

  ghost predicate TokensDiffer(invites: map<Id, Invite>) {
    forall i, i' :: i in invites && i' in invites && invites[i].token == invites[i'].token ==> i == i'
  }

  /** An active member of the space for which this is a pending invite. */
  predicate Clash(m: Member, i: Invite) {
    m.status == Active && IsPendingFor(i, m.space, m.user)
  }

  ghost predicate NoClash(c: Circle) {
    forall m, i :: m in c.members && i in c.invites ==> !Clash(c.members[m], c.invites[i])
  }

  /** The joint invariant; exclusive in projects, where active members are never being invited. */
  ghost predicate Sound(c: Circle, scope: Scope, exclusive: bool) {
    RowsSound(c, scope) && OneRow(c.members) && OnePending(c.invites) && TokensDiffer(c.invites)
        && (exclusive ==> NoClash(c))
  }

  // -------------------------------------------------------------------------
  // Changing one row
  // -------------------------------------------------------------------------

  /** Writing one membership row. */
  lemma PutMember(c: Circle, scope: Scope, x: bool, id: Id, m: Member, supply: Id)
    requires Sound(c, scope, x) && c.supply <= supply && id < supply
    requires m.space in scope.spaces && (m.status == Active ==> RoleUsable(c, m.space, m.role))
    requires forall k :: k in c.members && SameSeat(c.members[k], m) ==> k == id
    requires x ==> forall i :: i in c.invites ==> !Clash(m, c.invites[i])
    ensures Sound(c.(members := c.members[id := m], supply := supply), scope, x)
  {}

  /** Writing one invite row. */
  lemma PutInvite(c: Circle, scope: Scope, x: bool, id: Id, i: Invite, supply: Id)
    requires Sound(c, scope, x) && c.supply <= supply && id < supply && i.token < supply && i.space in scope.spaces
    requires i.acceptedAt.Some? <==> i.status == Accepted
    requires i.status == Pending ==> RoleUsable(c, i.space, i.role) && i.invitee in scope.users
    requires forall k :: k in c.invites && c.invites[k].token == i.token ==> k == id
    requires forall k :: k in c.invites && BothPending(c.invites[k], i) ==> k == id
    requires x ==> forall m :: m in c.members ==> !Clash(c.members[m], i)
    ensures Sound(c.(invites := c.invites[id := i], supply := supply), scope, x)
  {}

  /** Closing an invite, or changing a pending one without touching whom it is for. */
  lemma ChangeInvite(c: Circle, scope: Scope, x: bool, id: Id, i: Invite, supply: Id)
    requires Sound(c, scope, x) && id in c.invites && c.supply <= supply && i.token < supply
    requires i.space == c.invites[id].space && i.invitee == c.invites[id].invitee
    requires i.acceptedAt.Some? <==> i.status == Accepted
    requires i.status == Pending ==> c.invites[id].status == Pending && RoleUsable(c, i.space, i.role)
    requires i.token == c.invites[id].token || i.token >= c.supply
    ensures Sound(c.(invites := c.invites[id := i], supply := supply), scope, x)
  {}

  /** Changing a membership row without touching whose it is. */
  lemma ChangeMember(c: Circle, scope: Scope, x: bool, id: Id, m: Member)
    requires Sound(c, scope, x) && id in c.members && SameSeat(c.members[id], m)
    requires m.status == Active ==> RoleUsable(c, m.space, m.role)
    requires x ==> c.members[id].status == Active || m.status != Active || FindPending(c, m.space, m.user).None?
    ensures Sound(c.(members := c.members[id := m]), scope, x)
  {}

  lemma AddMember(c: Circle, scope: Scope, x: bool, m: Member, supply: Id)
    requires Sound(c, scope, x) && c.supply < supply && FindMember(c, m.space, m.user).None? && m.space in scope.spaces
    requires m.status == Active ==> RoleUsable(c, m.space, m.role)
    requires x ==> FindPending(c, m.space, m.user).None?
    ensures Sound(c.(members := c.members[c.supply := m], supply := supply), scope, x)
  {}

  /** Writing one role row of the same space, not disabling it while it is held. */
  lemma PutRole(c: Circle, scope: Scope, x: bool, id: Id, r: Role, supply: Id)
    requires Sound(c, scope, x) && c.supply <= supply && id < supply
    requires id in c.roles ==> r.space == c.roles[id].space && (r.status || !HeldRole(c, id))
    ensures Sound(c.(roles := c.roles[id := r], supply := supply), scope, x)
  {}

  lemma DropRole(c: Circle, scope: Scope, x: bool, id: Id)
    requires Sound(c, scope, x) && id in c.roles && !HeldRole(c, id)
    ensures Sound(c.(roles := c.roles - {id}), scope, x)
  {}

  lemma WiderScope(c: Circle, scope: Scope, scope': Scope, x: bool)
    requires Sound(c, scope, x) && scope.users <= scope'.users && scope.spaces <= scope'.spaces
    ensures Sound(c, scope', x)
  {}

  // -------------------------------------------------------------------------
  // The operations
  // -------------------------------------------------------------------------

  lemma NewInviteKeeps(c: Circle, scope: Scope, x: bool, now: int, space: Id, role: Id, user: Id)
    requires Sound(c, scope, x) && RoleUsable(c, space, role) && user in scope.users && space in scope.spaces
    requires FindActive(c, space, user).None? && FindPending(c, space, user).None?
    ensures Sound(NewInvite(c, now, space, role, user).circle, scope, x)
  {
    var i := Invite(space, user, role, c.supply + 1, Pending, now + INVITE_TTL_MS, None);
    forall k | k in c.invites ensures c.invites[k].token != i.token && !BothPending(c.invites[k], i) {
      assert InviteSound(c, scope, k, c.invites[k]);
    }
    forall m | m in c.members ensures !Clash(c.members[m], i) {
      assert MemberSound(c, scope, m, c.members[m]);
    }
    PutInvite(c, scope, x, c.supply, i, c.supply + 2);
  }

  lemma CreateInviteKeeps(c: Circle, scope: Scope, x: bool, now: int, known: bool, space: Id, role: Id, user: Id)
    requires Sound(c, scope, x) && (known ==> space in scope.spaces)
    ensures Sound(CreateInvite(c, now, known, scope.users, space, role, user).circle, scope, x)
  {
    if CreateInvite(c, now, known, scope.users, space, role, user).outcome.Sent? {
      NewInviteKeeps(c, scope, x, now, space, role, user);
    }
  }

  lemma ClosedKeeps(c: Circle, scope: Scope, x: bool, id: Id, status: InviteStatus)
    requires Sound(c, scope, x) && id in c.invites && c.invites[id].status == Pending && status != Pending
             && status != Accepted
    ensures Sound(Closed(c, id, status), scope, x)
  {}

  lemma ResendKeeps(c: Circle, scope: Scope, x: bool, now: int, id: Id)
    requires Sound(c, scope, x)
    ensures Sound(ResendInvite(c, now, id).circle, scope, x)
  {}

  /** Accepting: closing the invite leaves its user free to become an active member. */
  lemma AcceptEntityKeeps(c: Circle, scope: Scope, x: bool, now: int, id: Id)
    requires Sound(c, scope, x) && id in c.invites && c.invites[id].status == Pending
    ensures Sound(AcceptEntity(c, now, scope.users, id).circle, scope, x)
  {
    var invite := c.invites[id];
    if AcceptEntity(c, now, scope.users, id).outcome.Joined? {
      var accepted := invite.(status := Accepted, acceptedAt := Some(now));
      var closed := c.(invites := c.invites[id := accepted]);
      assert InviteSound(c, scope, id, invite);
      ChangeInvite(c, scope, x, id, accepted, c.supply);
      assert closed == c.(invites := c.invites[id := accepted], supply := c.supply);
      FreeToJoin(c, scope, id, accepted);
      EnrolledKeeps(closed, scope, x, now, invite.space, invite.invitee, invite.role);
      AcceptOrder(c, now, scope, id);
    }
  }

  lemma FreeToJoin(c: Circle, scope: Scope, id: Id, accepted: Invite)
    requires RowsSound(c, scope) && OnePending(c.invites) && id in c.invites && c.invites[id].status == Pending
             && accepted.status == Accepted
    ensures FindPending(c.(invites := c.invites[id := accepted]), c.invites[id].space, c.invites[id].invitee).None?
  {}

  /** It does not matter that the source saves the membership before the invite. */
  lemma AcceptOrder(c: Circle, now: int, scope: Scope, id: Id)
    requires id in c.invites && AcceptEntity(c, now, scope.users, id).outcome.Joined?
    ensures
      var invite := c.invites[id];
      AcceptEntity(c, now, scope.users, id).circle ==
      Enrolled(c.(invites := c.invites[id := invite.(status := Accepted, acceptedAt := Some(now))]), now,
               invite.space, invite.invitee, invite.role)
  {}

  lemma EnrolledKeeps(c: Circle, scope: Scope, x: bool, now: int, space: Id, user: Id, role: Id)
    requires Sound(c, scope, x) && RoleUsable(c, space, role) && space in scope.spaces
             && (x ==> FindPending(c, space, user).None?)
    ensures Sound(Enrolled(c, now, space, user, role), scope, x)
  {
    match FindMember(c, space, user)
    case None => AddMember(c, scope, x, Member(space, user, role, Active, now), c.supply + 1);
    case Some(m) =>
      ChangeMember(c, scope, x, m, c.members[m].(status := Active, joinedAt := now, role := role));
      ChangeMember(c, scope, x, m, c.members[m].(role := role));
  }

  lemma AcceptInviteKeeps(c: Circle, scope: Scope, x: bool, now: int, token: Option<Id>)
    requires Sound(c, scope, x)
    ensures Sound(AcceptInvite(c, now, scope.users, token).circle, scope, x)
  {
    if token.Some? && FindToken(c, token.value).Some? {
      var id := FindToken(c, token.value).value;
      if c.invites[id].status == Pending {
        ClosedKeeps(c, scope, x, id, Expired);
        AcceptEntityKeeps(c, scope, x, now, id);
      }
    }
  }

  lemma AcceptInviteByIdKeeps(c: Circle, scope: Scope, x: bool, now: int, id: Id, user: Id)
    requires Sound(c, scope, x)
    ensures Sound(AcceptInviteById(c, now, scope.users, id, user).circle, scope, x)
  {
    if id in c.invites && c.invites[id].status == Pending {
      ClosedKeeps(c, scope, x, id, Expired);
      AcceptEntityKeeps(c, scope, x, now, id);
    }
  }

  lemma CloseKeeps(c: Circle, scope: Scope, x: bool, id: Id, user: Id)
    requires Sound(c, scope, x)
    ensures Sound(CancelInvite(c, id).circle, scope, x) && Sound(DeclineInvite(c, id, user).circle, scope, x)
  {
    if id in c.invites && c.invites[id].status == Pending {
      ClosedKeeps(c, scope, x, id, Revoked);
      ClosedKeeps(c, scope, x, id, Declined);
    }
  }

  lemma AssignKeeps(c: Circle, scope: Scope, x: bool, now: int, known: bool, space: Id, user: Id, role: Id)
    requires Sound(c, scope, x) && (known ==> space in scope.spaces)
    ensures Sound(AssignMember(c, now, known, scope.users, space, user, role).circle, scope, x)
  {
    if known && user in scope.users && RoleUsable(c, space, role) {
      match FindActive(c, space, user)
      case Some(m) => ChangeMember(c, scope, x, m, c.members[m].(role := role));
      case None =>
        match FindPending(c, space, user)
        case Some(i) =>
          assert InviteSound(c, scope, i, c.invites[i]);
          ChangeInvite(c, scope, x, i, c.invites[i].(role := role), c.supply);
        case None => NewInviteKeeps(c, scope, x, now, space, role, user);
    }
  }

  lemma UpdateMemberRoleKeeps(c: Circle, scope: Scope, x: bool, known: bool, space: Id, user: Id, role: Id)
    requires Sound(c, scope, x)
    ensures Sound(UpdateMemberRole(c, known, space, user, role).circle, scope, x)
  {}

  lemma RoleOpsKeep(c: Circle, scope: Scope, x: bool, known: bool, space: Id, role: Id, status: Option<bool>)
    requires Sound(c, scope, x)
    ensures Sound(CreateRole(c, known, space).circle, scope, x)
    ensures Sound(UpdateRole(c, known, space, role, status).circle, scope, x)
    ensures Sound(DeleteRole(c, known, space, role).circle, scope, x)
  {
    PutRole(c, scope, x, c.supply, Role(space, true, false, false), c.supply + 1);
    if role in c.roles {
      if status.Some? && (status.value || !HeldRole(c, role)) {
        PutRole(c, scope, x, role, c.roles[role].(status := status.value), c.supply);
      }
      if !HeldRole(c, role) {
        DropRole(c, scope, x, role);
      }
    }
  }

  lemma {:induction false} DefaultRolesAre(space: Id, first: Id, n: nat)
    ensures forall r :: r in DefaultRoles(space, first, n) <==> first <= r < first + n
    ensures forall r :: first <= r < first + n ==>
            DefaultRoles(space, first, n)[r] == Role(space, true, r == first, false)
  {
    if n > 0 {
      DefaultRolesAre(space, first, n - 1);
    }
  }

  lemma WithoutSpaceKeeps(c: Circle, scope: Scope, x: bool, space: Id)
    requires Sound(c, scope, x)
    ensures Sound(WithoutSpace(c, space), Scope(scope.users, scope.spaces - {space}), x)
  {}

  lemma RemoveKeeps(c: Circle, scope: Scope, x: bool, id: Id)
    requires Sound(c, scope, x) && id in c.members
    ensures Sound(c.(members := c.members[id := c.members[id].(status := Removed)]), scope, x)
  {}

  /** The guest membership that a project accept gives in the workspace. */
  lemma WithGuestKeeps(c: Circle, scope: Scope, now: int, space: Id, user: Id)
    requires Sound(c, scope, false) && space in scope.spaces
    requires forall r :: r in c.roles ==> c.roles[r].status
    requires FindMember(c, space, user).Some? ==>
               RoleUsable(c, space, c.members[FindMember(c, space, user).value].role)
    ensures Sound(WithGuest(c, now, space, user), scope, false)
  {
    match FindMember(c, space, user)
    case Some(m) => ChangeMember(c, scope, false, m, c.members[m].(status := Active, joinedAt := now));
    case None =>
      match FindGuestRole(c, space)
      case Some(r) =>
        assert RoleUsable(c, space, r);
        AddMember(c, scope, false, Member(space, user, r, Active, now), c.supply + 1);
      case None => NewGuestKeeps(c, scope, now, space, user);
  }

  lemma NewGuestKeeps(c: Circle, scope: Scope, now: int, space: Id, user: Id)
    requires Sound(c, scope, false) && space in scope.spaces && FindMember(c, space, user).None?
    ensures
      Sound(c.(roles := c.roles[c.supply := Role(space, true, false, true)],
               members := c.members[c.supply + 1 := Member(space, user, c.supply, Active, now)],
               supply := c.supply + 2), scope, false)
  {}
}
