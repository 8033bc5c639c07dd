/**
 What every operation on a circle changes: the rows it writes, field by field, exactly when it does,
 and that all other rows stay as they are.
 */
module CircleEffects {
  import opened Options
  import opened Circles
  import opened CircleInvariants

  const WEEK := 7 * 24 * 60 * 60 * 1000

  /** Nothing changed. */
  predicate Refused(c: Circle, reply: Reply, error: Error) {
    reply.circle == c && reply.outcome == Rejected(error)
  }

  /** Only this membership row was written. */
  predicate MemberWritten(c: Circle, c': Circle, id: Id, m: Member) {
    c'.roles == c.roles && c'.invites == c.invites && c'.members == c.members[id := m]
  }

  /** Only this invite was written. */
  predicate InviteWritten(c: Circle, c': Circle, id: Id, i: Invite) {
    c'.roles == c.roles && c'.members == c.members && c'.invites == c.invites[id := i]
  }

  /** Only this role was written. */
  predicate RoleWritten(c: Circle, c': Circle, id: Id, r: Role) {
    c'.members == c.members && c'.invites == c.invites && c'.roles == c.roles[id := r]
  }

  ghost predicate IsActive(c: Circle, space: Id, user: Id) {
    exists m :: m in c.members && IsActiveIn(c.members[m], space, user)
  }

  ghost predicate IsInvited(c: Circle, space: Id, user: Id) {
    exists i :: i in c.invites && IsPendingFor(c.invites[i], space, user)
  }

  ghost predicate IsKnown(c: Circle, space: Id, user: Id) {
    exists m :: m in c.members && IsMemberOf(c.members[m], space, user)
  }

  /** The lookups find a row when there is one. */
  lemma Lookups(c: Circle, scope: Scope, x: bool, space: Id, user: Id)
    requires Sound(c, scope, x)
    ensures FindActive(c, space, user).Some? <==> IsActive(c, space, user)
    ensures FindPending(c, space, user).Some? <==> IsInvited(c, space, user)
    ensures FindMember(c, space, user).Some? <==> IsKnown(c, space, user)
  {
    forall m | m in c.members ensures m < c.supply {
      assert MemberSound(c, scope, m, c.members[m]);
    }
    forall i | i in c.invites ensures i < c.supply {
      assert InviteSound(c, scope, i, c.invites[i]);
    }
  }

  // -------------------------------------------------------------------------
  // Invites
  // -------------------------------------------------------------------------

  /** A new pending invite, for a week, under a new id and with a new token. */
  ghost predicate Invited(c: Circle, reply: Reply, now: int, space: Id, role: Id, user: Id) {
    && reply.outcome.Sent? && reply.outcome.invite !in c.invites
    && (forall i :: i in c.invites ==> c.invites[i].token != reply.outcome.token)
    && InviteWritten(c, reply.circle, reply.outcome.invite,
                     Invite(space, user, role, reply.outcome.token, Pending, now + WEEK, None))
  }

  lemma NewInviteEffect(c: Circle, scope: Scope, x: bool, now: int, space: Id, role: Id, user: Id)
    requires Sound(c, scope, x)
    ensures Invited(c, NewInvite(c, now, space, role, user), now, space, role, user)
  {
    forall i | i in c.invites ensures i < c.supply && c.invites[i].token < c.supply {
      assert InviteSound(c, scope, i, c.invites[i]);
    }
  }

  /** Creating an invite: the guards in order, then a new pending invite. */
  ghost predicate Creates(c: Circle, reply: Reply, now: int, known: bool, users: set<Id>, space: Id, role: Id,
                          user: Id) {
    if !known then Refused(c, reply, SpaceNotFound)
    else if !RoleUsable(c, space, role) then Refused(c, reply, RoleInvalid)
    else if user !in users then Refused(c, reply, InviteeNotFound)
    else if IsActive(c, space, user) then Refused(c, reply, AlreadyMember)
    else if IsInvited(c, space, user) then Refused(c, reply, DuplicateInvite)
    else Invited(c, reply, now, space, role, user)
  }

  lemma CreateInviteEffect(c: Circle, scope: Scope, x: bool, now: int, known: bool, space: Id, role: Id, user: Id)
    requires Sound(c, scope, x)
    ensures Creates(c, CreateInvite(c, now, known, scope.users, space, role, user), now, known, scope.users, space,
                    role, user)
  {
    Lookups(c, scope, x, space, user);
    NewInviteEffect(c, scope, x, now, space, role, user);
  }

  /** The invite is pending, or why not. */
  predicate NotOpen(c: Circle, reply: Reply, id: Id) {
    if id !in c.invites then Refused(c, reply, InviteNotFound)
    else c.invites[id].status != Pending && Refused(c, reply, InviteNotPending)
  }

  /** Resending gives a pending invite a new token and a new week, and keeps everything else of it. */
  ghost predicate Resends(c: Circle, reply: Reply, now: int, id: Id) {
    if id in c.invites && c.invites[id].status == Pending then
      && reply.outcome.Sent? && reply.outcome.invite == id
      && (forall i :: i in c.invites ==> c.invites[i].token != reply.outcome.token)
      && InviteWritten(c, reply.circle, id, c.invites[id].(token := reply.outcome.token, expiresAt := now + WEEK))
    else NotOpen(c, reply, id)
  }

  lemma ResendEffect(c: Circle, scope: Scope, x: bool, now: int, id: Id)
    requires Sound(c, scope, x)
    ensures Resends(c, ResendInvite(c, now, id), now, id)
  {
    forall i | i in c.invites ensures c.invites[i].token < c.supply {
      assert InviteSound(c, scope, i, c.invites[i]);
    }
  }

  /** Cancelling revokes a pending invite. */
  predicate Cancels(c: Circle, reply: Reply, id: Id) {
    if id in c.invites && c.invites[id].status == Pending then
      reply.outcome == Done && InviteWritten(c, reply.circle, id, c.invites[id].(status := Revoked))
    else NotOpen(c, reply, id)
  }

  lemma CancelEffect(c: Circle, id: Id)
    ensures Cancels(c, CancelInvite(c, id), id)
  {}

  /** Its invitee, and no one else, declines a pending invite. */
  predicate Declines(c: Circle, reply: Reply, id: Id, user: Id) {
    if id in c.invites && c.invites[id].invitee != user then Refused(c, reply, NotYours)
    else if id in c.invites && c.invites[id].status == Pending then
      reply.outcome == Done && InviteWritten(c, reply.circle, id, c.invites[id].(status := Declined))
    else NotOpen(c, reply, id)
  }

  lemma DeclineEffect(c: Circle, id: Id, user: Id)
    ensures Declines(c, DeclineInvite(c, id, user), id, user)
  {}

  // -------------------------------------------------------------------------
  // Joining
  // -------------------------------------------------------------------------

  /** The membership the user gets: the row there was, with the role, joined now if it was removed; or a new one. */
  ghost predicate JoinedAs(c: Circle, members: map<Id, Member>, now: int, space: Id, user: Id, role: Id) {
    exists m: Id ::
      && (if m in c.members then IsMemberOf(c.members[m], space, user) else !IsKnown(c, space, user))
      && members == c.members[m := Member(space, user, role, Active,
                                          if m in c.members && c.members[m].status == Active then c.members[m].joinedAt
                                          else now)]
  }

  lemma EnrolledEffect(c: Circle, scope: Scope, x: bool, now: int, space: Id, user: Id, role: Id)
    requires Sound(c, scope, x)
    ensures
      var c' := Enrolled(c, now, space, user, role);
      c'.roles == c.roles && c'.invites == c.invites && JoinedAs(c, c'.members, now, space, user, role)
  {
    Lookups(c, scope, x, space, user);
    var c', found := Enrolled(c, now, space, user, role), FindMember(c, space, user);
    var m := if found.Some? then found.value else c.supply;
    assert found.None? ==> c.supply !in c.members by {
      if c.supply in c.members {
        assert MemberSound(c, scope, c.supply, c.members[c.supply]);
      }
    }
    assert c'.members == c.members[m := c'.members[m]];
    assert c'.members[m] == Member(space, user, role, Active,
                                   if m in c.members && c.members[m].status == Active then c.members[m].joinedAt
                                   else now);
  }

  /** An accepted invite says so, with the time; the invitee gets the role offered; nothing else changes. */
  ghost predicate AcceptedAs(c: Circle, reply: Reply, now: int, id: Id)
    requires id in c.invites
  {
    var i := c.invites[id];
    && reply.outcome == Joined(id)
    && reply.circle.roles == c.roles
    && reply.circle.invites == c.invites[id := i.(status := Accepted, acceptedAt := Some(now))]
    && JoinedAs(c, reply.circle.members, now, i.space, i.invitee, i.role)
  }

  lemma AcceptEntityEffect(c: Circle, scope: Scope, x: bool, now: int, id: Id)
    requires Sound(c, scope, x) && id in c.invites && c.invites[id].status == Pending
    ensures AcceptedAs(c, AcceptEntity(c, now, scope.users, id), now, id)
  {
    var i := c.invites[id];
    assert InviteSound(c, scope, id, i);
    EnrolledEffect(c, scope, x, now, i.space, i.invitee, i.role);
  }

  /** A pending invite is past its time: the answer says the token is invalid, and the row that it has expired. */
  predicate ExpiredNow(c: Circle, reply: Reply, id: Id)
    requires id in c.invites
  {
    reply.outcome == Rejected(TokenInvalid) && InviteWritten(c, reply.circle, id, c.invites[id].(status := Expired))
  }

  /** Accepting by id: a pending invite in time, by its invitee; the time is looked at first. */
  ghost predicate AcceptsById(c: Circle, reply: Reply, now: int, id: Id, user: Id) {
    if id in c.invites && c.invites[id].status == Pending then
      if now > c.invites[id].expiresAt then ExpiredNow(c, reply, id)
      else if user != c.invites[id].invitee then Refused(c, reply, NotYours)
      else AcceptedAs(c, reply, now, id)
    else NotOpen(c, reply, id)
  }

  lemma AcceptByIdEffect(c: Circle, scope: Scope, x: bool, now: int, id: Id, user: Id)
    requires Sound(c, scope, x)
    ensures AcceptsById(c, AcceptInviteById(c, now, scope.users, id, user), now, id, user)
  {
    if id in c.invites && c.invites[id].status == Pending {
      AcceptEntityEffect(c, scope, x, now, id);
    }
  }

  /** Accepting by token: the invite with this token, if it is pending and in time. */
  ghost predicate AcceptsByToken(c: Circle, reply: Reply, now: int, token: Option<Id>) {
    if token == None then Refused(c, reply, TokenRequired)
    else if forall i :: i in c.invites ==> c.invites[i].token != token.value then Refused(c, reply, InviteNotFound)
    else
      exists id :: id in c.invites && c.invites[id].token == token.value
                   && if c.invites[id].status != Pending then Refused(c, reply, TokenInvalid)
                      else if now > c.invites[id].expiresAt then ExpiredNow(c, reply, id)
                      else AcceptedAs(c, reply, now, id)
  }

  lemma AcceptByTokenEffect(c: Circle, scope: Scope, x: bool, now: int, token: Option<Id>)
    requires Sound(c, scope, x)
    ensures AcceptsByToken(c, AcceptInvite(c, now, scope.users, token), now, token)
  {
    if token.Some? {
      forall i | i in c.invites ensures i < c.supply {
        assert InviteSound(c, scope, i, c.invites[i]);
      }
      var found := FindToken(c, token.value);
      if found.Some? && c.invites[found.value].status == Pending {
        AcceptEntityEffect(c, scope, x, now, found.value);
      }
    }
  }

  /** The workspace side of a project accept, for a user who has a row there. */
  lemma KnownGuestEffect(c: Circle, scope: Scope, x: bool, now: int, space: Id, user: Id, m: Id)
    requires Sound(c, scope, x) && m in c.members && IsMemberOf(c.members[m], space, user)
    ensures
      var c' := WithGuest(c, now, space, user);
      if c.members[m].status == Active then c' == c
      else MemberWritten(c, c', m, c.members[m].(status := Active, joinedAt := now))
  {
    Lookups(c, scope, x, space, user);
    assert SameSeat(c.members[m], c.members[FindMember(c, space, user).value]);
  }

  /** For any other user: a new row in a guest role, which is made if there is none; nothing else changes. */
  lemma NewGuestEffect(c: Circle, scope: Scope, x: bool, now: int, space: Id, user: Id)
    returns (m: Id, role: Id)
    requires Sound(c, scope, x) && !IsKnown(c, space, user)
    ensures
      var c' := WithGuest(c, now, space, user);
      && c'.invites == c.invites && m !in c.members
      && c'.members == c.members[m := Member(space, user, role, Active, now)]
      && role in c'.roles && c'.roles[role].space == space && c'.roles[role].isGuest
      && if exists r :: r in c.roles && c.roles[r].space == space && c.roles[r].isGuest then c'.roles == c.roles
         else role !in c.roles && c'.roles == c.roles[role := Role(space, true, false, true)]
  {
    Lookups(c, scope, x, space, user);
    assert forall k :: k in c.members ==> MemberSound(c, scope, k, c.members[k]);
    var found := FindGuestRole(c, space);
    role := if found.Some? then found.value else c.supply;
    m := if found.Some? then c.supply else c.supply + 1;
  }

  // -------------------------------------------------------------------------
  // Members and roles
  // -------------------------------------------------------------------------

  /**
   Assigning a member: an active one gets the role, a pending invite then offers it, keeping token,
   expiry and invitee, and anyone else is invited; nothing else changes.
   */
  ghost predicate Assigns(c: Circle, reply: Reply, now: int, known: bool, users: set<Id>, space: Id, user: Id,
                          role: Id) {
    if !known then Refused(c, reply, SpaceNotFound)
    else if user !in users then Refused(c, reply, InviteeNotFound)
    else if !RoleUsable(c, space, role) then Refused(c, reply, RoleInvalid)
    else if IsActive(c, space, user) then GetsRole(c, reply, space, user, role)
    else if IsInvited(c, space, user) then
      reply.outcome == Done
      && exists i :: i in c.invites && IsPendingFor(c.invites[i], space, user)
                     && InviteWritten(c, reply.circle, i, c.invites[i].(role := role))
    else Invited(c, reply, now, space, role, user)
  }

  /** The membership row of the active user gets the role, and nothing else changes. */
  ghost predicate GetsRole(c: Circle, reply: Reply, space: Id, user: Id, role: Id) {
    reply.outcome == Done
    && exists m :: m in c.members && IsActiveIn(c.members[m], space, user)
                   && MemberWritten(c, reply.circle, m, c.members[m].(role := role))
  }

  lemma AssignEffect(c: Circle, scope: Scope, x: bool, now: int, known: bool, space: Id, user: Id, role: Id)
    requires Sound(c, scope, x)
    ensures Assigns(c, AssignMember(c, now, known, scope.users, space, user, role), now, known, scope.users, space,
                    user, role)
  {
    Lookups(c, scope, x, space, user);
    NewInviteEffect(c, scope, x, now, space, role, user);
    var reply := AssignMember(c, now, known, scope.users, space, user, role);
    var active, pending := FindActive(c, space, user), FindPending(c, space, user);
    if known && user in scope.users && RoleUsable(c, space, role) {
      if active.Some? {
        assert MemberWritten(c, reply.circle, active.value, c.members[active.value].(role := role));
      } else if pending.Some? {
        assert InviteWritten(c, reply.circle, pending.value, c.invites[pending.value].(role := role));
      }
    }
  }

  /** A role change gives an active member the role, and changes nothing else. */
  ghost predicate ChangesRole(c: Circle, reply: Reply, known: bool, space: Id, user: Id, role: Id) {
    if !known then Refused(c, reply, SpaceNotFound)
    else if !IsActive(c, space, user) then Refused(c, reply, MemberNotFound)
    else if !RoleUsable(c, space, role) then Refused(c, reply, RoleInvalid)
    else GetsRole(c, reply, space, user, role)
  }

  lemma UpdateMemberRoleEffect(c: Circle, scope: Scope, x: bool, known: bool, space: Id, user: Id, role: Id)
    requires Sound(c, scope, x)
    ensures ChangesRole(c, UpdateMemberRole(c, known, space, user, role), known, space, user, role)
  {
    Lookups(c, scope, x, space, user);
    var active := FindActive(c, space, user);
    if known && active.Some? && RoleUsable(c, space, role) {
      assert MemberWritten(c, UpdateMemberRole(c, known, space, user, role).circle, active.value,
                           c.members[active.value].(role := role));
    }
  }

  /** A new role is enabled, unprotected and no guest role, under a new id. */
  ghost predicate CreatesRole(c: Circle, reply: Reply, known: bool, space: Id) {
    if !known then Refused(c, reply, SpaceNotFound)
    else
      reply.outcome == Done
      && exists r :: r !in c.roles && RoleWritten(c, reply.circle, r, Role(space, true, false, false))
  }

  lemma CreateRoleEffect(c: Circle, scope: Scope, x: bool, known: bool, space: Id)
    requires Sound(c, scope, x)
    ensures CreatesRole(c, CreateRole(c, known, space), known, space)
  {
    if known {
      assert c.supply !in c.roles;
      assert RoleWritten(c, CreateRole(c, known, space).circle, c.supply, Role(space, true, false, false));
    }
  }

  /** An active member or a pending invite of the role's space has it. */
  ghost predicate InUse(c: Circle, space: Id, role: Id) {
    || (exists m :: m in c.members && c.members[m].space == space && c.members[m].role == role
                    && c.members[m].status == Active)
    || (exists i :: i in c.invites && c.invites[i].space == space && c.invites[i].role == role
                    && c.invites[i].status == Pending)
  }

  /** Some membership or invite has it, whatever its status. */
  ghost predicate Mentioned(c: Circle, role: Id) {
    (exists m :: m in c.members && c.members[m].role == role)
        || (exists i :: i in c.invites && c.invites[i].role == role)
  }

  lemma HeldIsInUse(c: Circle, role: Id)
    requires role in c.roles
    ensures HeldRole(c, role) <==> InUse(c, c.roles[role].space, role)
  {
    var space := c.roles[role].space;
    if InUse(c, space, role) {
      if m :| m in c.members && c.members[m].space == space && c.members[m].role == role
              && c.members[m].status == Active {
        assert HasRole(c.members[m], space, role);
      }
      if i :| i in c.invites && c.invites[i].space == space && c.invites[i].role == role
              && c.invites[i].status == Pending {
        assert OffersRole(c.invites[i], space, role);
      }
    }
  }

  /** A role is enabled or disabled as asked, unless it is disabled and protected or in use. */
  ghost predicate UpdatesRole(c: Circle, reply: Reply, known: bool, space: Id, role: Id, status: Option<bool>) {
    if !known then Refused(c, reply, SpaceNotFound)
    else if !(role in c.roles && c.roles[role].space == space) then Refused(c, reply, RoleNotFound)
    else if status == Some(false) && c.roles[role].isProtected then Refused(c, reply, RoleProtected)
    else if status == Some(false) && InUse(c, space, role) then Refused(c, reply, RoleInUse)
    else
      reply.outcome == Done
      && RoleWritten(c, reply.circle, role,
                     c.roles[role].(status := if status.Some? then status.value else c.roles[role].status))
  }

  lemma UpdateRoleEffect(c: Circle, known: bool, space: Id, role: Id, status: Option<bool>)
    ensures UpdatesRole(c, UpdateRole(c, known, space, role, status), known, space, role, status)
  {
    if role in c.roles {
      HeldIsInUse(c, role);
    }
  }

  /** A role is deleted, unless it is protected, in use or still mentioned. */
  ghost predicate DeletesRole(c: Circle, reply: Reply, known: bool, space: Id, role: Id) {
    if !known then Refused(c, reply, SpaceNotFound)
    else if !(role in c.roles && c.roles[role].space == space) then Refused(c, reply, RoleNotFound)
    else if c.roles[role].isProtected then Refused(c, reply, RoleProtected)
    else if InUse(c, space, role) then Refused(c, reply, RoleInUse)
    else if Mentioned(c, role) then Refused(c, reply, RoleReferenced)
    else
      && reply.outcome == Done && reply.circle.members == c.members && reply.circle.invites == c.invites
      && role !in reply.circle.roles && c.roles == reply.circle.roles[role := c.roles[role]]
  }

  lemma DeleteRoleEffect(c: Circle, known: bool, space: Id, role: Id)
    ensures DeletesRole(c, DeleteRole(c, known, space, role), known, space, role)
  {
    if role in c.roles {
      HeldIsInUse(c, role);
    }
  }

  /**
   A new space: n new enabled roles, one of them protected, and its creator as its one member, in
   that one; no other row changes.
   */
  ghost predicate Founded(c: Circle, c': Circle, now: int, space: Id, creator: Id, n: nat, owner: Id, m: Id) {
    && c'.invites == c.invites
    && m !in c.members && c'.members == c.members[m := Member(space, creator, owner, Active, now)]
    && RolesAdded(c.roles, c'.roles, space, n, owner)
  }

  /** There are n more roles, enabled and in this space, and of these the owner's is protected. */
  ghost predicate RolesAdded(roles: map<Id, Role>, roles': map<Id, Role>, space: Id, n: nat, owner: Id) {
    && owner !in roles && owner in roles' && roles.Keys <= roles'.Keys && |roles'.Keys - roles.Keys| == n
    && forall r :: r in roles' ==>
         roles'[r] == if r in roles then roles[r] else Role(space, true, r == owner, false)
  }

  lemma NewSpaceEffect(c: Circle, scope: Scope, x: bool, now: int, space: Id, creator: Id, n: nat)
    requires Sound(c, scope, x) && 0 < n
    ensures exists owner, m :: Founded(c, NewSpace(c, now, space, creator, n), now, space, creator, n, owner, m)
  {
    forall k | k in c.members ensures k < c.supply {
      assert MemberSound(c, scope, k, c.members[k]);
    }
    NewSpaceRows(c, now, space, creator, n);
  }

  lemma NewSpaceRows(c: Circle, now: int, space: Id, creator: Id, n: nat)
    requires 0 < n && c.supply + n !in c.members && forall r :: r in c.roles ==> r < c.supply
    ensures Founded(c, NewSpace(c, now, space, creator, n), now, space, creator, n, c.supply, c.supply + n)
  {
    NewRoles(c.roles, space, c.supply, n);
    NewSpaceTables(c, now, space, creator, n);
  }

  lemma {:induction false} NewSpaceTables(c: Circle, now: int, space: Id, creator: Id, n: nat)
    requires 0 < n
    ensures
      var c' := NewSpace(c, now, space, creator, n);
      && c'.roles == c.roles + DefaultRoles(space, c.supply, n) && c'.invites == c.invites
      && c'.members == c.members[c.supply + n := Member(space, creator, c.supply, Active, now)]
  {}

  lemma {:induction false} NewRoles(roles: map<Id, Role>, space: Id, first: Id, n: nat)
    requires 0 < n && forall r :: r in roles ==> r < first
    ensures RolesAdded(roles, roles + DefaultRoles(space, first, n), space, n, first)
  {
    DefaultRolesAre(space, first, n);
    DefaultRolesCount(space, first, n);
    assert (roles + DefaultRoles(space, first, n)).Keys - roles.Keys == DefaultRoles(space, first, n).Keys;
  }

  lemma {:induction false} DefaultRolesCount(space: Id, first: Id, n: nat)
    ensures |DefaultRoles(space, first, n).Keys| == n
  {
    if n > 0 {
      DefaultRolesCount(space, first, n - 1);
      DefaultRolesAre(space, first, n - 1);
      assert DefaultRoles(space, first, n).Keys == DefaultRoles(space, first, n - 1).Keys + {first + n - 1};
    }
  }

  /** Deleting a space removes its rows, and no others. */
  lemma WithoutSpaceEffect(c: Circle, space: Id, id: Id)
    ensures
      var c' := WithoutSpace(c, space);
      && (if id in c.roles && c.roles[id].space != space then id in c'.roles && c'.roles[id] == c.roles[id]
          else id !in c'.roles)
      && (if id in c.members && c.members[id].space != space then id in c'.members && c'.members[id] == c.members[id]
          else id !in c'.members)
      && if id in c.invites && c.invites[id].space != space then id in c'.invites && c'.invites[id] == c.invites[id]
         else id !in c'.invites
  {}
}
