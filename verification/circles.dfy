/**
 Membership of a space by invitation. A project and a workspace are both spaces: each has roles,
 members holding one of them, and invites that turn a user into a member. The two invite
 services differ only in what a project accept does to the workspace.

 Rows and tokens are numbered from a supply that never repeats. Times are in milliseconds.
 */
module Circles {
  import opened Options

  const INVITE_TTL_MS := 7 * 24 * 60 * 60 * 1000

  type Id = nat

  datatype Role = Role(space: Id, status: bool, isProtected: bool, isGuest: bool)

  datatype MemberStatus = Active | Removed

  datatype Member = Member(space: Id, user: Id, role: Id, status: MemberStatus, joinedAt: int)

  datatype InviteStatus = Pending | Accepted | Declined | Expired | Revoked

  datatype Invite = Invite(
    space: Id,
    invitee: Id,
    role: Id,
    token: Id,
    status: InviteStatus,
    expiresAt: int,
    acceptedAt: Option<int>)

  /** The three tables of one kind of space, and the next unused number. */
  datatype Circle = Circle(roles: map<Id, Role>, members: map<Id, Member>, invites: map<Id, Invite>, supply: Id)

  datatype Error =
    | SpaceNotFound | RoleInvalid | RoleNotFound | RoleProtected | RoleInUse | RoleReferenced
    | InviteeNotFound | AlreadyMember | DuplicateInvite | MemberNotFound
    | InviteNotFound | InviteNotPending | TokenRequired | TokenInvalid | NotYours | RoleUnavailable

  datatype Outcome =
    | Rejected(error: Error)
    | Done
    | Sent(invite: Id, token: Id)
    | Joined(invite: Id)

  datatype Reply = Reply(circle: Circle, outcome: Outcome)

  // -------------------------------------------------------------------------
  // Lookups
  // -------------------------------------------------------------------------

  /** The newest of the first n rows that fits, as a query without an order may answer. */
  function Find<R>(rows: map<Id, R>, n: Id, fits: R -> bool): (found: Option<Id>)
    ensures found.Some? ==> found.value in rows && found.value < n && fits(rows[found.value])
    ensures found.None? ==> forall k :: k in rows && k < n ==> !fits(rows[k])
  {
    if n == 0 then None
    else if n - 1 in rows && fits(rows[n - 1]) then Some(n - 1)
    else Find(rows, n - 1, fits)
  }

  predicate IsMemberOf(m: Member, space: Id, user: Id) {
    m.space == space && m.user == user
  }

  predicate IsActiveIn(m: Member, space: Id, user: Id) {
    IsMemberOf(m, space, user) && m.status == Active
  }

  predicate IsPendingFor(i: Invite, space: Id, user: Id) {
    i.space == space && i.invitee == user && i.status == Pending
  }

  function FindMember(c: Circle, space: Id, user: Id): Option<Id> {
    Find(c.members, c.supply, m => IsMemberOf(m, space, user))
  }

  function FindActive(c: Circle, space: Id, user: Id): Option<Id> {
    Find(c.members, c.supply, m => IsActiveIn(m, space, user))
  }

  function FindPending(c: Circle, space: Id, user: Id): Option<Id> {
    Find(c.invites, c.supply, i => IsPendingFor(i, space, user))
  }

  function FindToken(c: Circle, token: Id): Option<Id> {
    Find(c.invites, c.supply, (i: Invite) => i.token == token)
  }

  function FindGuestRole(c: Circle, space: Id): Option<Id> {
    Find(c.roles, c.supply, (r: Role) => r.space == space && r.isGuest)
  }

  predicate RoleUsable(c: Circle, space: Id, role: Id) {
    role in c.roles && c.roles[role].space == space && c.roles[role].status
  }

  // -------------------------------------------------------------------------
  // Invites
  // -------------------------------------------------------------------------

  function NewInvite(c: Circle, now: int, space: Id, role: Id, user: Id): Reply {
    Reply(
      c.(invites := c.invites[c.supply := Invite(space, user, role, c.supply + 1, Pending, now + INVITE_TTL_MS, None)],
         supply := c.supply + 2),
      Sent(c.supply, c.supply + 1))
  }

  function CreateInvite(c: Circle, now: int, known: bool, users: set<Id>, space: Id, role: Id, user: Id): Reply {
    if !known then Reply(c, Rejected(SpaceNotFound))
    else if !RoleUsable(c, space, role) then Reply(c, Rejected(RoleInvalid))
    else if user !in users then Reply(c, Rejected(InviteeNotFound))
    else if FindActive(c, space, user).Some? then Reply(c, Rejected(AlreadyMember))
    else if FindPending(c, space, user).Some? then Reply(c, Rejected(DuplicateInvite))
    else NewInvite(c, now, space, role, user)
  }

  function ResendInvite(c: Circle, now: int, id: Id): Reply {
    if id !in c.invites then Reply(c, Rejected(InviteNotFound))
    else if c.invites[id].status != Pending then Reply(c, Rejected(InviteNotPending))
    else
      Reply(
        c.(invites := c.invites[id := c.invites[id].(token := c.supply, expiresAt := now + INVITE_TTL_MS)],
           supply := c.supply + 1),
        Sent(id, c.supply))
  }

  function Closed(c: Circle, id: Id, status: InviteStatus): Circle
    requires id in c.invites
  {
    c.(invites := c.invites[id := c.invites[id].(status := status)])
  }

  function CancelInvite(c: Circle, id: Id): Reply {
    if id !in c.invites then Reply(c, Rejected(InviteNotFound))
    else if c.invites[id].status != Pending then Reply(c, Rejected(InviteNotPending))
    else Reply(Closed(c, id, Revoked), Done)
  }

  function DeclineInvite(c: Circle, id: Id, user: Id): Reply {
    if id !in c.invites then Reply(c, Rejected(InviteNotFound))
    else if c.invites[id].invitee != user then Reply(c, Rejected(NotYours))
    else if c.invites[id].status != Pending then Reply(c, Rejected(InviteNotPending))
    else Reply(Closed(c, id, Declined), Done)
  }

  /** The user holds the role as an active member, in the row there was or in a new one. */
  function Enrolled(c: Circle, now: int, space: Id, user: Id, role: Id): Circle {
    match FindMember(c, space, user)
    case None => c.(members := c.members[c.supply := Member(space, user, role, Active, now)], supply := c.supply + 1)
    case Some(m) =>
      if c.members[m].status == Removed
      then c.(members := c.members[m := c.members[m].(status := Active, joinedAt := now, role := role)])
      else c.(members := c.members[m := c.members[m].(role := role)])
  }

  function AcceptEntity(c: Circle, now: int, users: set<Id>, id: Id): Reply
    requires id in c.invites
  {
    var invite := c.invites[id];
    if !RoleUsable(c, invite.space, invite.role) then Reply(c, Rejected(RoleUnavailable))
    else if invite.invitee !in users then Reply(c, Rejected(InviteeNotFound))
    else
      Reply(
        Enrolled(c, now, invite.space, invite.invitee, invite.role)
          .(invites := c.invites[id := invite.(status := Accepted, acceptedAt := Some(now))]),
        Joined(id))
  }

  function AcceptInvite(c: Circle, now: int, users: set<Id>, token: Option<Id>): Reply {
    if token.None? then Reply(c, Rejected(TokenRequired))
    else
      match FindToken(c, token.value)
      case None => Reply(c, Rejected(InviteNotFound))
      case Some(id) =>
        if c.invites[id].status != Pending then Reply(c, Rejected(TokenInvalid))
        else if c.invites[id].expiresAt < now then Reply(Closed(c, id, Expired), Rejected(TokenInvalid))
        else AcceptEntity(c, now, users, id)
  }

  function AcceptInviteById(c: Circle, now: int, users: set<Id>, id: Id, user: Id): Reply {
    if id !in c.invites then Reply(c, Rejected(InviteNotFound))
    else if c.invites[id].status != Pending then Reply(c, Rejected(InviteNotPending))
    else if c.invites[id].expiresAt < now then Reply(Closed(c, id, Expired), Rejected(TokenInvalid))
    else if c.invites[id].invitee != user then Reply(c, Rejected(NotYours))
    else AcceptEntity(c, now, users, id)
  }

  /** Membership of the enclosing workspace, as a guest unless the user was already known there. */
  function WithGuest(c: Circle, now: int, space: Id, user: Id): Circle {
    match FindMember(c, space, user)
    case Some(m) =>
      if c.members[m].status == Removed
      then c.(members := c.members[m := c.members[m].(status := Active, joinedAt := now)])
      else c
    case None =>
      var (roles, role, supply) := match FindGuestRole(c, space)
        case Some(r) => (c.roles, r, c.supply)
        case None => (c.roles[c.supply := Role(space, true, false, true)], c.supply, c.supply + 1);
      c.(roles := roles, members := c.members[supply := Member(space, user, role, Active, now)], supply := supply + 1)
  }

  // -------------------------------------------------------------------------
  // Members and roles of a project
  // -------------------------------------------------------------------------

  function AssignMember(c: Circle, now: int, known: bool, users: set<Id>, space: Id, user: Id, role: Id): Reply {
    if !known then Reply(c, Rejected(SpaceNotFound))
    else if user !in users then Reply(c, Rejected(InviteeNotFound))
    else if !RoleUsable(c, space, role) then Reply(c, Rejected(RoleInvalid))
    else
      match FindActive(c, space, user)
      case Some(m) => Reply(c.(members := c.members[m := c.members[m].(role := role)]), Done)
      case None =>
        match FindPending(c, space, user)
        case Some(i) => Reply(c.(invites := c.invites[i := c.invites[i].(role := role)]), Done)
        case None => NewInvite(c, now, space, role, user)
  }

  function UpdateMemberRole(c: Circle, known: bool, space: Id, user: Id, role: Id): Reply {
    match FindActive(c, space, user)
    case None => Reply(c, Rejected(if known then MemberNotFound else SpaceNotFound))
    case Some(m) =>
      if !known then Reply(c, Rejected(SpaceNotFound))
      else if !RoleUsable(c, space, role) then Reply(c, Rejected(RoleInvalid))
      else Reply(c.(members := c.members[m := c.members[m].(role := role)]), Done)
  }

  predicate HasRole(m: Member, space: Id, role: Id) {
    m.space == space && m.role == role && m.status == Active
  }

  predicate OffersRole(i: Invite, space: Id, role: Id) {
    i.space == space && i.role == role && i.status == Pending
  }

  /** An active member or a pending invite of the role's space has the role. */
  predicate HeldRole(c: Circle, role: Id)
    requires role in c.roles
  {
    var space := c.roles[role].space;
    || (exists m :: m in c.members && HasRole(c.members[m], space, role))
    || (exists i :: i in c.invites && OffersRole(c.invites[i], space, role))
  }

  function CreateRole(c: Circle, known: bool, space: Id): Reply {
    if !known then Reply(c, Rejected(SpaceNotFound))
    else Reply(c.(roles := c.roles[c.supply := Role(space, true, false, false)], supply := c.supply + 1), Done)
  }

  function UpdateRole(c: Circle, known: bool, space: Id, role: Id, status: Option<bool>): Reply {
    if !known then Reply(c, Rejected(SpaceNotFound))
    else if role !in c.roles || c.roles[role].space != space then Reply(c, Rejected(RoleNotFound))
    else if status.None? then Reply(c, Done)
    else if c.roles[role].isProtected && !status.value then Reply(c, Rejected(RoleProtected))
    else if !status.value && HeldRole(c, role) then Reply(c, Rejected(RoleInUse))
    else Reply(c.(roles := c.roles[role := c.roles[role].(status := status.value)]), Done)
  }

  /** Rows that refer to the role; the database refuses to delete a role while there are any. */
  predicate Referenced(c: Circle, role: Id) {
    (exists m :: m in c.members && c.members[m].role == role)
        || (exists i :: i in c.invites && c.invites[i].role == role)
  }

  function DeleteRole(c: Circle, known: bool, space: Id, role: Id): Reply {
    if !known then Reply(c, Rejected(SpaceNotFound))
    else if role !in c.roles || c.roles[role].space != space then Reply(c, Rejected(RoleNotFound))
    else if c.roles[role].isProtected then Reply(c, Rejected(RoleProtected))
    else if HeldRole(c, role) then Reply(c, Rejected(RoleInUse))
    else if Referenced(c, role) then Reply(c, Rejected(RoleReferenced))
    else Reply(c.(roles := c.roles - {role}), Done)
  }

  const DEFAULT_ROLES := 5

  /** The roles a new project starts with; the first is the owner's and cannot be disabled or deleted. */
  function DefaultRoles(space: Id, first: Id, n: nat): map<Id, Role> {
    if n == 0 then map[] else DefaultRoles(space, first, n - 1)[first + n - 1 := Role(space, true, n == 1, false)]
  }

  /** A new space with its default roles and its creator as the sole member, in the first of them. */
  function NewSpace(c: Circle, now: int, space: Id, creator: Id, roles: nat): Circle
    requires 0 < roles
  {
    c.(roles := c.roles + DefaultRoles(space, c.supply, roles),
       members := c.members[c.supply + roles := Member(space, creator, c.supply, Active, now)],
       supply := c.supply + roles + 1)
  }

  /** Deleting a space takes its roles, members and invites with it. */
  function WithoutSpace(c: Circle, space: Id): Circle {
    c.(roles := map r | r in c.roles && c.roles[r].space != space :: c.roles[r],
       members := map m | m in c.members && c.members[m].space != space :: c.members[m],
       invites := map i | i in c.invites && c.invites[i].space != space :: c.invites[i])
  }
}
