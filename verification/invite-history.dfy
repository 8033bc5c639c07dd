/**
 How the invite table may change: one step at a time and over runs. A closed invite stays as it
 is, a token that has been replaced never comes back, and expiry is a week after the token.
 */
module InviteHistory {
  import opened Options
  import opened Circles

  /** A later state of an invite: who is invited where stays, and once closed, everything does. */
  predicate RowContinues(supply: Id, i: Invite, i': Invite) {
    && i'.space == i.space && i'.invitee == i.invitee
    && (i.status != Pending ==> i' == i)
    && (i'.token == i.token || i'.token >= supply)
  }

  /** A later state of the table: what rows are left continue, new rows and tokens are new numbers. */
  ghost predicate Continues(c: Circle, c': Circle) {
    && c.supply <= c'.supply
    && forall i :: i in c'.invites ==>
         if i in c.invites then RowContinues(c.supply, c.invites[i], c'.invites[i])
         else i >= c.supply && c'.invites[i].token >= c.supply
  }

  /** Tokens and expiry change only by sending, which the answer tells of. */
  ghost predicate Sends(c: Circle, c': Circle, now: int, outcome: Outcome) {
    forall i :: i in c'.invites ==>
      || (i in c.invites && c'.invites[i].token == c.invites[i].token
          && c'.invites[i].expiresAt == c.invites[i].expiresAt)
      || (outcome == Sent(i, c'.invites[i].token) && c'.invites[i].token >= c.supply
          && c'.invites[i].expiresAt == now + INVITE_TTL_MS)
  }

  ghost predicate Advances(c: Circle, now: int, reply: Reply) {
    && Continues(c, reply.circle) && c.invites.Keys <= reply.circle.invites.Keys
    && Sends(c, reply.circle, now, reply.outcome)
    && (reply.outcome.Sent? ==> reply.outcome.token >= c.supply)
  }

  lemma ContinuesFurther(a: Circle, b: Circle, c: Circle)
    requires Continues(a, b) && Continues(b, c) && forall i :: i in a.invites ==> i < a.supply
    ensures Continues(a, c)
  {}

  lemma QuietAdvances(c: Circle, now: int, reply: Reply)
    requires reply.circle.invites == c.invites && c.supply <= reply.circle.supply && !reply.outcome.Sent?
    ensures Advances(c, now, reply)
  {}

  /** Rewriting one pending invite, keeping whom it is for, its token and its expiry. */
  lemma RewriteAdvances(c: Circle, now: int, id: Id, i: Invite, reply: Reply)
    requires id in c.invites && c.invites[id].status == Pending
    requires i.space == c.invites[id].space && i.invitee == c.invites[id].invitee
    requires i.token == c.invites[id].token && i.expiresAt == c.invites[id].expiresAt
    requires reply.circle.invites == c.invites[id := i] && c.supply <= reply.circle.supply && !reply.outcome.Sent?
    ensures Advances(c, now, reply)
  {}

  lemma NewInviteAdvances(c: Circle, now: int, space: Id, role: Id, user: Id)
    requires forall i :: i in c.invites ==> i < c.supply
    ensures Advances(c, now, NewInvite(c, now, space, role, user))
  {}

  lemma CreateAdvances(c: Circle, now: int, known: bool, users: set<Id>, space: Id, role: Id, user: Id)
    requires forall i :: i in c.invites ==> i < c.supply
    ensures Advances(c, now, CreateInvite(c, now, known, users, space, role, user))
  {
    var reply := CreateInvite(c, now, known, users, space, role, user);
    if reply.outcome.Sent? {
      NewInviteAdvances(c, now, space, role, user);
    } else {
      QuietAdvances(c, now, reply);
    }
  }

  lemma AssignAdvances(c: Circle, now: int, known: bool, users: set<Id>, space: Id, role: Id, user: Id)
    requires forall i :: i in c.invites ==> i < c.supply
    ensures Advances(c, now, AssignMember(c, now, known, users, space, user, role))
  {
    var reply := AssignMember(c, now, known, users, space, user, role);
    var pending := FindPending(c, space, user);
    if reply.outcome.Sent? {
      NewInviteAdvances(c, now, space, role, user);
    } else if reply.outcome.Done? && FindActive(c, space, user).None? && pending.Some? {
      RewriteAdvances(c, now, pending.value, c.invites[pending.value].(role := role), reply);
    } else {
      QuietAdvances(c, now, reply);
    }
  }

  lemma ResendAdvances(c: Circle, now: int, id: Id)
    ensures Advances(c, now, ResendInvite(c, now, id))
  {}

  lemma ClosedAdvances(c: Circle, now: int, id: Id, status: InviteStatus, outcome: Outcome)
    requires id in c.invites && c.invites[id].status == Pending && !outcome.Sent?
    ensures Advances(c, now, Reply(Closed(c, id, status), outcome))
  {}

  lemma ClosingAdvances(c: Circle, now: int, id: Id, user: Id)
    ensures Advances(c, now, CancelInvite(c, id)) && Advances(c, now, DeclineInvite(c, id, user))
  {
    if id in c.invites && c.invites[id].status == Pending {
      ClosedAdvances(c, now, id, Revoked, Done);
      ClosedAdvances(c, now, id, Declined, Done);
    }
    QuietAdvances(c, now, Reply(c, CancelInvite(c, id).outcome));
    QuietAdvances(c, now, Reply(c, DeclineInvite(c, id, user).outcome));
  }

  lemma EnrolledInvites(c: Circle, now: int, space: Id, user: Id, role: Id)
    ensures
      var c' := Enrolled(c, now, space, user, role);
      c'.invites == c.invites && c.supply <= c'.supply
  {}

  lemma EntityAdvances(c: Circle, now: int, users: set<Id>, id: Id)
    requires id in c.invites && c.invites[id].status == Pending
    ensures Advances(c, now, AcceptEntity(c, now, users, id))
  {}

  lemma AcceptAdvances(c: Circle, now: int, users: set<Id>, token: Option<Id>)
    ensures Advances(c, now, AcceptInvite(c, now, users, token))
  {
    if token.Some? && FindToken(c, token.value).Some? && c.invites[FindToken(c, token.value).value].status == Pending {
      var id := FindToken(c, token.value).value;
      EntityAdvances(c, now, users, id);
      ClosedAdvances(c, now, id, Expired, Rejected(TokenInvalid));
    } else {
      QuietAdvances(c, now, AcceptInvite(c, now, users, token));
    }
  }

  lemma AcceptByIdAdvances(c: Circle, now: int, users: set<Id>, id: Id, user: Id)
    ensures Advances(c, now, AcceptInviteById(c, now, users, id, user))
  {
    if id in c.invites && c.invites[id].status == Pending {
      EntityAdvances(c, now, users, id);
      ClosedAdvances(c, now, id, Expired, Rejected(TokenInvalid));
    }
    if AcceptInviteById(c, now, users, id, user).circle == c {
      QuietAdvances(c, now, AcceptInviteById(c, now, users, id, user));
    }
  }

  lemma RolesAdvance(c: Circle, now: int, known: bool, space: Id, user: Id, role: Id, status: Option<bool>)
    ensures Advances(c, now, CreateRole(c, known, space))
    ensures Advances(c, now, UpdateRole(c, known, space, role, status))
    ensures Advances(c, now, DeleteRole(c, known, space, role))
    ensures Advances(c, now, UpdateMemberRole(c, known, space, user, role))
  {
    QuietAdvances(c, now, CreateRole(c, known, space));
    QuietAdvances(c, now, UpdateRole(c, known, space, role, status));
    QuietAdvances(c, now, DeleteRole(c, known, space, role));
    QuietAdvances(c, now, UpdateMemberRole(c, known, space, user, role));
  }

  // -------------------------------------------------------------------------
  // What lasts
  // -------------------------------------------------------------------------

  /** The token was issued and belongs to no invite any more. */
  ghost predicate Superseded(c: Circle, token: Id) {
    token < c.supply && forall i :: i in c.invites ==> c.invites[i].token != token
  }

  lemma SupersededStays(c: Circle, c': Circle, token: Id)
    requires Continues(c, c') && Superseded(c, token)
    ensures Superseded(c', token)
  {}

  lemma ClosedStays(c: Circle, c': Circle, id: Id)
    requires Continues(c, c') && id in c.invites && c.invites[id].status != Pending && id in c'.invites
    ensures c'.invites[id] == c.invites[id]
  {}
}
