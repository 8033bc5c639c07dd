/**
 What the status requests save, field by field, exactly when they are granted, and that all other rows
 stay as they are.
 */
module StatusEffects {
  import opened Options
  import opened S = StatusConfig
  import opened StatusResults

  /** The value a request leaves in a column: the one sent, or else the one there was. */
  predicate Kept<T(==)>(field: Field<T>, before: T, after: T) {
    after == if field.Given? then field.value else before
  }

  /**
   The update makes the status done, or leaves it so: the category or the flag says so, as sent, or
   as it stands in the row when the request does not have the field at all.
   */
  predicate MakesDone(row: Status, p: Patch) {
    || p.category == Given(DoneWork) || (p.category.Missing? && row.category == DoneWork)
    || p.isDone == Given(true) || (p.isDone.Missing? && row.isDone)
  }

  /** What the update leaves in the row. */
  predicate Updated(row: Status, p: Patch, after: Status) {
    && after.stage == row.stage && after.key == row.key
    && Kept(p.name, row.name, after.name)
    && Kept(p.isDefault, row.isDefault, after.isDefault)
    && Kept(p.isActive, row.isActive, after.isActive)
    && if MakesDone(row, p) then
         && after.category == DoneWork && after.isDone && after.isTerminal
         && after.policy == (if p.policy.Undefined? then CompleteOpenWorkItems
                             else if p.policy.Given? then p.policy.value else row.policy)
       else
         && Kept(p.category, row.category, after.category) && Kept(p.isDone, row.isDone, after.isDone)
         && Kept(p.isTerminal, row.isTerminal, after.isTerminal) && Kept(p.policy, row.policy, after.policy)
  }

  /** An accepted update writes what was sent, and nothing else, into the one row. */
  lemma UpdateEffect(rows: Statuses, id: Id, p: Patch)
    requires UpdateStatus(rows, id, p).outcome.Done?
    ensures id in rows
    ensures
      var rows' := UpdateStatus(rows, id, p).rows;
      && id in rows' && Updated(rows[id], p, rows'[id])
      && rows' == rows[id := rows'[id]]
  {
    var d := AcceptedUpdate(rows, id, p);
    SavedRow(rows[id], p, d);
  }

  lemma SavedRow(row: Status, p: Patch, d: Draft)
    requires Normalize(Merged(row, p)) == Some(d)
    ensures Updated(row, p, Saved(row, d))
  {
    if MakesDone(row, p) {
      assert d.category == Some(DoneWork) && d.isDone == Some(true) && d.isTerminal == Some(true);
    } else {
      assert d == Merged(row, p);
    }
  }

  /** A refused update changes nothing. */
  lemma UpdateRefused(rows: Statuses, id: Id, p: Patch)
    requires UpdateStatus(rows, id, p).outcome.Rejected?
    ensures UpdateStatus(rows, id, p).rows == rows
  {}

  /** Why an update is refused, the first reason that holds. */
  lemma UpdateRefusal(rows: Statuses, id: Id, p: Patch)
    requires Inv(rows) && UpdateStatus(rows, id, p).outcome.Rejected?
    ensures
      UpdateStatus(rows, id, p).outcome.error ==
      if p.isDone == Given(true) || p.isTerminal == Given(true) || p.isDefault == Given(true) then MustBeActiveWork
      else if id !in rows then StatusNotFound
      else if rows[id].stage.Some? && ChangesSemantics(rows[id], p) then SemanticsImmutable
      else if !MakesDone(rows[id], p) && WouldHavePolicy(rows[id], p) then DonePolicyInvalid
      else if rows[id].stage == Some(Finished) then DoneRequired
      else DoneAlreadyExists
  {
    if id in rows {
      DoneIsFinished(rows, id);
      OtherActiveDone(rows, id);
      DonePolicy(rows[id], p);
    }
  }

  lemma DonePolicy(row: Status, p: Patch)
    ensures Normalize(Merged(row, p)).None? <==> !MakesDone(row, p) && WouldHavePolicy(row, p)
  {}

  /** Why a creation is refused: the key is taken, a policy without being done, or a second done status. */
  lemma CreateRefusal(rows: Statuses, id: Id, dto: NewStatus)
    requires Inv(rows) && CreateStatus(rows, id, dto).outcome.Rejected?
    ensures
      CreateStatus(rows, id, dto).outcome.error ==
      if exists k :: k in rows && rows[k].key == dto.key then KeyTaken
      else if !CreatesDone(dto) then DonePolicyInvalid
      else DoneAlreadyExists
  {
    NewDraft(dto);
  }

  /** Why a deletion is refused. */
  lemma DeleteRefusal(rows: Statuses, id: Id, hasTasks: bool)
    requires Inv(rows) && DeleteStatus(rows, id, hasTasks).outcome.Rejected?
    ensures
      DeleteStatus(rows, id, hasTasks).outcome.error ==
      if id !in rows then StatusNotFound else if rows[id].stage.Some? then CanonicalRequired else HasTasks
  {
    DeleteEffect(rows, id, hasTasks);
  }

  lemma CreateRefused(rows: Statuses, id: Id, dto: NewStatus)
    requires CreateStatus(rows, id, dto).outcome.Rejected?
    ensures CreateStatus(rows, id, dto).rows == rows
  {}

  /** The request sends another value than the row has, in some column other than the name. */
  predicate SendsOther(row: Status, p: Patch) {
    || (p.category.Given? && p.category.value != row.category)
    || (p.isDefault.Given? && p.isDefault.value != row.isDefault)
    || (p.isTerminal.Given? && p.isTerminal.value != row.isTerminal)
    || (p.isDone.Given? && p.isDone.value != row.isDone)
    || (p.policy.Given? && p.policy.value != row.policy)
    || (p.isActive.Given? && p.isActive.value != row.isActive)
  }

  /** The same row, but for the name, and for the policy of the done status when it is left undefined. */
  predicate OnlyRenamed(row: Status, p: Patch, after: Status) {
    && after.(name := row.name, policy := row.policy) == row
    && (after.policy == row.policy
        || (row.stage == Some(Finished) && p.policy.Undefined? && after.policy == CompleteOpenWorkItems))
  }

  lemma NothingElseSent(row: Status, p: Patch, after: Status)
    requires RowSound(row) && row.stage.Some? && !SendsOther(row, p) && Updated(row, p, after)
    ensures OnlyRenamed(row, p, after)
  {
    assert row.isDone <==> row.stage == Some(Finished);
  }

  /**
   A canonical status is only ever renamed, except that leaving the policy of the done one undefined
   sets the usual policy; a request that sends anything else is refused.
   */
  lemma CanonicalOnlyRenamed(rows: Statuses, id: Id, p: Patch)
    requires id in rows && RowSound(rows[id]) && rows[id].stage.Some?
    ensures SendsOther(rows[id], p) ==> UpdateStatus(rows, id, p).outcome.Rejected?
    ensures
      UpdateStatus(rows, id, p).outcome.Done? ==>
        id in UpdateStatus(rows, id, p).rows && OnlyRenamed(rows[id], p, UpdateStatus(rows, id, p).rows[id])
  {
    if UpdateStatus(rows, id, p).outcome.Done? {
      var d := AcceptedUpdate(rows, id, p);
      UpdateEffect(rows, id, p);
      NothingElseSent(rows[id], p, UpdateStatus(rows, id, p).rows[id]);
    }
  }

  /** A renamed status has the new name, and every other status the one it had. */
  lemma RenameEffect(rows: Statuses, id: Id, name: string)
    requires Inv(rows) && id in rows && rows[id].stage != Some(Finished)
    ensures
      var reply := UpdateStatus(rows, id, NAMELESS.(name := Given(name)));
      && reply.outcome.Done? && reply.rows.Keys == rows.Keys
      && forall k :: k in rows ==> reply.rows[k].name == if k == id then name else rows[k].name
  {
    RenamedIff(rows, id, name);
    UpdateEffect(rows, id, NAMELESS.(name := Given(name)));
  }

  /** The request would make the new status done. */
  predicate CreatesDone(dto: NewStatus) {
    dto.category == Some(DoneWork) || dto.isDone == Some(true)
  }

  /** A status is created exactly if its key is free, and it is neither done nor has a completion policy. */
  lemma CreatedIff(rows: Statuses, id: Id, dto: NewStatus)
    requires Inv(rows)
    ensures
      CreateStatus(rows, id, dto).outcome.Done? <==>
      && (forall k :: k in rows ==> rows[k].key != dto.key)
      && !CreatesDone(dto) && (dto.policy == None || dto.policy == Some(NoPolicy))
  {
    var d := Drafted(dto);
    NewDraft(dto);
    assert KeyIsTaken(rows, dto.key) <==> exists k :: k in rows && rows[k].key == dto.key;
  }

  lemma NewDraft(dto: NewStatus)
    ensures
      var n := Normalize(Drafted(dto));
      && (n.Some? ==> n.value.isActive == Some(true) && (n.value.isDone == Some(true) <==> CreatesDone(dto)))
      && (n.None? <==> !CreatesDone(dto) && dto.policy.Some? && dto.policy != Some(NoPolicy))
  {}

  /** The new row: what was sent, the usual values for the rest, active and not canonical. */
  predicate Created(dto: NewStatus, s: Status) {
    && s.stage == None && s.name == dto.name && s.key == dto.key && s.isActive
    && s.isDefault == (dto.isDefault == Some(true))
    && s.policy == (if dto.policy.Some? then dto.policy.value else NoPolicy)
    && if CreatesDone(dto) then s.category == DoneWork && s.isDone && s.isTerminal
       else
         && s.category == (if dto.category.Some? then dto.category.value else Working)
         && !s.isDone && s.isTerminal == (dto.isTerminal == Some(true))
  }

  /** An accepted creation adds that row; the others lose the default flag to a new default, and nothing else. */
  lemma CreateEffect(rows: Statuses, id: Id, dto: NewStatus)
    requires id !in rows && CreateStatus(rows, id, dto).outcome.Done?
    ensures
      var rows' := CreateStatus(rows, id, dto).rows;
      && rows'.Keys == rows.Keys + {id} && Created(dto, rows'[id])
      && forall k :: k in rows ==>
           rows'[k] == if dto.isDefault == Some(true) then rows[k].(isDefault := false) else rows[k]
  {}

  /** A status is deleted exactly if it is custom and unused; nothing else changes. */
  lemma DeleteEffect(rows: Statuses, id: Id, hasTasks: bool)
    requires Inv(rows)
    ensures
      var reply := DeleteStatus(rows, id, hasTasks);
      if id in rows && rows[id].stage == None && !hasTasks then reply == Reply(rows - {id}, Done)
      else reply.outcome.Rejected? && reply.rows == rows
  {
    if id in rows && rows[id].stage.None? {
      FinishedIsActiveDone(rows, id);
    }
  }

  /** A new project starts with one default status, the first canonical one, which is not started. */
  lemma SeededDefault(first: Id, k: Id)
    requires k in Seeded(first)
    ensures Seeded(first)[k].isDefault <==> Seeded(first)[k].stage == Some(Todo)
    ensures Seeded(first)[k].isDefault <==> Seeded(first)[k].category == NotStarted
  {}
}
