/**
 What the status rules keep, and exactly which accepted updates break it.
 */
module StatusResults {
  import opened Options
  import opened S = StatusConfig

  // -------------------------------------------------------------------------
  // Normalisation
  // -------------------------------------------------------------------------

  /** Normalising twice is normalising once, and leaves done as category and done as flag together. */
  lemma NormalizeIdempotent(d: Draft)
    requires Normalize(d).Some?
    ensures Normalize(Normalize(d).value) == Normalize(d)
    ensures
      var n := Normalize(d).value;
      && (n.isDone == Some(true) <==> n.category == Some(DoneWork))
      && (n.isDone == Some(true) ==> n.isTerminal == Some(true) && n.policy.Some?)
      && (n.isDone != Some(true) ==> n == d && (d.policy.None? || d.policy == Some(NoPolicy)))
  {}

  // -------------------------------------------------------------------------
  // The invariant
  // -------------------------------------------------------------------------

  /** A canonical row keeps its stage's key, category, flags and activity; whatever else may change. */
  predicate KeepsStage(s: Status) {
    s.stage.Some? ==>
      var c := Canonical(s.stage.value);
      s.key == c.key && s.category == c.category && s.isDone == c.isDone && s.isTerminal == c.isTerminal
          && s.isActive == c.isActive
  }

  predicate RowSound(s: Status) {
    KeepsStage(s) && (s.isDone <==> s.category == DoneWork)
  }

  ghost predicate KeysDiffer(rows: Statuses) {
    forall k, l :: k in rows && l in rows && rows[k].key == rows[l].key ==> k == l
  }

  ghost predicate OneDefault(rows: Statuses) {
    forall k, l :: k in rows && l in rows && rows[k].isDefault && rows[l].isDefault ==> k == l
  }

  ghost predicate HasStage(rows: Statuses, stage: Stage) {
    exists k :: k in rows && rows[k].stage == Some(stage)
  }

  ghost predicate AllStages(rows: Statuses) {
    HasStage(rows, Todo) && HasStage(rows, InProgress) && HasStage(rows, InReview) && HasStage(rows, Finished)
  }

  ghost predicate RowsSound(rows: Statuses) {
    forall k :: k in rows ==> RowSound(rows[k])
  }

  /** Exactly one active done status, the four canonical stages as seeded, at most one default, keys distinct. */
  ghost predicate Inv(rows: Statuses) {
    |ActiveDone(rows)| == 1 && RowsSound(rows) && AllStages(rows) && KeysDiffer(rows) && OneDefault(rows)
  }

  lemma SeededKeys(first: Id)
    ensures KeysDiffer(Seeded(first))
  {
    var todo, progress, review, done, blocked := "todo", "in_progress", "in_review", "done", "blocked";
    assert |todo| == 4 && |progress| == 11 && |review| == 9 && |done| == 4 && |blocked| == 7 && todo[0] != done[0];
    forall k, l | k in Seeded(first) && l in Seeded(first) && Seeded(first)[k].key == Seeded(first)[l].key
      ensures k == l
    {
      assert Seeded(first)[k].key == [todo, progress, review, done, blocked][k - first];
      assert Seeded(first)[l].key == [todo, progress, review, done, blocked][l - first];
    }
  }

  lemma SeedRowSound(i: int)
    ensures RowSound(SeedRow(i)) && (SeedRow(i).isDefault ==> i == 0) && (IsActiveDone(SeedRow(i)) <==> i == 3)
  {}

  lemma SeededRows(first: Id)
    ensures OneDefault(Seeded(first)) && RowsSound(Seeded(first))
  {
    forall k | k in Seeded(first) ensures RowSound(Seeded(first)[k]) && (Seeded(first)[k].isDefault ==> k == first) {
      SeedRowSound(k - first);
    }
  }

  lemma SeededStages(first: Id)
    ensures AllStages(Seeded(first))
  {
    var rows := Seeded(first);
    assert rows[first].stage == Some(Todo) && rows[first + 1].stage == Some(InProgress);
    assert rows[first + 2].stage == Some(InReview) && rows[first + 3].stage == Some(Finished);
  }

  lemma SeededActiveDone(first: Id)
    ensures ActiveDone(Seeded(first)) == {first + 3}
  {}

  lemma SeededInv(first: Id)
    ensures Inv(Seeded(first)) && ActiveDone(Seeded(first)) == {first + 3}
  {
    SeededKeys(first);
    SeededStages(first);
    SeededRows(first);
    SeededActiveDone(first);
  }

  // -------------------------------------------------------------------------
  // Writing one row
  // -------------------------------------------------------------------------

  lemma SetMinus(s: set<Id>, id: Id)
    ensures |s - {id}| == if id in s then |s| - 1 else |s|
  {}

  lemma OnlyOne(s: set<Id>, k: Id)
    requires |s| == 1 && k in s
    ensures s == {k}
  {
    SetMinus(s, k);
    assert s - {k} == {};
  }

  /** No custom row is the active done one. */
  lemma FinishedIsActiveDone(rows: Statuses, id: Id)
    requires Inv(rows) && id in rows && rows[id].stage.None?
    ensures !IsActiveDone(rows[id]) && |ActiveDone(rows) - {id}| == 1
  {
    var k :| k in rows && rows[k].stage == Some(Finished);
    assert RowSound(rows[k]);
    OnlyOne(ActiveDone(rows), k);
    SetMinus(ActiveDone(rows), id);
  }

  /** Changing a row in place, keeping its stage, its key and whether it is the active done one. */
  lemma RewriteKeeps(rows: Statuses, id: Id, s: Status)
    requires Inv(rows) && id in rows && RowSound(s)
    requires s.stage == rows[id].stage && s.key == rows[id].key && (s.isDefault ==> rows[id].isDefault)
    requires IsActiveDone(s) == IsActiveDone(rows[id])
    ensures Inv(rows[id := s])
  {
    var rows' := rows[id := s];
    SameActiveDone(rows, id, s);
    StagesStay(rows, rows');
    RowsStay(rows, rows');
    FlagsStay(rows, rows');
  }

  lemma SameActiveDone(rows: Statuses, id: Id, s: Status)
    requires if id in rows then IsActiveDone(s) == IsActiveDone(rows[id]) else !IsActiveDone(s)
    ensures ActiveDone(rows[id := s]) == ActiveDone(rows)
  {}

  lemma RowsStay(rows: Statuses, rows': Statuses)
    requires RowsSound(rows) && forall k :: k in rows' ==> RowSound(rows'[k]) || (k in rows && rows'[k] == rows[k])
    ensures RowsSound(rows')
  {}

  lemma FlagsStay(rows: Statuses, rows': Statuses)
    requires KeysDiffer(rows) && OneDefault(rows)
    requires forall k :: k in rows' ==>
             k in rows && rows'[k].key == rows[k].key && (rows'[k].isDefault ==> rows[k].isDefault)
    ensures KeysDiffer(rows') && OneDefault(rows')
  {}

  lemma StagesStay(rows: Statuses, rows': Statuses)
    requires AllStages(rows) && forall k :: k in rows && rows[k].stage.Some? ==>
             k in rows' && rows'[k].stage == rows[k].stage
    ensures AllStages(rows')
  {}

  lemma AddKeeps(rows: Statuses, id: Id, s: Status)
    requires Inv(rows) && id !in rows && RowSound(s) && s.stage.None? && !IsActiveDone(s)
    requires forall k :: k in rows ==> rows[k].key != s.key
    requires s.isDefault ==> forall k :: k in rows ==> !rows[k].isDefault
    ensures Inv(rows[id := s])
  {
    var rows' := rows[id := s];
    SameActiveDone(rows, id, s);
    StagesStay(rows, rows');
    RowsStay(rows, rows');
  }

  lemma ClearKeeps(rows: Statuses)
    requires Inv(rows)
    ensures Inv(WithoutDefault(rows))
  {
    var rows' := WithoutDefault(rows);
    assert ActiveDone(rows') == ActiveDone(rows);
    StagesStay(rows, rows');
    FlagsStay(rows, rows');
    forall k | k in rows' ensures RowSound(rows'[k]) {
      assert RowSound(rows[k]);
    }
  }

  lemma CreateKeeps(rows: Statuses, id: Id, dto: NewStatus)
    requires Inv(rows) && id !in rows
    ensures Inv(CreateStatus(rows, id, dto).rows)
  {
    var reply := CreateStatus(rows, id, dto);
    if reply.outcome.Done? {
      var input := Normalize(Drafted(dto)).value;
      var s := Saved(Custom(dto.key), input);
      NormalizeIdempotent(Drafted(dto));
      ClearKeeps(rows);
      AddKeeps(if input.isDefault == Some(true) then WithoutDefault(rows) else rows, id, s);
    }
  }

  lemma ActiveDoneWithout(rows: Statuses, id: Id)
    requires id in rows && !IsActiveDone(rows[id])
    ensures ActiveDone(rows - {id}) == ActiveDone(rows)
  {}

  lemma DropKeeps(rows: Statuses, id: Id)
    requires Inv(rows) && id in rows && rows[id].stage.None?
    ensures Inv(rows - {id})
  {
    FinishedIsActiveDone(rows, id);
    ActiveDoneWithout(rows, id);
    StagesStay(rows, rows - {id});
    RowsStay(rows, rows - {id});
    FlagsStay(rows, rows - {id});
  }

  lemma DeleteKeeps(rows: Statuses, id: Id, hasTasks: bool)
    requires Inv(rows)
    ensures Inv(DeleteStatus(rows, id, hasTasks).rows)
  {
    if id in rows && rows[id].stage.None? {
      DropKeeps(rows, id);
    }
  }

  // -------------------------------------------------------------------------
  // Updates
  // -------------------------------------------------------------------------

  /**
   The updates that break nothing when they are accepted: any that does not, while naming only
   part of what makes a status done or active, leave the rest to the row.
   */
  predicate Safe(row: Status, p: Patch) {
    row.stage.Some?
    || !(|| (p.category == Given(DoneWork) && p.isActive == Undefined && row.isActive)
         || (row.isDone && p.isDone == Undefined && p.category == Undefined && p.isActive == Given(true))
         || (row.isDone && p.isDone == Undefined && p.category.Given? && p.category != Given(DoneWork))
         || (row.isDone && p.isDone == Given(false) && p.category == Undefined))
  }

  /** A patch without undefined fields, as a plain object gives. */
  predicate Plain(p: Patch) {
    p.category != Undefined && p.isDone != Undefined && p.isActive != Undefined
  }

  lemma PlainIsSafe(row: Status, p: Patch)
    requires Plain(p)
    ensures Safe(row, p)
  {}

  /** What an accepted update saves on a custom row: safe patches, and no others, leave it sound and not active done. */
  lemma CustomRow(row: Status, p: Patch, d: Draft)
    requires row.stage.None? && RowSound(row) && !IsActiveDone(row) && !Asks(p.isDone) && !Asks(p.isDefault)
    requires Normalize(Merged(row, p)) == Some(d) && !(d.isDone == Some(true) && d.isActive == Some(true))
    ensures
      var s := Saved(row, d);
      && (s.isDefault ==> row.isDefault)
      && (Safe(row, p) <==> RowSound(s) && !IsActiveDone(s))
  {}

  /** What an accepted update saves on a canonical row. */
  lemma CanonicalRow(row: Status, p: Patch, d: Draft)
    requires row.stage.Some? && RowSound(row) && !ChangesSemantics(row, p) && Normalize(Merged(row, p)) == Some(d)
    ensures
      var s := Saved(row, d);
      RowSound(s) && (s.isDefault ==> row.isDefault) && IsActiveDone(s) == IsActiveDone(row)
  {}

  lemma BrokenRow(rows: Statuses, id: Id, s: Status)
    requires Inv(rows) && id in rows && rows[id].stage.None? && (!RowSound(s) || IsActiveDone(s))
    ensures !Inv(rows[id := s])
  {
    var rows' := rows[id := s];
    FinishedIsActiveDone(rows, id);
    if IsActiveDone(s) {
      ActiveDoneAdded(rows, id, s);
    } else {
      assert !RowSound(rows'[id]);
    }
  }

  lemma AcceptedUpdate(rows: Statuses, id: Id, p: Patch) returns (d: Draft)
    requires UpdateStatus(rows, id, p).outcome.Done?
    ensures id in rows && Normalize(Merged(rows[id], p)) == Some(d)
            && UpdateStatus(rows, id, p).rows == rows[id := Saved(rows[id], d)]
    ensures !Asks(p.isDone) && !Asks(p.isDefault)
    ensures rows[id].stage.Some? ==> !ChangesSemantics(rows[id], p)
    ensures |ActiveDone(rows) - {id}| > 0 ==> !(d.isDone == Some(true) && d.isActive == Some(true))
  {
    d := Normalize(Merged(rows[id], p)).value;
  }

  /** An accepted update keeps the invariant exactly when it is safe. */
  lemma AcceptedKeepsIff(rows: Statuses, id: Id, p: Patch)
    requires Inv(rows) && UpdateStatus(rows, id, p).outcome.Done?
    ensures Inv(UpdateStatus(rows, id, p).rows) <==> Safe(rows[id], p)
  {
    var d := AcceptedUpdate(rows, id, p);
    var row, s := rows[id], Saved(rows[id], d);
    assert RowSound(row);
    if row.stage.Some? {
      CanonicalRow(row, p, d);
      RewriteKeeps(rows, id, s);
    } else {
      FinishedIsActiveDone(rows, id);
      CustomRow(row, p, d);
      if Safe(row, p) {
        RewriteKeeps(rows, id, s);
      } else {
        BrokenRow(rows, id, s);
      }
    }
  }

  /** The request asks for what no update grants, or for a completion policy on a status that is not done. */
  predicate TurnedDown(row: Status, p: Patch) {
    Asks(p.isDone) || Asks(p.isTerminal) || Asks(p.isDefault) || Normalize(Merged(row, p)).None?
  }

  /** The update is harmless: there is no such row, or it is safe for the row, or it is turned down. */
  predicate Harmless(rows: Statuses, id: Id, p: Patch) {
    id !in rows || Safe(rows[id], p) || TurnedDown(rows[id], p)
  }

  lemma UnsafeDraft(row: Status, p: Patch)
    requires RowSound(row) && !IsActiveDone(row) && !Safe(row, p) && Normalize(Merged(row, p)).Some?
    ensures
      var d := Normalize(Merged(row, p)).value;
      !(d.isDone == Some(true) && d.isActive == Some(true))
  {}

  /** An unsafe update is accepted, unless the request is turned down for itself. */
  lemma UnsafeIsAccepted(rows: Statuses, id: Id, p: Patch)
    requires Inv(rows) && !Harmless(rows, id, p)
    ensures UpdateStatus(rows, id, p).outcome.Done?
  {
    FinishedIsActiveDone(rows, id);
    assert RowSound(rows[id]);
    UnsafeDraft(rows[id], p);
  }

  /** An update, whatever its outcome, keeps the invariant exactly when it is harmless. */
  lemma UpdateKeepsIff(rows: Statuses, id: Id, p: Patch)
    requires Inv(rows)
    ensures Inv(UpdateStatus(rows, id, p).rows) <==> Harmless(rows, id, p)
  {
    if UpdateStatus(rows, id, p).outcome.Done? {
      AcceptedKeepsIff(rows, id, p);
    } else if !Harmless(rows, id, p) {
      UnsafeIsAccepted(rows, id, p);
    }
  }

  // -------------------------------------------------------------------------
  // Runs
  // -------------------------------------------------------------------------

  datatype Step = Create(id: Id, dto: NewStatus) | Update(id: Id, patch: Patch) | Delete(id: Id, hasTasks: bool)

  function Next(rows: Statuses, step: Step): Statuses {
    match step
    case Create(id, dto) => CreateStatus(rows, id, dto).rows
    case Update(id, p) => UpdateStatus(rows, id, p).rows
    case Delete(id, hasTasks) => DeleteStatus(rows, id, hasTasks).rows
  }

  /** New rows get new ids; requests are arbitrary. */
  predicate IsRun(rows: Statuses, steps: seq<Step>)
    decreases |steps|
  {
    steps == [] || ((steps[0].Create? ==> steps[0].id !in rows) && IsRun(Next(rows, steps[0]), steps[1..]))
  }

  /** Every update is harmless for the rows it meets. */
  predicate AllHarmless(rows: Statuses, steps: seq<Step>)
    decreases |steps|
  {
    steps == []
    || ((steps[0].Update? ==> Harmless(rows, steps[0].id, steps[0].patch))
        && AllHarmless(Next(rows, steps[0]), steps[1..]))
  }

  /** The invariant holds before, between and after the steps. */
  ghost predicate Throughout(rows: Statuses, steps: seq<Step>)
    decreases |steps|
  {
    Inv(rows) && (steps == [] || Throughout(Next(rows, steps[0]), steps[1..]))
  }

  lemma StepKeepsIff(rows: Statuses, step: Step)
    requires Inv(rows) && (step.Create? ==> step.id !in rows)
    ensures Inv(Next(rows, step)) <==> (step.Update? ==> Harmless(rows, step.id, step.patch))
  {
    match step
    case Create(id, dto) => CreateKeeps(rows, id, dto);
    case Delete(id, hasTasks) => DeleteKeeps(rows, id, hasTasks);
    case Update(id, p) => UpdateKeepsIff(rows, id, p);
  }

  /** A run of any requests keeps the invariant at every point exactly when all its updates are harmless. */
  lemma {:induction false} RunKeepsIff(rows: Statuses, steps: seq<Step>)
    requires Inv(rows) && IsRun(rows, steps)
    ensures Throughout(rows, steps) <==> AllHarmless(rows, steps)
    decreases |steps|
  {
    if steps != [] {
      StepKeepsIff(rows, steps[0]);
      if Inv(Next(rows, steps[0])) {
        RunKeepsIff(Next(rows, steps[0]), steps[1..]);
      }
    }
  }

  /**
   The requests that neither name a category or the done flag nor activate a status, such as
   renaming and deactivating.
   */
  predicate Quiet(p: Patch) {
    !p.category.Given? && !p.isDone.Given? && p.isActive != Given(true)
  }

  lemma QuietIsSafe(row: Status, p: Patch)
    requires Quiet(p)
    ensures Safe(row, p)
  {}

  /**
   From the seeded statuses on, runs whose updates are plain objects or quiet requests keep the
   invariant throughout.
   */
  lemma {:induction false} OrdinaryRunsKeepInv(rows: Statuses, steps: seq<Step>)
    requires Inv(rows) && IsRun(rows, steps)
    requires forall i :: 0 <= i < |steps| && steps[i].Update? ==> Plain(steps[i].patch) || Quiet(steps[i].patch)
    ensures Throughout(rows, steps)
    decreases |steps|
  {
    if steps != [] {
      if steps[0].Update? && steps[0].id in rows {
        if Plain(steps[0].patch) {
          PlainIsSafe(rows[steps[0].id], steps[0].patch);
        } else {
          QuietIsSafe(rows[steps[0].id], steps[0].patch);
        }
      }
      StepKeepsIff(rows, steps[0]);
      OrdinaryRunsKeepInv(Next(rows, steps[0]), steps[1..]);
    }
  }

  // -------------------------------------------------------------------------
  // Requests as they arrive
  // -------------------------------------------------------------------------

  const NAMELESS := Patch(Undefined, Undefined, Undefined, Undefined, Undefined, Undefined, Undefined)

  /** A request that only sets the category of an active custom status to done leaves two active done statuses. */
  lemma TwoActiveDone(rows: Statuses, id: Id)
    requires Inv(rows) && id in rows && rows[id].stage.None? && rows[id].isActive
    ensures
      var reply := UpdateStatus(rows, id, NAMELESS.(category := Given(DoneWork)));
      reply.outcome == Done && |ActiveDone(reply.rows)| == 2
  {
    FinishedIsActiveDone(rows, id);
    var p := NAMELESS.(category := Given(DoneWork));
    MadeDone(rows[id]);
    assert UpdateStatus(rows, id, p).outcome == Done;
    ActiveDoneAdded(rows, id, Saved(rows[id], Normalize(Merged(rows[id], p)).value));
  }

  lemma MadeDone(row: Status)
    requires row.isActive
    ensures
      var d := Normalize(Merged(row, NAMELESS.(category := Given(DoneWork))));
      d.Some? && d.value.isActive.None? && IsActiveDone(Saved(row, d.value))
  {}

  lemma ActiveDoneAdded(rows: Statuses, id: Id, s: Status)
    requires id in rows && !IsActiveDone(rows[id]) && IsActiveDone(s)
    ensures |ActiveDone(rows[id := s])| == |ActiveDone(rows)| + 1
  {
    assert ActiveDone(rows[id := s]) == ActiveDone(rows) + {id};
    assert id !in ActiveDone(rows);
  }

  /** The seeded statuses have such a row. */
  lemma TwoActiveDoneReachable()
    ensures |ActiveDone(UpdateStatus(Seeded(0), 4, NAMELESS.(category := Given(DoneWork))).rows)| == 2
  {
    SeededInv(0);
    TwoActiveDone(Seeded(0), 4);
  }

  // -------------------------------------------------------------------------
  // Which updates are accepted
  // -------------------------------------------------------------------------

  /** The updated row would be done. */
  predicate WouldBeDone(row: Status, p: Patch) {
    Spread(row.category, p.category) == Some(DoneWork) || Spread(row.isDone, p.isDone) == Some(true)
  }

  /** The updated row would have a completion policy. */
  predicate WouldHavePolicy(row: Status, p: Patch) {
    ValueOr(Spread(row.policy, p.policy), NoPolicy) != NoPolicy
  }

  /**
   The request is granted. Canonical statuses keep their semantics, and the done one must moreover
   be sent again, or spared, what makes it done and active. A custom status must not become active
   and done, and only a done status can have a completion policy.
   */
  predicate Granted(row: Status, p: Patch) {
    && !Asks(p.isDone) && !Asks(p.isTerminal) && !Asks(p.isDefault)
    && match row.stage
       case Some(Finished) =>
         !ChangesSemantics(row, p) && (p.category != Undefined || p.isDone == Missing) && p.isActive != Undefined
       case Some(_) => !ChangesSemantics(row, p) && !WouldHavePolicy(row, p)
       case None =>
         if WouldBeDone(row, p) then Spread(row.isActive, p.isActive) != Some(true) else !WouldHavePolicy(row, p)
  }

  lemma DoneIsFinished(rows: Statuses, id: Id)
    requires Inv(rows) && id in rows
    ensures IsActiveDone(rows[id]) <==> rows[id].stage == Some(Finished)
  {
    assert RowSound(rows[id]);
    if rows[id].stage.None? {
      FinishedIsActiveDone(rows, id);
    }
  }

  lemma OtherActiveDone(rows: Statuses, id: Id)
    requires |ActiveDone(rows)| == 1 && id in rows
    ensures |ActiveDone(rows) - {id}| == if IsActiveDone(rows[id]) then 0 else 1
  {
    SetMinus(ActiveDone(rows), id);
  }

  /** What the guards look at in the normalised draft. */
  lemma GrantedDraft(row: Status, p: Patch)
    requires RowSound(row) && (IsActiveDone(row) <==> row.stage == Some(Finished))
    requires !Asks(p.isDone) && !Asks(p.isTerminal) && !Asks(p.isDefault)
    requires row.stage.Some? ==> !ChangesSemantics(row, p)
    ensures
      var d := Normalize(Merged(row, p));
      var done := d.Some? && d.value.isDone == Some(true) && d.value.isActive == Some(true);
      Granted(row, p) <==> d.Some? && (done <==> row.stage == Some(Finished))
  {}

  /** The updates that are accepted, for every row and every request. */
  lemma AcceptedIff(rows: Statuses, id: Id, p: Patch)
    requires Inv(rows)
    ensures UpdateStatus(rows, id, p).outcome.Done? <==> id in rows && Granted(rows[id], p)
  {
    if id in rows {
      assert RowSound(rows[id]);
      DoneIsFinished(rows, id);
      OtherActiveDone(rows, id);
      if !Asks(p.isDone) && !Asks(p.isTerminal) && !Asks(p.isDefault)
         && (rows[id].stage.Some? ==> !ChangesSemantics(rows[id], p))
      {
        GrantedDraft(rows[id], p);
      }
    }
  }

  /** A request that only renames a status is accepted, except for the done one. */
  lemma RenamedIff(rows: Statuses, id: Id, name: string)
    requires Inv(rows) && id in rows
    ensures UpdateStatus(rows, id, NAMELESS.(name := Given(name))).outcome.Done? <==> rows[id].stage != Some(Finished)
  {
    AcceptedIff(rows, id, NAMELESS.(name := Given(name)));
    RenameGranted(rows[id], name);
  }

  lemma RenameGranted(row: Status, name: string)
    ensures Granted(row, NAMELESS.(name := Given(name))) <==> row.stage != Some(Finished)
  {}

  /** It is then turned down for want of a done status. */
  lemma DoneCannotBeRenamed(rows: Statuses, id: Id, name: string)
    requires Inv(rows) && id in rows && rows[id].stage == Some(Finished)
    ensures UpdateStatus(rows, id, NAMELESS.(name := Given(name))) == Reply(rows, Rejected(DoneRequired))
  {
    DoneIsFinished(rows, id);
    OtherActiveDone(rows, id);
  }
}
