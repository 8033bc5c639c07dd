/**
 The status service over a mutable table of rows. Creating and deleting keep the invariant of the
 table; an update keeps it exactly when it is harmless.
 */
module StatusService {
  import opened Options
  import opened S = StatusConfig
  import opened StatusResults

  /** Assign the fields of a local copy step by step; None when the input is turned down. */
  method NormalizeStatusSemantics(input: Draft) returns (r: Option<Draft>)
    ensures r == Normalize(input)
  {
    var normalized := input;
    if normalized.category == Some(DoneWork) {
      normalized := normalized.(isDone := Some(true));
    }
    if normalized.isDone == Some(true) {
      normalized := normalized.(category := Some(DoneWork));
      normalized := normalized.(isTerminal := Some(true));
      if normalized.policy.None? {
        normalized := normalized.(policy := Some(CompleteOpenWorkItems));
      }
    }
    if normalized.isDone != Some(true) && normalized.policy.Some? && normalized.policy != Some(NoPolicy) {
      return None;
    }
    return Some(normalized);
  }

  lemma CreatedKeys(rows: Statuses, id: Id, dto: NewStatus)
    ensures
      var reply := S.CreateStatus(rows, id, dto);
      reply.rows.Keys == if reply.outcome.Done? then rows.Keys + {id} else rows.Keys
  {}

  class ProjectConfigService {
    var statuses: Statuses
    var supply: Id

    /** One active done status, the canonical stages, one default at most; and unused numbers above the rows'. */
    ghost predicate Valid()
      reads this
    {
      Inv(statuses) && IdsBelow()
    }

    ghost predicate IdsBelow()
      reads this
    {
      forall k :: k in statuses ==> k < supply
    }

    /** Seed the defaults of a new project. */
    constructor ()
      ensures statuses == Seeded(0) && Valid()
    {
      statuses, supply := Seeded(0), 5;
      new;
      SeededInv(0);
    }

    function CountActiveDone(exclude: set<Id>): nat
      reads this
    {
      |ActiveDone(statuses) - exclude|
    }

    /** A second active done status is refused, and so is anything while there is none. */
    method AssertCanCreateStatus(status: Draft) returns (refusal: Option<Error>)
      ensures refusal ==
              var done := status.isDone == Some(true) && ValueOr(status.isActive, true);
              if done && |ActiveDone(statuses)| > 0 then Some(DoneAlreadyExists)
              else if !done && |ActiveDone(statuses)| == 0 then Some(DoneRequired)
              else None
    {
      var willBeActive := ValueOr(status.isActive, true);
      assert ActiveDone(statuses) - {} == ActiveDone(statuses);
      var activeDoneCount := CountActiveDone({});
      refusal := None;
      if status.isDone == Some(true) && willBeActive {
        if activeDoneCount > 0 {
          refusal := Some(DoneAlreadyExists);
        }
      } else if activeDoneCount == 0 {
        refusal := Some(DoneRequired);
      }
    }

    method CreateStatus(dto: NewStatus) returns (outcome: Outcome)
      requires Valid()
      modifies this
      ensures Reply(statuses, outcome) == S.CreateStatus(old(statuses), old(supply), dto) && Valid()
    {
      CreateKeeps(statuses, supply, dto);
      CreatedKeys(statuses, supply, dto);
      outcome := AddStatus(dto);
    }

    method AddStatus(dto: NewStatus) returns (outcome: Outcome)
      modifies this
      ensures Reply(statuses, outcome) == S.CreateStatus(old(statuses), old(supply), dto)
      ensures supply == old(supply) + if outcome.Done? then 1 else 0
    {
      if exists k :: k in statuses && statuses[k].key == dto.key {
        return Rejected(KeyTaken);
      }
      var input := NormalizeStatusSemantics(Drafted(dto));
      if input.None? {
        return Rejected(DonePolicyInvalid);
      }
      var status := input.value;
      var refusal := AssertCanCreateStatus(status);
      if refusal.Some? {
        return Rejected(refusal.value);
      }
      if status.isDefault == Some(true) {
        ClearDefaults();
      }
      Insert(Saved(Custom(dto.key), status));
      outcome := Done;
    }

    method ClearDefaults()
      modifies this`statuses
      ensures statuses == WithoutDefault(old(statuses))
    {
      statuses := map k | k in statuses :: statuses[k].(isDefault := false);
    }

    method Insert(status: Status)
      modifies this`statuses, this`supply
      ensures statuses == old(statuses)[old(supply) := status] && supply == old(supply) + 1
    {
      statuses := statuses[supply := status];
      supply := supply + 1;
    }

    method AssertCanUpdateStatus(id: Id, status: Draft) returns (refusal: Option<Error>)
      ensures refusal ==
              var done := status.isDone == Some(true) && status.isActive == Some(true);
              if done && |ActiveDone(statuses) - {id}| > 0 then Some(DoneAlreadyExists)
              else if !done && |ActiveDone(statuses) - {id}| == 0 then Some(DoneRequired)
              else None
    {
      var activeDoneCount := CountActiveDone({id});
      refusal := None;
      if status.isDone == Some(true) && status.isActive == Some(true) {
        if activeDoneCount > 0 {
          refusal := Some(DoneAlreadyExists);
        }
      } else if activeDoneCount == 0 {
        refusal := Some(DoneRequired);
      }
    }

    method UpdateStatus(id: Id, p: Patch) returns (outcome: Outcome)
      requires Valid()
      modifies this`statuses
      ensures Reply(statuses, outcome) == S.UpdateStatus(old(statuses), id, p) && IdsBelow()
      ensures Valid() <==> Harmless(old(statuses), id, p)
    {
      UpdateKeepsIff(statuses, id, p);
      if p.isDone == Given(true) || p.isTerminal == Given(true) || p.isDefault == Given(true) {
        return Rejected(MustBeActiveWork);
      }
      if id !in statuses {
        return Rejected(StatusNotFound);
      }
      var row := statuses[id];
      if row.stage.Some? && ChangesSemantics(row, p) {
        return Rejected(SemanticsImmutable);
      }
      var normalized := NormalizeStatusSemantics(Merged(row, p));
      if normalized.None? {
        return Rejected(DonePolicyInvalid);
      }
      var draft := normalized.value;
      var refusal := AssertCanUpdateStatus(id, draft);
      if refusal.Some? {
        return Rejected(refusal.value);
      }
      statuses := statuses[id := Saved(row, draft)];
      outcome := Done;
    }

    method DeleteStatus(id: Id, hasTasks: bool) returns (outcome: Outcome)
      requires Valid()
      modifies this`statuses
      ensures Reply(statuses, outcome) == S.DeleteStatus(old(statuses), id, hasTasks) && Valid()
    {
      DeleteKeeps(statuses, id, hasTasks);
      if id !in statuses {
        return Rejected(StatusNotFound);
      }
      var row := statuses[id];
      if row.stage.Some? {
        return Rejected(CanonicalRequired);
      }
      if hasTasks {
        return Rejected(HasTasks);
      }
      if row.isDone && row.isActive {
        assert ActiveDone(statuses) - {} == ActiveDone(statuses);
        var activeDoneCount := CountActiveDone({});
        if activeDoneCount <= 1 {
          return Rejected(DoneRequired);
        }
      }
      statuses := statuses - {id};
      outcome := Done;
    }
  }
}
