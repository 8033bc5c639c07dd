/**
 The task statuses of one project: five are seeded, four of them canonical, and custom ones can
 be created, changed and deleted under rules that are meant to keep exactly one active status
 that means done.
 */
module StatusConfig {
  import opened Options

  type Id = nat

  datatype Stage = Todo | InProgress | InReview | Finished

  datatype Category = NotStarted | Working | DoneWork | Cancelled | Blocked

  datatype Policy = NoPolicy | CompleteTaskOnly | CompleteOpenWorkItems | RequireAllWorkItemsDone

  datatype Status = Status(
    stage: Option<Stage>,
    name: string,
    key: string,
    category: Category,
    isDefault: bool,
    isTerminal: bool,
    isDone: bool,
    policy: Policy,
    isActive: bool)

  type Statuses = map<Id, Status>

  /** A partial status, as it is before saving: None stands for undefined. */
  datatype Draft = Draft(
    name: Option<string>,
    category: Option<Category>,
    isDefault: Option<bool>,
    isTerminal: Option<bool>,
    isDone: Option<bool>,
    policy: Option<Policy>,
    isActive: Option<bool>)

  /**
   A field of an update request: absent from the object, present but undefined, or given. Fields
   left out of a request body are present but undefined once the body has become an instance of
   its class, and absent in a plain object; spreading the object over a row tells them apart.
   */
  datatype Field<T> = Missing | Undefined | Given(value: T)

  datatype Patch = Patch(
    name: Field<string>,
    category: Field<Category>,
    isDefault: Field<bool>,
    isTerminal: Field<bool>,
    isDone: Field<bool>,
    policy: Field<Policy>,
    isActive: Field<bool>)

  datatype NewStatus = NewStatus(
    name: string,
    key: string,
    category: Option<Category>,
    isDefault: Option<bool>,
    isTerminal: Option<bool>,
    isDone: Option<bool>,
    policy: Option<Policy>)

  datatype Error =
    | KeyTaken | DonePolicyInvalid | DoneAlreadyExists | DoneRequired
    | StatusNotFound | MustBeActiveWork | SemanticsImmutable | CanonicalRequired | HasTasks

  datatype Outcome = Rejected(error: Error) | Done

  datatype Reply = Reply(rows: Statuses, outcome: Outcome)

  // -------------------------------------------------------------------------
  // Normalisation and guards
  // -------------------------------------------------------------------------

  function ValueOr<T>(o: Option<T>, default: T): T {
    match o case Some(v) => v case None => default
  }

  /** Done as a category and done as a flag go together; None when a policy is set on a status that is not done. */
  function Normalize(d: Draft): Option<Draft> {
    var isDone := if d.category == Some(DoneWork) then Some(true) else d.isDone;
    if isDone == Some(true) then
      Some(d.(isDone := isDone, category := Some(DoneWork), isTerminal := Some(true),
              policy := Some(ValueOr(d.policy, CompleteOpenWorkItems))))
    else if d.policy.Some? && d.policy != Some(NoPolicy) then None
    else Some(d)
  }

  predicate IsActiveDone(s: Status) {
    s.isDone && s.isActive
  }

  function ActiveDone(rows: Statuses): set<Id> {
    set k | k in rows && IsActiveDone(rows[k])
  }

  predicate KeyIsTaken(rows: Statuses, key: string) {
    exists k :: k in rows && rows[k].key == key
  }

  function Spread<T>(row: T, field: Field<T>): Option<T> {
    match field case Missing => Some(row) case Undefined => None case Given(v) => Some(v)
  }

  /** The patch spread over the row. */
  function Merged(row: Status, p: Patch): Draft {
    Draft(Spread(row.name, p.name), Spread(row.category, p.category), Spread(row.isDefault, p.isDefault),
          Spread(row.isTerminal, p.isTerminal), Spread(row.isDone, p.isDone), Spread(row.policy, p.policy),
          Spread(row.isActive, p.isActive))
  }

  /** The row saved from a draft: undefined columns are left as they are. */
  function Saved(row: Status, d: Draft): Status {
    row.(name := ValueOr(d.name, row.name), category := ValueOr(d.category, row.category),
         isDefault := ValueOr(d.isDefault, row.isDefault), isTerminal := ValueOr(d.isTerminal, row.isTerminal),
         isDone := ValueOr(d.isDone, row.isDone), policy := ValueOr(d.policy, row.policy),
         isActive := ValueOr(d.isActive, row.isActive))
  }

  predicate Differs<T(==)>(field: Field<T>, row: T) {
    field.Given? && field.value != row
  }

  predicate ChangesSemantics(row: Status, p: Patch) {
    Differs(p.category, row.category) || Differs(p.isDefault, row.isDefault) || Differs(p.isTerminal, row.isTerminal)
    || Differs(p.isDone, row.isDone) || Differs(p.policy, row.policy) || Differs(p.isActive, row.isActive)
  }

  predicate Asks(field: Field<bool>) {
    field == Given(true)
  }

  function WithoutDefault(rows: Statuses): (r: Statuses)
    ensures r.Keys == rows.Keys
  {
    map k | k in rows :: rows[k].(isDefault := false)
  }

  // -------------------------------------------------------------------------
  // Operations
  // -------------------------------------------------------------------------

  function Drafted(dto: NewStatus): Draft {
    Draft(Some(dto.name), Some(ValueOr(dto.category, Working)), Some(ValueOr(dto.isDefault, false)),
          Some(ValueOr(dto.isTerminal, false)), Some(ValueOr(dto.isDone, false)), Some(ValueOr(dto.policy, NoPolicy)),
          Some(true))
  }

  function Custom(key: string): Status {
    Status(None, "", key, Working, false, false, false, NoPolicy, true)
  }

  function CreateStatus(rows: Statuses, id: Id, dto: NewStatus): Reply {
    if KeyIsTaken(rows, dto.key) then Reply(rows, Rejected(KeyTaken))
    else if Normalize(Drafted(dto)).None? then Reply(rows, Rejected(DonePolicyInvalid))
    else
      var input := Normalize(Drafted(dto)).value;
      if input.isDone == Some(true) && ValueOr(input.isActive, true) && |ActiveDone(rows)| > 0
      then Reply(rows, Rejected(DoneAlreadyExists))
      else if !(input.isDone == Some(true) && ValueOr(input.isActive, true)) && |ActiveDone(rows)| == 0
      then Reply(rows, Rejected(DoneRequired))
      else
        var cleared := if input.isDefault == Some(true) then WithoutDefault(rows) else rows;
        Reply(cleared[id := Saved(Custom(dto.key), input)], Done)
  }

  function UpdateStatus(rows: Statuses, id: Id, p: Patch): Reply {
    if Asks(p.isDone) || Asks(p.isTerminal) || Asks(p.isDefault) then Reply(rows, Rejected(MustBeActiveWork))
    else if id !in rows then Reply(rows, Rejected(StatusNotFound))
    else if rows[id].stage.Some? && ChangesSemantics(rows[id], p) then Reply(rows, Rejected(SemanticsImmutable))
    else if Normalize(Merged(rows[id], p)).None? then Reply(rows, Rejected(DonePolicyInvalid))
    else
      var d := Normalize(Merged(rows[id], p)).value;
      var others := |ActiveDone(rows) - {id}|;
      if d.isDone == Some(true) && d.isActive == Some(true) && others > 0 then Reply(rows, Rejected(DoneAlreadyExists))
      else if !(d.isDone == Some(true) && d.isActive == Some(true)) && others == 0
      then Reply(rows, Rejected(DoneRequired))
      else Reply(rows[id := Saved(rows[id], d)], Done)
  }

  function DeleteStatus(rows: Statuses, id: Id, hasTasks: bool): Reply {
    if id !in rows then Reply(rows, Rejected(StatusNotFound))
    else if rows[id].stage.Some? then Reply(rows, Rejected(CanonicalRequired))
    else if hasTasks then Reply(rows, Rejected(HasTasks))
    else if IsActiveDone(rows[id]) && |ActiveDone(rows)| <= 1 then Reply(rows, Rejected(DoneRequired))
    else Reply(rows - {id}, Done)
  }

  /** The row a canonical stage is seeded with. */
  function Canonical(stage: Stage): Status {
    match stage
    case Todo => Status(Some(Todo), "To Do", "todo", NotStarted, true, false, false, NoPolicy, true)
    case InProgress =>
      Status(Some(InProgress), "In Progress", "in_progress", Working, false, false, false, NoPolicy, true)
    case InReview => Status(Some(InReview), "In Review", "in_review", Working, false, false, false, NoPolicy, true)
    case Finished => Status(Some(Finished), "Done", "done", DoneWork, false, true, true, NoPolicy, true)
  }

  /** The i-th status of a new project. */
  function SeedRow(i: int): Status {
    if i == 0 then Canonical(Todo)
    else if i == 1 then Canonical(InProgress)
    else if i == 2 then Canonical(InReview)
    else if i == 3 then Canonical(Finished)
    else Status(None, "Blocked", "blocked", Blocked, false, false, false, NoPolicy, true)
  }

  function SeedIds(first: Id): (ids: set<Id>)
    ensures forall k :: k in ids <==> first <= k < first + 5
  {
    {first, first + 1, first + 2, first + 3, first + 4}
  }

  function Seeded(first: Id): Statuses {
    map k | k in SeedIds(first) :: SeedRow(k - first)
  }
}
