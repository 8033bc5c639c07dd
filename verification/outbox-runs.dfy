/**
 Runs of the outbox: any sequence of recording, flushing, crashing in the middle of a flush,
 pruning and requeueing. No recorded event is lost on the way.
 */
module OutboxRuns {
  import opened Options
  import opened Outbox

  /**
   The table and the queue, with two histories that no step looks at: the ids ever recorded,
   and the ids of rows deleted by pruning.
   */
  datatype State = State(table: Table, queue: set<EventId>, recorded: set<EventId>, pruned: set<EventId>)

  datatype Step =
    | Record(id: EventId, now: int)
    | Flush(round: Round)
    | CrashedFlush(round: Round, upTo: nat)
    | Prune(cutoff: int)
    | Requeue(ids: Option<set<EventId>>)

  const EMPTY := State(map[], {}, {}, {})

  predicate Enabled(s: State, step: Step) {
    match step
    case Record(id, _) => id !in s.recorded
    case Flush(r) => IsRound(s.table, r)
    case CrashedFlush(r, upTo) => IsRound(s.table, r) && upTo <= |r.batch|
    case Prune(_) => true
    case Requeue(_) => true
  }

  function Next(s: State, step: Step): State
    requires Enabled(s, step)
  {
    match step
    case Record(id, now) => s.(table := s.table[id := NewEvent(now)], recorded := s.recorded + {id})
    case Flush(r) => s.(table := Flushed(s.table, r), queue := s.queue + HandedOver(r.batch, r.enqueue))
    case CrashedFlush(r, upTo) => s.(queue := s.queue + HandedOver(r.batch[..upTo], r.enqueue))
    case Prune(cutoff) =>
      var kept := Pruned(s.table, cutoff);
      s.(table := kept, pruned := s.pruned + (s.table.Keys - kept.Keys))
    case Requeue(ids) => s.(table := Requeued(s.table, ids))
  }

  predicate IsRun(s: State, steps: seq<Step>)
    decreases |steps|
  {
    steps == [] || (Enabled(s, steps[0]) && IsRun(Next(s, steps[0]), steps[1..]))
  }

  function After(s: State, steps: seq<Step>): State
    requires IsRun(s, steps)
    decreases |steps|
  {
    if steps == [] then s else After(Next(s, steps[0]), steps[1..])
  }

  /** What is known of one row. */
  predicate RowSound(e: Event, handed: bool) {
    match e.status
    case Pending => e.retryCount < OUTBOX_MAX_RETRIES && e.publishedAt.None?
    case Failed => e.retryCount == OUTBOX_MAX_RETRIES && e.publishedAt.None?
    case Published => handed && e.publishedAt.Some?
  }

  /** Every recorded event is a sound row of the table or was pruned, and pruned events were handed over. */
  ghost predicate Inv(s: State) {
    && s.recorded == s.table.Keys + s.pruned && s.table.Keys !! s.pruned
    && s.pruned <= s.queue
    && forall i :: i in s.table ==> RowSound(s.table[i], i in s.queue)
  }

  lemma FlushKeepsRow(s: State, r: Round, i: EventId)
    requires Inv(s) && Answered(s.table, r) && i in s.table
    ensures RowSound(Flushed(s.table, r)[i], i in s.queue + HandedOver(r.batch, r.enqueue))
  {}

  lemma StepKeepsInv(s: State, step: Step)
    requires Inv(s) && Enabled(s, step)
    ensures Inv(Next(s, step))
  {
    match step
    case Flush(r) =>
      forall i | i in s.table ensures RowSound(Flushed(s.table, r)[i], i in Next(s, step).queue) {
        FlushKeepsRow(s, r, i);
      }
    case Prune(cutoff) =>
      var kept := Pruned(s.table, cutoff);
      forall i | i in s.table && i !in kept ensures i in s.queue {
        assert RowSound(s.table[i], i in s.queue);
      }
      assert kept.Keys + (s.table.Keys - kept.Keys) == s.table.Keys;
    case Requeue(ids) =>
    case Record(id, now) =>
    case CrashedFlush(r, upTo) =>
  }

  lemma {:induction false} RunKeepsInv(s: State, steps: seq<Step>)
    requires Inv(s) && IsRun(s, steps)
    ensures Inv(After(s, steps))
    decreases |steps|
  {
    if steps != [] {
      StepKeepsInv(s, steps[0]);
      RunKeepsInv(Next(s, steps[0]), steps[1..]);
    }
  }

  /** The ids recorded by the steps of a run. */
  function RecordedBy(steps: seq<Step>): set<EventId> {
    if steps == [] then {} else (if steps[0].Record? then {steps[0].id} else {}) + RecordedBy(steps[1..])
  }

  lemma {:induction false} RunRecords(s: State, steps: seq<Step>)
    requires IsRun(s, steps)
    ensures After(s, steps).recorded == s.recorded + RecordedBy(steps)
    decreases |steps|
  {
    if steps != [] {
      RunRecords(Next(s, steps[0]), steps[1..]);
    }
  }

  /**
   No loss, over every run from an empty outbox: a recorded event that is no longer in the
   table was handed to the queue; a published one was too; a pending one has retries left and
   a failed one has used exactly the maximum.
   */
  lemma {:induction false} NoLoss(steps: seq<Step>)
    requires IsRun(EMPTY, steps)
    ensures
      var s := After(EMPTY, steps);
      && (forall i :: i in RecordedBy(steps) && i !in s.table ==> i in s.queue)
      && (forall i :: i in s.table ==> i in RecordedBy(steps))
      && (forall i :: i in s.table && s.table[i].status == Published ==> i in s.queue)
      && (forall i :: i in s.table && s.table[i].status == Pending ==> s.table[i].retryCount < OUTBOX_MAX_RETRIES)
      && (forall i :: i in s.table && s.table[i].status == Failed ==> s.table[i].retryCount == OUTBOX_MAX_RETRIES)
  {
    RunKeepsInv(EMPTY, steps);
    RunRecords(EMPTY, steps);
    var s := After(EMPTY, steps);
    forall i | i in s.table ensures RowSound(s.table[i], i in s.queue) {}
  }

  /**
   Nothing is taken back from the queue, and a row leaves the table only by being pruned, published
   and past the cutoff.
   */
  lemma StepMoves(s: State, step: Step, i: EventId)
    requires Inv(s) && Enabled(s, step) && i in s.table
    ensures s.queue <= Next(s, step).queue
    ensures i !in Next(s, step).table ==>
              step.Prune? && s.table[i].status == Published && s.table[i].publishedAt.value < step.cutoff
    ensures i in Next(s, step).table ==>
              var e, e' := s.table[i], Next(s, step).table[i];
              && e'.createdAt == e.createdAt
              && (e.status == Published ==> e' == e)
              && (e.status == Failed && e' != e ==> step.Requeue? && e'.status == Pending && e'.retryCount == 0)
              && (e.status == Pending && e' != e ==> step.Flush? && i in step.round.batch)
  {}
}
