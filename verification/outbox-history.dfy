/**
 Where what a row says comes from: which step of a run recorded, refused, published or requeued it,
 and which events the queue has.
 */
module OutboxHistory {
  import opened Options
  import opened Outbox
  import opened OutboxRuns

  // -------------------------------------------------------------------------
  // One step
  // -------------------------------------------------------------------------

  /** The step polls the event, and the queue answers so. */
  predicate Polls(step: Step, i: EventId, answer: Enqueue) {
    step.Flush? && i in step.round.batch && i in step.round.enqueue && step.round.enqueue[i] == answer
  }

  /** The requeue asks for this event: by listing it, by an empty list, or without a list. */
  predicate AsksFor(step: Step, i: EventId) {
    step.Requeue? && (step.ids.None? || step.ids.value == {} || i in step.ids.value)
  }

  /** A polled row that the queue took is published at the time of the flush, without an error message. */
  lemma TakenRow(s: State, step: Step, i: EventId)
    requires Enabled(s, step) && Polls(step, i, Accepted)
    ensures i in s.table && s.table[i].status == Pending
    ensures i in Next(s, step).table && i in Next(s, step).queue
    ensures
      var e, e' := s.table[i], Next(s, step).table[i];
      && e'.status == Published && e'.publishedAt == Some(step.round.now) && e'.errorMessage == None
      && e'.retryCount == e.retryCount && e'.createdAt == e.createdAt
  {}

  /** A polled row that the queue refused counts it and keeps the message; the fifth refusal fails it. */
  lemma RefusedRow(s: State, step: Step, i: EventId, message: string)
    requires Inv(s) && Enabled(s, step) && Polls(step, i, Threw(message))
    ensures i in s.table && s.table[i].status == Pending && i in Next(s, step).table
    ensures
      var e, e' := s.table[i], Next(s, step).table[i];
      && e'.retryCount == e.retryCount + 1 && e'.errorMessage == Some(message)
      && (e'.status == if e.retryCount == 4 then Failed else Pending)
      && e'.publishedAt == e.publishedAt && e'.createdAt == e.createdAt
  {
    assert RowSound(s.table[i], i in s.queue);
  }

  /** A failed row that is asked for starts again; other rows are left alone by a requeue. */
  lemma RequeuedRow(s: State, step: Step, i: EventId)
    requires Enabled(s, step) && step.Requeue? && i in s.table
    ensures i in Next(s, step).table
    ensures
      var e, e' := s.table[i], Next(s, step).table[i];
      if e.status == Failed && AsksFor(step, i) then
        && e'.status == Pending && e'.retryCount == 0 && e'.errorMessage == None
        && e'.publishedAt == e.publishedAt && e'.createdAt == e.createdAt
      else e' == e
  {}

  /** A recorded event is a pending row of that time, never tried. */
  lemma RecordedRow(s: State, step: Step)
    requires Enabled(s, step) && step.Record?
    ensures step.id in Next(s, step).table && step.id in Next(s, step).recorded
    ensures
      var e := Next(s, step).table[step.id];
      && e.createdAt == step.now && e.status == Pending && e.retryCount == 0
      && e.publishedAt == None && e.errorMessage == None
    ensures forall i :: i in s.table && i != step.id ==>
              i in Next(s, step).table && Next(s, step).table[i] == s.table[i]
  {}

  /** Nothing else changes a row: a row that is not polled, asked for or pruned stays as it is. */
  lemma UntouchedRow(s: State, step: Step, i: EventId)
    requires Enabled(s, step) && i in s.table && !(step.Record? && step.id == i)
    requires step.Flush? ==> i !in step.round.batch
    requires step.Requeue? ==> s.table[i].status != Failed || !AsksFor(step, i)
    requires step.Prune? ==> s.table[i].status != Published
    ensures i in Next(s, step).table && Next(s, step).table[i] == s.table[i]
  {}

  /** The queue has an event after a step if it had it before, or the step handed it over. */
  lemma QueuedByStep(s: State, step: Step, i: EventId)
    requires Enabled(s, step)
    ensures i in Next(s, step).queue <==> i in s.queue || HandsOver(step, i)
  {}

  /** The flush, complete or not, got as far as this event, and the queue took it. */
  predicate HandsOver(step: Step, i: EventId) {
    match step
    case Flush(r) => i in r.batch && i in r.enqueue && r.enqueue[i] == Accepted
    case CrashedFlush(r, upTo) =>
      upTo <= |r.batch| && i in r.batch[..upTo] && i in r.enqueue && r.enqueue[i] == Accepted
    case _ => false
  }

  // -------------------------------------------------------------------------
  // Runs
  // -------------------------------------------------------------------------

  /** Some flush of the run handed the event over, and no other: the row bears its time and no error message. */
  ghost predicate PublishedBy(steps: seq<Step>, i: EventId, e: Event) {
    exists k :: TakenOnlyBy(steps, i, k) && e.publishedAt == Some(steps[k].round.now) && e.errorMessage == None
  }

  ghost predicate TakenOnlyBy(steps: seq<Step>, i: EventId, k: int) {
    0 <= k < |steps| && forall j :: 0 <= j < |steps| ==> (Polls(steps[j], i, Accepted) <==> j == k)
  }

  ghost predicate NeverTaken(steps: seq<Step>, i: EventId) {
    forall j :: 0 <= j < |steps| ==> !Polls(steps[j], i, Accepted)
  }

  /** The row has never been tried since it was recorded or requeued, or bears the message of a refusal. */
  ghost predicate RefusedBy(steps: seq<Step>, i: EventId, e: Event) {
    && NeverTaken(steps, i) && e.publishedAt == None
    && if e.retryCount == 0 then e.errorMessage == None
       else e.errorMessage.Some?
            && exists k :: LastPoll(steps, i, k) && Polls(steps[k], i, Threw(e.errorMessage.value))
  }

  /** The k-th step is the last flush that polled the event. */
  ghost predicate LastPoll(steps: seq<Step>, i: EventId, k: int) {
    0 <= k < |steps| && forall j :: k < j < |steps| && steps[j].Flush? ==> i !in steps[j].round.batch
  }

  /** The run records the event at that time. */
  ghost predicate RecordedAt(steps: seq<Step>, i: EventId, now: int) {
    exists k :: 0 <= k < |steps| && steps[k] == Record(i, now)
  }

  /** Everything a row says comes from the steps of the run. */
  ghost predicate Told(steps: seq<Step>, i: EventId, e: Event) {
    && RecordedAt(steps, i, e.createdAt)
    && if e.status == Published then PublishedBy(steps, i, e) else RefusedBy(steps, i, e)
  }

  lemma RecordedStays(steps: seq<Step>, step: Step, i: EventId, now: int)
    requires RecordedAt(steps, i, now)
    ensures RecordedAt(steps + [step], i, now)
  {
    var k :| 0 <= k < |steps| && steps[k] == Record(i, now);
    assert (steps + [step])[k] == Record(i, now);
  }

  lemma PublishedStays(steps: seq<Step>, step: Step, i: EventId, e: Event)
    requires PublishedBy(steps, i, e) && (step.Flush? ==> i !in step.round.batch)
    ensures PublishedBy(steps + [step], i, e)
  {
    var k :| TakenOnlyBy(steps, i, k) && e.publishedAt == Some(steps[k].round.now);
    assert TakenOnlyBy(steps + [step], i, k);
  }

  lemma RefusedStays(steps: seq<Step>, step: Step, i: EventId, e: Event)
    requires RefusedBy(steps, i, e) && (step.Flush? ==> i !in step.round.batch)
    ensures RefusedBy(steps + [step], i, e)
  {
    if e.retryCount > 0 {
      var k :| LastPoll(steps, i, k) && Polls(steps[k], i, Threw(e.errorMessage.value));
      assert (steps + [step])[k] == steps[k];
      assert LastPoll(steps + [step], i, k);
    }
  }

  lemma StepTells(s: State, steps: seq<Step>, step: Step, i: EventId)
    requires Inv(s) && Enabled(s, step) && i in Next(s, step).table
    requires i in s.table ==> Told(steps, i, s.table[i])
    requires i !in s.recorded ==> NeverTaken(steps, i)
    ensures Told(steps + [step], i, Next(s, step).table[i])
  {
    var steps', n := steps + [step], |steps|;
    assert steps'[n] == step;
    if step.Record? && step.id == i {
      RecordedRow(s, step);
    } else {
      RecordedStays(steps, step, i, s.table[i].createdAt);
      if step.Flush? && i in step.round.batch {
        PolledTells(s, steps, step, i);
      } else if s.table[i].status == Published {
        PublishedStays(steps, step, i, s.table[i]);
      } else {
        RefusedStays(steps, step, i, s.table[i]);
      }
    }
  }

  lemma PolledTells(s: State, steps: seq<Step>, step: Step, i: EventId)
    requires Inv(s) && Enabled(s, step) && step.Flush? && i in step.round.batch && i in s.table
    requires Told(steps, i, s.table[i])
    ensures i in Next(s, step).table
    ensures
      var e := Next(s, step).table[i];
      if e.status == Published then PublishedBy(steps + [step], i, e) else RefusedBy(steps + [step], i, e)
    ensures Next(s, step).table[i].createdAt == s.table[i].createdAt
  {
    var steps', n := steps + [step], |steps|;
    assert steps'[n] == step;
    match step.round.enqueue[i]
    case Accepted =>
      TakenRow(s, step, i);
      assert TakenOnlyBy(steps', i, n);
    case Threw(message) =>
      RefusedRow(s, step, i, message);
      assert LastPoll(steps', i, n) && Polls(steps'[n], i, Threw(message));
  }

  ghost predicate AllTold(steps: seq<Step>, s: State) {
    && (forall i :: i in s.table ==> Told(steps, i, s.table[i]))
    && forall i :: i !in s.recorded ==> NeverTaken(steps, i)
  }

  lemma StepTellsAll(s: State, steps: seq<Step>, step: Step)
    requires Inv(s) && Enabled(s, step) && AllTold(steps, s)
    ensures AllTold(steps + [step], Next(s, step))
  {
    var next := Next(s, step);
    forall i | i in next.table ensures Told(steps + [step], i, next.table[i]) {
      StepTells(s, steps, step, i);
    }
    forall i | i !in next.recorded ensures NeverTaken(steps + [step], i) {
      assert NeverTaken(steps, i);
      assert step.Flush? ==> i !in step.round.batch;
    }
  }

  lemma {:induction false} RunTells(before: seq<Step>, s: State, steps: seq<Step>)
    requires Inv(s) && IsRun(s, steps) && AllTold(before, s)
    ensures AllTold(before + steps, After(s, steps))
    decreases |steps|
  {
    if steps == [] {
      assert before + steps == before;
    } else {
      var next := Next(s, steps[0]);
      StepTellsAll(s, before, steps[0]);
      StepKeepsInv(s, steps[0]);
      RunTells(before + [steps[0]], next, steps[1..]);
      assert before + [steps[0]] + steps[1..] == before + steps;
    }
  }

  /**
   Over every run, a row tells when its event was recorded. It is published exactly if a flush
   handed the event over, only one does, and the row bears the time of that flush and no error
   message; any other row has no such time, and the message of the last refusal, unless it was not
   tried since it was recorded or requeued.
   */
  lemma {:induction false} RowsTell(steps: seq<Step>, i: EventId)
    requires IsRun(EMPTY, steps) && i in After(EMPTY, steps).table
    ensures Told(steps, i, After(EMPTY, steps).table[i])
  {
    RunTells([], EMPTY, steps);
    assert [] + steps == steps;
  }

  /** Over every run, the queue has exactly the events that some flush handed over. */
  lemma {:induction false} QueueIff(s: State, steps: seq<Step>, i: EventId)
    requires IsRun(s, steps)
    ensures i in After(s, steps).queue <==> i in s.queue || exists k :: 0 <= k < |steps| && HandsOver(steps[k], i)
    decreases |steps|
  {
    if steps != [] {
      QueuedByStep(s, steps[0], i);
      QueueIff(Next(s, steps[0]), steps[1..], i);
      var tail := steps[1..];
      if k :| 0 <= k < |steps| && HandsOver(steps[k], i) {
        assert k == 0 || tail[k - 1] == steps[k];
      }
      if k :| 0 <= k < |tail| && HandsOver(tail[k], i) {
        assert steps[k + 1] == tail[k];
      }
    }
  }

  /** A flush of the run before that time took the event. */
  ghost predicate TakenBefore(steps: seq<Step>, i: EventId, cutoff: int) {
    exists k :: 0 <= k < |steps| && Polls(steps[k], i, Accepted) && steps[k].round.now < cutoff
  }

  /** Pruning deletes a row exactly if it was published by a flush before the cutoff, and touches no other. */
  lemma {:induction false} PruneIff(steps: seq<Step>, cutoff: int, i: EventId)
    requires IsRun(EMPTY, steps) && i in After(EMPTY, steps).table
    ensures
      var s := After(EMPTY, steps);
      var s' := Next(s, Prune(cutoff));
      if s.table[i].status == Published && TakenBefore(steps, i, cutoff) then i !in s'.table
      else i in s'.table && s'.table[i] == s.table[i]
  {
    RowsTell(steps, i);
    RunKeepsInv(EMPTY, steps);
    var e := After(EMPTY, steps).table[i];
    if e.status == Published {
      var k :| TakenOnlyBy(steps, i, k) && e.publishedAt == Some(steps[k].round.now);
      assert Polls(steps[k], i, Accepted);
    }
  }
}
