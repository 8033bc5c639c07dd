/**
 The transactional outbox: event rows waiting to be handed to a queue, polled in batches,
 retried a bounded number of times, pruned after publication and requeued by hand.
 */
module Outbox {
  import opened Options

  const OUTBOX_BATCH_SIZE := 50
  const OUTBOX_MAX_RETRIES := 5

  type EventId = nat

  datatype Status = Pending | Published | Failed

  datatype Event = Event(
    createdAt: int,
    status: Status,
    retryCount: nat,
    publishedAt: Option<int>,
    errorMessage: Option<string>)

  /** The event table, by primary key. */
  type Table = map<EventId, Event>

  /** What the queue does when asked to add an event. */
  datatype Enqueue = Accepted | Threw(message: string)

  function ByStatus(t: Table, status: Status): set<EventId> {
    set i | i in t && t[i].status == status
  }

  function NewEvent(createdAt: int): Event {
    Event(createdAt, Pending, 0, None, None)
  }

  function Elements<T>(s: seq<T>): set<T> {
    set x | x in s
  }

  predicate Distinct<T(==)>(s: seq<T>) {
    forall i, j :: 0 <= i < j < |s| ==> s[i] != s[j]
  }

  /**
   A possible answer to the poll: pending events, oldest first, as many as there are up to the
   batch size, and none left out that is older than one taken. Events created at the same
   time may come in any order.
   */
  predicate IsPoll(t: Table, batch: seq<EventId>) {
    && Distinct(batch) && Taken(t, batch)
    && |batch| == (if |ByStatus(t, Pending)| < OUTBOX_BATCH_SIZE then |ByStatus(t, Pending)| else OUTBOX_BATCH_SIZE)
    && (forall i, j :: 0 <= i < j < |batch| ==> t[batch[i]].createdAt <= t[batch[j]].createdAt)
    && forall e, b :: e in ByStatus(t, Pending) && e !in batch && b in batch ==> t[b].createdAt <= t[e].createdAt
  }

  predicate Taken(t: Table, batch: seq<EventId>) {
    forall i :: i in batch ==> i in t && t[i].status == Pending
  }

  /** One round of the poll: the rows polled, what the queue answered for each, and the time. */
  datatype Round = Round(batch: seq<EventId>, enqueue: map<EventId, Enqueue>, now: int)

  predicate IsRound(t: Table, r: Round) {
    IsPoll(t, r.batch) && Answered(t, r)
  }

  predicate Answered(t: Table, r: Round) {
    Distinct(r.batch) && Taken(t, r.batch) && forall i :: i in r.batch ==> i in r.enqueue
  }

  /** The row after an attempt to hand it over. */
  function Attempted(e: Event, answer: Enqueue, now: int): Event {
    match answer
    case Accepted => e.(status := Published, publishedAt := Some(now), errorMessage := None)
    case Threw(message) =>
      var tried := e.(retryCount := e.retryCount + 1, errorMessage := Some(message));
      if tried.retryCount >= OUTBOX_MAX_RETRIES then tried.(status := Failed) else tried
  }

  /** The table after a round: each polled row attempted, every other row as it was. */
  function Flushed(t: Table, r: Round): (t': Table)
    requires Answered(t, r)
    ensures t'.Keys == t.Keys
  {
    map i | i in t :: if i in r.batch then Attempted(t[i], r.enqueue[i], r.now) else t[i]
  }

  /** The polled events the queue took. */
  function HandedOver(batch: seq<EventId>, enqueue: map<EventId, Enqueue>): set<EventId> {
    set i | i in batch && i in enqueue && enqueue[i].Accepted?
  }

  /** The polled events that failed for the last time. */
  function GivenUp(t: Table, batch: seq<EventId>, enqueue: map<EventId, Enqueue>): set<EventId> {
    set i | i in batch && i in t && i in enqueue && enqueue[i].Threw? && t[i].retryCount + 1 >= OUTBOX_MAX_RETRIES
  }

  // -------------------------------------------------------------------------
  // The service
  // -------------------------------------------------------------------------

  /** The loaded rows after the first k have been attempted. */
  ghost predicate InMemory(t: Table, r: Round, k: nat, events: map<EventId, Event>)
    requires Answered(t, r) && k <= |r.batch|
  {
    && (forall i :: i in events <==> i in r.batch)
    && forall i :: i in r.batch ==>
         events[i] == if i in r.batch[..k] then Attempted(t[i], r.enqueue[i], r.now) else t[i]
  }

  /** The queue and the counters after the first k rows have been attempted. */
  ghost predicate Tally(t: Table, r: Round, k: nat, added: set<EventId>, published: nat, failed: nat)
    requires k <= |r.batch|
  {
    && added == HandedOver(r.batch[..k], r.enqueue)
    && published == |HandedOver(r.batch[..k], r.enqueue)|
    && failed == |GivenUp(t, r.batch[..k], r.enqueue)|
  }

  lemma InMemoryStep(t: Table, r: Round, k: nat, events: map<EventId, Event>)
    requires Answered(t, r) && k < |r.batch| && InMemory(t, r, k, events)
    ensures
      var id := r.batch[k];
      && id in r.batch && id in t && id in r.enqueue && id in events && events[id] == t[id]
      && InMemory(t, r, k + 1, events[id := Attempted(t[id], r.enqueue[id], r.now)])
  {}

  lemma TallyStep(t: Table, r: Round, k: nat, added: set<EventId>, published: nat, failed: nat)
    requires Answered(t, r) && k < |r.batch| && Tally(t, r, k, added, published, failed)
    ensures
      var id := r.batch[k];
      && id in t && id in r.enqueue
      && Tally(t, r, k + 1,
           added + (if r.enqueue[id].Accepted? then {id} else {}),
           published + (if r.enqueue[id].Accepted? then 1 else 0),
           failed + (if r.enqueue[id].Threw? && t[id].retryCount + 1 >= OUTBOX_MAX_RETRIES then 1 else 0))
  {
    PrefixSets(t, r, k);
  }

  class OutboxService {
    var table: Table
    var queue: set<EventId>      // ids of the jobs ever added to the domain-events queue

    constructor ()
      ensures table == map[] && queue == {}
    {
      table, queue := map[], {};
    }

    /** Write a new event row; the id is fresh. */
    method Record(id: EventId, now: int)
      requires id !in table
      modifies this`table
      ensures table == old(table)[id := NewEvent(now)]
    {
      table := table[id := Event(now, Pending, 0, None, None)];
    }

    /** Hand one event to the queue; true when the queue took it. */
    method Add(id: EventId, answer: Enqueue) returns (ok: bool)
      modifies this`queue
      ensures ok == answer.Accepted?
      ensures queue == if answer.Accepted? then old(queue) + {id} else old(queue)
    {
      ok := answer.Accepted?;
      if ok {
        queue := queue + {id};
      }
    }

    /** The try/catch around one event: the row comes back changed in memory. */
    method AttemptOne(id: EventId, row: Event, answer: Enqueue, now: int)
      returns (event: Event, sent: bool, dropped: bool)
      modifies this`queue
      ensures event == Attempted(row, answer, now)
      ensures sent == answer.Accepted? && dropped == (answer.Threw? && row.retryCount + 1 >= OUTBOX_MAX_RETRIES)
      ensures queue == old(queue) + if answer.Accepted? then {id} else {}
    {
      event, dropped := row, false;
      sent := Add(id, answer);
      if sent {
        event := event.(status := Published, publishedAt := Some(now), errorMessage := None);
      } else {
        event := event.(retryCount := event.retryCount + 1, errorMessage := Some(answer.message));
        if event.retryCount >= OUTBOX_MAX_RETRIES {
          event := event.(status := Failed);
          dropped := true;
        }
      }
    }

    /**
     The loop over the polled events, in memory: rows change in `events` only. It stops after
     `upTo` events, all of them unless the process crashes.
     */
    method Attempt(r: Round, upTo: nat) returns (events: map<EventId, Event>, published: nat, failed: nat)
      requires Answered(table, r) && upTo <= |r.batch|
      modifies this`queue
      ensures queue == old(queue) + HandedOver(r.batch[..upTo], r.enqueue)
      ensures forall i :: i in events <==> i in r.batch
      ensures forall i :: i in r.batch[..upTo] ==> events[i] == Attempted(table[i], r.enqueue[i], r.now)
      ensures published == |HandedOver(r.batch[..upTo], r.enqueue)|
      ensures failed == |GivenUp(table, r.batch[..upTo], r.enqueue)|
    {
      events := map i | i in r.batch :: table[i];
      published, failed := 0, 0;
      ghost var added: set<EventId> := {};
      for k := 0 to upTo
        invariant queue == old(queue) + added
        invariant InMemory(table, r, k, events)
        invariant Tally(table, r, k, added, published, failed)
      {
        var id := r.batch[k];
        InMemoryStep(table, r, k, events);
        TallyStep(table, r, k, added, published, failed);
        var event, sent, dropped := AttemptOne(id, events[id], r.enqueue[id], r.now);
        UnionAssociative(old(queue), added, if r.enqueue[id].Accepted? then {id} else {});
        added := added + if r.enqueue[id].Accepted? then {id} else {};
        if sent { published := published + 1; }
        if dropped { failed := failed + 1; }
        events := events[id := event];
      }
    }

    /** Write loaded rows back by primary key. */
    method Save(events: map<EventId, Event>)
      requires events.Keys <= table.Keys
      modifies this`table
      ensures table == map i | i in old(table) :: if i in events then events[i] else old(table)[i]
    {
      table := map i | i in table :: if i in events then events[i] else table[i];
    }

    /** One complete flush; its results count the rows turned published and failed. */
    method Flush(r: Round) returns (published: nat, failed: nat)
      requires IsRound(table, r)
      modifies this
      ensures table == Flushed(old(table), r) && queue == old(queue) + HandedOver(r.batch, r.enqueue)
      ensures |ByStatus(table, Published)| == |ByStatus(old(table), Published)| + published
      ensures |ByStatus(table, Failed)| == |ByStatus(old(table), Failed)| + failed
      ensures |ByStatus(table, Pending)| == |ByStatus(old(table), Pending)| - published - failed
    {
      FlushMoves(table, r);
      if |r.batch| == 0 {
        assert r.batch == [];
        return 0, 0;
      }
      var events;
      assert r.batch[..|r.batch|] == r.batch;
      events, published, failed := Attempt(r, |r.batch|);
      SavedIsFlushed(table, r, events);
      Save(events);
    }

    /** A flush that dies after handing over the first `upTo` events: nothing is saved. */
    method CrashedFlush(r: Round, upTo: nat)
      requires IsRound(table, r) && upTo <= |r.batch|
      modifies this
      ensures table == old(table) && queue == old(queue) + HandedOver(r.batch[..upTo], r.enqueue)
    {
      var events, published, failed := Attempt(r, upTo);
    }

    /** Delete events published before the cutoff. */
    method PrunePublished(cutoff: int) returns (affected: nat)
      modifies this`table
      ensures table == Pruned(old(table), cutoff)
      ensures affected == |old(table)| - |table|
    {
      var doomed := set i | i in table && table[i].status == Published && table[i].publishedAt.Some?
          && table[i].publishedAt.value < cutoff;
      table := table - doomed;
      affected := |doomed|;
      assert old(table).Keys == table.Keys + doomed;
      assert |old(table).Keys| == |table.Keys| + |doomed|;
    }

    /** Put failed events back to pending: those listed, or all of them when no list or an empty one is given. */
    method RequeueFailed(ids: Option<set<EventId>>) returns (affected: nat)
      modifies this`table
      ensures table == Requeued(old(table), ids)
      ensures affected == |ByStatus(table, Pending)| - |ByStatus(old(table), Pending)|
    {
      var chosen := set i | i in table && table[i].status == Failed && (ids.None? || ids.value == {} || i in ids.value);
      table := map i | i in table ::
        if i in chosen then table[i].(status := Pending, retryCount := 0, errorMessage := None) else table[i];
      affected := |chosen|;
      assert ByStatus(table, Pending) == ByStatus(old(table), Pending) + chosen;
      assert |ByStatus(old(table), Pending) + chosen| == |ByStatus(old(table), Pending)| + |chosen|;
    }
  }

  function Pruned(t: Table, cutoff: int): Table {
    map i | i in t && !(t[i].status == Published && t[i].publishedAt.Some? && t[i].publishedAt.value < cutoff) :: t[i]
  }

  function Requeued(t: Table, ids: Option<set<EventId>>): (t': Table)
    ensures t'.Keys == t.Keys
  {
    map i | i in t ::
      if t[i].status == Failed && (ids.None? || ids.value == {} || i in ids.value)
      then t[i].(status := Pending, retryCount := 0, errorMessage := None)
      else t[i]
  }

  lemma UnionAssociative<T>(a: set<T>, b: set<T>, c: set<T>)
    ensures a + (b + c) == (a + b) + c
  {}

  /** Attempting one more event of the batch adds it to exactly one of the two outcome sets, or to neither. */
  lemma PrefixSets(t: Table, r: Round, k: nat)
    requires Answered(t, r) && k < |r.batch|
    ensures
      var id, before, after := r.batch[k], r.batch[..k], r.batch[..k + 1];
      && id !in before && (forall i :: i in after <==> i in before || i == id) && id in t && t[id].status == Pending
         && id in r.enqueue
      && HandedOver(after, r.enqueue) == HandedOver(before, r.enqueue) + (if r.enqueue[id].Accepted? then {id} else {})
      && GivenUp(t, after, r.enqueue) == GivenUp(t, before, r.enqueue) +
         (if r.enqueue[id].Threw? && t[id].retryCount + 1 >= OUTBOX_MAX_RETRIES then {id} else {})
  {}

  lemma MovesToPublished(t: Table, r: Round)
    requires Answered(t, r)
    ensures ByStatus(Flushed(t, r), Published) == ByStatus(t, Published) + HandedOver(r.batch, r.enqueue)
    ensures ByStatus(t, Published) !! HandedOver(r.batch, r.enqueue)
  {}

  lemma MovesToFailed(t: Table, r: Round)
    requires Answered(t, r)
    ensures ByStatus(Flushed(t, r), Failed) == ByStatus(t, Failed) + GivenUp(t, r.batch, r.enqueue)
    ensures ByStatus(t, Failed) !! GivenUp(t, r.batch, r.enqueue)
  {}

  lemma LeavesPending(t: Table, r: Round)
    requires Answered(t, r)
    ensures ByStatus(Flushed(t, r), Pending) ==
            ByStatus(t, Pending) - (HandedOver(r.batch, r.enqueue) + GivenUp(t, r.batch, r.enqueue))
    ensures HandedOver(r.batch, r.enqueue) + GivenUp(t, r.batch, r.enqueue) <= ByStatus(t, Pending)
    ensures HandedOver(r.batch, r.enqueue) !! GivenUp(t, r.batch, r.enqueue)
  {}

  lemma MovedSizes<T>(from: set<T>, to: set<T>, to': set<T>, moved: set<T>, moved': set<T>)
    requires to !! moved && to' !! moved' && moved + moved' <= from && moved !! moved'
    ensures |to + moved| == |to| + |moved| && |to' + moved'| == |to'| + |moved'|
    ensures |from - (moved + moved')| == |from| - |moved| - |moved'|
  {}

  /** A round moves exactly the events handed over to published and those given up to failed. */
  lemma FlushMoves(t: Table, r: Round)
    requires Answered(t, r)
    ensures |ByStatus(Flushed(t, r), Published)| == |ByStatus(t, Published)| + |HandedOver(r.batch, r.enqueue)|
    ensures |ByStatus(Flushed(t, r), Failed)| == |ByStatus(t, Failed)| + |GivenUp(t, r.batch, r.enqueue)|
    ensures |ByStatus(Flushed(t, r), Pending)| ==
            |ByStatus(t, Pending)| - |HandedOver(r.batch, r.enqueue)| - |GivenUp(t, r.batch, r.enqueue)|
  {
    MovesToPublished(t, r);
    MovesToFailed(t, r);
    LeavesPending(t, r);
    MovedSizes(ByStatus(t, Pending), ByStatus(t, Published), ByStatus(t, Failed),
               HandedOver(r.batch, r.enqueue), GivenUp(t, r.batch, r.enqueue));
  }

  lemma SavedIsFlushed(t: Table, r: Round, events: map<EventId, Event>)
    requires Answered(t, r) && forall i :: i in events <==> i in r.batch
    requires forall i :: i in r.batch ==> events[i] == Attempted(t[i], r.enqueue[i], r.now)
    ensures (map i | i in t :: if i in events then events[i] else t[i]) == Flushed(t, r)
  {}
}
