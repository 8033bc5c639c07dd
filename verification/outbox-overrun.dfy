/**
 How long the poll can pass an event over when others share its creation time: exactly as long as
 their attempts fill whole batches. From this follows which backlogs five flushes per batch always
 empty, and a run of the outbox that shows the others are not.
 */
module OutboxOverrun {
  import opened Arithmetic
  import opened Outbox
  import opened OutboxDrain
  import Runs = OutboxRuns

  /** The round in which the queue refuses the whole batch. */
  function Refused(batch: seq<EventId>): Round {
    Round(batch, map i | i in batch :: Threw(""), 0)
  }

  // -------------------------------------------------------------------------
  // Choosing batches
  // -------------------------------------------------------------------------

  lemma {:induction false} SomeOf(s: set<EventId>, n: nat) returns (picked: seq<EventId>)
    requires n <= |s|
    ensures Distinct(picked) && |picked| == n && forall i :: i in picked ==> i in s
    decreases n
  {
    if n == 0 {
      return [];
    }
    var x :| x in s;
    var rest := SomeOf(s - {x}, n - 1);
    picked := [x] + rest;
  }

  /** A full batch that takes events from a chosen set as far as it goes. */
  lemma BatchFrom(chosen: set<EventId>, all: set<EventId>) returns (batch: seq<EventId>)
    requires chosen <= all && |all| >= OUTBOX_BATCH_SIZE
    ensures Distinct(batch) && |batch| == OUTBOX_BATCH_SIZE && Elements(batch) <= all
    ensures Elements(batch) <= chosen || chosen <= Elements(batch)
  {
    if |chosen| >= OUTBOX_BATCH_SIZE {
      batch := SomeOf(chosen, OUTBOX_BATCH_SIZE);
    } else {
      var first := SomeOf(chosen, |chosen|);
      ElementsCount(first);
      SubsetCount(Elements(first), chosen);
      var second := SomeOf(all - chosen, OUTBOX_BATCH_SIZE - |chosen|);
      batch := first + second;
      JoinDistinct(first, second);
      assert forall i :: i in first ==> i in Elements(first);
    }
  }

  lemma JoinDistinct<T>(a: seq<T>, b: seq<T>)
    requires Distinct(a) && Distinct(b) && forall x :: x in a ==> x !in b
    ensures Distinct(a + b)
  {
    forall i, j | 0 <= i < j < |a| + |b| ensures (a + b)[i] != (a + b)[j] {
      if i < |a| <= j {
        assert a[i] in a && b[j - |a|] in b;
      }
    }
  }

  lemma {:induction false} Earliest(t: Table, s: set<EventId>) returns (x: EventId)
    requires s != {} && s <= t.Keys
    ensures x in s && forall i :: i in s ==> t[x].createdAt <= t[i].createdAt
    decreases |s|
  {
    x :| x in s;
    if s != {x} {
      var y := Earliest(t, s - {x});
      if t[y].createdAt < t[x].createdAt {
        x := y;
      }
    }
  }

  /** The n oldest of some events, oldest first. */
  lemma {:induction false} OldestOf(t: Table, s: set<EventId>, n: nat) returns (picked: seq<EventId>)
    requires n <= |s| && s <= t.Keys
    ensures Distinct(picked) && |picked| == n && forall i :: i in picked ==> i in s
    ensures forall i, j :: 0 <= i < j < |picked| ==> t[picked[i]].createdAt <= t[picked[j]].createdAt
    ensures forall e, b :: e in s && e !in picked && b in picked ==> t[b].createdAt <= t[e].createdAt
    decreases n
  {
    if n == 0 {
      return [];
    }
    var x := Earliest(t, s);
    var rest := OldestOf(t, s - {x}, n - 1);
    picked := [x] + rest;
  }

  /** Whatever the table, there is a poll, and the queue may refuse all of it. */
  lemma SomeRound(t: Table) returns (r: Round)
    ensures IsRound(t, r) && r == Refused(r.batch)
  {
    var b := Backlog(t);
    var batch := OldestOf(t, b, if |b| < OUTBOX_BATCH_SIZE then |b| else OUTBOX_BATCH_SIZE);
    r := Refused(batch);
  }

  /** No pending event is older than x. */
  ghost predicate NoneOlder(t: Table, x: EventId)
    requires x in t
  {
    forall i :: i in Backlog(t) ==> t[x].createdAt <= t[i].createdAt
  }

  /** Among the oldest events any full batch may be polled. */
  lemma AnyRivals(t: Table, x: EventId, batch: seq<EventId>)
    requires x in Backlog(t) && NoneOlder(t, x)
    requires Distinct(batch) && |batch| == OUTBOX_BATCH_SIZE && Elements(batch) <= Rivals(t, x)
    ensures IsRound(t, Refused(batch)) && x !in batch
  {
    ElementsCount(batch);
    SubsetCount(Elements(batch), Backlog(t));
    forall i | i in batch ensures i in Rivals(t, x) {
      assert i in Elements(batch);
    }
  }

  // -------------------------------------------------------------------------
  // Holding an event back
  // -------------------------------------------------------------------------

  /** The rivals of x with at least k attempts left. */
  function Fresh(t: Table, x: EventId, k: nat): set<EventId>
    requires x in t
  {
    set i | i in Rivals(t, x) && t[i].retryCount + k <= OUTBOX_MAX_RETRIES
  }

  /** A batch of events with k attempts left leaves them with k - 1 each. */
  lemma FreshBatch(t: Table, x: EventId, k: nat, batch: seq<EventId>)
    requires x in t && IsRound(t, Refused(batch)) && |batch| == OUTBOX_BATCH_SIZE && k > 0
    requires Elements(batch) <= Fresh(t, x, k)
    ensures CanFill(Flushed(t, Refused(batch)), x, k - 1)
  {
    var t' := Flushed(t, Refused(batch));
    ElementsCount(batch);
    PairsCount(Elements(batch), k - 1);
    assert Pairs(Elements(batch), k - 1) <= Attempts(t', x, k - 1) by {
      forall i | i in Elements(batch) ensures i in Fresh(t, x, k) && (k == 1 || i in Backlog(t')) {}
    }
    SubsetCount(Pairs(Elements(batch), k - 1), Attempts(t', x, k - 1));
  }

  /** A batch with every event that has k attempts left takes no more than one attempt from each of fifty. */
  lemma MixedBatch(t: Table, x: EventId, k: nat, batch: seq<EventId>)
    requires x in t && IsRound(t, Refused(batch)) && |batch| == OUTBOX_BATCH_SIZE && k > 0
    requires CanFill(t, x, k) && Fresh(t, x, k) <= Elements(batch)
    ensures CanFill(Flushed(t, Refused(batch)), x, k - 1)
  {
    var t' := Flushed(t, Refused(batch));
    var open, left := Attempts(t, x, k), Attempts(t', x, k - 1);
    var last := LastAttempts(t, Elements(batch), k);
    ElementsCount(batch);
    LastAttemptsCount(t, Elements(batch), k);
    forall p | p in open ensures p in left + last {
      StaysOpen(t, x, k, batch, p);
    }
    SubsetCount(open, left + last);
    assert |left + last| <= |left| + |last|;
  }

  lemma StaysOpen(t: Table, x: EventId, k: nat, batch: seq<EventId>, p: (EventId, int))
    requires x in t && IsRound(t, Refused(batch)) && k > 0 && Fresh(t, x, k) <= Elements(batch)
    requires p in Attempts(t, x, k)
    ensures p in Attempts(Flushed(t, Refused(batch)), x, k - 1) || (p.0 in batch && p == LastAttempt(t, p.0, k))
  {
    var i, t' := p.0, Flushed(t, Refused(batch));
    if i in batch {
      if p != LastAttempt(t, i, k) {
        assert i in Backlog(t');
      }
    } else {
      assert i !in Fresh(t, x, k);
    }
  }

  /** While its rivals can fill k batches, an event that none is older than can be passed over k times. */
  lemma {:induction false} HoldBack(t: Table, x: EventId, k: nat) returns (rounds: seq<Round>)
    requires x in Backlog(t) && NoneOlder(t, x) && CanFill(t, x, k)
    ensures AreFlushes(t, rounds) && |rounds| == k
    ensures x in AfterFlushes(t, rounds) && AfterFlushes(t, rounds)[x] == t[x]
    decreases k
  {
    if k == 0 {
      return [];
    }
    AttemptsBound(t, x, k);
    EnoughRivals(k, |Rivals(t, x)|);
    var batch := BatchFrom(Fresh(t, x, k), Rivals(t, x));
    AnyRivals(t, x, batch);
    var r := Refused(batch);
    FlushDrains(t, r);
    if Elements(batch) <= Fresh(t, x, k) {
      FreshBatch(t, x, k, batch);
    } else {
      MixedBatch(t, x, k, batch);
    }
    var rest := HoldBack(Flushed(t, r), x, k - 1);
    rounds := [r] + rest;
    assert rounds[1..] == rest;
  }

  lemma EnoughRivals(k: nat, n: nat)
    requires k > 0 && OUTBOX_BATCH_SIZE * k <= k * n
    ensures n >= OUTBOX_BATCH_SIZE
  {
    if n < OUTBOX_BATCH_SIZE {
      MulMonotone(n, OUTBOX_BATCH_SIZE - 1, k);
    }
  }

  /** An event with retries left outlasts fewer flushes than that, if the queue refuses everything. */
  lemma {:induction false} Outlasts(t: Table, x: EventId, n: nat) returns (rounds: seq<Round>)
    requires x in Backlog(t) && t[x].retryCount + n < OUTBOX_MAX_RETRIES
    ensures AreFlushes(t, rounds) && |rounds| == n && x in Backlog(AfterFlushes(t, rounds))
    decreases n
  {
    if n == 0 {
      return [];
    }
    var r := SomeRound(t);
    FlushDrains(t, r);
    var rest := Outlasts(Flushed(t, r), x, n - 1);
    rounds := [r] + rest;
    assert rounds[1..] == rest;
  }

  /** Some answers of the poll and the queue leave x pending after that many flushes. */
  ghost predicate MayOutlast(t: Table, x: EventId, flushes: nat) {
    exists rounds: seq<Round> ::
      AreFlushes(t, rounds) && |rounds| == flushes && x in Backlog(AfterFlushes(t, rounds))
  }

  /** An event can be pending after so many flushes exactly when its rivals can fill those that pass it over. */
  lemma OutlastIff(t: Table, x: EventId, flushes: nat)
    requires Sound(t) && x in Backlog(t) && NoneOlder(t, x)
    ensures MayOutlast(t, x, flushes) <==> CanFill(t, x, Passes(t, x, flushes))
  {
    var k := Passes(t, x, flushes);
    if MayOutlast(t, x, flushes) {
      var rounds :| AreFlushes(t, rounds) && |rounds| == flushes && x in Backlog(AfterFlushes(t, rounds));
      StillPending(t, rounds, x, k);
    }
    if CanFill(t, x, k) {
      var first := HoldBack(t, x, k);
      var last := Outlasts(AfterFlushes(t, first), x, flushes - k);
      FlushesJoin(t, first, last);
      assert |first + last| == flushes;
    }
  }

  /** However the poll and the queue answer, that many flushes or more empty the backlog. */
  ghost predicate AlwaysDrained(t: Table, flushes: nat) {
    forall rounds: seq<Round> | AreFlushes(t, rounds) ::
      |rounds| >= flushes ==> Backlog(AfterFlushes(t, rounds)) == {}
  }

  ghost predicate SameTime(t: Table) {
    forall i, j :: i in Backlog(t) && j in Backlog(t) ==> t[i].createdAt == t[j].createdAt
  }

  lemma {:induction false} PendingUntil(t: Table, rounds: seq<Round>, x: EventId, flushes: nat)
    requires AreFlushes(t, rounds) && |rounds| >= flushes && x in Backlog(AfterFlushes(t, rounds))
    ensures MayOutlast(t, x, flushes)
  {
    FlushesSplit(t, rounds, flushes);
    FlushesDrain(AfterFlushes(t, rounds[..flushes]), rounds[flushes..]);
    assert |rounds[..flushes]| == flushes;
  }

  /**
   A backlog recorded at one time is always empty after so many flushes exactly when no event's
   rivals have attempts enough to fill the flushes that would have to pass it over.
   */
  lemma OneTimeExact(t: Table, flushes: nat)
    requires Sound(t) && SameTime(t)
    ensures AlwaysDrained(t, flushes) <==> forall x :: x in Backlog(t) ==> !CanFill(t, x, Passes(t, x, flushes))
  {
    forall x | x in Backlog(t) ensures MayOutlast(t, x, flushes) <==> CanFill(t, x, Passes(t, x, flushes)) {
      OutlastIff(t, x, flushes);
    }
    forall rounds: seq<Round> | AreFlushes(t, rounds)
      ensures |rounds| >= flushes && Backlog(AfterFlushes(t, rounds)) != {} ==>
              exists x :: x in Backlog(t) && CanFill(t, x, Passes(t, x, flushes))
    {
      if |rounds| >= flushes && Backlog(AfterFlushes(t, rounds)) != {} {
        var x :| x in Backlog(AfterFlushes(t, rounds));
        FlushesDrain(t, rounds);
        PendingUntil(t, rounds, x, flushes);
        assert x in Backlog(t) && CanFill(t, x, Passes(t, x, flushes));
      }
    }
  }

  // -------------------------------------------------------------------------
  // Sizes of backlog
  // -------------------------------------------------------------------------

  function BatchesFor(n: nat): nat {
    (n + OUTBOX_BATCH_SIZE - 1) / OUTBOX_BATCH_SIZE
  }

  /** A table that some run of the outbox, from empty, ends with. */
  ghost predicate Reachable(t: Table) {
    exists steps: seq<Runs.Step> :: Runs.IsRun(Runs.EMPTY, steps) && Runs.After(Runs.EMPTY, steps).table == t
  }

  /** Every backlog of n events in a reachable table is gone after that many flushes. */
  ghost predicate AlwaysDrains(n: nat, flushes: nat) {
    forall t: Table | Reachable(t) :: |Backlog(t)| == n ==> AlwaysDrained(t, flushes)
  }

  function FirstIds(n: nat): (ids: set<EventId>)
    ensures |ids| == n && forall i :: i in ids <==> 0 <= i < n
  {
    if n == 0 then {} else FirstIds(n - 1) + {n - 1}
  }

  /** Steps that record events 0, ..., n - 1 at one time, as one transaction does. */
  function Records(n: nat): seq<Runs.Step> {
    if n == 0 then [] else Records(n - 1) + [Runs.Record(n - 1, 0)]
  }

  function AtOnce(n: nat): Table {
    map i | i in FirstIds(n) :: NewEvent(0)
  }

  lemma {:induction false} RunOneMore(s: Runs.State, steps: seq<Runs.Step>, step: Runs.Step)
    requires Runs.IsRun(s, steps) && Runs.Enabled(Runs.After(s, steps), step)
    ensures Runs.IsRun(s, steps + [step]) && Runs.After(s, steps + [step]) == Runs.Next(Runs.After(s, steps), step)
    decreases |steps|
  {
    if steps == [] {
      assert steps + [step] == [step];
    } else {
      assert (steps + [step])[1..] == steps[1..] + [step];
      RunOneMore(Runs.Next(s, steps[0]), steps[1..], step);
    }
  }

  lemma RecordNext(s: Runs.State, n: nat)
    requires n > 0 && s.recorded == FirstIds(n - 1) && s.table == AtOnce(n - 1)
    ensures Runs.Enabled(s, Runs.Record(n - 1, 0))
    ensures
      var s' := Runs.Next(s, Runs.Record(n - 1, 0));
      s'.recorded == FirstIds(n) && s'.table == AtOnce(n)
  {}

  /** Recording n events at once ends with them all pending. */
  lemma {:induction false} RecordsReach(n: nat)
    ensures Runs.IsRun(Runs.EMPTY, Records(n))
    ensures
      var s := Runs.After(Runs.EMPTY, Records(n));
      s.recorded == FirstIds(n) && s.table == AtOnce(n)
  {
    if n > 0 {
      RecordsReach(n - 1);
      RecordNext(Runs.After(Runs.EMPTY, Records(n - 1)), n);
      RunOneMore(Runs.EMPTY, Records(n - 1), Runs.Record(n - 1, 0));
    }
  }

  lemma {:induction false} AtOnceReachable(n: nat)
    ensures Reachable(AtOnce(n)) && Sound(AtOnce(n)) && SameTime(AtOnce(n)) && Backlog(AtOnce(n)) == FirstIds(n)
  {
    RecordsReach(n);
    assert Runs.IsRun(Runs.EMPTY, Records(n));
  }

  lemma ReachableSound(t: Table)
    requires Reachable(t)
    ensures Sound(t)
  {
    var steps :| Runs.IsRun(Runs.EMPTY, steps) && Runs.After(Runs.EMPTY, steps).table == t;
    Runs.NoLoss(steps);
    forall i | i in Backlog(t) ensures t[i].retryCount < OUTBOX_MAX_RETRIES {
      assert Runs.After(Runs.EMPTY, steps).table[i].status == Pending;
    }
  }

  /** Events recorded at once have five attempts left each. */
  lemma AllAttempts(n: nat, x: EventId, k: nat)
    requires x < n && k >= OUTBOX_MAX_RETRIES
    ensures x in AtOnce(n) && |Attempts(AtOnce(n), x, k)| == OUTBOX_MAX_RETRIES * (n - 1)
  {
    var t := AtOnce(n);
    AtOnceReachable(n);
    assert Rivals(t, x) == FirstIds(n) - {x};
    PairsCount(Rivals(t, x), OUTBOX_MAX_RETRIES);
    assert Attempts(t, x, k) == Pairs(Rivals(t, x), OUTBOX_MAX_RETRIES);
  }

  /**
   A backlog recorded in one transaction whose last batch holds more than ten events can outlive
   five flushes per batch.
   */
  lemma Overrun(n: nat) returns (t: Table, rounds: seq<Round>)
    requires n > OUTBOX_BATCH_SIZE && (n - 1) % OUTBOX_BATCH_SIZE >= 10
    ensures Reachable(t) && |Backlog(t)| == n && AreFlushes(t, rounds)
    ensures |rounds| == OUTBOX_MAX_RETRIES * BatchesFor(n) && Backlog(AfterFlushes(t, rounds)) != {}
  {
    t := AtOnce(n);
    var flushes := OUTBOX_MAX_RETRIES * BatchesFor(n);
    AtOnceReachable(n);
    assert BatchesFor(n) == (n - 1) / OUTBOX_BATCH_SIZE + 1;
    AllAttempts(n, 0, Passes(t, 0, flushes));
    OutlastIff(t, 0, flushes);
    rounds :| AreFlushes(t, rounds) && |rounds| == flushes && 0 in Backlog(AfterFlushes(t, rounds));
  }

  lemma RoomIsShort(n: nat)
    requires n > OUTBOX_BATCH_SIZE && (n - 1) % OUTBOX_BATCH_SIZE < 10
    ensures OUTBOX_MAX_RETRIES * BatchesFor(n) == OUTBOX_MAX_RETRIES + (n - 1) / 10
  {}

  lemma {:induction false} DrainsWhenRoomIsShort(n: nat, t: Table, rounds: seq<Round>)
    requires n <= OUTBOX_BATCH_SIZE || (n - 1) % OUTBOX_BATCH_SIZE < 10
    requires AreFlushes(t, rounds) && Reachable(t) && |Backlog(t)| == n
             && |rounds| >= OUTBOX_MAX_RETRIES * BatchesFor(n)
    ensures Backlog(AfterFlushes(t, rounds)) == {}
  {
    ReachableSound(t);
    if n == 0 {
      FlushesDrain(t, rounds);
    } else if n <= OUTBOX_BATCH_SIZE {
      SmallBacklogDrains(t, rounds);
    } else {
      RoomIsShort(n);
      DrainAny(t, rounds);
    }
  }

  /**
   The sizes of backlog for which five flushes per batch are always enough, over all reachable
   tables: those that fit in one batch, and those whose last batch holds at most ten events.
   */
  lemma DrainBoundExact(n: nat)
    ensures AlwaysDrains(n, OUTBOX_MAX_RETRIES * BatchesFor(n)) <==>
            n <= OUTBOX_BATCH_SIZE || (n - 1) % OUTBOX_BATCH_SIZE < 10
  {
    if n > OUTBOX_BATCH_SIZE && (n - 1) % OUTBOX_BATCH_SIZE >= 10 {
      var t, rounds := Overrun(n);
    } else {
      forall t: Table, rounds: seq<Round> | Reachable(t) && AreFlushes(t, rounds)
        ensures |Backlog(t)| == n && |rounds| >= OUTBOX_MAX_RETRIES * BatchesFor(n)
                ==> Backlog(AfterFlushes(t, rounds)) == {}
      {
        if |Backlog(t)| == n && |rounds| >= OUTBOX_MAX_RETRIES * BatchesFor(n) {
          DrainsWhenRoomIsShort(n, t, rounds);
        }
      }
    }
  }
}
