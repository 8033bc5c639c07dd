/**
 How many flushes empty a backlog, whatever the queue answers, when nothing new is recorded and
 no flush crashes. A pending event is attempted at most five times, so the question is how
 long the poll can pass it over.
 */
module OutboxDrain {
  import opened Outbox

  /** Flushes that follow one another, each polling the table left by the one before. */
  predicate AreFlushes(t: Table, rounds: seq<Round>)
    decreases |rounds|
  {
    rounds == [] || (IsRound(t, rounds[0]) && AreFlushes(Flushed(t, rounds[0]), rounds[1..]))
  }

  function AfterFlushes(t: Table, rounds: seq<Round>): Table
    requires AreFlushes(t, rounds)
    decreases |rounds|
  {
    if rounds == [] then t else AfterFlushes(Flushed(t, rounds[0]), rounds[1..])
  }

  function Backlog(t: Table): set<EventId> {
    ByStatus(t, Pending)
  }

  /** Pending rows have retries left, as they do in every run. */
  ghost predicate Sound(t: Table) {
    forall i :: i in Backlog(t) ==> t[i].retryCount < OUTBOX_MAX_RETRIES
  }

  /** The second table is the first one after some flushes: the backlog only shrinks, creation times stay. */
  ghost predicate Drains(t: Table, t': Table) {
    t'.Keys == t.Keys && Backlog(t') <= Backlog(t) && forall i :: i in t ==> t'[i].createdAt == t[i].createdAt
  }

  lemma FlushDrains(t: Table, r: Round)
    requires IsRound(t, r)
    ensures Drains(t, Flushed(t, r))
    ensures Sound(t) ==> Sound(Flushed(t, r))
  {}

  lemma {:induction false} FlushesDrain(t: Table, rounds: seq<Round>)
    requires AreFlushes(t, rounds)
    ensures Drains(t, AfterFlushes(t, rounds))
    decreases |rounds|
  {
    if rounds != [] {
      FlushDrains(t, rounds[0]);
      FlushesDrain(Flushed(t, rounds[0]), rounds[1..]);
    }
  }

  lemma {:induction false} FlushesJoin(t: Table, first: seq<Round>, second: seq<Round>)
    requires AreFlushes(t, first) && AreFlushes(AfterFlushes(t, first), second)
    ensures AreFlushes(t, first + second)
    ensures AfterFlushes(t, first + second) == AfterFlushes(AfterFlushes(t, first), second)
    decreases |first|
  {
    if first == [] {
      assert first + second == second;
    } else {
      FlushesJoin(Flushed(t, first[0]), first[1..], second);
      assert (first + second)[1..] == first[1..] + second;
    }
  }

  lemma {:induction false} FlushesSplit(t: Table, rounds: seq<Round>, k: nat)
    requires AreFlushes(t, rounds) && k <= |rounds|
    ensures AreFlushes(t, rounds[..k]) && AreFlushes(AfterFlushes(t, rounds[..k]), rounds[k..])
    ensures AfterFlushes(t, rounds) == AfterFlushes(AfterFlushes(t, rounds[..k]), rounds[k..])
    decreases k
  {
    if k == 0 {
      assert rounds[..0] == [] && rounds[0..] == rounds;
    } else {
      FlushesSplit(Flushed(t, rounds[0]), rounds[1..], k - 1);
      assert rounds[..k][1..] == rounds[1..][..k - 1] && rounds[1..][k - 1..] == rounds[k..];
    }
  }

  // -------------------------------------------------------------------------
  // Who is polled
  // -------------------------------------------------------------------------

  /** The pending events that can be polled before x: those not created after it. */
  function Rivals(t: Table, x: EventId): set<EventId>
    requires x in t
  {
    set i | i in Backlog(t) && i != x && t[i].createdAt <= t[x].createdAt
  }

  lemma {:induction false} ElementsCount<T>(s: seq<T>)
    requires Distinct(s)
    ensures |Elements(s)| == |s|
  {
    if s != [] {
      var rest := s[..|s| - 1];
      ElementsCount(rest);
      var last := s[|s| - 1];
      assert s == rest + [last];
      assert last !in rest;
      assert Elements(s) == Elements(rest) + {last};
    }
  }

  lemma SubsetCount<T>(a: set<T>, b: set<T>)
    requires a <= b
    ensures |a| <= |b|
    ensures |a| == |b| ==> a == b
  {
    assert |b - a| == |b| - |a|;
    if |a| == |b| {
      assert b - a == {};
      assert b == a;
    }
  }

  /** A pending event is passed over only in favour of a full batch of its rivals. */
  lemma PassedOver(t: Table, r: Round, x: EventId)
    requires IsRound(t, r) && x in Backlog(t) && x !in r.batch
    ensures |r.batch| == OUTBOX_BATCH_SIZE && Elements(r.batch) <= Rivals(t, x)
  {
    ElementsCount(r.batch);
    assert Elements(r.batch) <= Backlog(t);
    SubsetCount(Elements(r.batch), Backlog(t));
    assert x !in Elements(r.batch);
    forall i | i in Elements(r.batch) ensures i in Rivals(t, x) {
      assert t[i].createdAt <= t[x].createdAt;
    }
  }

  /** With fewer rivals than fit in a batch, an event is settled within five flushes. */
  lemma {:induction false} FewRivals(t: Table, rounds: seq<Round>, x: EventId)
    requires AreFlushes(t, rounds) && x in Backlog(AfterFlushes(t, rounds))
    requires x in t && |Rivals(t, x)| < OUTBOX_BATCH_SIZE
    ensures x in Backlog(t)
    ensures rounds != [] ==> t[x].retryCount + |rounds| < OUTBOX_MAX_RETRIES
    decreases |rounds|
  {
    FlushesDrain(t, rounds);
    if rounds != [] {
      var r := rounds[0];
      var t' := Flushed(t, r);
      if x !in r.batch {
        PassedOver(t, r, x);
        ElementsCount(r.batch);
        SubsetCount(Elements(r.batch), Rivals(t, x));
        assert false;
      }
      FlushDrains(t, r);
      SubsetCount(Rivals(t', x), Rivals(t, x));
      FewRivals(t', rounds[1..], x);
    }
  }

  // -------------------------------------------------------------------------
  // Distinct creation times
  // -------------------------------------------------------------------------

  ghost predicate DistinctTimes(t: Table) {
    forall i, j :: i in Backlog(t) && j in Backlog(t) && i != j ==> t[i].createdAt != t[j].createdAt
  }

  /** With distinct creation times the events of a batch have no rivals outside it. */
  lemma BatchIsOldest(t: Table, r: Round, x: EventId)
    requires IsRound(t, r) && DistinctTimes(t) && x in r.batch
    ensures |Rivals(t, x)| < OUTBOX_BATCH_SIZE
  {
    ElementsCount(r.batch);
    assert x in Elements(r.batch);
    forall i | i in Rivals(t, x) ensures i in Elements(r.batch) - {x} {}
    SubsetCount(Rivals(t, x), Elements(r.batch) - {x});
  }

  /** Five flushes settle every event of the first batch. */
  lemma {:induction false} FiveFlushes(t: Table, rounds: seq<Round>)
    requires AreFlushes(t, rounds) && |rounds| == OUTBOX_MAX_RETRIES && DistinctTimes(t)
    ensures |Backlog(AfterFlushes(t, rounds))| <= |Backlog(t)| - |rounds[0].batch|
  {
    FlushesDrain(t, rounds);
    var left := Backlog(AfterFlushes(t, rounds));
    var first := Elements(rounds[0].batch);
    ElementsCount(rounds[0].batch);
    forall x | x in left ensures x !in first {
      if x in first {
        BatchIsOldest(t, rounds[0], x);
        FewRivals(t, rounds, x);
        assert false;
      }
    }
    assert first <= Backlog(t);
    SubsetCount(left, Backlog(t) - first);
  }

  /**
   The drain bound when no two pending events were created at the same time: n events, n at
   most 50 * q, are gone after 5 * q flushes, whatever the queue answers.
   */
  lemma {:induction false} DrainDistinct(t: Table, rounds: seq<Round>, q: nat)
    requires AreFlushes(t, rounds) && DistinctTimes(t)
    requires |Backlog(t)| <= OUTBOX_BATCH_SIZE * q && |rounds| >= OUTBOX_MAX_RETRIES * q
    ensures Backlog(AfterFlushes(t, rounds)) == {}
    decreases q
  {
    FlushesDrain(t, rounds);
    if q > 0 {
      FlushesSplit(t, rounds, 5);
      var first, rest := rounds[..5], rounds[5..];
      var t' := AfterFlushes(t, first);
      FlushesDrain(t, first);
      FiveFlushes(t, first);
      DrainDistinct(t', rest, q - 1);
    }
  }

  // -------------------------------------------------------------------------
  // Any creation times
  // -------------------------------------------------------------------------

  /** The attempts that the rivals of x have left, at most k for each: pairs of the event and a number. */
  function Attempts(t: Table, x: EventId, k: nat): set<(EventId, int)>
    requires x in t
  {
    set i, j | i in t && 0 <= j < k && i in Rivals(t, x) && t[i].retryCount + j < OUTBOX_MAX_RETRIES :: (i, j)
  }

  /** The rivals of x have attempts left for k full batches, no event being polled twice in one. */
  predicate CanFill(t: Table, x: EventId, k: nat)
    requires x in t
  {
    |Attempts(t, x, k)| >= OUTBOX_BATCH_SIZE * k
  }

  /** The last of the at most k attempts left to i. */
  function LastAttempt(t: Table, i: EventId, k: nat): (EventId, int)
    requires i in t
  {
    (i, if t[i].retryCount + k <= OUTBOX_MAX_RETRIES then k - 1 else OUTBOX_MAX_RETRIES - 1 - t[i].retryCount)
  }

  function LastAttempts(t: Table, s: set<EventId>, k: nat): set<(EventId, int)>
    requires s <= t.Keys
  {
    set i | i in s :: LastAttempt(t, i, k)
  }

  lemma {:induction false} LastAttemptsCount(t: Table, s: set<EventId>, k: nat)
    requires s <= t.Keys
    ensures |LastAttempts(t, s, k)| == |s|
    decreases |s|
  {
    if s == {} {
      assert LastAttempts(t, s, k) == {};
    } else {
      var x :| x in s;
      LastAttemptsCount(t, s - {x}, k);
      assert LastAttempts(t, s, k) == LastAttempts(t, s - {x}, k) + {LastAttempt(t, x, k)};
      assert LastAttempt(t, x, k) !in LastAttempts(t, s - {x}, k);
    }
  }

  /** Each event of s paired with each of 0, ..., n - 1. */
  function Pairs(s: set<EventId>, n: nat): set<(EventId, int)> {
    set i, k | i in s && 0 <= k < n :: (i, k)
  }

  function Column(s: set<EventId>, k: int): set<(EventId, int)> {
    set i | i in s :: (i, k)
  }

  lemma {:induction false} ColumnCount(s: set<EventId>, k: int)
    ensures |Column(s, k)| == |s|
    decreases |s|
  {
    if s == {} {
      assert Column(s, k) == {};
    } else {
      var x :| x in s;
      ColumnCount(s - {x}, k);
      assert Column(s, k) == Column(s - {x}, k) + {(x, k)};
      assert (x, k) !in Column(s - {x}, k);
    }
  }

  lemma {:induction false} PairsCount(s: set<EventId>, n: nat)
    ensures |Pairs(s, n)| == |s| * n
    decreases n
  {
    if n == 0 {
      assert Pairs(s, n) == {};
    } else {
      PairsCount(s, n - 1);
      ColumnCount(s, n - 1);
      assert Pairs(s, n) == Pairs(s, n - 1) + Column(s, n - 1);
      assert Pairs(s, n - 1) !! Column(s, n - 1);
      assert |s| * n == |s| * (n - 1) + |s|;
    }
  }

  lemma AttemptsBound(t: Table, x: EventId, k: nat)
    requires x in t
    ensures |Attempts(t, x, k)| <= OUTBOX_MAX_RETRIES * |Rivals(t, x)| && |Attempts(t, x, k)| <= k * |Rivals(t, x)|
  {
    PairsCount(Rivals(t, x), OUTBOX_MAX_RETRIES);
    SubsetCount(Attempts(t, x, k), Pairs(Rivals(t, x), OUTBOX_MAX_RETRIES));
    PairsCount(Rivals(t, x), k);
    SubsetCount(Attempts(t, x, k), Pairs(Rivals(t, x), k));
  }

  lemma NoNewAttempts(t: Table, r: Round, x: EventId, k: nat, k': nat)
    requires IsRound(t, r) && x in t && k' <= k
    ensures Attempts(Flushed(t, r), x, k') <= Attempts(t, x, k)
  {}

  lemma LastIsSpent(t: Table, r: Round, x: EventId, k: nat, i: EventId)
    requires IsRound(t, r) && Sound(t) && x in t && i in Rivals(t, x) && i in r.batch && k > 0
    ensures LastAttempt(t, i, k) in Attempts(t, x, k)
    ensures LastAttempt(t, i, k) !in Attempts(Flushed(t, r), x, k - 1)
  {}

  /** A flush that passes x over takes an attempt from each event of a full batch of rivals. */
  lemma PassSpends(t: Table, r: Round, x: EventId, k: nat)
    requires IsRound(t, r) && Sound(t) && x in Backlog(t) && x !in r.batch && k > 0
    ensures |Attempts(Flushed(t, r), x, k - 1)| + OUTBOX_BATCH_SIZE <= |Attempts(t, x, k)|
  {
    var open, left := Attempts(t, x, k), Attempts(Flushed(t, r), x, k - 1);
    var batch := Elements(r.batch);
    PassedOver(t, r, x);
    ElementsCount(r.batch);
    NoNewAttempts(t, r, x, k, k - 1);
    LastAttemptsCount(t, batch, k);
    forall i | i in batch ensures LastAttempt(t, i, k) in open && LastAttempt(t, i, k) !in left {
      LastIsSpent(t, r, x, k, i);
    }
    SubsetCount(left, open);
    SubsetCount(LastAttempts(t, batch, k), open - left);
  }

  /** How often an event still pending after that many flushes was passed over at least. */
  function Passes(t: Table, x: EventId, flushes: nat): nat
    requires x in t
  {
    if flushes + t[x].retryCount < OUTBOX_MAX_RETRIES then 0
    else flushes + t[x].retryCount - (OUTBOX_MAX_RETRIES - 1)
  }

  /** An event still pending was polled at most four times; the other flushes were full batches of rivals. */
  lemma {:induction false} StillPending(t: Table, rounds: seq<Round>, x: EventId, k: nat)
    requires AreFlushes(t, rounds) && Sound(t) && x in Backlog(AfterFlushes(t, rounds))
    requires x in t && k <= Passes(t, x, |rounds|)
    ensures x in Backlog(t) && CanFill(t, x, k)
    decreases |rounds|
  {
    FlushesDrain(t, rounds);
    if rounds != [] && k > 0 {
      var r := rounds[0];
      var t' := Flushed(t, r);
      FlushDrains(t, r);
      FlushesDrain(t', rounds[1..]);
      if x in r.batch {
        StillPending(t', rounds[1..], x, k);
        NoNewAttempts(t, r, x, k, k);
        SubsetCount(Attempts(t', x, k), Attempts(t, x, k));
      } else {
        StillPending(t', rounds[1..], x, k - 1);
        PassSpends(t, r, x, k);
      }
    }
  }

  /** A bound for one event in any table: five flushes, and one more for every ten rivals. */
  lemma {:induction false} DrainEvent(t: Table, rounds: seq<Round>, x: EventId)
    requires AreFlushes(t, rounds) && Sound(t) && x in t
    requires |rounds| >= OUTBOX_MAX_RETRIES + |Rivals(t, x)| / 10
    ensures x !in Backlog(AfterFlushes(t, rounds))
  {
    if x in Backlog(AfterFlushes(t, rounds)) {
      var k := 1 + |Rivals(t, x)| / 10;
      StillPending(t, rounds, x, k);
      AttemptsBound(t, x, k);
      assert false;
    }
  }

  /** The drain bound with any creation times, equal ones included. */
  lemma {:induction false} DrainAny(t: Table, rounds: seq<Round>)
    requires AreFlushes(t, rounds) && Sound(t) && Backlog(t) != {}
    requires |rounds| >= OUTBOX_MAX_RETRIES + (|Backlog(t)| - 1) / 10
    ensures Backlog(AfterFlushes(t, rounds)) == {}
  {
    FlushesDrain(t, rounds);
    forall x | x in Backlog(t) ensures x !in Backlog(AfterFlushes(t, rounds)) {
      SubsetCount(Rivals(t, x), Backlog(t) - {x});
      DrainEvent(t, rounds, x);
    }
  }

  lemma {:induction false} SmallBacklogDrains(t: Table, rounds: seq<Round>)
    requires AreFlushes(t, rounds) && |Backlog(t)| <= OUTBOX_BATCH_SIZE && |rounds| >= OUTBOX_MAX_RETRIES
    ensures Backlog(AfterFlushes(t, rounds)) == {}
  {
    FlushesDrain(t, rounds);
    var left := Backlog(AfterFlushes(t, rounds));
    if left != {} {
      var x :| x in left;
      SubsetCount(Rivals(t, x), Backlog(t) - {x});
      FewRivals(t, rounds, x);
      assert false;
    }
  }
}
