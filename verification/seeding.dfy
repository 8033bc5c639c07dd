/**
 Seeding a project from a template: the template forest is copied into tasks, each with a
 fresh id, its parent's new id and the next rank among its siblings, together with one entry
 in each of the two activity logs.
 */
module Seeding {
  import opened Options
  import opened RankCodec
  import opened LinkedForest
  import opened ForestShape
  import opened Templates
  import opened Trimming
  import opened TemplateTree

  datatype Task = Task(id: Id, title: string, parentTaskId: Option<Id>, rank: string)

  datatype ActivityLog = ActivityLog(taskId: Id, templateTaskId: Id, parentTaskId: Option<Id>)

  // -------------------------------------------------------------------------
  // The copy
  // -------------------------------------------------------------------------

  function NodeCount(nodes: seq<Node>): nat {
    if nodes == [] then 0 else 1 + NodeCount(nodes[0].subtasks) + NodeCount(nodes[1..])
  }

  /** The position in the supply after the ids of the first node and of all below it. */
  function Past(nodes: seq<Node>, start: nat): nat
    requires nodes != []
  {
    start + 1 + NodeCount(nodes[0].subtasks)
  }

  /**
   The rows of a copy of a sibling list under a new parent, each before those below it: ids are
   taken from the supply in order, starting at position start, names are trimmed, and the orders
   of siblings rise from prev in rank steps.
   */
  function CopiedRows(nodes: seq<Node>, parent: Option<Id>, prev: nat, supply: seq<Id>, start: nat): (rows: seq<Row>)
    requires start + NodeCount(nodes) <= |supply|
  {
    if nodes == [] then []
    else
      var n := nodes[0];
      [Row(supply[start], Trim(n.row.name), "", prev + RANK_STEP, parent)]
      + CopiedRows(n.subtasks, Some(supply[start]), 0, supply, start + 1)
      + CopiedRows(nodes[1..], parent, prev + RANK_STEP, supply, Past(nodes, start))
  }

  /** The task stored for a copied row: its order becomes a rank. */
  function AsTask(r: Row): Task {
    Task(r.id, r.name, r.parentTaskId, FormatRankValue(r.order))
  }

  function AsTasks(rows: seq<Row>): (tasks: seq<Task>)
    ensures |tasks| == |rows|
  {
    seq(|rows|, i requires 0 <= i < |rows| => AsTask(rows[i]))
  }

  /** One log entry per copied row, naming it, its parent and the template row it came from. */
  function LogsFor(copies: seq<Row>, originals: seq<Row>): (logs: seq<ActivityLog>)
    requires |copies| == |originals|
    ensures |logs| == |copies|
  {
    seq(|copies|, i requires 0 <= i < |copies| =>
      ActivityLog(copies[i].id, originals[i].id, copies[i].parentTaskId))
  }

  lemma CopiedStep(nodes: seq<Node>, parent: Option<Id>, prev: nat, supply: seq<Id>, start: nat)
    returns (first: Row, below: seq<Row>, rest: seq<Row>)
    requires nodes != [] && start + NodeCount(nodes) <= |supply|
    ensures first == Row(supply[start], Trim(nodes[0].row.name), "", prev + RANK_STEP, parent)
    ensures below == CopiedRows(nodes[0].subtasks, Some(supply[start]), 0, supply, start + 1)
    ensures rest == CopiedRows(nodes[1..], parent, prev + RANK_STEP, supply, Past(nodes, start))
    ensures CopiedRows(nodes, parent, prev, supply, start) == [first] + below + rest
  {
    first := Row(supply[start], Trim(nodes[0].row.name), "", prev + RANK_STEP, parent);
    below := CopiedRows(nodes[0].subtasks, Some(supply[start]), 0, supply, start + 1);
    rest := CopiedRows(nodes[1..], parent, prev + RANK_STEP, supply, Past(nodes, start));
  }

  lemma {:induction false} CopiedLength(nodes: seq<Node>, parent: Option<Id>, prev: nat, supply: seq<Id>, start: nat)
    requires start + NodeCount(nodes) <= |supply|
    ensures |CopiedRows(nodes, parent, prev, supply, start)| == NodeCount(nodes)
  {
    if nodes != [] {
      CopiedLength(nodes[0].subtasks, Some(supply[start]), 0, supply, start + 1);
      CopiedLength(nodes[1..], parent, prev + RANK_STEP, supply, Past(nodes, start));
    }
  }

  /** Consecutive rows carry the ids of the supply from position start on. */
  ghost predicate Numbered(rows: seq<Row>, supply: seq<Id>, start: nat) {
    start + |rows| <= |supply| && forall i :: 0 <= i < |rows| ==> rows[i].id == supply[start + i]
  }

  lemma NumberedParts(first: Row, below: seq<Row>, rest: seq<Row>, supply: seq<Id>, start: nat, k: nat)
    requires start < |supply| && first.id == supply[start] && |below| == k
    requires Numbered(below, supply, start + 1) && Numbered(rest, supply, start + 1 + k)
    ensures Numbered([first] + below + rest, supply, start)
  {}

  lemma CopiedNumbered(nodes: seq<Node>, parent: Option<Id>, prev: nat, supply: seq<Id>, start: nat)
    requires nodes != [] && start + NodeCount(nodes) <= |supply|
    requires Numbered(CopiedRows(nodes[0].subtasks, Some(supply[start]), 0, supply, start + 1), supply, start + 1)
    requires Numbered(CopiedRows(nodes[1..], parent, prev + RANK_STEP, supply, Past(nodes, start)), supply,
                      Past(nodes, start))
    ensures Numbered(CopiedRows(nodes, parent, prev, supply, start), supply, start)
  {
    var first, below, rest := CopiedStep(nodes, parent, prev, supply, start);
    CopiedLength(nodes[0].subtasks, Some(supply[start]), 0, supply, start + 1);
    NumberedParts(first, below, rest, supply, start, NodeCount(nodes[0].subtasks));
  }

  lemma {:induction false} CopiedIds(nodes: seq<Node>, parent: Option<Id>, prev: nat, supply: seq<Id>, start: nat)
    requires start + NodeCount(nodes) <= |supply|
    ensures Numbered(CopiedRows(nodes, parent, prev, supply, start), supply, start)
  {
    if nodes != [] {
      CopiedIds(nodes[0].subtasks, Some(supply[start]), 0, supply, start + 1);
      CopiedIds(nodes[1..], parent, prev + RANK_STEP, supply, Past(nodes, start));
      CopiedNumbered(nodes, parent, prev, supply, start);
    }
  }

  lemma {:induction false} PreorderLength(nodes: seq<Node>)
    ensures |Preorder(nodes)| == NodeCount(nodes)
  {
    if nodes != [] {
      PreorderLength(nodes[0].subtasks);
      PreorderLength(nodes[1..]);
    }
  }

  lemma HeadTail<T>(a: seq<T>, b: seq<T>)
    requires a != []
    ensures a == [a[0]] + a[1..] && a + b == [a[0]] + (a[1..] + b)
  {}

  lemma {:induction false} CountConcat(a: seq<Node>, b: seq<Node>)
    ensures NodeCount(a + b) == NodeCount(a) + NodeCount(b)
  {
    if a == [] {
      assert a + b == b;
    } else {
      CountConcat(a[1..], b);
      assert (a + b)[1..] == a[1..] + b;
    }
  }

  lemma {:induction false} PreorderConcat(a: seq<Node>, b: seq<Node>)
    ensures NodeCount(a + b) == NodeCount(a) + NodeCount(b)
    ensures Preorder(a + b) == Preorder(a) + Preorder(b)
  {
    if a == [] {
      assert a + b == b;
    } else {
      assert (a + b)[1..] == a[1..] + b;
      PreorderConcat(a[1..], b);
      ConcatAssociative([a[0].row] + Preorder(a[0].subtasks), Preorder(a[1..]), Preorder(b));
    }
  }

  lemma ConcatAssociative<T>(a: seq<T>, b: seq<T>, c: seq<T>)
    ensures a + (b + c) == (a + b) + c
  {}

  lemma {:induction false} CopiedConcat(a: seq<Node>, b: seq<Node>, parent: Option<Id>, prev: nat, supply: seq<Id>,
                                        start: nat)
    requires start + NodeCount(a) + NodeCount(b) <= |supply|
    ensures NodeCount(a + b) == NodeCount(a) + NodeCount(b)
    ensures CopiedRows(a + b, parent, prev, supply, start) ==
            CopiedRows(a, parent, prev, supply, start)
            + CopiedRows(b, parent, prev + |a| * RANK_STEP, supply, start + NodeCount(a))
  {
    CountConcat(a, b);
    CopiedBefore(a, b, parent, prev, supply, start, prev + |a| * RANK_STEP, start + NodeCount(a));
  }

  /** The copy of a, then that of b, which takes over the last order and the next id. */
  lemma {:induction false} CopiedBefore(a: seq<Node>, b: seq<Node>, parent: Option<Id>, prev: nat, supply: seq<Id>,
                                        start: nat, prevB: nat, startB: nat)
    requires prevB == prev + |a| * RANK_STEP && startB == start + NodeCount(a) && startB + NodeCount(b) <= |supply|
    ensures NodeCount(a + b) == NodeCount(a) + NodeCount(b)
    ensures CopiedRows(a + b, parent, prev, supply, start) ==
            CopiedRows(a, parent, prev, supply, start) + CopiedRows(b, parent, prevB, supply, startB)
  {
    CountConcat(a, b);
    if a == [] {
      assert a + b == b;
    } else {
      HeadTail(a, b);
      var n, s, next := a[0], a[1..], start + 1 + NodeCount(a[0].subtasks);
      CountConcat(s, b);
      CopiedBefore(s, b, parent, prev + RANK_STEP, supply, next, prevB, startB);
      CopiedConcatStep(n, s, b, parent, prev, supply, start, CopiedRows(b, parent, prevB, supply, startB));
    }
  }

  lemma CopiedCons(n: Node, s: seq<Node>, parent: Option<Id>, prev: nat, supply: seq<Id>, start: nat)
    returns (head: seq<Row>)
    requires start + 1 + NodeCount(n.subtasks) + NodeCount(s) <= |supply|
    ensures NodeCount([n] + s) == 1 + NodeCount(n.subtasks) + NodeCount(s)
    ensures head == [Row(supply[start], Trim(n.row.name), "", prev + RANK_STEP, parent)]
                    + CopiedRows(n.subtasks, Some(supply[start]), 0, supply, start + 1)
    ensures CopiedRows([n] + s, parent, prev, supply, start) ==
            head + CopiedRows(s, parent, prev + RANK_STEP, supply, start + 1 + NodeCount(n.subtasks))
  {
    var nodes := [n] + s;
    assert nodes[0] == n && nodes[1..] == s;
    var first, below, rest := CopiedStep(nodes, parent, prev, supply, start);
    head := [first] + below;
    assert rest == CopiedRows(s, parent, prev + RANK_STEP, supply, start + 1 + NodeCount(n.subtasks));
  }

  lemma {:induction false} CopiedConcatStep(n: Node, s: seq<Node>, b: seq<Node>, parent: Option<Id>, prev: nat,
                                            supply: seq<Id>, start: nat, tail: seq<Row>)
    requires start + 1 + NodeCount(n.subtasks) + NodeCount(s) <= |supply|
    requires start + 1 + NodeCount(n.subtasks) + NodeCount(s + b) <= |supply|
    requires CopiedRows(s + b, parent, prev + RANK_STEP, supply, start + 1 + NodeCount(n.subtasks)) ==
             CopiedRows(s, parent, prev + RANK_STEP, supply, start + 1 + NodeCount(n.subtasks)) + tail
    ensures NodeCount([n] + s) == 1 + NodeCount(n.subtasks) + NodeCount(s)
    ensures NodeCount([n] + (s + b)) == 1 + NodeCount(n.subtasks) + NodeCount(s + b)
    ensures CopiedRows([n] + (s + b), parent, prev, supply, start) ==
            CopiedRows([n] + s, parent, prev, supply, start) + tail
  {
    var head := CopiedCons(n, s, parent, prev, supply, start);
    var head' := CopiedCons(n, s + b, parent, prev, supply, start);
    var rest := CopiedRows(s, parent, prev + RANK_STEP, supply, start + 1 + NodeCount(n.subtasks));
    ConcatAssociative(head, rest, tail);
  }

  // -------------------------------------------------------------------------
  // The seeding transaction
  // -------------------------------------------------------------------------

  /** What creating a sibling list adds: its tasks, and its entries in either log. */
  function TasksFor(nodes: seq<Node>, parent: Option<Id>, prev: nat, supply: seq<Id>, start: nat): seq<Task>
    requires start + NodeCount(nodes) <= |supply|
  {
    AsTasks(CopiedRows(nodes, parent, prev, supply, start))
  }

  function LogEntries(nodes: seq<Node>, parent: Option<Id>, prev: nat, supply: seq<Id>, start: nat): seq<ActivityLog>
    requires start + NodeCount(nodes) <= |supply|
  {
    CopiedLength(nodes, parent, prev, supply, start);
    PreorderLength(nodes);
    LogsFor(CopiedRows(nodes, parent, prev, supply, start), Preorder(nodes))
  }

  /** Each copied row has the trimmed name of the template row at its place. */
  ghost predicate NamesCopied(copies: seq<Row>, originals: seq<Row>) {
    |copies| == |originals| && forall i :: 0 <= i < |copies| ==> copies[i].name == Trim(originals[i].name)
  }

  lemma NamesCopiedParts(first: Row, below: seq<Row>, rest: seq<Row>, r: Row, s: seq<Row>, t: seq<Row>)
    requires first.name == Trim(r.name) && NamesCopied(below, s) && NamesCopied(rest, t)
    ensures NamesCopied([first] + below + rest, [r] + s + t)
  {}

  lemma {:induction false} CopiedNames(nodes: seq<Node>, parent: Option<Id>, prev: nat, supply: seq<Id>, start: nat)
    requires start + NodeCount(nodes) <= |supply|
    ensures NamesCopied(CopiedRows(nodes, parent, prev, supply, start), Preorder(nodes))
  {
    if nodes != [] {
      CopiedNames(nodes[0].subtasks, Some(supply[start]), 0, supply, start + 1);
      CopiedNames(nodes[1..], parent, prev + RANK_STEP, supply, Past(nodes, start));
      var first, below, rest := CopiedStep(nodes, parent, prev, supply, start);
      NamesCopiedParts(first, below, rest, nodes[0].row, Preorder(nodes[0].subtasks), Preorder(nodes[1..]));
    }
  }

  /**
   Every template row has a task with its trimmed name under a fresh id, and one entry in each log,
   which names the task, the template row and the task's parent.
   */
  lemma {:induction false} EntriesNameTasks(nodes: seq<Node>, parent: Option<Id>, prev: nat, supply: seq<Id>,
                                            start: nat, i: nat)
    requires start + NodeCount(nodes) <= |supply| && i < NodeCount(nodes)
    ensures
      var tasks, logs := TasksFor(nodes, parent, prev, supply, start), LogEntries(nodes, parent, prev, supply, start);
      && |tasks| == |logs| == |Preorder(nodes)| == NodeCount(nodes)
      && tasks[i].id == supply[start + i] && tasks[i].title == Trim(Preorder(nodes)[i].name)
      && logs[i].taskId == tasks[i].id && logs[i].templateTaskId == Preorder(nodes)[i].id
      && logs[i].parentTaskId == tasks[i].parentTaskId
  {
    CopiedLength(nodes, parent, prev, supply, start);
    CopiedIds(nodes, parent, prev, supply, start);
    CopiedNames(nodes, parent, prev, supply, start);
    PreorderLength(nodes);
  }

  lemma AsTasksConcat(a: seq<Row>, b: seq<Row>)
    ensures AsTasks(a + b) == AsTasks(a) + AsTasks(b)
  {}

  lemma LogsConcat(a: seq<Row>, b: seq<Row>, x: seq<Row>, y: seq<Row>)
    requires |a| == |x| && |b| == |y|
    ensures LogsFor(a + b, x + y) == LogsFor(a, x) + LogsFor(b, y)
  {}

  lemma {:induction false} TasksConcat(a: seq<Node>, b: seq<Node>, parent: Option<Id>, prev: nat, supply: seq<Id>,
                                       start: nat)
    requires start + NodeCount(a) + NodeCount(b) <= |supply| && NodeCount(a + b) == NodeCount(a) + NodeCount(b)
    ensures TasksFor(a + b, parent, prev, supply, start) ==
            TasksFor(a, parent, prev, supply, start)
            + TasksFor(b, parent, prev + |a| * RANK_STEP, supply, start + NodeCount(a))
  {
    CopiedConcat(a, b, parent, prev, supply, start);
    AsTasksConcat(CopiedRows(a, parent, prev, supply, start),
                  CopiedRows(b, parent, prev + |a| * RANK_STEP, supply, start + NodeCount(a)));
  }

  lemma {:induction false} EntriesAre(nodes: seq<Node>, parent: Option<Id>, prev: nat, supply: seq<Id>, start: nat,
                                      rows: seq<Row>, originals: seq<Row>)
    requires start + NodeCount(nodes) <= |supply|
    requires rows == CopiedRows(nodes, parent, prev, supply, start) && originals == Preorder(nodes)
    ensures |rows| == |originals| && LogEntries(nodes, parent, prev, supply, start) == LogsFor(rows, originals)
  {
    CopiedLength(nodes, parent, prev, supply, start);
    PreorderLength(nodes);
  }

  lemma {:induction false} EntriesConcat(a: seq<Node>, b: seq<Node>, parent: Option<Id>, prev: nat, supply: seq<Id>,
                                         start: nat)
    requires start + NodeCount(a) + NodeCount(b) <= |supply| && NodeCount(a + b) == NodeCount(a) + NodeCount(b)
    ensures LogEntries(a + b, parent, prev, supply, start) ==
            LogEntries(a, parent, prev, supply, start)
            + LogEntries(b, parent, prev + |a| * RANK_STEP, supply, start + NodeCount(a))
  {
    var ra := CopiedRows(a, parent, prev, supply, start);
    var rb := CopiedRows(b, parent, prev + |a| * RANK_STEP, supply, start + NodeCount(a));
    EntriesAre(a, parent, prev, supply, start, ra, Preorder(a));
    EntriesAre(b, parent, prev + |a| * RANK_STEP, supply, start + NodeCount(a), rb, Preorder(b));
    JoinedEntries(a, b, parent, prev, supply, start, ra, rb);
    LogsConcat(ra, rb, Preorder(a), Preorder(b));
  }

  lemma {:induction false} JoinedEntries(a: seq<Node>, b: seq<Node>, parent: Option<Id>, prev: nat, supply: seq<Id>,
                                         start: nat, ra: seq<Row>, rb: seq<Row>)
    requires start + NodeCount(a) + NodeCount(b) <= |supply| && NodeCount(a + b) == NodeCount(a) + NodeCount(b)
    requires ra == CopiedRows(a, parent, prev, supply, start)
    requires rb == CopiedRows(b, parent, prev + |a| * RANK_STEP, supply, start + NodeCount(a))
    ensures |ra + rb| == |Preorder(a) + Preorder(b)|
    ensures LogEntries(a + b, parent, prev, supply, start) == LogsFor(ra + rb, Preorder(a) + Preorder(b))
  {
    CopiedConcat(a, b, parent, prev, supply, start);
    PreorderConcat(a, b);
    EntriesAre(a + b, parent, prev, supply, start, ra + rb, Preorder(a) + Preorder(b));
  }

  lemma {:induction false} CreatedConcat(a: seq<Node>, b: seq<Node>, parent: Option<Id>, prev: nat, supply: seq<Id>,
                                         start: nat)
    requires start + NodeCount(a) + NodeCount(b) <= |supply|
    ensures NodeCount(a + b) == NodeCount(a) + NodeCount(b)
    ensures TasksFor(a + b, parent, prev, supply, start) ==
            TasksFor(a, parent, prev, supply, start)
            + TasksFor(b, parent, prev + |a| * RANK_STEP, supply, start + NodeCount(a))
    ensures LogEntries(a + b, parent, prev, supply, start) ==
            LogEntries(a, parent, prev, supply, start)
            + LogEntries(b, parent, prev + |a| * RANK_STEP, supply, start + NodeCount(a))
  {
    CopiedConcat(a, b, parent, prev, supply, start);
    TasksConcat(a, b, parent, prev, supply, start);
    EntriesConcat(a, b, parent, prev, supply, start);
  }

  lemma CreatedOne(n: Node, parent: Option<Id>, prev: nat, supply: seq<Id>, start: nat)
    requires start + 1 + NodeCount(n.subtasks) <= |supply|
    ensures NodeCount([n]) == 1 + NodeCount(n.subtasks)
    ensures TasksFor([n], parent, prev, supply, start) ==
            [Task(supply[start], Trim(n.row.name), parent, FormatRankValue(prev + RANK_STEP))]
            + TasksFor(n.subtasks, Some(supply[start]), 0, supply, start + 1)
    ensures LogEntries([n], parent, prev, supply, start) ==
            [ActivityLog(supply[start], n.row.id, parent)]
            + LogEntries(n.subtasks, Some(supply[start]), 0, supply, start + 1)
  {
    var first, below, rest := CopiedStep([n], parent, prev, supply, start);
    assert [n][1..] == [] && rest == [];
    assert [first] + below + rest == [first] + below;
    assert Preorder([n]) == [n.row] + Preorder(n.subtasks);
    CopiedLength(n.subtasks, Some(supply[start]), 0, supply, start + 1);
    PreorderLength(n.subtasks);
    AsTasksConcat([first], below);
    LogsConcat([first], below, [n.row], Preorder(n.subtasks));
  }

  /** The last order given under a parent, zero at first. */
  function Counter(rankCounters: map<Option<Id>, nat>, p: Option<Id>): nat {
    if p in rankCounters then rankCounters[p] else 0
  }

  /** What the transaction has written so far. */
  datatype Written = Written(used: nat, tasks: seq<Task>, taskLogs: seq<ActivityLog>, projectLogs: seq<ActivityLog>)

  /** Between two points exactly the tasks of a sibling list and their entries in both logs were added. */
  ghost predicate Added(nodes: seq<Node>, parent: Option<Id>, prev: nat, supply: seq<Id>, before: Written,
                        after: Written) {
    && before.used + NodeCount(nodes) == after.used <= |supply|
    && after.tasks == before.tasks + TasksFor(nodes, parent, prev, supply, before.used)
    && after.taskLogs == before.taskLogs + LogEntries(nodes, parent, prev, supply, before.used)
    && after.projectLogs == before.projectLogs + LogEntries(nodes, parent, prev, supply, before.used)
  }

  lemma AddedNone(parent: Option<Id>, prev: nat, supply: seq<Id>, w: Written)
    requires w.used <= |supply|
    ensures Added([], parent, prev, supply, w, w)
  {}

  lemma AddedOne(n: Node, parent: Option<Id>, prev: nat, supply: seq<Id>, before: Written, after: Written)
    requires before.used < |supply|
    requires
      var id := supply[before.used];
      var log := ActivityLog(id, n.row.id, parent);
      var w := Written(before.used + 1,
                       before.tasks + [Task(id, Trim(n.row.name), parent, FormatRankValue(prev + RANK_STEP))],
                       before.taskLogs + [log], before.projectLogs + [log]);
      Added(n.subtasks, Some(id), 0, supply, w, after)
    ensures Added([n], parent, prev, supply, before, after)
  {
    CreatedOne(n, parent, prev, supply, before.used);
    var id := supply[before.used];
    var log, below := ActivityLog(id, n.row.id, parent), LogEntries(n.subtasks, Some(id), 0, supply, before.used + 1);
    ConcatAssociative(before.tasks, [Task(id, Trim(n.row.name), parent, FormatRankValue(prev + RANK_STEP))],
                      TasksFor(n.subtasks, Some(id), 0, supply, before.used + 1));
    ConcatAssociative(before.taskLogs, [log], below);
    ConcatAssociative(before.projectLogs, [log], below);
  }

  lemma AddedNext(nodes: seq<Node>, i: nat, parent: Option<Id>, supply: seq<Id>, before: Written, mid: Written,
                  after: Written)
    requires i < |nodes|
    requires Added(nodes[..i], parent, 0, supply, before, mid)
    requires Added([nodes[i]], parent, i * RANK_STEP, supply, mid, after)
    ensures Added(nodes[..i + 1], parent, 0, supply, before, after)
  {
    var a, b := nodes[..i], [nodes[i]];
    AddedBoth(a, b, parent, supply, before, mid, after);
    assert nodes[..i + 1] == a + b;
  }

  lemma AddedBoth(a: seq<Node>, b: seq<Node>, parent: Option<Id>, supply: seq<Id>, before: Written, mid: Written,
                  after: Written)
    requires Added(a, parent, 0, supply, before, mid)
    requires Added(b, parent, |a| * RANK_STEP, supply, mid, after)
    ensures Added(a + b, parent, 0, supply, before, after)
  {
    CreatedConcat(a, b, parent, 0, supply, before.used);
    var start, next := before.used, mid.used;
    ConcatAssociative(before.tasks, TasksFor(a, parent, 0, supply, start),
                      TasksFor(b, parent, |a| * RANK_STEP, supply, next));
    var la, lb := LogEntries(a, parent, 0, supply, start), LogEntries(b, parent, |a| * RANK_STEP, supply, next);
    ConcatAssociative(before.taskLogs, la, lb);
    ConcatAssociative(before.projectLogs, la, lb);
  }

  lemma {:induction false} SplitCount(nodes: seq<Node>, i: nat)
    requires i < |nodes|
    ensures NodeCount(nodes[..i + 1]) == NodeCount(nodes[..i]) + 1 + NodeCount(nodes[i].subtasks) <= NodeCount(nodes)
  {
    assert nodes[..i + 1] == nodes[..i] + [nodes[i]];
    PreorderConcat(nodes[..i], [nodes[i]]);
    assert [nodes[i]][1..] == [];
    assert nodes == nodes[..i + 1] + nodes[i + 1..];
    PreorderConcat(nodes[..i + 1], nodes[i + 1..]);
  }

  /** No parent, or one of the first n ids handed out. */
  predicate Issued(supply: seq<Id>, n: nat, p: Option<Id>)
    requires n <= |supply|
  {
    p.None? || p.value in supply[..n]
  }

  lemma StaysIssued(supply: seq<Id>, n: nat, m: nat, p: Option<Id>)
    requires n <= m <= |supply| && Issued(supply, n, p)
    ensures Issued(supply, m, p)
  {}

  /** Counters exist only for the roots and for tasks already created. */
  ghost predicate CountersOnly(rankCounters: map<Option<Id>, nat>, supply: seq<Id>, n: nat)
    requires n <= |supply|
  {
    forall p :: p in rankCounters ==> Issued(supply, n, p)
  }

  /** Counters of the other parents known at point n are as they were. */
  ghost predicate OthersKept(before: map<Option<Id>, nat>, after: map<Option<Id>, nat>, parent: Option<Id>,
                             supply: seq<Id>, n: nat)
    requires n <= |supply|
  {
    forall p :: p != parent && Issued(supply, n, p) ==> Counter(after, p) == Counter(before, p)
  }

  lemma OthersKeptAcross(m0: map<Option<Id>, nat>, m1: map<Option<Id>, nat>, m2: map<Option<Id>, nat>,
                         parent: Option<Id>, supply: seq<Id>, n0: nat, n1: nat)
    requires n0 <= n1 <= |supply|
    requires OthersKept(m0, m1, parent, supply, n0) && OthersKept(m1, m2, parent, supply, n1)
    ensures OthersKept(m0, m2, parent, supply, n0)
  {}

  /** A new id is none of the earlier ones, so its counter is still at zero and the others are untouched by it. */
  lemma FreshCounter(supply: seq<Id>, n: nat, before: map<Option<Id>, nat>, parent: Option<Id>, next: nat)
    requires DistinctIds(supply) && n < |supply| && CountersOnly(before, supply, n) && Issued(supply, n, parent)
    ensures
      var after := before[parent := next];
      && CountersOnly(after, supply, n + 1) && Issued(supply, n + 1, Some(supply[n]))
      && Some(supply[n]) != parent && Counter(after, Some(supply[n])) == 0
      && OthersKept(before, after, parent, supply, n)
      && !Issued(supply, n, Some(supply[n]))
  {}

  lemma ChildrenKeepCounters(supply: seq<Id>, n: nat, before: map<Option<Id>, nat>, mid: map<Option<Id>, nat>,
                             after: map<Option<Id>, nat>, parent: Option<Id>)
    requires n < |supply| && Issued(supply, n, parent) && !Issued(supply, n, Some(supply[n]))
    requires OthersKept(before, mid, parent, supply, n)
    requires OthersKept(mid, after, Some(supply[n]), supply, n + 1)
    ensures OthersKept(before, after, parent, supply, n) && Counter(after, parent) == Counter(mid, parent)
  {}

  lemma {:induction false} AddedSizes(nodes: seq<Node>, supply: seq<Id>, before: Written, after: Written)
    requires Added(nodes, None, 0, supply, before, after)
    ensures |after.tasks| == |before.tasks| + NodeCount(nodes)
    ensures |after.taskLogs| == |before.taskLogs| + NodeCount(nodes)
    ensures |after.projectLogs| == |before.projectLogs| + NodeCount(nodes)
  {
    CopiedLength(nodes, None, 0, supply, before.used);
  }

  lemma {:induction false} UniqueSize(a: seq<Row>, b: seq<Row>)
    requires UniqueIds(a) && forall r :: r in a ==> r in b
    ensures |a| <= |b|
  {
    if a != [] {
      assert a[0] in b;
      var i :| 0 <= i < |b| && b[i] == a[0];
      var rest := b[..i] + b[i + 1..];
      forall r | r in a[1..] ensures r in rest {
        assert r in b;
        var j :| 0 <= j < |b| && b[j] == r;
        assert j != i;
        assert r in b[..i] || r in b[i + 1..];
      }
      UniqueSize(a[1..], rest);
    }
  }

  lemma {:induction false} PutSize(entries: seq<Row>, r: Row)
    ensures |Put(entries, r)| <= |entries| + 1
  {
    if entries != [] && entries[0].id != r.id {
      PutSize(entries[1..], r);
    }
  }

  lemma {:induction false} MapEntriesSize(tasks: seq<Row>)
    ensures |MapEntries(tasks)| <= |tasks|
  {
    if tasks != [] {
      MapEntriesSize(tasks[..|tasks| - 1]);
      PutSize(MapEntries(tasks[..|tasks| - 1]), tasks[|tasks| - 1]);
    }
  }

  class SeedingTransaction {
    const supply: seq<Id>      // the ids the task table hands out, in order
    var used: nat
    var tasks: seq<Task>
    var rankCounters: map<Option<Id>, nat>
    var taskLogs: seq<ActivityLog>
    var projectLogs: seq<ActivityLog>

    constructor (supply: seq<Id>)
      ensures this.supply == supply && used == 0
      ensures tasks == [] && rankCounters == map[] && taskLogs == [] && projectLogs == []
    {
      this.supply := supply;
      used, tasks, rankCounters, taskLogs, projectLogs := 0, [], map[], [], [];
    }

    ghost predicate Valid()
      reads this
    {
      DistinctIds(supply) && used <= |supply| && CountersOnly(rankCounters, supply, used)
    }

    ghost function Output(): Written
      reads this
    {
      Written(used, tasks, taskLogs, projectLogs)
    }

    /** One entry in each log. */
    method CollectSeededTaskActivity(task: Task, templateTaskId: Id)
      modifies this`taskLogs, this`projectLogs
      ensures taskLogs == old(taskLogs) + [ActivityLog(task.id, templateTaskId, task.parentTaskId)]
      ensures projectLogs == old(projectLogs) + [ActivityLog(task.id, templateTaskId, task.parentTaskId)]
    {
      var log := ActivityLog(task.id, templateTaskId, task.parentTaskId);
      taskLogs := taskLogs + [log];
      projectLogs := projectLogs + [log];
    }

    /** Create the task of one template node under parent, then those of its subtasks. */
    method CreateProjectTaskFromTemplate(n: Node, parent: Option<Id>) returns (createdCount: nat)
      requires Valid() && used + 1 + NodeCount(n.subtasks) <= |supply|
      requires Issued(supply, used, parent)
      modifies this
      ensures Valid() && createdCount == 1 + NodeCount(n.subtasks)
      ensures Added([n], parent, Counter(old(rankCounters), parent), supply, old(Output()), Output())
      ensures Counter(rankCounters, parent) == Counter(old(rankCounters), parent) + RANK_STEP
      ensures OthersKept(old(rankCounters), rankCounters, parent, supply, old(used))
      decreases n
    {
      var prevRank := Counter(rankCounters, parent);
      var nextRank := prevRank + RANK_STEP;
      FreshCounter(supply, used, rankCounters, parent, nextRank);
      rankCounters := rankCounters[parent := nextRank];
      var rank := FormatRankValue(nextRank);
      var id := supply[used];
      used := used + 1;
      var savedTask := Task(id, Trim(n.row.name), parent, rank);
      tasks := tasks + [savedTask];
      CollectSeededTaskActivity(savedTask, n.row.id);
      ghost var mid := rankCounters;
      var below := CreateSiblings(n.subtasks, Some(id));
      createdCount := 1 + below;
      AddedOne(n, parent, prevRank, supply, old(Output()), Output());
      ChildrenKeepCounters(supply, old(used), old(rankCounters), mid, rankCounters, parent);
    }

    /** The loop over a sibling list. */
    method CreateSiblings(nodes: seq<Node>, parent: Option<Id>) returns (createdCount: nat)
      requires Valid() && used + NodeCount(nodes) <= |supply|
      requires Issued(supply, used, parent) && Counter(rankCounters, parent) == 0
      modifies this
      ensures Valid() && createdCount == NodeCount(nodes)
      ensures Added(nodes, parent, 0, supply, old(Output()), Output())
      ensures OthersKept(old(rankCounters), rankCounters, parent, supply, old(used))
      decreases nodes
    {
      createdCount := 0;
      AddedNone(parent, 0, supply, Output());
      assert nodes[..0] == [];
      for i := 0 to |nodes|
        invariant Valid() && createdCount == NodeCount(nodes[..i])
        invariant Counter(rankCounters, parent) == i * RANK_STEP && Issued(supply, old(used), parent)
        invariant old(used) <= used && Added(nodes[..i], parent, 0, supply, old(Output()), Output())
        invariant OthersKept(old(rankCounters), rankCounters, parent, supply, old(used))
      {
        SplitCount(nodes, i);
        StaysIssued(supply, old(used), used, parent);
        ghost var mid, before := Output(), rankCounters;
        var created := CreateProjectTaskFromTemplate(nodes[i], parent);
        createdCount := createdCount + created;
        AddedNext(nodes, i, parent, supply, old(Output()), mid, Output());
        OthersKeptAcross(old(rankCounters), before, rankCounters, parent, supply, old(used), mid.used);
      }
      assert nodes[..|nodes|] == nodes;
    }

    /**
     Build the template forest and copy all of it, or do nothing when the project has no
     default status and task type yet. The count returned is the number of tasks created and
     of entries in either log.
     */
    method SeedProjectTasksFromTemplate(configSeeded: bool, templateTasks: seq<Row>)
      returns (createdCount: nat, ghost forest: seq<Node>)
      requires Valid() && rankCounters == map[] && used + |templateTasks| <= |supply|
      modifies this
      ensures !configSeeded ==> createdCount == 0 && Output() == old(Output())
      ensures configSeeded ==> IsForestOf(MapEntries(templateTasks), forest) && createdCount == NodeCount(forest)
      ensures configSeeded ==> Added(forest, None, 0, supply, old(Output()), Output())
      ensures |tasks| == |old(tasks)| + createdCount
      ensures |taskLogs| == |old(taskLogs)| + createdCount && |projectLogs| == |old(projectLogs)| + createdCount
    {
      forest := [];
      if !configSeeded {
        return 0, forest;
      }
      var templateTree := BuildTemplateTaskTree(templateTasks);
      UniqueSize(Preorder(templateTree), MapEntries(templateTasks));
      MapEntriesSize(templateTasks);
      PreorderLength(templateTree);
      createdCount := CreateSiblings(templateTree, None);
      forest := templateTree;
      AddedSizes(templateTree, supply, old(Output()), Output());
    }
  }
}
