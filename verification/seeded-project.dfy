/**
 Reading seeded tasks back: grouping the created tasks by parent and sorting each group by
 rank string shows the template outline again, in whatever sequence the table returns them.
 */
module SeededProject {
  import opened Options
  import opened RankCodec
  import opened LinkedForest
  import opened ForestShape
  import opened Templates
  import opened Trimming
  import opened Seeding

  // -------------------------------------------------------------------------
  // Reading a project's tasks
  // -------------------------------------------------------------------------

  function ChildrenOf(tasks: seq<Task>, p: Option<Id>): (s: seq<Task>)
    ensures forall t :: t in s ==> t in tasks
  {
    if tasks == [] then []
    else
      var init, last := tasks[..|tasks| - 1], tasks[|tasks| - 1];
      ChildrenOf(init, p) + if last.parentTaskId == p then [last] else []
  }

  function InsertByRank(s: seq<Task>, t: Task): seq<Task> {
    if s == [] || RankCodec.LexLess(t.rank, s[0].rank) then [t] + s else [s[0]] + InsertByRank(s[1..], t)
  }

  /** Stable sort by rank string, in dictionary order. */
  function SortByRank(tasks: seq<Task>): seq<Task> {
    if tasks == [] then [] else InsertByRank(SortByRank(tasks[..|tasks| - 1]), tasks[|tasks| - 1])
  }

  /** The tasks under p, sorted by rank, show the outline: its trimmed names in order, and so on down every task. */
  predicate ReadsBack(tasks: seq<Task>, p: Option<Id>, outline: seq<TaskDto>)
    decreases outline
  {
    var group := SortByRank(ChildrenOf(tasks, p));
    && |group| == |outline|
    && forall i :: 0 <= i < |outline| ==>
         && group[i].title == Trim(outline[i].name)
         && ReadsBack(tasks, Some(group[i].id), outline[i].subtasks)
  }

  /** Every sibling list is short enough for its ranks not to wrap around. */
  predicate Narrow(nodes: seq<Node>) {
    |nodes| < SIBLING_LIMIT && forall n :: n in nodes ==> Narrow(n.subtasks)
  }

  // -------------------------------------------------------------------------
  // Tasks as linked rows, ordered by the number their rank denotes
  // -------------------------------------------------------------------------

  function View(t: Task): Row {
    var v := ParsedRank(Some(t.rank));
    Row(t.id, t.title, "", if v.Some? then v.value else 0, t.parentTaskId)
  }

  function Views(tasks: seq<Task>): (rows: seq<Row>)
    ensures |rows| == |tasks|
    ensures forall i :: 0 <= i < |rows| ==> rows[i] == View(tasks[i])
  {
    seq(|tasks|, i requires 0 <= i < |tasks| => View(tasks[i]))
  }

  predicate AllRanked(tasks: seq<Task>) {
    forall t :: t in tasks ==> IsRank(t.rank)
  }

  lemma RankComparison(a: Task, b: Task)
    requires IsRank(a.rank) && IsRank(b.rank)
    ensures RankCodec.LexLess(a.rank, b.rank) <==> View(a).order < View(b).order
  {
    RankOrder(a.rank, b.rank);
    LowerIsIdentity(a.rank);
    LowerIsIdentity(b.rank);
  }

  lemma ViewsCons(t: Task, s: seq<Task>)
    ensures Views([t] + s) == [View(t)] + Views(s)
    ensures AllRanked(s) && IsRank(t.rank) ==> AllRanked([t] + s)
  {}

  lemma ViewsTail(s: seq<Task>)
    requires s != []
    ensures Views(s)[0] == View(s[0]) && Views(s)[1..] == Views(s[1..])
    ensures AllRanked(s) ==> AllRanked(s[1..]) && IsRank(s[0].rank)
  {}

  lemma {:induction false} InsertByRankViews(s: seq<Task>, t: Task)
    requires AllRanked(s) && IsRank(t.rank)
    ensures Views(InsertByRank(s, t)) == Insert(Views(s), View(t))
    ensures AllRanked(InsertByRank(s, t))
  {
    ViewsCons(t, s);
    if s != [] {
      ViewsTail(s);
      RankComparison(t, s[0]);
      InsertByRankViews(s[1..], t);
      ViewsCons(s[0], InsertByRank(s[1..], t));
    } else {
      assert [t] + s == [t];
    }
  }

  /** Sorting by rank string is sorting by the numbers the ranks denote. */
  lemma {:induction false} SortByRankViews(tasks: seq<Task>)
    requires AllRanked(tasks)
    ensures Views(SortByRank(tasks)) == StableSort(Views(tasks))
    ensures AllRanked(SortByRank(tasks))
  {
    if tasks != [] {
      var init := tasks[..|tasks| - 1];
      SortByRankViews(init);
      assert Views(tasks)[..|tasks| - 1] == Views(init);
      InsertByRankViews(SortByRank(init), tasks[|tasks| - 1]);
    }
  }

  /** No task names a parent that is not among the ids. */
  ghost predicate ParentsKnown(tasks: seq<Task>, ids: set<Id>) {
    forall t :: t in tasks ==> ParentKey(ids, View(t)) == t.parentTaskId
  }

  lemma {:induction false} ChildrenViews(tasks: seq<Task>, ids: set<Id>, p: Option<Id>)
    requires ParentsKnown(tasks, ids)
    ensures Views(ChildrenOf(tasks, p)) == Siblings(Views(tasks), ids, p)
  {
    if tasks != [] {
      var init := tasks[..|tasks| - 1];
      ChildrenViews(init, ids, p);
      assert Views(tasks)[..|tasks| - 1] == Views(init);
    }
  }

  lemma Around<T>(x: seq<T>, t: T, y: seq<T>)
    ensures multiset(x + [t] + y) == multiset(x + y) + multiset{t}
  {}

  lemma ViewsConcat(x: seq<Task>, y: seq<Task>)
    ensures Views(x + y) == Views(x) + Views(y)
  {}

  lemma ViewsAround(x: seq<Task>, t: Task, y: seq<Task>)
    ensures multiset(x + [t] + y) == multiset(x + y) + multiset{t}
    ensures multiset(Views(x + [t] + y)) == multiset(Views(x + y)) + multiset{View(t)}
  {
    Around(x, t, y);
    ViewsConcat(x + [t], y);
    ViewsConcat(x, [t]);
    ViewsConcat(x, y);
    assert Views([t]) == [View(t)];
    Around(Views(x), View(t), Views(y));
  }

  lemma SplitAround(s: seq<Task>, t: Task) returns (x: seq<Task>, y: seq<Task>)
    requires t in s
    ensures s == x + [t] + y
  {
    var i :| 0 <= i < |s| && s[i] == t;
    x, y := s[..i], s[i + 1..];
  }

  lemma SameRest<T>(a: multiset<T>, b: multiset<T>, t: T)
    requires a + multiset{t} == b + multiset{t}
    ensures a == b
  {
    assert a == (a + multiset{t}) - multiset{t};
    assert b == (b + multiset{t}) - multiset{t};
  }

  lemma {:induction false} ViewsPermuted(a: seq<Task>, b: seq<Task>)
    requires multiset(a) == multiset(b)
    ensures multiset(Views(a)) == multiset(Views(b))
  {
    if a == [] {
      assert |multiset(b)| == 0;
      assert b == [];
    } else {
      var t := a[0];
      assert a == [] + [t] + a[1..] && [] + a[1..] == a[1..];
      ViewsAround([], t, a[1..]);
      assert t in multiset(b);
      var x, y := SplitAround(b, t);
      ViewsAround(x, t, y);
      SameRest(multiset(a[1..]), multiset(x + y), t);
      ViewsPermuted(a[1..], x + y);
    }
  }

  // -------------------------------------------------------------------------
  // The copied forest
  // -------------------------------------------------------------------------

  /** The created tasks as rows, hung in the shape of the template forest. */
  ghost function CopiedForest(nodes: seq<Node>, parent: Option<Id>, prev: nat, supply: seq<Id>,
                              start: nat): (copy: seq<Node>)
    requires start + NodeCount(nodes) <= |supply|
    ensures |copy| == |nodes|
  {
    if nodes == [] then []
    else
      var n := nodes[0];
      [Node(Row(supply[start], Trim(n.row.name), "", prev + RANK_STEP, parent),
            CopiedForest(n.subtasks, Some(supply[start]), 0, supply, start + 1))]
      + CopiedForest(nodes[1..], parent, prev + RANK_STEP, supply, Past(nodes, start))
  }

  /** The first node of the copied forest, and the others. */
  lemma CopiedForestStep(nodes: seq<Node>, parent: Option<Id>, prev: nat, supply: seq<Id>, start: nat)
    returns (n: Node, rest: seq<Node>)
    requires nodes != [] && start + NodeCount(nodes) <= |supply|
    ensures n.row == Row(supply[start], Trim(nodes[0].row.name), "", prev + RANK_STEP, parent)
    ensures n.subtasks == CopiedForest(nodes[0].subtasks, Some(supply[start]), 0, supply, start + 1)
    ensures rest == CopiedForest(nodes[1..], parent, prev + RANK_STEP, supply, Past(nodes, start))
    ensures CopiedForest(nodes, parent, prev, supply, start) == [n] + rest
  {
    n := CopiedForest(nodes, parent, prev, supply, start)[0];
    rest := CopiedForest(nodes[1..], parent, prev + RANK_STEP, supply, Past(nodes, start));
  }

  lemma CopiedAboveStep(nodes: seq<Node>, parent: Option<Id>, prev: nat, supply: seq<Id>, start: nat)
    requires nodes != [] && start + NodeCount(nodes) <= |supply|
    requires Above(CopiedForest(nodes[1..], parent, prev + RANK_STEP, supply, Past(nodes, start)), prev + RANK_STEP)
    ensures Above(CopiedForest(nodes, parent, prev, supply, start), prev)
  {
    var n, rest := CopiedForestStep(nodes, parent, prev, supply, start);
    AboveCons(n, rest, prev);
  }

  lemma {:induction false} CopiedAbove(nodes: seq<Node>, parent: Option<Id>, prev: nat, supply: seq<Id>, start: nat)
    requires start + NodeCount(nodes) <= |supply|
    ensures Above(CopiedForest(nodes, parent, prev, supply, start), prev)
  {
    if nodes != [] {
      CopiedAbove(nodes[1..], parent, prev + RANK_STEP, supply, Past(nodes, start));
      CopiedAboveStep(nodes, parent, prev, supply, start);
    }
  }

  lemma {:induction false} CopiedLinkedStep(nodes: seq<Node>, parent: Option<Id>, prev: nat, supply: seq<Id>,
                                            start: nat)
    requires nodes != [] && start + NodeCount(nodes) <= |supply|
    requires supply[start] != ""
    requires WellLinked(CopiedForest(nodes[0].subtasks, Some(supply[start]), 0, supply, start + 1), Some(supply[start]))
    requires WellLinked(CopiedForest(nodes[1..], parent, prev + RANK_STEP, supply, Past(nodes, start)), parent)
    ensures WellLinked(CopiedForest(nodes, parent, prev, supply, start), parent)
  {
    var n, rest := CopiedForestStep(nodes, parent, prev, supply, start);
    CopiedAbove(nodes[1..], parent, prev + RANK_STEP, supply, Past(nodes, start));
    LinkedCons(n, rest, parent);
  }

  lemma {:induction false} CopiedLinked(nodes: seq<Node>, parent: Option<Id>, prev: nat, supply: seq<Id>, start: nat)
    requires start + NodeCount(nodes) <= |supply| && DistinctIds(supply)
    ensures WellLinked(CopiedForest(nodes, parent, prev, supply, start), parent)
  {
    if nodes != [] {
      CopiedLinked(nodes[0].subtasks, Some(supply[start]), 0, supply, start + 1);
      CopiedLinked(nodes[1..], parent, prev + RANK_STEP, supply, Past(nodes, start));
      CopiedLinkedStep(nodes, parent, prev, supply, start);
    }
  }

  lemma AllRankedTasks(rows: seq<Row>)
    ensures AllRanked(AsTasks(rows))
  {}

  lemma {:induction false} CopiedForestPreorder(nodes: seq<Node>, parent: Option<Id>, prev: nat, supply: seq<Id>,
                                                start: nat)
    requires start + NodeCount(nodes) <= |supply|
    ensures Preorder(CopiedForest(nodes, parent, prev, supply, start)) == CopiedRows(nodes, parent, prev, supply, start)
  {
    if nodes != [] {
      CopiedForestPreorder(nodes[0].subtasks, Some(supply[start]), 0, supply, start + 1);
      CopiedForestPreorder(nodes[1..], parent, prev + RANK_STEP, supply, Past(nodes, start));
      var n, rest := CopiedForestStep(nodes, parent, prev, supply, start);
      ConsFacts(n, rest);
    }
  }

  predicate InRange(rows: seq<Row>) {
    forall r :: r in rows ==> 0 <= r.order < RANK_LIMIT && r.description == ""
  }

  lemma InRangeParts(first: Row, below: seq<Row>, rest: seq<Row>)
    requires 0 <= first.order < RANK_LIMIT && first.description == "" && InRange(below) && InRange(rest)
    ensures InRange([first] + below + rest)
  {}

  predicate NarrowBelow(nodes: seq<Node>) {
    forall n :: n in nodes ==> Narrow(n.subtasks)
  }

  /** There is room for n more ranks above prev. */
  predicate Room(prev: nat, n: nat) {
    prev + n * RANK_STEP < RANK_LIMIT
  }

  lemma RoomStep(prev: nat, n: nat)
    requires Room(prev, n) && n > 0
    ensures prev + RANK_STEP < RANK_LIMIT && Room(prev + RANK_STEP, n - 1)
  {}

  lemma NarrowParts(nodes: seq<Node>)
    requires nodes != [] && NarrowBelow(nodes)
    ensures Room(0, |nodes[0].subtasks|) && NarrowBelow(nodes[0].subtasks) && NarrowBelow(nodes[1..])
  {}

  lemma CopiedInRangeStep(nodes: seq<Node>, parent: Option<Id>, prev: nat, supply: seq<Id>, start: nat)
    requires nodes != [] && start + NodeCount(nodes) <= |supply|
    requires prev + RANK_STEP < RANK_LIMIT
    requires InRange(CopiedRows(nodes[0].subtasks, Some(supply[start]), 0, supply, start + 1))
    requires InRange(CopiedRows(nodes[1..], parent, prev + RANK_STEP, supply, Past(nodes, start)))
    ensures InRange(CopiedRows(nodes, parent, prev, supply, start))
  {
    var first, below, rest := CopiedStep(nodes, parent, prev, supply, start);
    InRangeParts(first, below, rest);
  }

  /** In a narrow forest no order reaches the limit of the rank codec. */
  lemma {:induction false} CopiedInRange(nodes: seq<Node>, parent: Option<Id>, prev: nat, supply: seq<Id>, start: nat)
    requires start + NodeCount(nodes) <= |supply|
    requires Room(prev, |nodes|) && NarrowBelow(nodes)
    ensures InRange(CopiedRows(nodes, parent, prev, supply, start))
  {
    if nodes != [] {
      NarrowParts(nodes);
      RoomStep(prev, |nodes|);
      CopiedInRange(nodes[0].subtasks, Some(supply[start]), 0, supply, start + 1);
      CopiedInRange(nodes[1..], parent, prev + RANK_STEP, supply, Past(nodes, start));
      CopiedInRangeStep(nodes, parent, prev, supply, start);
    }
  }

  /** Viewed as rows, the tasks stored for in-range rows are those rows. */
  lemma ViewsOfTasks(rows: seq<Row>)
    requires InRange(rows)
    ensures Views(AsTasks(rows)) == rows
  {
    forall i | 0 <= i < |rows| ensures Views(AsTasks(rows))[i] == rows[i] {
      assert rows[i] in rows;
      ParseFormat(rows[i].order);
    }
  }

  // -------------------------------------------------------------------------
  // Reading back
  // -------------------------------------------------------------------------

  /** The copy has the shape of the nodes and their names, trimmed. */
  ghost predicate Alike(copy: seq<Node>, nodes: seq<Node>)
    decreases nodes
  {
    && |copy| == |nodes|
    && (nodes == [] || (copy[0].row.name == Trim(nodes[0].row.name) && Alike(copy[0].subtasks, nodes[0].subtasks)
                        && Alike(copy[1..], nodes[1..])))
  }

  lemma {:induction false} AlikeAt(copy: seq<Node>, nodes: seq<Node>, i: nat)
    requires Alike(copy, nodes) && i < |nodes|
    ensures copy[i].row.name == Trim(nodes[i].row.name) && Alike(copy[i].subtasks, nodes[i].subtasks)
  {
    if i > 0 {
      AlikeAt(copy[1..], nodes[1..], i - 1);
    }
  }

  lemma {:induction false} CopiedAlike(nodes: seq<Node>, parent: Option<Id>, prev: nat, supply: seq<Id>, start: nat)
    requires start + NodeCount(nodes) <= |supply|
    ensures Alike(CopiedForest(nodes, parent, prev, supply, start), nodes)
  {
    if nodes != [] {
      CopiedAlike(nodes[0].subtasks, Some(supply[start]), 0, supply, start + 1);
      CopiedAlike(nodes[1..], parent, prev + RANK_STEP, supply, Past(nodes, start));
      var n, rest := CopiedForestStep(nodes, parent, prev, supply, start);
      assert ([n] + rest)[1..] == rest;
    }
  }

  /** The tasks of a group are the roots of the forest that they represent. */
  lemma {:induction false} GroupIsTop(tasks: seq<Task>, ids: set<Id>, p: Option<Id>, copy: seq<Node>)
    requires AllRanked(tasks) && ParentsKnown(tasks, ids) && Represents(Views(tasks), ids, p, copy)
    ensures
      var group := SortByRank(ChildrenOf(tasks, p));
      |group| == |copy| && forall i :: 0 <= i < |copy| ==> View(group[i]) == copy[i].row
  {
    var group := SortByRank(ChildrenOf(tasks, p));
    ChildrenViews(tasks, ids, p);
    SortByRankViews(ChildrenOf(tasks, p));
    assert TopRows(copy) == Views(group);
    forall i | 0 <= i < |copy| ensures View(group[i]) == copy[i].row {
      assert TopRows(copy)[i] == Views(group)[i];
    }
  }

  lemma {:induction false} TasksReadBack(tasks: seq<Task>, ids: set<Id>, p: Option<Id>, copy: seq<Node>,
                                         nodes: seq<Node>)
    requires AllRanked(tasks) && ParentsKnown(tasks, ids)
    requires Represents(Views(tasks), ids, p, copy) && Alike(copy, nodes)
    ensures ReadsBack(tasks, p, Outline(nodes))
    decreases nodes
  {
    GroupIsTop(tasks, ids, p, copy);
    OutlineAt(nodes);
    forall i | 0 <= i < |nodes|
      ensures
        var group := SortByRank(ChildrenOf(tasks, p));
        && group[i].title == Trim(nodes[i].row.name)
        && ReadsBack(tasks, Some(group[i].id), Outline(nodes[i].subtasks))
    {
      AlikeAt(copy, nodes, i);
      assert copy[i] in copy;
      TasksReadBack(tasks, ids, Some(copy[i].row.id), copy[i].subtasks, nodes[i].subtasks);
    }
  }

  lemma {:induction false} OutlineAt(nodes: seq<Node>)
    ensures |Outline(nodes)| == |nodes|
    ensures forall i :: 0 <= i < |nodes| ==>
              Outline(nodes)[i] == TaskDto(nodes[i].row.name, nodes[i].row.description, Outline(nodes[i].subtasks))
  {
    if nodes != [] {
      OutlineAt(nodes[1..]);
    }
  }

  /**
   Whatever order the created tasks come back in, grouping them by parent and sorting the
   groups by rank string shows the outline of the template forest.
   */
  lemma {:induction false} SeededTasksReadBack(nodes: seq<Node>, supply: seq<Id>, tasks: seq<Task>)
    requires DistinctIds(supply) && NodeCount(nodes) <= |supply| && Narrow(nodes)
    requires multiset(tasks) == multiset(TasksFor(nodes, None, 0, supply, 0))
    ensures ReadsBack(tasks, None, Outline(nodes))
  {
    var created := TasksFor(nodes, None, 0, supply, 0);
    var copy := CopiedForest(nodes, None, 0, supply, 0);
    CopiedForestPreorder(nodes, None, 0, supply, 0);
    CopiedInRange(nodes, None, 0, supply, 0);
    ViewsOfTasks(CopiedRows(nodes, None, 0, supply, 0));
    CopiedLinked(nodes, None, 0, supply, 0);
    ViewsPermuted(tasks, created);
    CreatedIdsUnique(nodes, supply);
    WellLinkedRecovered(copy, Views(tasks));
    var ids := IdSet(Views(tasks));
    AllRankedTasks(CopiedRows(nodes, None, 0, supply, 0));
    forall t | t in tasks ensures IsRank(t.rank) && ParentKey(ids, View(t)) == t.parentTaskId {
      assert t in multiset(created);
      LinkedToTable(copy, Views(tasks), View(t), tasks, t);
    }
    CopiedAlike(nodes, None, 0, supply, 0);
    TasksReadBack(tasks, ids, None, copy, nodes);
  }

  lemma {:induction false} CreatedIdsUnique(nodes: seq<Node>, supply: seq<Id>)
    requires DistinctIds(supply) && NodeCount(nodes) <= |supply|
    ensures UniqueIds(Views(TasksFor(nodes, None, 0, supply, 0)))
  {
    CopiedIds(nodes, None, 0, supply, 0);
  }

  lemma {:induction false} LinkedToTable(copy: seq<Node>, rows: seq<Row>, r: Row, tasks: seq<Task>, t: Task)
    requires WellLinked(copy, None) && multiset(rows) == multiset(Preorder(copy))
    requires rows == Views(tasks) && t in tasks && r == View(t)
    ensures ParentKey(IdSet(rows), r) == r.parentTaskId
  {
    var i :| 0 <= i < |tasks| && tasks[i] == t;
    assert rows[i] == r;
    assert r in multiset(rows);
    ParentWithin(copy, None, r);
    if r in TopRows(copy) && r.parentTaskId.None? {
    } else {
      var q := RowWithId(Preorder(copy), r.parentTaskId.value);
      ParentWithin(copy, None, q);
      assert q in multiset(rows);
    }
  }

  lemma {:induction false} TrimmedAt(tasks: seq<TaskDto>)
    ensures |Trimmed(tasks)| == |tasks|
    ensures forall i :: 0 <= i < |tasks| ==>
              Trimmed(tasks)[i] == TaskDto(Trim(tasks[i].name), Trim(tasks[i].description), Trimmed(tasks[i].subtasks))
  {
    if tasks != [] {
      TrimmedAt(tasks[1..]);
    }
  }

  lemma {:induction false} ReadsBackUntrimmed(tasks: seq<Task>, p: Option<Id>, outline: seq<TaskDto>)
    requires ReadsBack(tasks, p, Trimmed(outline))
    ensures ReadsBack(tasks, p, outline)
    decreases outline
  {
    var group := SortByRank(ChildrenOf(tasks, p));
    TrimmedAt(outline);
    forall i | 0 <= i < |outline|
      ensures group[i].title == Trim(outline[i].name) && ReadsBack(tasks, Some(group[i].id), outline[i].subtasks)
    {
      assert Trimmed(outline)[i].subtasks == Trimmed(outline[i].subtasks);
      TrimIdempotent(outline[i].name);
      ReadsBackUntrimmed(tasks, Some(group[i].id), outline[i].subtasks);
    }
  }

  /**
   From a template outline to a project and back: flatten the outline with fresh ids, read the
   rows in any order, rebuild the forest, seed the project, read its tasks in any order; the
   tasks show the outline that was sent.
   */
  lemma {:induction false} TemplateToProject(outline: seq<TaskDto>, rowIds: seq<Id>, rows: seq<Row>, forest: seq<Node>,
                          taskIds: seq<Id>, tasks: seq<Task>)
    requires |rowIds| == Size(outline) && DistinctIds(rowIds)
    requires multiset(rows) == multiset(BuildTaskEntities(outline, None, 0, rowIds))
    requires IsForestOf(rows, forest)
    requires DistinctIds(taskIds) && NodeCount(forest) <= |taskIds| && Narrow(forest)
    requires multiset(tasks) == multiset(TasksFor(forest, None, 0, taskIds, 0))
    ensures ReadsBack(tasks, None, outline)
    ensures |tasks| == Size(outline)
  {
    FlattenRebuild(outline, rowIds, rows, forest);
    SeededTasksReadBack(forest, taskIds, tasks);
    ReadsBackUntrimmed(tasks, None, outline);
    CopiedLength(forest, None, 0, taskIds, 0);
    PreorderLength(forest);
    FlattenedIds(outline, None, 0, rowIds);
    assert |multiset(tasks)| == |tasks| && |multiset(rows)| == |rows|;
    assert |multiset(Preorder(forest))| == NodeCount(forest);
  }

  /** The names at every level are without white space at either end. */
  predicate NamesTrimmed(outline: seq<TaskDto>)
    decreases outline
  {
    forall i :: 0 <= i < |outline| ==> IsTrimmed(outline[i].name) && NamesTrimmed(outline[i].subtasks)
  }

  /** The tasks under p, sorted by rank, have exactly the outline's names as titles, and so on down every task. */
  predicate Titled(tasks: seq<Task>, p: Option<Id>, outline: seq<TaskDto>)
    decreases outline
  {
    var group := SortByRank(ChildrenOf(tasks, p));
    && |group| == |outline|
    && forall i :: 0 <= i < |outline| ==>
         group[i].title == outline[i].name && Titled(tasks, Some(group[i].id), outline[i].subtasks)
  }

  lemma {:induction false} TitledIfTrimmed(tasks: seq<Task>, p: Option<Id>, outline: seq<TaskDto>)
    requires ReadsBack(tasks, p, outline) && NamesTrimmed(outline)
    ensures Titled(tasks, p, outline)
    decreases outline
  {
    var group := SortByRank(ChildrenOf(tasks, p));
    forall i | 0 <= i < |outline|
      ensures group[i].title == outline[i].name && Titled(tasks, Some(group[i].id), outline[i].subtasks)
    {
      TrimKeeps(outline[i].name);
      TitledIfTrimmed(tasks, Some(group[i].id), outline[i].subtasks);
    }
  }

  /** An outline whose names have no white space at either end comes back with exactly those names as titles. */
  lemma {:induction false} TitlesComeBack(outline: seq<TaskDto>, rowIds: seq<Id>, rows: seq<Row>, forest: seq<Node>,
                                          taskIds: seq<Id>, tasks: seq<Task>)
    requires |rowIds| == Size(outline) && DistinctIds(rowIds)
    requires multiset(rows) == multiset(BuildTaskEntities(outline, None, 0, rowIds))
    requires IsForestOf(rows, forest)
    requires DistinctIds(taskIds) && NodeCount(forest) <= |taskIds| && Narrow(forest)
    requires multiset(tasks) == multiset(TasksFor(forest, None, 0, taskIds, 0))
    requires NamesTrimmed(outline)
    ensures Titled(tasks, None, outline)
  {
    TemplateToProject(outline, rowIds, rows, forest, taskIds, tasks);
    TitledIfTrimmed(tasks, None, outline);
  }
}
