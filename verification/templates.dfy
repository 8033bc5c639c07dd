/**
 Templates: the nested task outline a client sends, its flattening into parent-linked rows,
 and the table those rows are kept in.
 */
module Templates {
  import opened Options
  import opened LinkedForest
  import opened ForestShape
  import opened Trimming

  datatype TaskDto = TaskDto(name: string, description: string, subtasks: seq<TaskDto>)

  // -------------------------------------------------------------------------
  // Flattening
  // -------------------------------------------------------------------------

  /** The number of tasks at every level. */
  function Size(tasks: seq<TaskDto>): nat {
    if tasks == [] then 0 else 1 + Size(tasks[0].subtasks) + Size(tasks[1..])
  }

  predicate DistinctIds(ids: seq<Id>) {
    && (forall i, j :: 0 <= i < j < |ids| ==> ids[i] != ids[j])
    && forall i :: 0 <= i < |ids| ==> ids[i] != ""
  }

  /** The ids for the subtasks of the first task, and those for the tasks after it. */
  function IdsBelow(tasks: seq<TaskDto>, ids: seq<Id>): (below: seq<Id>)
    requires tasks != [] && |ids| == Size(tasks)
    ensures |below| == Size(tasks[0].subtasks)
  {
    ids[1..1 + Size(tasks[0].subtasks)]
  }

  function IdsAfter(tasks: seq<TaskDto>, ids: seq<Id>): (after: seq<Id>)
    requires tasks != [] && |ids| == Size(tasks)
    ensures |after| == Size(tasks[1..])
  {
    ids[1 + Size(tasks[0].subtasks)..]
  }

  /**
   One row per task, each task followed by its subtasks; the sibling at position index gets
   order index + 1, and ids are taken from the supply in the order the rows are made.
   */
  function BuildTaskEntities(tasks: seq<TaskDto>, parent: Option<Id>, index: nat, ids: seq<Id>): (rows: seq<Row>)
    requires |ids| == Size(tasks)
  {
    if tasks == [] then []
    else
      var t := tasks[0];
      [Row(ids[0], Trim(t.name), Trim(t.description), index + 1, parent)]
      + BuildTaskEntities(t.subtasks, Some(ids[0]), 0, IdsBelow(tasks, ids))
      + BuildTaskEntities(tasks[1..], parent, index + 1, IdsAfter(tasks, ids))
  }

  /** The outline with every name and description trimmed. */
  function Trimmed(tasks: seq<TaskDto>): seq<TaskDto> {
    if tasks == [] then []
    else [TaskDto(Trim(tasks[0].name), Trim(tasks[0].description), Trimmed(tasks[0].subtasks))] + Trimmed(tasks[1..])
  }

  /** The outline a forest of rows shows: names and descriptions, without ids, orders or parents. */
  function Outline(nodes: seq<Node>): seq<TaskDto> {
    if nodes == [] then []
    else [TaskDto(nodes[0].row.name, nodes[0].row.description, Outline(nodes[0].subtasks))] + Outline(nodes[1..])
  }

  // -------------------------------------------------------------------------
  // Round trip
  // -------------------------------------------------------------------------

  /** The rows of the flattening, hung in the shape of the outline. */
  ghost function Numbered(tasks: seq<TaskDto>, parent: Option<Id>, index: nat, ids: seq<Id>): (nodes: seq<Node>)
    requires |ids| == Size(tasks)
  {
    if tasks == [] then []
    else
      var t := tasks[0];
      [Node(Row(ids[0], Trim(t.name), Trim(t.description), index + 1, parent),
            Numbered(t.subtasks, Some(ids[0]), 0, IdsBelow(tasks, ids)))]
      + Numbered(tasks[1..], parent, index + 1, IdsAfter(tasks, ids))
  }

  /** The first node of the flattening with what hangs below it, and the rest. */
  lemma NumberedStep(tasks: seq<TaskDto>, parent: Option<Id>, index: nat, ids: seq<Id>)
    returns (n: Node, rest: seq<Node>)
    requires tasks != [] && |ids| == Size(tasks)
    ensures n.row == Row(ids[0], Trim(tasks[0].name), Trim(tasks[0].description), index + 1, parent)
    ensures n.subtasks == Numbered(tasks[0].subtasks, Some(ids[0]), 0, IdsBelow(tasks, ids))
    ensures rest == Numbered(tasks[1..], parent, index + 1, IdsAfter(tasks, ids))
    ensures Numbered(tasks, parent, index, ids) == [n] + rest
  {
    var t := tasks[0];
    n := Node(Row(ids[0], Trim(t.name), Trim(t.description), index + 1, parent),
              Numbered(t.subtasks, Some(ids[0]), 0, IdsBelow(tasks, ids)));
    rest := Numbered(tasks[1..], parent, index + 1, IdsAfter(tasks, ids));
  }

  lemma {:induction false} ConsFacts(n: Node, rest: seq<Node>)
    ensures Preorder([n] + rest) == [n.row] + Preorder(n.subtasks) + Preorder(rest)
    ensures Outline([n] + rest) == [TaskDto(n.row.name, n.row.description, Outline(n.subtasks))] + Outline(rest)
  {}

  lemma {:induction false} NumberedRows(tasks: seq<TaskDto>, parent: Option<Id>, index: nat, ids: seq<Id>)
    requires |ids| == Size(tasks)
    ensures Preorder(Numbered(tasks, parent, index, ids)) == BuildTaskEntities(tasks, parent, index, ids)
  {
    if tasks != [] {
      var n, rest := NumberedStep(tasks, parent, index, ids);
      NumberedRows(tasks[0].subtasks, Some(ids[0]), 0, IdsBelow(tasks, ids));
      NumberedRows(tasks[1..], parent, index + 1, IdsAfter(tasks, ids));
      ConsFacts(n, rest);
    }
  }

  lemma {:induction false} NumberedOutline(tasks: seq<TaskDto>, parent: Option<Id>, index: nat, ids: seq<Id>)
    requires |ids| == Size(tasks)
    ensures Outline(Numbered(tasks, parent, index, ids)) == Trimmed(tasks)
  {
    if tasks != [] {
      var n, rest := NumberedStep(tasks, parent, index, ids);
      NumberedOutline(tasks[0].subtasks, Some(ids[0]), 0, IdsBelow(tasks, ids));
      NumberedOutline(tasks[1..], parent, index + 1, IdsAfter(tasks, ids));
      ConsFacts(n, rest);
    }
  }

  /** Every root comes after order k. */
  ghost predicate Above(nodes: seq<Node>, k: int) {
    forall n :: n in nodes ==> n.row.order > k
  }

  lemma AboveCons(n: Node, rest: seq<Node>, k: int)
    requires k < n.row.order && Above(rest, n.row.order)
    ensures Above([n] + rest, k)
  {}

  lemma {:induction false} NumberedAbove(tasks: seq<TaskDto>, parent: Option<Id>, index: nat, ids: seq<Id>)
    requires |ids| == Size(tasks)
    ensures Above(Numbered(tasks, parent, index, ids), index)
  {
    if tasks != [] {
      var n, rest := NumberedStep(tasks, parent, index, ids);
      NumberedAbove(tasks[1..], parent, index + 1, IdsAfter(tasks, ids));
      AboveCons(n, rest, index);
    }
  }

  lemma {:induction false} DistinctParts(tasks: seq<TaskDto>, ids: seq<Id>)
    requires tasks != [] && |ids| == Size(tasks) && DistinctIds(ids)
    ensures ids[0] != "" && DistinctIds(IdsBelow(tasks, ids)) && DistinctIds(IdsAfter(tasks, ids))
  {}

  lemma {:induction false} LinkedCons(n: Node, rest: seq<Node>, parent: Option<Id>)
    requires LinkedUnder(n, parent) && WellLinked(rest, parent) && Above(rest, n.row.order)
    ensures WellLinked([n] + rest, parent)
  {}

  lemma {:induction false} NumberedLinked(tasks: seq<TaskDto>, parent: Option<Id>, index: nat, ids: seq<Id>)
    requires |ids| == Size(tasks) && DistinctIds(ids)
    ensures WellLinked(Numbered(tasks, parent, index, ids), parent)
  {
    if tasks != [] {
      var n, rest := NumberedStep(tasks, parent, index, ids);
      DistinctParts(tasks, ids);
      NumberedLinked(tasks[0].subtasks, Some(ids[0]), 0, IdsBelow(tasks, ids));
      NumberedLinked(tasks[1..], parent, index + 1, IdsAfter(tasks, ids));
      NumberedAbove(tasks[1..], parent, index + 1, IdsAfter(tasks, ids));
      LinkedCons(n, rest, parent);
    }
  }

  /** Row i of the rows carries the i-th id. */
  ghost predicate Carry(rows: seq<Row>, ids: seq<Id>) {
    |rows| == |ids| && forall i :: 0 <= i < |ids| ==> rows[i].id == ids[i]
  }

  lemma CarryParts(first: Row, below: seq<Row>, rest: seq<Row>, ids: seq<Id>, k: nat)
    requires k < |ids| && first.id == ids[0] && Carry(below, ids[1..1 + k]) && Carry(rest, ids[1 + k..])
    ensures Carry([first] + below + rest, ids)
  {}

  /** One row per task of the outline, and row i of the flattening carries the i-th id of the supply. */
  lemma {:induction false} FlattenedIds(tasks: seq<TaskDto>, parent: Option<Id>, index: nat, ids: seq<Id>)
    requires |ids| == Size(tasks)
    ensures Carry(BuildTaskEntities(tasks, parent, index, ids), ids)
  {
    if tasks != [] {
      var below := BuildTaskEntities(tasks[0].subtasks, Some(ids[0]), 0, IdsBelow(tasks, ids));
      var rest := BuildTaskEntities(tasks[1..], parent, index + 1, IdsAfter(tasks, ids));
      FlattenedIds(tasks[0].subtasks, Some(ids[0]), 0, IdsBelow(tasks, ids));
      FlattenedIds(tasks[1..], parent, index + 1, IdsAfter(tasks, ids));
      var first := Row(ids[0], Trim(tasks[0].name), Trim(tasks[0].description), index + 1, parent);
      CarryParts(first, below, rest, ids, Size(tasks[0].subtasks));
    }
  }

  /** Siblings at every level are numbered one after another, those at this level from k + 1 on. */
  ghost predicate CountUp(nodes: seq<Node>, k: nat) {
    nodes == [] || (nodes[0].row.order == k + 1 && CountUp(nodes[0].subtasks, 0) && CountUp(nodes[1..], k + 1))
  }

  lemma {:induction false} NumberedCountUp(tasks: seq<TaskDto>, parent: Option<Id>, index: nat, ids: seq<Id>)
    requires |ids| == Size(tasks)
    ensures CountUp(Numbered(tasks, parent, index, ids), index)
  {
    if tasks != [] {
      var n, rest := NumberedStep(tasks, parent, index, ids);
      NumberedCountUp(tasks[0].subtasks, Some(ids[0]), 0, IdsBelow(tasks, ids));
      NumberedCountUp(tasks[1..], parent, index + 1, IdsAfter(tasks, ids));
      assert ([n] + rest)[1..] == rest;
    }
  }

  /** Names and descriptions at every level are without white space at either end. */
  predicate AllTrimmed(tasks: seq<TaskDto>) {
    tasks == [] || (IsTrimmed(tasks[0].name) && IsTrimmed(tasks[0].description) && AllTrimmed(tasks[0].subtasks)
                    && AllTrimmed(tasks[1..]))
  }

  lemma {:induction false} TrimmedKeeps(tasks: seq<TaskDto>)
    requires AllTrimmed(tasks)
    ensures Trimmed(tasks) == tasks
  {
    if tasks != [] {
      TrimKeeps(tasks[0].name);
      TrimKeeps(tasks[0].description);
      TrimmedKeeps(tasks[0].subtasks);
      TrimmedKeeps(tasks[1..]);
    }
  }

  /**
   Flattening an outline with distinct ids and rebuilding from any permutation of the rows
   gives the outline back, with names and descriptions trimmed: unchanged, if they already were.
   Siblings carry the orders 1, 2, 3 and so on.
   */
  lemma {:induction false} FlattenRebuild(tasks: seq<TaskDto>, ids: seq<Id>, rows: seq<Row>, forest: seq<Node>)
    requires |ids| == Size(tasks) && DistinctIds(ids)
    requires multiset(rows) == multiset(BuildTaskEntities(tasks, None, 0, ids))
    requires IsForestOf(rows, forest)
    ensures Outline(forest) == Trimmed(tasks) && (AllTrimmed(tasks) ==> Outline(forest) == tasks)
    ensures CountUp(forest, 0) && multiset(Preorder(forest)) == multiset(rows)
  {
    var expected := Numbered(tasks, None, 0, ids);
    NumberedRows(tasks, None, 0, ids);
    NumberedOutline(tasks, None, 0, ids);
    NumberedLinked(tasks, None, 0, ids);
    NumberedCountUp(tasks, None, 0, ids);
    FlattenedIds(tasks, None, 0, ids);
    WellLinkedRecovered(expected, rows);
    RepresentsUnique(rows, IdSet(rows), None, forest, expected);
    if AllTrimmed(tasks) {
      TrimmedKeeps(tasks);
    }
  }

  // -------------------------------------------------------------------------
  // The template task table
  // -------------------------------------------------------------------------

  datatype TemplateTask = TemplateTask(templateId: Id, row: Row)

  /** The rows stored for one template. */
  function TasksOf(stored: seq<TemplateTask>, templateId: Id): seq<Row> {
    if stored == [] then []
    else (if stored[0].templateId == templateId then [stored[0].row] else []) + TasksOf(stored[1..], templateId)
  }

  lemma {:induction false} TasksOfCons(x: TemplateTask, s: seq<TemplateTask>, t: Id)
    ensures TasksOf([x] + s, t) == (if x.templateId == t then [x.row] else []) + TasksOf(s, t)
  {}

  lemma {:induction false} TasksOfConcat(a: seq<TemplateTask>, b: seq<TemplateTask>, t: Id)
    ensures TasksOf(a + b, t) == TasksOf(a, t) + TasksOf(b, t)
  {
    if a == [] {
      assert a + b == b;
    } else {
      TasksOfConcat(a[1..], b, t);
      assert a + b == [a[0]] + (a[1..] + b);
      TasksOfCons(a[0], a[1..] + b, t);
    }
  }

  function Owned(rows: seq<Row>, templateId: Id): (stored: seq<TemplateTask>)
    ensures |stored| == |rows|
  {
    seq(|rows|, i requires 0 <= i < |rows| => TemplateTask(templateId, rows[i]))
  }

  lemma {:induction false} TasksOfOwned(rows: seq<Row>, owner: Id, t: Id)
    ensures TasksOf(Owned(rows, owner), t) == if t == owner then rows else []
  {
    if rows != [] {
      assert Owned(rows, owner)[1..] == Owned(rows[1..], owner);
      TasksOfOwned(rows[1..], owner, t);
    }
  }

  class TemplateTaskTable {
    var stored: seq<TemplateTask>

    /** The task part of creating a template. */
    method CreateTasks(templateId: Id, tasks: seq<TaskDto>, ids: seq<Id>)
      requires |ids| == Size(tasks)
      modifies this
      ensures forall t :: TasksOf(stored, t) == old(TasksOf(stored, t)) +
                          if t == templateId then BuildTaskEntities(tasks, None, 0, ids) else []
    {
      var rows := BuildTaskEntities(tasks, None, 0, ids);
      stored := stored + Owned(rows, templateId);
      forall t ensures TasksOf(stored, t) == old(TasksOf(stored, t)) + if t == templateId then rows else [] {
        TasksOfConcat(old(stored), Owned(rows, templateId), t);
        TasksOfOwned(rows, templateId, t);
      }
    }

    /** Delete the rows of one template. */
    method DeleteTasks(templateId: Id)
      modifies this
      ensures forall t :: TasksOf(stored, t) == if t == templateId then [] else old(TasksOf(stored, t))
    {
      var kept: seq<TemplateTask> := [];
      for i := 0 to |stored|
        invariant stored == old(stored)
        invariant forall t :: TasksOf(kept, t) == if t == templateId then [] else TasksOf(stored[..i], t)
      {
        ghost var before := kept;
        if stored[i].templateId != templateId {
          kept := kept + [stored[i]];
        }
        forall t ensures TasksOf(kept, t) == if t == templateId then [] else TasksOf(stored[..i + 1], t) {
          assert stored[..i + 1] == stored[..i] + [stored[i]];
          TasksOfConcat(stored[..i], [stored[i]], t);
          TasksOfConcat(before, [stored[i]], t);
        }
      }
      assert stored[..|stored|] == stored;
      stored := kept;
    }

    /**
     The replace-tasks path of updating a template: an absent list leaves the tasks alone, an empty
     one removes them.
     */
    method ReplaceTasks(templateId: Id, tasks: Option<seq<TaskDto>>, ids: seq<Id>)
      requires tasks.Some? ==> |ids| == Size(tasks.value)
      modifies this
      ensures tasks.None? ==> stored == old(stored)
      ensures tasks.Some? ==> TasksOf(stored, templateId) == BuildTaskEntities(tasks.value, None, 0, ids)
      ensures forall t :: t != templateId ==> TasksOf(stored, t) == old(TasksOf(stored, t))
    {
      if tasks.Some? {
        DeleteTasks(templateId);
        if |tasks.value| > 0 {
          CreateTasks(templateId, tasks.value, ids);
        }
      }
    }
  }
}
