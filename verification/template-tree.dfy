/**
 Rebuilding the task tree of a template from its rows: rows go into an insertion-ordered map,
 every entry is pushed under its parent or to the roots, and the lists are sorted downwards.
 */
module TemplateTree {
  import opened Options
  import opened LinkedForest
  import opened ForestShape

  /** The entries of an insertion-ordered map after r is set under its id: an id already present keeps its place. */
  function Put(entries: seq<Row>, r: Row): seq<Row> {
    if entries == [] then [r]
    else if entries[0].id == r.id then [r] + entries[1..]
    else [entries[0]] + Put(entries[1..], r)
  }

  function MapEntries(tasks: seq<Row>): seq<Row> {
    if tasks == [] then [] else Put(MapEntries(tasks[..|tasks| - 1]), tasks[|tasks| - 1])
  }

  lemma {:induction false} PutUnique(entries: seq<Row>, r: Row)
    requires UniqueIds(entries)
    ensures UniqueIds(Put(entries, r))
    ensures IdSet(Put(entries, r)) == IdSet(entries) + {r.id}
  {
    if entries != [] {
      var head, tail := entries[0], entries[1..];
      assert entries == [head] + tail;
      IdAbsent(tail, head.id);
      if head.id != r.id {
        PutUnique(tail, r);
        UniqueCons(head, Put(tail, r));
      } else {
        UniqueCons(r, tail);
      }
    }
  }

  lemma {:induction false} UniqueCons(r: Row, s: seq<Row>)
    requires UniqueIds(s) && r.id !in IdSet(s)
    ensures UniqueIds([r] + s)
    ensures IdSet([r] + s) == {r.id} + IdSet(s)
  {}


  lemma {:induction false} MapEntriesUnique(tasks: seq<Row>)
    ensures UniqueIds(MapEntries(tasks))
  {
    if tasks != [] {
      MapEntriesUnique(tasks[..|tasks| - 1]);
      PutUnique(MapEntries(tasks[..|tasks| - 1]), tasks[|tasks| - 1]);
    }
  }

  lemma {:induction false} PutAppends(entries: seq<Row>, r: Row)
    requires r.id !in IdSet(entries)
    ensures Put(entries, r) == entries + [r]
  {
    if entries != [] {
      assert entries[0].id in IdSet(entries);
      PutAppends(entries[1..], r);
    }
  }

  lemma {:induction false} PutReplaces(entries: seq<Row>, r: Row)
    requires UniqueIds(entries) && r.id in IdSet(entries)
    ensures |Put(entries, r)| == |entries|
    ensures forall i :: 0 <= i < |entries| ==>
              Put(entries, r)[i] == if entries[i].id == r.id then r else entries[i]
  {
    if entries[0].id != r.id {
      PutReplaces(entries[1..], r);
    }
  }

  /** Rows with distinct ids, as the table guarantees, are the entries themselves. */
  lemma {:induction false} MapEntriesOfUnique(tasks: seq<Row>)
    requires UniqueIds(tasks)
    ensures MapEntries(tasks) == tasks
  {
    if tasks != [] {
      var init, last := tasks[..|tasks| - 1], tasks[|tasks| - 1];
      MapEntriesOfUnique(init);
      IdAbsent(init, last.id);
      PutAppends(init, last);
      assert tasks == init + [last];
    }
  }

  /** The map holds the entries, and its keys are in entry order. */
  ghost predicate Holds(entries: seq<Row>, keys: seq<Id>, taskMap: map<Id, Row>) {
    && |keys| == |entries|
    && taskMap.Keys == IdSet(entries)
    && forall j :: 0 <= j < |keys| ==> keys[j] == entries[j].id && taskMap[keys[j]] == entries[j]
  }

  lemma {:induction false} HoldsAfterReplace(entries: seq<Row>, keys: seq<Id>, taskMap: map<Id, Row>, r: Row)
    requires UniqueIds(entries) && Holds(entries, keys, taskMap) && r.id in taskMap
    ensures Holds(Put(entries, r), keys, taskMap[r.id := r])
  {
    PutUnique(entries, r);
    PutReplaces(entries, r);
  }

  lemma {:induction false} HoldsAfterAppend(entries: seq<Row>, keys: seq<Id>, taskMap: map<Id, Row>, r: Row)
    requires UniqueIds(entries) && Holds(entries, keys, taskMap) && r.id !in taskMap
    ensures Holds(Put(entries, r), keys + [r.id], taskMap[r.id := r])
  {
    PutUnique(entries, r);
    PutAppends(entries, r);
    forall j | 0 <= j < |keys| ensures keys[j] != r.id {
      assert entries[j].id in IdSet(entries);
    }
  }

  /** Enter the tasks into the map one after another. */
  method FillTaskMap(tasks: seq<Row>) returns (keys: seq<Id>, taskMap: map<Id, Row>)
    ensures Holds(MapEntries(tasks), keys, taskMap)
  {
    keys, taskMap := [], map[];
    for i := 0 to |tasks|
      invariant Holds(MapEntries(tasks[..i]), keys, taskMap)
    {
      var task := tasks[i];
      MapEntriesUnique(tasks[..i]);
      assert tasks[..i + 1][..i] == tasks[..i];
      if task.id in taskMap {
        HoldsAfterReplace(MapEntries(tasks[..i]), keys, taskMap, task);
      } else {
        HoldsAfterAppend(MapEntries(tasks[..i]), keys, taskMap, task);
        keys := keys + [task.id];
      }
      taskMap := taskMap[task.id := task];
    }
    assert tasks[..|tasks|] == tasks;
  }

  /** Every list in the map is the list of rows under its key. */
  ghost predicate Lists(rows: seq<Row>, ids: set<Id>, subtasks: map<Id, seq<Row>>) {
    subtasks.Keys == ids && forall k :: k in ids ==> subtasks[k] == Siblings(rows, ids, Some(k))
  }

  lemma {:induction false} ListsAfterPush(rows: seq<Row>, i: nat, ids: set<Id>, subtasks: map<Id, seq<Row>>)
    requires i < |rows| && Lists(rows[..i], ids, subtasks)
    ensures var p := ParentKey(ids, rows[i]);
      && Lists(rows[..i + 1], ids, if p.Some? then subtasks[p.value := subtasks[p.value] + [rows[i]]] else subtasks)
      && Siblings(rows[..i + 1], ids, None) == Siblings(rows[..i], ids, None) + if p.None? then [rows[i]] else []
  {
    assert rows[..i + 1][..i] == rows[..i];
  }

  /** Push every entry to its parent's list, or to the roots when it has no parent in the map. */
  method LinkTasks(keys: seq<Id>, taskMap: map<Id, Row>, ghost rows: seq<Row>)
    returns (roots: seq<Row>, subtasks: map<Id, seq<Row>>)
    requires Holds(rows, keys, taskMap)
    ensures roots == Siblings(rows, IdSet(rows), None)
    ensures Lists(rows, IdSet(rows), subtasks)
  {
    roots, subtasks := [], map k | k in taskMap :: [];
    for i := 0 to |keys|
      invariant roots == Siblings(rows[..i], taskMap.Keys, None)
      invariant Lists(rows[..i], taskMap.Keys, subtasks)
    {
      var task := taskMap[keys[i]];
      ListsAfterPush(rows, i, taskMap.Keys, subtasks);
      if task.parentTaskId.Some? && task.parentTaskId.value != "" && task.parentTaskId.value in taskMap {
        var parent := task.parentTaskId.value;
        subtasks := subtasks[parent := subtasks[parent] + [task]];
      } else {
        roots := roots + [task];
      }
    }
    assert rows[..|keys|] == rows;
  }

  lemma {:induction false} SiblingDepth(rows: seq<Row>, p: Option<Id>, d: nat, r: Row)
    requires UniqueIds(rows) && r in StableSort(Siblings(rows, IdSet(rows), p))
    requires if p.None? then d == 0 else d > 0 && AtDepth(rows, p.value, d - 1)
    ensures r.id in IdSet(rows) && AtDepth(rows, r.id, d) && d < |IdSet(rows)|
  {
    var s := Siblings(rows, IdSet(rows), p);
    StableSortSorts(s);
    assert r in multiset(s);
    RowOfUnique(rows, r);
    DepthBound(rows, r.id, d);
  }

  /** Some sorted nodes, each with its own subtasks already in place. */
  ghost predicate Finished(rows: seq<Row>, done: seq<Node>) {
    forall n :: n in done ==> Represents(rows, IdSet(rows), Some(n.row.id), n.subtasks)
  }

  lemma {:induction false} FinishedCons(rows: seq<Row>, s: seq<Row>, below: seq<Node>, rest: seq<Node>)
    requires s != [] && Represents(rows, IdSet(rows), Some(s[0].id), below)
    requires Finished(rows, rest) && TopRows(rest) == s[1..]
    ensures Finished(rows, [Node(s[0], below)] + rest) && TopRows([Node(s[0], below)] + rest) == s
  {
    assert TopRows([Node(s[0], below)] + rest) == [s[0]] + TopRows(rest);
  }

  lemma {:induction false} FinishedNone(rows: seq<Row>)
    ensures Finished(rows, []) && TopRows([]) == []
  {}

  lemma {:induction false} AllFinished(rows: seq<Row>, p: Option<Id>, sorted: seq<Node>)
    requires TopRows(sorted) == StableSort(Siblings(rows, IdSet(rows), p)) && Finished(rows, sorted)
    ensures Represents(rows, IdSet(rows), p, sorted)
  {}

  /** The rows of a sibling list lie at depth d of the parent chains. */
  ghost predicate AllAtDepth(rows: seq<Row>, s: seq<Row>, d: nat) {
    forall r :: r in s ==> r.id in IdSet(rows) && AtDepth(rows, r.id, d) && d < |IdSet(rows)|
  }

  /** The list under p lies at depth d. */
  ghost predicate ListedAt(rows: seq<Row>, p: Option<Id>, d: nat) {
    if p.None? then d == 0 else d > 0 && AtDepth(rows, p.value, d - 1)
  }

  lemma {:induction false} ListedBelow(rows: seq<Row>, id: Id, d: nat)
    requires AtDepth(rows, id, d)
    ensures ListedAt(rows, Some(id), d + 1)
  {}

  lemma {:induction false} AllAtDepthSplit(rows: seq<Row>, s: seq<Row>, d: nat)
    requires AllAtDepth(rows, s, d) && s != []
    ensures s[0].id in IdSet(rows) && AtDepth(rows, s[0].id, d) && d < |IdSet(rows)|
    ensures AllAtDepth(rows, s[1..], d)
  {}

  lemma {:induction false} ListOf(rows: seq<Row>, subtasks: map<Id, seq<Row>>, id: Id)
    requires Lists(rows, IdSet(rows), subtasks) && id in IdSet(rows)
    ensures id in subtasks && subtasks[id] == Siblings(rows, IdSet(rows), Some(id))
  {}

  /**
   Sort a sibling list and, below each row, its own list. Rows may contain cycles; the
   recursion still ends, because it only descends from roots and each step down lengthens
   the parent chain of the row reached, which is shorter than the number of rows.
   */
  method SortNodes(nodes: seq<Row>, subtasks: map<Id, seq<Row>>, ghost rows: seq<Row>, ghost p: Option<Id>,
                   ghost d: nat)
    returns (sorted: seq<Node>)
    requires UniqueIds(rows) && nodes == Siblings(rows, IdSet(rows), p)
    requires Lists(rows, IdSet(rows), subtasks)
    requires ListedAt(rows, p, d)
    ensures Represents(rows, IdSet(rows), p, sorted)
    decreases |IdSet(rows)| - d, 1, 0
  {
    var s := StableSort(nodes);
    assert AllAtDepth(rows, s, d) by {
      forall r | r in s ensures r.id in IdSet(rows) && AtDepth(rows, r.id, d) && d < |IdSet(rows)| {
        SiblingDepth(rows, p, d, r);
      }
    }
    sorted := WithSortedSubtasks(s, subtasks, rows, d);
    AllFinished(rows, p, sorted);
  }

  /** The map step: each row of a sorted list with its own subtasks sorted. */
  method WithSortedSubtasks(s: seq<Row>, subtasks: map<Id, seq<Row>>, ghost rows: seq<Row>, ghost d: nat)
    returns (done: seq<Node>)
    requires UniqueIds(rows) && Lists(rows, IdSet(rows), subtasks)
    requires AllAtDepth(rows, s, d)
    ensures TopRows(done) == s && Finished(rows, done)
    decreases |IdSet(rows)| - d, 0, |s|
  {
    if s == [] {
      FinishedNone(rows);
      done := [];
    } else {
      var id := s[0].id;
      AllAtDepthSplit(rows, s, d);
      ListedBelow(rows, id, d);
      ListOf(rows, subtasks, id);
      var list := subtasks[id];
      var below := SortNodes(list, subtasks, rows, Some(id), d + 1);
      var rest := WithSortedSubtasks(s[1..], subtasks, rows, d);
      FinishedCons(rows, s, below, rest);
      done := [Node(s[0], below)] + rest;
    }
  }

  /**
   The forest of the rows, whatever they are: orphans become roots, rows whose parent chain
   ends are in the forest once, and rows on or below a parent cycle are not in it.
   */
  method BuildTemplateTaskTree(tasks: seq<Row>) returns (forest: seq<Node>)
    ensures IsForestOf(MapEntries(tasks), forest)
    ensures UniqueIds(Preorder(forest))
    ensures forall r :: r in Preorder(forest) <==> r in MapEntries(tasks) && Rooted(MapEntries(tasks), r.id)
  {
    var keys, taskMap := FillTaskMap(tasks);
    MapEntriesUnique(tasks);
    var roots, subtasks := LinkTasks(keys, taskMap, MapEntries(tasks));
    forest := SortNodes(roots, subtasks, MapEntries(tasks), None, 0);
    Coverage(MapEntries(tasks), forest);
  }
}
