/**
 The forest that parent-linked rows spell: every sibling list is the stably sorted list of
 the rows under one parent. There is at most one such forest, it holds exactly the rows whose
 parent chain ends in a root, each once, and a well-linked forest is recovered from any
 permutation of its own rows.
 */
module ForestShape {
  import opened Options
  import opened LinkedForest

  function TopRows(nodes: seq<Node>): (rs: seq<Row>)
    ensures |rs| == |nodes| && forall i :: 0 <= i < |rs| ==> rs[i] == nodes[i].row
  {
    seq(|nodes|, i requires 0 <= i < |nodes| => nodes[i].row)
  }

  /** All rows, each node before its subtasks and these before the next sibling. */
  function Preorder(nodes: seq<Node>): seq<Row> {
    if nodes == [] then []
    else [nodes[0].row] + Preorder(nodes[0].subtasks) + Preorder(nodes[1..])
  }

  /** `nodes` is the sibling list under p, and so on down every node. */
  predicate Represents(rows: seq<Row>, ids: set<Id>, p: Option<Id>, nodes: seq<Node>)
    decreases nodes
  {
    && TopRows(nodes) == StableSort(Siblings(rows, ids, p))
    && forall n :: n in nodes ==> Represents(rows, ids, Some(n.row.id), n.subtasks)
  }

  predicate IsForestOf(rows: seq<Row>, forest: seq<Node>) {
    Represents(rows, IdSet(rows), None, forest)
  }

  /** Rows spell at most one forest. */
  lemma {:induction false} RepresentsUnique(rows: seq<Row>, ids: set<Id>, p: Option<Id>, a: seq<Node>, b: seq<Node>)
    requires Represents(rows, ids, p, a) && Represents(rows, ids, p, b)
    ensures a == b
    decreases a
  {
    assert |TopRows(a)| == |TopRows(b)|;
    forall i | 0 <= i < |a| ensures a[i] == b[i] {
      assert TopRows(a)[i] == TopRows(b)[i];
      RepresentsUnique(rows, ids, Some(a[i].row.id), a[i].subtasks, b[i].subtasks);
    }
  }

  lemma {:induction false} PreorderMember(nodes: seq<Node>, r: Row)
    ensures r in Preorder(nodes) <==> exists n :: n in nodes && (r == n.row || r in Preorder(n.subtasks))
  {
    if nodes != [] {
      PreorderMember(nodes[1..], r);
      assert nodes == [nodes[0]] + nodes[1..];
    }
  }

  // -------------------------------------------------------------------------
  // Depth: the length of the parent chain of a row
  // -------------------------------------------------------------------------

  function RowOf(rows: seq<Row>, id: Id): (r: Row)
    requires id in IdSet(rows)
    ensures r in rows && r.id == id
  {
    if rows[0].id == id then rows[0] else RowOf(rows[1..], id)
  }

  function ParentOf(rows: seq<Row>, id: Id): (p: Option<Id>)
    requires id in IdSet(rows)
    ensures p.Some? ==> p.value in IdSet(rows)
  {
    ParentKey(IdSet(rows), RowOf(rows, id))
  }

  /** Following parents from id reaches a root after exactly d steps. */
  predicate AtDepth(rows: seq<Row>, id: Id, d: nat)
    decreases d
  {
    && id in IdSet(rows)
    && var p := ParentOf(rows, id);
       if d == 0 then p.None? else p.Some? && AtDepth(rows, p.value, d - 1)
  }

  /** The parent chain ends in a root: it neither loops nor starts from a loop. */
  ghost predicate Rooted(rows: seq<Row>, id: Id) {
    exists d: nat :: AtDepth(rows, id, d)
  }

  lemma {:induction false} DepthUnique(rows: seq<Row>, id: Id, d: nat, e: nat)
    requires AtDepth(rows, id, d) && AtDepth(rows, id, e)
    ensures d == e
    decreases d
  {
    if d > 0 && e > 0 {
      DepthUnique(rows, ParentOf(rows, id).value, d - 1, e - 1);
    }
  }

  lemma {:induction false} RowOfUnique(rows: seq<Row>, r: Row)
    requires UniqueIds(rows) && r in rows
    ensures RowOf(rows, r.id) == r
  {}

  /** The ids on the parent chain of id, itself included. */
  ghost function Chain(rows: seq<Row>, id: Id, d: nat): (c: set<Id>)
    requires AtDepth(rows, id, d)
    ensures c <= IdSet(rows)
    decreases d
  {
    {id} + if d == 0 then {} else Chain(rows, ParentOf(rows, id).value, d - 1)
  }

  lemma {:induction false} ChainDepths(rows: seq<Row>, id: Id, d: nat, x: Id)
    requires AtDepth(rows, id, d) && x in Chain(rows, id, d)
    ensures exists e: nat :: e <= d && AtDepth(rows, x, e)
    decreases d
  {
    if x != id {
      ChainDepths(rows, ParentOf(rows, id).value, d - 1, x);
    }
  }

  lemma {:induction false} NotOnParentChain(rows: seq<Row>, id: Id, d: nat)
    requires d > 0 && AtDepth(rows, id, d)
    ensures id !in Chain(rows, ParentOf(rows, id).value, d - 1)
  {
    var p := ParentOf(rows, id).value;
    if id in Chain(rows, p, d - 1) {
      ChainDepths(rows, p, d - 1, id);
      var e: nat :| e <= d - 1 && AtDepth(rows, id, e);
      DepthUnique(rows, id, d, e);
    }
  }

  lemma SizeWith<T>(c: set<T>, x: T)
    requires x !in c
    ensures |{x} + c| == |c| + 1
  {}

  lemma {:induction false} ChainSize(rows: seq<Row>, id: Id, d: nat)
    requires AtDepth(rows, id, d)
    ensures |Chain(rows, id, d)| == d + 1
    decreases d
  {
    if d > 0 {
      var p := ParentOf(rows, id).value;
      ChainSize(rows, p, d - 1);
      NotOnParentChain(rows, id, d);
      SizeWith(Chain(rows, p, d - 1), id);
    }
  }

  lemma {:induction false} SubsetSize<T>(a: set<T>, b: set<T>)
    requires a <= b
    ensures |a| <= |b|
  {
    if a != {} {
      var x :| x in a;
      SubsetSize(a - {x}, b - {x});
    }
  }

  /** A parent chain that ends is shorter than the number of ids, which bounds the recursion over rows with cycles. */
  lemma {:induction false} DepthBound(rows: seq<Row>, id: Id, d: nat)
    requires AtDepth(rows, id, d)
    ensures d < |IdSet(rows)|
  {
    ChainSize(rows, id, d);
    SubsetSize(Chain(rows, id, d), IdSet(rows));
  }

  // -------------------------------------------------------------------------
  // Coverage: the rows of the represented forest
  // -------------------------------------------------------------------------

  /**
   The nodes hang under p at depth d, and so on down every node; unlike Represents this holds of
   any tail of a sibling list.
   */
  ghost predicate HangsAt(rows: seq<Row>, p: Option<Id>, d: nat, nodes: seq<Node>)
    decreases nodes
  {
    && UniqueIds(TopRows(nodes))
    && forall n :: n in nodes ==> NodeHangsAt(rows, p, d, n)
  }

  ghost predicate NodeHangsAt(rows: seq<Row>, p: Option<Id>, d: nat, n: Node)
    decreases n
  {
    && n.row in rows
    && AtDepth(rows, n.row.id, d)
    && ParentOf(rows, n.row.id) == p
    && HangsAt(rows, Some(n.row.id), d + 1, n.subtasks)
  }

  lemma {:induction false} SiblingsUnique(rows: seq<Row>, ids: set<Id>, p: Option<Id>)
    requires UniqueIds(rows)
    ensures UniqueIds(Siblings(rows, ids, p))
  {
    if rows != [] {
      var init := rows[..|rows| - 1];
      SiblingsUnique(init, ids, p);
      forall r | r in Siblings(init, ids, p) ensures r.id != rows[|rows| - 1].id {
        assert r in init;
      }
    }
  }

  lemma UniqueIdsOfPermutation(a: seq<Row>, b: seq<Row>)
    requires UniqueIds(a) && multiset(a) == multiset(b)
    ensures UniqueIds(b)
  {
    forall i, j | 0 <= i < j < |b| ensures b[i].id != b[j].id {
      if b[i].id == b[j].id {
        assert b[i] in multiset(a) && b[j] in multiset(a);
        TwiceMeansTwo(b, i, j);
        OnceMeansOne(a, b[i]);
      }
    }
  }

  lemma {:induction false} OnceMeansOne(a: seq<Row>, r: Row)
    requires UniqueIds(a)
    ensures multiset(a)[r] <= 1
    ensures forall q :: q in a && r in a && q.id == r.id ==> q == r
  {
    if a != [] {
      OnceMeansOne(a[1..], r);
      assert a == [a[0]] + a[1..];
      if a[0] == r {
        assert r !in a[1..];
        assert multiset(a[1..])[r] == 0;
      }
    }
  }

  lemma TwiceMeansTwo(b: seq<Row>, i: nat, j: nat)
    requires i < j < |b| && b[i] == b[j]
    ensures multiset(b)[b[i]] >= 2
  {
    assert b == b[..j] + b[j..];
    assert b[i] in b[..j] && b[j] in b[j..];
    assert multiset(b) == multiset(b[..j]) + multiset(b[j..]);
  }

  lemma {:induction false} RepresentsHangs(rows: seq<Row>, p: Option<Id>, d: nat, nodes: seq<Node>)
    requires UniqueIds(rows) && Represents(rows, IdSet(rows), p, nodes)
    requires if p.None? then d == 0 else d > 0 && AtDepth(rows, p.value, d - 1)
    ensures HangsAt(rows, p, d, nodes)
    decreases nodes
  {
    TopsUnique(rows, p, nodes);
    forall n | n in nodes ensures NodeHangsAt(rows, p, d, n) {
      TopBelongs(rows, p, d, nodes, n);
      RepresentsHangs(rows, Some(n.row.id), d + 1, n.subtasks);
    }
  }

  lemma {:induction false} TopsUnique(rows: seq<Row>, p: Option<Id>, nodes: seq<Node>)
    requires UniqueIds(rows) && Represents(rows, IdSet(rows), p, nodes)
    ensures UniqueIds(TopRows(nodes))
  {
    var s := Siblings(rows, IdSet(rows), p);
    StableSortSorts(s);
    SiblingsUnique(rows, IdSet(rows), p);
    UniqueIdsOfPermutation(s, TopRows(nodes));
  }

  lemma {:induction false} TopBelongs(rows: seq<Row>, p: Option<Id>, d: nat, nodes: seq<Node>, n: Node)
    requires UniqueIds(rows) && Represents(rows, IdSet(rows), p, nodes) && n in nodes
    requires if p.None? then d == 0 else d > 0 && AtDepth(rows, p.value, d - 1)
    ensures n.row in rows && AtDepth(rows, n.row.id, d) && ParentOf(rows, n.row.id) == p
    ensures Represents(rows, IdSet(rows), Some(n.row.id), n.subtasks)
  {
    var s := Siblings(rows, IdSet(rows), p);
    StableSortSorts(s);
    assert n.row in TopRows(nodes);
    assert n.row in multiset(s);
    RowOfUnique(rows, n.row);
  }

  /** The ancestor of id at depth d, where id itself is at depth e. */
  function AncestorAt(rows: seq<Row>, id: Id, e: nat, d: nat): (a: Id)
    requires AtDepth(rows, id, e) && d <= e
    ensures AtDepth(rows, a, d)
    decreases e
  {
    if e == d then id else AncestorAt(rows, ParentOf(rows, id).value, e - 1, d)
  }

  lemma {:induction false} AncestorParent(rows: seq<Row>, id: Id, e: nat, d: nat)
    requires AtDepth(rows, id, e) && d + 1 <= e
    ensures ParentOf(rows, AncestorAt(rows, id, e, d + 1)) == Some(AncestorAt(rows, id, e, d))
    decreases e
  {
    if e > d + 1 {
      AncestorParent(rows, ParentOf(rows, id).value, e - 1, d);
    }
  }

  lemma NodeWith(nodes: seq<Node>, r: Row) returns (n: Node)
    requires r in Preorder(nodes)
    ensures n in nodes && (r == n.row || r in Preorder(n.subtasks))
  {
    PreorderMember(nodes, r);
    n :| n in nodes && (r == n.row || r in Preorder(n.subtasks));
  }

  lemma {:induction false} HangsNode(rows: seq<Row>, p: Option<Id>, d: nat, nodes: seq<Node>, n: Node)
    requires HangsAt(rows, p, d, nodes) && n in nodes
    ensures NodeHangsAt(rows, p, d, n)
  {}

  /** A row found anywhere below a sibling list has one of the siblings as its ancestor at their depth. */
  lemma {:induction false} PreorderAncestor(rows: seq<Row>, p: Option<Id>, d: nat, nodes: seq<Node>, r: Row)
    returns (n: Node, e: nat)
    requires HangsAt(rows, p, d, nodes) && r in Preorder(nodes)
    ensures r in rows && d <= e && AtDepth(rows, r.id, e)
    ensures n in nodes && AncestorAt(rows, r.id, e, d) == n.row.id
    ensures r == n.row || (r in Preorder(n.subtasks) && d < e)
    decreases nodes
  {
    n := NodeWith(nodes, r);
    HangsNode(rows, p, d, nodes, n);
    if r == n.row {
      e := d;
    } else {
      var c;
      c, e := PreorderAncestor(rows, Some(n.row.id), d + 1, n.subtasks, r);
      HangsNode(rows, Some(n.row.id), d + 1, n.subtasks, c);
      AncestorParent(rows, r.id, e, d);
    }
  }

  lemma {:induction false} HangsTail(rows: seq<Row>, p: Option<Id>, d: nat, nodes: seq<Node>)
    requires nodes != [] && HangsAt(rows, p, d, nodes)
    ensures HangsAt(rows, p, d, nodes[1..])
    ensures forall n :: n in nodes[1..] ==> n.row.id != nodes[0].row.id
  {}

  /** No id occurs twice in the forest. */
  lemma {:induction false} PreorderUnique(rows: seq<Row>, p: Option<Id>, d: nat, nodes: seq<Node>)
    requires HangsAt(rows, p, d, nodes)
    ensures UniqueIds(Preorder(nodes))
    decreases nodes
  {
    if nodes != [] {
      var n := nodes[0];
      var below, rest := Preorder(n.subtasks), Preorder(nodes[1..]);
      assert NodeHangsAt(rows, p, d, n);
      HangsTail(rows, p, d, nodes);
      PreorderUnique(rows, Some(n.row.id), d + 1, n.subtasks);
      PreorderUnique(rows, p, d, nodes[1..]);
      forall x | x in below ensures x.id != n.row.id {
        var m, e := PreorderAncestor(rows, Some(n.row.id), d + 1, n.subtasks, x);
        if x.id == n.row.id {
          DepthUnique(rows, x.id, d, e);
        }
      }
      forall y | y in rest
        ensures y.id != n.row.id && forall x :: x in below ==> x.id != y.id
      {
        DisjointFromFirst(rows, p, d, nodes, y);
      }
      UniqueConcat(n.row, below, rest);
    }
  }

  lemma {:induction false} DisjointFromFirst(rows: seq<Row>, p: Option<Id>, d: nat, nodes: seq<Node>, y: Row)
    requires nodes != [] && HangsAt(rows, p, d, nodes) && y in Preorder(nodes[1..])
    ensures y.id != nodes[0].row.id
    ensures forall x :: x in Preorder(nodes[0].subtasks) ==> x.id != y.id
  {
    HangsTail(rows, p, d, nodes);
    assert NodeHangsAt(rows, p, d, nodes[0]);
    var m, e := PreorderAncestor(rows, p, d, nodes[1..], y);
    if y.id == nodes[0].row.id {
      DepthUnique(rows, y.id, d, e);
    }
    forall x | x in Preorder(nodes[0].subtasks) ensures x.id != y.id {
      var first := nodes[..1];
      assert first[0] == nodes[0] && first[1..] == [];
      PreorderMember(first, x);
      assert TopRows(first) == TopRows(nodes)[..1];
      var k, f := PreorderAncestor(rows, p, d, first, x);
      if x.id == y.id {
        DepthUnique(rows, x.id, e, f);
      }
    }
  }

  lemma UniqueConcat(r: Row, a: seq<Row>, b: seq<Row>)
    requires UniqueIds(a) && UniqueIds(b)
    requires forall x :: x in a ==> x.id != r.id
    requires forall y :: y in b ==> y.id != r.id && forall x :: x in a ==> x.id != y.id
    ensures UniqueIds([r] + a + b)
  {}

  lemma TopNode(nodes: seq<Node>, r: Row) returns (n: Node)
    requires r in TopRows(nodes)
    ensures n in nodes && n.row == r
  {
    var i :| 0 <= i < |nodes| && TopRows(nodes)[i] == r;
    n := nodes[i];
  }

  /** A row whose parent is in the forest is in the forest. */
  lemma {:induction false} ChildIncluded(rows: seq<Row>, ids: set<Id>, p: Option<Id>, nodes: seq<Node>, q: Row, r: Row)
    requires Represents(rows, ids, p, nodes)
    requires q in Preorder(nodes) && r in rows && ParentKey(ids, r) == Some(q.id)
    ensures r in Preorder(nodes)
    decreases nodes
  {
    PreorderMember(nodes, q);
    var n :| n in nodes && (q == n.row || q in Preorder(n.subtasks));
    if q == n.row {
      var s := Siblings(rows, ids, Some(q.id));
      StableSortSorts(s);
      assert multiset(s) == multiset(TopRows(n.subtasks)) && r in multiset(s);
      assert r in TopRows(n.subtasks);
      var child := TopNode(n.subtasks, r);
      PreorderMember(n.subtasks, r);
    } else {
      ChildIncluded(rows, ids, Some(n.row.id), n.subtasks, q, r);
    }
    PreorderMember(nodes, r);
  }

  lemma {:induction false} RootedIncluded(rows: seq<Row>, forest: seq<Node>, r: Row, d: nat)
    requires UniqueIds(rows) && IsForestOf(rows, forest)
    requires r in rows && AtDepth(rows, r.id, d)
    ensures r in Preorder(forest)
    decreases d
  {
    RowOfUnique(rows, r);
    if d == 0 {
      var s := Siblings(rows, IdSet(rows), None);
      StableSortSorts(s);
      assert multiset(s) == multiset(TopRows(forest)) && r in multiset(s);
      assert r in TopRows(forest);
      var i :| 0 <= i < |forest| && TopRows(forest)[i] == r;
      assert forest[i].row == r;
      PreorderMember(forest, r);
    } else {
      var q := RowOf(rows, ParentOf(rows, r.id).value);
      RootedIncluded(rows, forest, q, d - 1);
      ChildIncluded(rows, IdSet(rows), None, forest, q, r);
    }
  }

  /**
   The forest holds a row exactly when the row's parent chain reaches a root, and holds it once:
   rows on a parent cycle, or below one, are left out, and nothing else is.
   */
  lemma {:induction false} Coverage(rows: seq<Row>, forest: seq<Node>)
    requires UniqueIds(rows) && IsForestOf(rows, forest)
    ensures UniqueIds(Preorder(forest))
    ensures forall r :: r in Preorder(forest) <==> r in rows && Rooted(rows, r.id)
  {
    RepresentsHangs(rows, None, 0, forest);
    PreorderUnique(rows, None, 0, forest);
    forall r ensures r in Preorder(forest) <==> r in rows && Rooted(rows, r.id) {
      if r in Preorder(forest) {
        var n, e := PreorderAncestor(rows, None, 0, forest, r);
      }
      if r in rows && Rooted(rows, r.id) {
        var d: nat :| AtDepth(rows, r.id, d);
        RootedIncluded(rows, forest, r, d);
      }
    }
  }

  // -------------------------------------------------------------------------
  // A well-linked forest is recovered from any permutation of its rows
  // -------------------------------------------------------------------------

  /** Every node names its parent, and siblings have strictly increasing orders. */
  predicate WellLinked(nodes: seq<Node>, p: Option<Id>) {
    && (forall i, j :: 0 <= i < j < |nodes| ==> nodes[i].row.order < nodes[j].row.order)
    && forall n :: n in nodes ==> LinkedUnder(n, p)
  }

  lemma {:induction false} LinkedNode(nodes: seq<Node>, p: Option<Id>, n: Node)
    requires WellLinked(nodes, p) && n in nodes
    ensures n.row.parentTaskId == p && n.row.id != "" && WellLinked(n.subtasks, Some(n.row.id))
  {}

  predicate LinkedUnder(n: Node, p: Option<Id>) {
    n.row.parentTaskId == p && n.row.id != "" && WellLinked(n.subtasks, Some(n.row.id))
  }

  /** Two strictly ordered sequences with the same rows are the same. */
  lemma {:induction false} StrictlySortedEqual(a: seq<Row>, b: seq<Row>)
    requires forall i, j :: 0 <= i < j < |a| ==> a[i].order < a[j].order
    requires Sorted(b) && UniqueIds(b)
    requires forall r :: r in a <==> r in b
    ensures a == b
  {
    if a != [] {
      assert a[0] in b;
      assert b[0] in a;
      assert b[0].order <= a[0].order;
      assert a[0] == b[0];
      forall r ensures r in a[1..] <==> r in b[1..] {
        assert r in a <==> r == a[0] || r in a[1..];
        assert r in b <==> r == b[0] || r in b[1..];
      }
      StrictlySortedEqual(a[1..], b[1..]);
    } else {
      HeadIn(b);
    }
  }

  lemma HeadIn<T>(s: seq<T>)
    ensures s != [] ==> s[0] in s
  {}

  /** If the rows under p are the tops of a strictly ordered sibling list, sorting them gives the list. */
  lemma {:induction false} SortedSiblings(rows: seq<Row>, ids: set<Id>, p: Option<Id>, nodes: seq<Node>)
    requires UniqueIds(rows)
    requires forall i, j :: 0 <= i < j < |nodes| ==> nodes[i].row.order < nodes[j].row.order
    requires forall r :: r in rows && ParentKey(ids, r) == p <==> r in TopRows(nodes)
    ensures TopRows(nodes) == StableSort(Siblings(rows, ids, p))
  {
    var s := Siblings(rows, ids, p);
    StableSortSorts(s);
    SiblingsUnique(rows, ids, p);
    UniqueIdsOfPermutation(s, StableSort(s));
    forall r ensures r in TopRows(nodes) <==> r in StableSort(s) {
      assert r in s <==> r in multiset(s);
    }
    StrictlySortedEqual(TopRows(nodes), StableSort(s));
  }

  lemma {:induction false} PreorderContains(nodes: seq<Node>, n: Node)
    requires n in nodes
    ensures n.row in Preorder(nodes)
    ensures forall r :: r in Preorder(n.subtasks) ==> r in Preorder(nodes)
    ensures IdSet(Preorder(n.subtasks)) <= IdSet(Preorder(nodes))
  {
    PreorderMember(nodes, n.row);
    forall r | r in Preorder(n.subtasks) ensures r in Preorder(nodes) {
      PreorderMember(nodes, r);
    }
    IdSetMonotone(Preorder(n.subtasks), Preorder(nodes));
  }

  /** Every row is a top, under p, or names a parent among the rows. */
  lemma {:induction false} ParentWithin(nodes: seq<Node>, p: Option<Id>, r: Row)
    requires WellLinked(nodes, p) && r in Preorder(nodes)
    ensures r.id != ""
    ensures (r in TopRows(nodes) && r.parentTaskId == p)
         || (r.parentTaskId.Some? && r.parentTaskId.value in IdSet(Preorder(nodes)))
    decreases nodes
  {
    PreorderMember(nodes, r);
    var n :| n in nodes && (r == n.row || r in Preorder(n.subtasks));
    LinkedNode(nodes, p, n);
    PreorderContains(nodes, n);
    if r == n.row {
      var i :| 0 <= i < |nodes| && nodes[i] == n;
      assert TopRows(nodes)[i] == r;
    } else {
      ParentWithin(n.subtasks, Some(n.row.id), r);
    }
  }

  predicate InNode(n: Node, r: Row) {
    r == n.row || r in Preorder(n.subtasks)
  }

  /** Distinct ids in a list of rows are distinct across its parts. */
  lemma UniqueParts(first: Row, a: seq<Row>, b: seq<Row>)
    requires UniqueIds([first] + a + b)
    ensures UniqueIds(a) && UniqueIds(b)
    ensures forall x :: x in a ==> x.id != first.id
    ensures forall y :: y in b ==> y.id != first.id
    ensures forall x, y :: x in a && y in b ==> x.id != y.id
  {
    var all := [first] + a + b;
    assert forall i :: 0 <= i < |a| ==> all[1 + i] == a[i];
    assert forall i :: 0 <= i < |b| ==> all[1 + |a| + i] == b[i];
    forall x | x in a ensures x.id != first.id {
      var i :| 0 <= i < |a| && a[i] == x;
      assert all[0].id != all[1 + i].id;
    }
    forall y | y in b ensures y.id != first.id {
      var i :| 0 <= i < |b| && b[i] == y;
      assert all[0].id != all[1 + |a| + i].id;
    }
    forall x, y | x in a && y in b ensures x.id != y.id {
      var i :| 0 <= i < |a| && a[i] == x;
      var j :| 0 <= j < |b| && b[j] == y;
      assert all[1 + i].id != all[1 + |a| + j].id;
    }
  }

  lemma {:induction false} PreorderSplit(nodes: seq<Node>)
    requires nodes != [] && UniqueIds(Preorder(nodes))
    ensures UniqueIds(Preorder(nodes[0].subtasks)) && UniqueIds(Preorder(nodes[1..]))
    ensures forall x :: x in Preorder(nodes[0].subtasks) ==> x.id != nodes[0].row.id
    ensures forall x, y :: InNode(nodes[0], x) && y in Preorder(nodes[1..]) ==> x.id != y.id
  {
    UniqueParts(nodes[0].row, Preorder(nodes[0].subtasks), Preorder(nodes[1..]));
  }

  /** With distinct ids, two rows of one id lie in the same node. */
  lemma {:induction false} Apart(nodes: seq<Node>, m: Node, n: Node, x: Row, y: Row)
    requires UniqueIds(Preorder(nodes)) && m in nodes && n in nodes
    requires InNode(m, x) && InNode(n, y) && x.id == y.id
    ensures m == n
  {
    PreorderSplit(nodes);
    var tail := nodes[1..];
    assert (m == nodes[0] || m in tail) && (n == nodes[0] || n in tail);
    if m in tail && n in tail {
      Apart(tail, m, n, x, y);
    } else {
      PreorderMember(tail, x);
      PreorderMember(tail, y);
    }
  }

  lemma {:induction false} NodeUnique(nodes: seq<Node>, n: Node)
    requires UniqueIds(Preorder(nodes)) && n in nodes
    ensures UniqueIds(Preorder(n.subtasks))
    ensures n.row.id !in IdSet(Preorder(n.subtasks))
  {
    PreorderSplit(nodes);
    if n == nodes[0] {
      IdAbsent(Preorder(n.subtasks), n.row.id);
    } else {
      NodeUnique(nodes[1..], n);
    }
  }

  /** The rows below p in `rows` are the rows of the well-linked list `nodes`, and nothing outside hangs below them. */
  ghost predicate Encloses(rows: seq<Row>, ids: set<Id>, p: Option<Id>, nodes: seq<Node>) {
    && WellLinked(nodes, p) && UniqueIds(Preorder(nodes))
    && (p.Some? ==> p.value !in IdSet(Preorder(nodes)))
    && IdSet(Preorder(nodes)) <= ids
    && (forall r :: r in Preorder(nodes) ==> r in rows)
    && (forall r :: r in rows && r.parentTaskId.Some? && r.parentTaskId.value in IdSet(Preorder(nodes)) ==>
        r in Preorder(nodes))
    && (forall r :: r in rows && ParentKey(ids, r) == p <==> r in TopRows(nodes))
  }

  /** A row below a node of an enclosed list, other than the node itself, names a parent inside the node. */
  lemma BelowNode(rows: seq<Row>, ids: set<Id>, p: Option<Id>, nodes: seq<Node>, r: Row) returns (m: Node)
    requires Encloses(rows, ids, p, nodes)
    requires r in rows && r.parentTaskId.Some? && r.parentTaskId.value in IdSet(Preorder(nodes))
    ensures m in nodes && r in Preorder(m.subtasks)
    ensures (r in TopRows(m.subtasks) && r.parentTaskId == Some(m.row.id))
         || r.parentTaskId.value in IdSet(Preorder(m.subtasks))
  {
    PreorderMember(nodes, r);
    m :| m in nodes && (r == m.row || r in Preorder(m.subtasks));
    LinkedNode(nodes, p, m);
    ParentWithin(m.subtasks, Some(m.row.id), r);
  }

  lemma EnclosedChild(rows: seq<Row>, ids: set<Id>, p: Option<Id>, nodes: seq<Node>, n: Node, r: Row)
    requires Encloses(rows, ids, p, nodes) && n in nodes
    requires r in rows && r.parentTaskId.Some?
    ensures r.parentTaskId.value in IdSet(Preorder(n.subtasks)) ==> r in Preorder(n.subtasks)
    ensures r.parentTaskId == Some(n.row.id) ==> r in TopRows(n.subtasks)
  {
    var k := r.parentTaskId.value;
    PreorderContains(nodes, n);
    NodeUnique(nodes, n);
    var y := n.row;
    if k in IdSet(Preorder(n.subtasks)) {
      y := RowWithId(Preorder(n.subtasks), k);
    }
    if k == y.id {
      var m := BelowNode(rows, ids, p, nodes, r);
      var x := m.row;
      if k in IdSet(Preorder(m.subtasks)) {
        x := RowWithId(Preorder(m.subtasks), k);
      }
      Apart(nodes, m, n, x, y);
    }
  }

  lemma TopsHangUnder(rows: seq<Row>, ids: set<Id>, p: Option<Id>, nodes: seq<Node>, n: Node, r: Row)
    requires Encloses(rows, ids, p, nodes) && n in nodes && r in TopRows(n.subtasks)
    ensures r in rows && ParentKey(ids, r) == Some(n.row.id)
  {
    PreorderContains(nodes, n);
    LinkedNode(nodes, p, n);
    var i :| 0 <= i < |n.subtasks| && TopRows(n.subtasks)[i] == r;
    LinkedNode(n.subtasks, Some(n.row.id), n.subtasks[i]);
    PreorderContains(n.subtasks, n.subtasks[i]);
  }

  lemma EnclosesChild(rows: seq<Row>, ids: set<Id>, p: Option<Id>, nodes: seq<Node>, n: Node)
    requires Encloses(rows, ids, p, nodes) && n in nodes
    ensures Encloses(rows, ids, Some(n.row.id), n.subtasks)
  {
    PreorderContains(nodes, n);
    NodeUnique(nodes, n);
    LinkedNode(nodes, p, n);
    forall r | r in rows && r.parentTaskId.Some?
      ensures r.parentTaskId.value in IdSet(Preorder(n.subtasks)) ==> r in Preorder(n.subtasks)
      ensures r.parentTaskId == Some(n.row.id) ==> r in TopRows(n.subtasks)
    {
      EnclosedChild(rows, ids, p, nodes, n, r);
    }
    forall r | r in TopRows(n.subtasks)
      ensures r in rows && ParentKey(ids, r) == Some(n.row.id)
    {
      TopsHangUnder(rows, ids, p, nodes, n, r);
    }
  }

  lemma {:induction false} EnclosedRepresents(rows: seq<Row>, ids: set<Id>, p: Option<Id>, nodes: seq<Node>)
    requires UniqueIds(rows) && Encloses(rows, ids, p, nodes)
    ensures Represents(rows, ids, p, nodes)
    decreases nodes
  {
    SortedSiblings(rows, ids, p, nodes);
    forall n | n in nodes ensures Represents(rows, ids, Some(n.row.id), n.subtasks) {
      EnclosesChild(rows, ids, p, nodes, n);
      EnclosedRepresents(rows, ids, Some(n.row.id), n.subtasks);
    }
  }

  /** A well-linked forest with distinct ids is the forest of any permutation of its own rows. */
  lemma {:induction false} WellLinkedRecovered(forest: seq<Node>, rows: seq<Row>)
    requires WellLinked(forest, None) && UniqueIds(Preorder(forest))
    requires multiset(rows) == multiset(Preorder(forest))
    ensures UniqueIds(rows) && IsForestOf(rows, forest)
  {
    var all := Preorder(forest);
    UniqueIdsOfPermutation(all, rows);
    forall r ensures r in rows <==> r in all {
      assert r in rows <==> r in multiset(rows);
    }
    IdSetMonotone(rows, all);
    IdSetMonotone(all, rows);
    forall r | r in rows ensures ParentKey(IdSet(rows), r).None? <==> r in TopRows(forest) {
      RootsAreTops(forest, r);
    }
    forall r | r in TopRows(forest) ensures r in rows {
      var i :| 0 <= i < |forest| && TopRows(forest)[i] == r;
      PreorderContains(forest, forest[i]);
    }
    EnclosedRepresents(rows, IdSet(rows), None, forest);
  }

  lemma {:induction false} RootsAreTops(forest: seq<Node>, r: Row)
    requires WellLinked(forest, None) && r in Preorder(forest)
    ensures ParentKey(IdSet(Preorder(forest)), r).None? <==> r in TopRows(forest)
  {
    ParentWithin(forest, None, r);
    if r in TopRows(forest) {
      var i :| 0 <= i < |forest| && TopRows(forest)[i] == r;
      LinkedNode(forest, None, forest[i]);
    } else {
      var k := r.parentTaskId.value;
      var q := RowWithId(Preorder(forest), k);
      ParentWithin(forest, None, q);
    }
  }
}
