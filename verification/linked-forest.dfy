/**
 Parent-linked rows and the forests they spell: what it means for a forest to be the one a
 set of rows describes, that there is at most one, and which rows it contains.
 */
module LinkedForest {
  import opened Options

  type Id = string

  datatype Row = Row(id: Id, name: string, description: string, order: int, parentTaskId: Option<Id>)

  datatype Node = Node(row: Row, subtasks: seq<Node>)

  // -------------------------------------------------------------------------
  // Rows
  // -------------------------------------------------------------------------

  predicate UniqueIds(rows: seq<Row>) {
    forall i, j :: 0 <= i < j < |rows| ==> rows[i].id != rows[j].id
  }

  function IdSet(rows: seq<Row>): (ids: set<Id>)
    ensures forall r :: r in rows ==> r.id in ids
  {
    if rows == [] then {} else {rows[0].id} + IdSet(rows[1..])
  }

  lemma {:induction false} RowWithId(rows: seq<Row>, k: Id) returns (r: Row)
    requires k in IdSet(rows)
    ensures r in rows && r.id == k
  {
    if rows[0].id == k {
      r := rows[0];
    } else {
      r := RowWithId(rows[1..], k);
    }
  }

  lemma {:induction false} IdAbsent(rows: seq<Row>, k: Id)
    requires forall r :: r in rows ==> r.id != k
    ensures k !in IdSet(rows)
  {
    if k in IdSet(rows) {
      var r := RowWithId(rows, k);
    }
  }

  lemma {:induction false} IdSetMonotone(a: seq<Row>, b: seq<Row>)
    requires forall r :: r in a ==> r in b
    ensures IdSet(a) <= IdSet(b)
  {
    forall k | k in IdSet(a) ensures k in IdSet(b) {
      var r := RowWithId(a, k);
    }
  }

  /** The parent a row hangs under: a non-empty id among the ids present, or none, which makes it a root. */
  function ParentKey(ids: set<Id>, r: Row): Option<Id> {
    if r.parentTaskId.Some? && r.parentTaskId.value != "" && r.parentTaskId.value in ids
    then r.parentTaskId else None
  }

  /** The rows hanging under p, in row order. */
  function Siblings(rows: seq<Row>, ids: set<Id>, p: Option<Id>): (s: seq<Row>)
    ensures forall r :: r in s <==> r in rows && ParentKey(ids, r) == p
  {
    if rows == [] then []
    else
      var init := Siblings(rows[..|rows| - 1], ids, p);
      var last := rows[|rows| - 1];
      assert rows == rows[..|rows| - 1] + [last];
      if ParentKey(ids, last) == p then init + [last] else init
  }

  /** A row is a root if its parent is absent, empty or unknown; otherwise it hangs under its parent. */
  lemma {:induction false} SiblingsOne(r: Row, ids: set<Id>, p: Option<Id>)
    ensures
      var root := r.parentTaskId == None || r.parentTaskId == Some("") || r.parentTaskId.value !in ids;
      Siblings([r], ids, p) == if p == (if root then None else r.parentTaskId) then [r] else []
  {
    assert [r][..0] == [];
  }

  /** Siblings keep the sequence of the rows. */
  lemma {:induction false} SiblingsConcat(a: seq<Row>, b: seq<Row>, ids: set<Id>, p: Option<Id>)
    ensures Siblings(a + b, ids, p) == Siblings(a, ids, p) + Siblings(b, ids, p)
  {
    if b == [] {
      assert a + b == a;
    } else {
      var init, last := b[..|b| - 1], b[|b| - 1];
      assert a + b == (a + init) + [last] && (a + b)[..|a + b| - 1] == a + init;
      SiblingsConcat(a, init, ids, p);
    }
  }

  // -------------------------------------------------------------------------
  // Stable sorting by order
  // -------------------------------------------------------------------------

  predicate Sorted(s: seq<Row>) {
    forall i, j :: 0 <= i < j < |s| ==> s[i].order <= s[j].order
  }

  /** Put r after every row whose order is not larger. */
  function Insert(s: seq<Row>, r: Row): (t: seq<Row>) {
    if s == [] || r.order < s[0].order then [r] + s else [s[0]] + Insert(s[1..], r)
  }

  /** The rows in ascending order, rows of equal order keeping their places. */
  function StableSort(rows: seq<Row>): (s: seq<Row>) {
    if rows == [] then [] else Insert(StableSort(rows[..|rows| - 1]), rows[|rows| - 1])
  }

  /** The rows of one order, in their given sequence. */
  function OfOrder(s: seq<Row>, k: int): seq<Row> {
    if s == [] then [] else (if s[0].order == k then [s[0]] else []) + OfOrder(s[1..], k)
  }

  lemma {:induction false} InsertIsPermutation(s: seq<Row>, r: Row)
    ensures multiset(Insert(s, r)) == multiset(s) + multiset{r}
  {
    if s != [] && s[0].order <= r.order {
      InsertIsPermutation(s[1..], r);
      assert s == [s[0]] + s[1..];
    }
  }

  lemma SortedCons(x: Row, t: seq<Row>)
    requires Sorted(t) && (t == [] || x.order <= t[0].order)
    ensures Sorted([x] + t)
  {}

  lemma {:induction false} InsertSorted(s: seq<Row>, r: Row)
    requires Sorted(s)
    ensures Sorted(Insert(s, r))
  {
    if s != [] && s[0].order <= r.order {
      InsertSorted(s[1..], r);
      SortedCons(s[0], Insert(s[1..], r));
    } else {
      SortedCons(r, s);
    }
  }

  lemma {:induction false} StableSortSorts(rows: seq<Row>)
    ensures multiset(StableSort(rows)) == multiset(rows)
    ensures Sorted(StableSort(rows))
  {
    if rows != [] {
      var init, last := rows[..|rows| - 1], rows[|rows| - 1];
      assert rows == init + [last];
      StableSortSorts(init);
      InsertIsPermutation(StableSort(init), last);
      InsertSorted(StableSort(init), last);
    }
  }

  lemma {:induction false} OfOrderAppend(s: seq<Row>, r: Row, k: int)
    ensures OfOrder(s + [r], k) == OfOrder(s, k) + if r.order == k then [r] else []
  {
    if s != [] {
      assert (s + [r])[1..] == s[1..] + [r];
      OfOrderAppend(s[1..], r, k);
    }
  }

  lemma {:induction false} OfOrderEmpty(s: seq<Row>, k: int)
    requires forall r :: r in s ==> r.order != k
    ensures OfOrder(s, k) == []
  {
    if s != [] {
      OfOrderEmpty(s[1..], k);
    }
  }

  lemma {:induction false} OfOrderCons(r: Row, s: seq<Row>, k: int)
    ensures OfOrder([r] + s, k) == (if r.order == k then [r] else []) + OfOrder(s, k)
  {}

  lemma {:induction false} InsertStable(s: seq<Row>, r: Row, k: int)
    requires Sorted(s)
    ensures OfOrder(Insert(s, r), k) == OfOrder(s, k) + if r.order == k then [r] else []
  {
    if s == [] {
      OfOrderCons(r, [], k);
    } else if r.order < s[0].order {
      OfOrderCons(r, s, k);
      if r.order == k {
        OfOrderEmpty(s, k);
      }
    } else {
      InsertStable(s[1..], r, k);
      OfOrderCons(s[0], Insert(s[1..], r), k);
    }
  }

  /** Sorting keeps the rows of each order in their given sequence. */
  lemma {:induction false} StableSortStable(rows: seq<Row>, k: int)
    ensures OfOrder(StableSort(rows), k) == OfOrder(rows, k)
  {
    if rows != [] {
      var init, last := rows[..|rows| - 1], rows[|rows| - 1];
      assert rows == init + [last];
      StableSortStable(init, k);
      StableSortSorts(init);
      InsertStable(StableSort(init), last, k);
      OfOrderAppend(init, last, k);
    }
  }

  lemma {:induction false} OfOrderHead(s: seq<Row>, k: int)
    requires Sorted(s) && s != []
    ensures s[0].order == k ==> OfOrder(s, k) != [] && OfOrder(s, k)[0] == s[0]
    ensures k < s[0].order ==> OfOrder(s, k) == []
  {
    if k < s[0].order {
      OfOrderEmpty(s, k);
    }
  }

  /** A sorted sequence is determined by its rows of each order, so StableSort is the only stable sort. */
  lemma {:induction false} StableSortUnique(rows: seq<Row>, s: seq<Row>)
    requires Sorted(s)
    requires forall k :: OfOrder(s, k) == OfOrder(rows, k)
    ensures s == StableSort(rows)
  {
    var t := StableSort(rows);
    StableSortSorts(rows);
    forall k ensures OfOrder(s, k) == OfOrder(t, k) {
      StableSortStable(rows, k);
    }
    SortedDetermined(s, t);
  }

  lemma {:induction false} SortedDetermined(s: seq<Row>, t: seq<Row>)
    requires Sorted(s) && Sorted(t)
    requires forall k :: OfOrder(s, k) == OfOrder(t, k)
    ensures s == t
  {
    if s != [] {
      OfOrderHead(s, s[0].order);
      assert t != [];
      OfOrderHead(t, s[0].order);
      OfOrderHead(t, t[0].order);
      assert OfOrder(s, t[0].order) != [];
      OfOrderHead(s, t[0].order);
      assert s[0] == t[0];
      forall k ensures OfOrder(s[1..], k) == OfOrder(t[1..], k) {
        var h := if s[0].order == k then [s[0]] else [];
        assert h + OfOrder(s[1..], k) == OfOrder(s, k) == OfOrder(t, k) == h + OfOrder(t[1..], k);
        assert OfOrder(s[1..], k) == OfOrder(s, k)[|h|..];
        assert OfOrder(t[1..], k) == OfOrder(t, k)[|h|..];
      }
      SortedDetermined(s[1..], t[1..]);
    } else if t != [] {
      OfOrderHead(t, t[0].order);
      assert false;
    }
  }
}
