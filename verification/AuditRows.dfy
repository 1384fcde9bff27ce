/** Rows of the two chained tables and the one order the audit chain is read
    in (amop/audit/chain.py, `_all_rows_in_chain_order`).

    SHA-256 over `prev || 0x1e || content` is modelled as a free constructor:
    distinct (prev, content) pairs have distinct digests and none is GENESIS.
    `Foreign` is any stored text that is no digest at all, so a tampered
    database may hold anything. A row's content stands for what its canonical
    serialization says; the table it lives in is part of that content. */
module AuditRows {
  import opened Wrappers
  import opened StateMachine

  type TaskId = nat

  datatype Content =
    | Transition(task: TaskId, from: TaskState, to: TaskState, note: string)
    | Action(agent: string, body: string)

  datatype Digest =
    | Genesis
    | Sha(prev: Digest, content: Content)
    | Foreign(text: string)

  datatype Table = TaskTransitions | AgentActions

  datatype Row = Row(id: int, content: Content, pos: Option<int>, prev: Option<Digest>, hash: Option<Digest>) {
    function Table(): Table {
      if content.Transition? then TaskTransitions else AgentActions
    }

    predicate SameRow(other: Row) {
      Table() == other.Table() && id == other.id
    }
  }

  /** (table, id) is the primary key. */
  ghost predicate DistinctIds(rows: seq<Row>) {
    forall i, j :: 0 <= i < j < |rows| ==> !rows[i].SameRow(rows[j])
  }

  /** The primary sort key: rows without a position first, by id; then by position. */
  function SortKey(r: Row): (int, int) {
    if r.pos.None? then (0, r.id) else (1, r.pos.value)
  }

  predicate KeyLess(k: (int, int), l: (int, int)) {
    k.0 < l.0 || (k.0 == l.0 && k.1 < l.1)
  }

  /** A stable sort by `SortKey` of the rows listed table by table, each by id,
      breaks ties by table and then by id. */
  predicate Before(a: Row, b: Row) {
    || KeyLess(SortKey(a), SortKey(b))
    || (SortKey(a) == SortKey(b) &&
        (if a.Table() == b.Table() then a.id < b.id else a.Table().TaskTransitions?))
  }

  ghost predicate InOrder(w: seq<Row>) {
    forall i, j :: 0 <= i < j < |w| ==> Before(w[i], w[j])
  }

  function Insert(r: Row, w: seq<Row>): seq<Row> {
    if w == [] || Before(r, w[0]) then [r] + w else [w[0]] + Insert(r, w[1..])
  }

  /** Every row of both tables in chain order. */
  function Walk(rows: seq<Row>): seq<Row> {
    if rows == [] then [] else Insert(rows[0], Walk(rows[1..]))
  }

  lemma InsertContents(r: Row, w: seq<Row>)
    ensures multiset(Insert(r, w)) == multiset{r} + multiset(w)
    ensures |Insert(r, w)| == |w| + 1
  {
    if w == [] || Before(r, w[0]) {
    } else {
      InsertContents(r, w[1..]);
      assert w == [w[0]] + w[1..];
    }
  }

  lemma InsertInOrder(r: Row, w: seq<Row>)
    requires InOrder(w)
    requires forall x :: x in w ==> !r.SameRow(x)
    ensures InOrder(Insert(r, w))
  {
    if w == [] || Before(r, w[0]) {
    } else {
      InsertInOrder(r, w[1..]);
      InsertMembers(r, w[1..]);
      assert w[0] in w && !r.SameRow(w[0]);
      ConsInOrder(w[0], Insert(r, w[1..]));
    }
  }

  lemma InsertMembers(r: Row, w: seq<Row>)
    ensures forall x :: x in Insert(r, w) <==> x == r || x in w
  {
    InsertContents(r, w);
    forall x ensures x in Insert(r, w) <==> x == r || x in w {
      assert x in multiset(Insert(r, w)) <==> x in multiset{r} + multiset(w);
    }
  }

  lemma ConsInOrder(x: Row, w: seq<Row>)
    requires InOrder(w) && forall y :: y in w ==> Before(x, y)
    ensures InOrder([x] + w)
  {
  }

  /** The walk lists exactly the stored rows, strictly ordered. */
  lemma WalkInOrder(rows: seq<Row>)
    requires DistinctIds(rows)
    ensures InOrder(Walk(rows))
    ensures multiset(Walk(rows)) == multiset(rows)
    ensures |Walk(rows)| == |rows|
  {
    if rows != [] {
      WalkInOrder(rows[1..]);
      InsertContents(rows[0], Walk(rows[1..]));
      assert rows == [rows[0]] + rows[1..];
      forall x | x in Walk(rows[1..]) ensures !rows[0].SameRow(x) {
        assert x in multiset(Walk(rows[1..]));
        assert x in rows[1..];
      }
      InsertInOrder(rows[0], Walk(rows[1..]));
    }
  }

  /** Chain order determines the sequence: two ordered listings of the same rows are equal. */
  lemma {:induction false} OrderIsUnique(a: seq<Row>, b: seq<Row>)
    requires InOrder(a) && InOrder(b) && multiset(a) == multiset(b)
    ensures a == b
  {
    if a == [] {
      assert |multiset(b)| == 0;
    } else {
      SameHead(a, b);
      assert a == [a[0]] + a[1..] && b == [b[0]] + b[1..];
      assert multiset(a[1..]) == multiset(a) - multiset{a[0]};
      assert multiset(b[1..]) == multiset(b) - multiset{b[0]};
      OrderIsUnique(a[1..], b[1..]);
    }
  }

  lemma SameHead(a: seq<Row>, b: seq<Row>)
    requires InOrder(a) && InOrder(b) && multiset(a) == multiset(b) && a != []
    ensures b != [] && a[0] == b[0]
  {
    assert a[0] in multiset(b);
    assert b[0] in multiset(a);
    var i :| 0 <= i < |a| && a[i] == b[0];
    var j :| 0 <= j < |b| && b[j] == a[0];
    assert i == 0 || Before(a[0], b[0]);
    assert j == 0 || Before(b[0], a[0]);
  }

  /** What the order is, in ids, positions and tables: rows without a position come
      first, by ascending id and transitions before actions on equal ids; rows with
      one follow by ascending position, and on equal positions transitions first,
      then by ascending id. */
  ghost predicate ComesBefore(a: Row, b: Row) {
    match (a.pos, b.pos)
    case (None, Some(_)) => true
    case (Some(_), None) => false
    case (None, None) => a.id < b.id || (a.id == b.id && a.content.Transition? && b.content.Action?)
    case (Some(p), Some(q)) =>
      p < q || (p == q && ((a.content.Transition? && b.content.Action?) || (a.Table() == b.Table() && a.id < b.id)))
  }

  /** The walk lists the rows in that order. */
  lemma WalkIsByPosition(rows: seq<Row>)
    requires DistinctIds(rows)
    ensures multiset(Walk(rows)) == multiset(rows)
    ensures forall i, j :: 0 <= i < j < |Walk(rows)| ==> ComesBefore(Walk(rows)[i], Walk(rows)[j])
  {
    WalkInOrder(rows);
  }

  lemma WalkOfOrdered(w: seq<Row>)
    requires InOrder(w)
    ensures Walk(w) == w
  {
    if w != [] {
      WalkOfOrdered(w[1..]);
      if |w| > 1 {
        assert Before(w[0], w[1]);
      }
    }
  }

  /** Deleting rows before or after sorting is the same. */
  lemma {:induction false} WalkFilter(rows: seq<Row>, keep: Row -> bool)
    requires DistinctIds(rows)
    ensures Walk(Filter(rows, keep)) == Filter(Walk(rows), keep)
  {
    if rows != [] {
      WalkFilter(rows[1..], keep);
      WalkInOrder(rows[1..]);
      InsertFilter(rows[0], Walk(rows[1..]), keep);
    }
  }

  lemma {:induction false} InsertFilter(r: Row, w: seq<Row>, keep: Row -> bool)
    requires InOrder(w)
    ensures Filter(Insert(r, w), keep) == if keep(r) then Insert(r, Filter(w, keep)) else Filter(w, keep)
  {
    if w == [] {
    } else if Before(r, w[0]) {
      FilterMembers(w, keep);
      var f := Filter(w, keep);
      if f != [] {
        assert f[0] in w;
        assert Before(r, f[0]);
      }
    } else {
      InsertFilter(r, w[1..], keep);
    }
  }
}
