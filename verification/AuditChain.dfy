/** The tamper-evident hash chain across both tables (amop/audit/chain.py):
    appending, verifying, the tip, and exactly which tampering shows. */
module AuditChain {
  import opened Wrappers
  import opened StateMachine
  import opened AuditRows

  predicate Hashed(r: Row) {
    r.hash.Some?
  }

  predicate Unhashed(r: Row) {
    r.hash.None?
  }

  /** The rows verification walks: those that carry a hash, in chain order. */
  function Chained(rows: seq<Row>): seq<Row> {
    Filter(Walk(rows), Hashed)
  }

  /** Each row names its predecessor's hash, `prev` for the first, and hashes to what it stores. */
  predicate Linked(c: seq<Row>, prev: Digest) {
    c == [] ||
    (c[0].prev == Some(prev) && c[0].hash == Some(Sha(prev, c[0].content)) && Linked(c[1..], c[0].hash.value))
  }

  predicate Intact(rows: seq<Row>) {
    Linked(Chained(rows), Genesis)
  }

  /** The hash the next row has to name. */
  function EndHash(c: seq<Row>, prev: Digest): Digest {
    if c != [] && Hashed(c[|c| - 1]) then c[|c| - 1].hash.value else prev
  }

  function Stamped(id: int, content: Content, pos: int, tip: Digest): Row {
    Row(id, content, Some(pos), Some(tip), Some(Sha(tip, content)))
  }

  // ----- Structure of linked sequences -----

  function Depth(d: Digest): nat {
    if d.Sha? then 1 + Depth(d.prev) else 0
  }

  /** A linked row's place in the chain can be read off the hash it names. */
  lemma {:induction false} LinkedAt(c: seq<Row>, prev: Digest, i: nat)
    requires Linked(c, prev) && i < |c|
    ensures c[i].prev.Some? && c[i].hash == Some(Sha(c[i].prev.value, c[i].content))
    ensures Depth(c[i].prev.value) == Depth(prev) + i
  {
    if i > 0 {
      LinkedAt(c[1..], c[0].hash.value, i - 1);
    }
  }

  lemma ChainedIsHashed(rows: seq<Row>)
    ensures forall r :: r in Chained(rows) ==> Hashed(r)
  {
    FilterMembers(Walk(rows), Hashed);
  }

  lemma {:induction false} LinkedAppend(c: seq<Row>, d: seq<Row>, prev: Digest)
    requires forall r :: r in c ==> Hashed(r)
    ensures Linked(c + d, prev) <==> Linked(c, prev) && Linked(d, EndHash(c, prev))
  {
    if c == [] {
      assert c + d == d;
    } else {
      assert (c + d)[1..] == c[1..] + d;
      assert Hashed(c[0]);
      LinkedAppend(c[1..], d, c[0].hash.value);
    }
  }

  lemma LinkedPrefix(c: seq<Row>, k: nat, prev: Digest)
    requires k <= |c| && Linked(c, prev)
    ensures Linked(c[..k], prev)
  {
    forall r | r in c[..k] ensures Hashed(r) {
      var i :| 0 <= i < k && c[i] == r;
      LinkedAt(c, prev, i);
    }
    assert c == c[..k] + c[k..];
    LinkedAppend(c[..k], c[k..], prev);
  }

  lemma FilterPartition<T>(s: seq<T>, p: T -> bool, q: T -> bool)
    requires forall x :: p(x) <==> !q(x)
    ensures |Filter(s, p)| + |Filter(s, q)| == |s|
  {
  }

  lemma WalkLength(rows: seq<Row>)
    ensures |Walk(rows)| == |rows|
  {
    if rows != [] {
      WalkLength(rows[1..]);
      InsertContents(rows[0], Walk(rows[1..]));
    }
  }

  // ----- verify_chain -----

  datatype VerificationResult = VerificationResult(
    intact: bool, checked: nat, tip: Option<Digest>, firstDivergence: Option<(Table, int)>, unchained: nat)

  /** Reports the chain intact exactly when it is, and otherwise the first row
      whose addition breaks it. */
  method VerifyChain(rows: seq<Row>) returns (r: VerificationResult)
    ensures r.intact <==> Intact(rows)
    ensures r.checked <= |Chained(rows)| && Linked(Chained(rows)[..r.checked], Genesis)
    ensures r.intact ==> r.checked == |Chained(rows)| && r.firstDivergence == None
    ensures r.intact ==> r.tip == if r.checked == 0 then None else Chained(rows)[r.checked - 1].hash
    ensures !r.intact ==> r.tip == None
    ensures !r.intact ==> r.checked < |Chained(rows)| && !Linked(Chained(rows)[..r.checked + 1], Genesis)
    ensures !r.intact ==> r.firstDivergence == Some((Chained(rows)[r.checked].Table(), Chained(rows)[r.checked].id))
    ensures r.unchained + |Chained(rows)| == |rows|
  {
    var walk := Walk(rows);
    var chained := Filter(walk, Hashed);
    var unchained := |Filter(walk, Unhashed)|;
    FilterPartition(walk, Hashed, Unhashed);
    WalkLength(rows);
    ChainedIsHashed(rows);
    var prev := Genesis;
    var checked := 0;
    while checked < |chained|
      invariant checked <= |chained|
      invariant Linked(chained[..checked], Genesis)
      invariant prev == EndHash(chained[..checked], Genesis)
    {
      var row := chained[checked];
      assert Hashed(row);
      assert chained[..checked + 1] == chained[..checked] + [row];
      LinkedAppend(chained[..checked], [row], Genesis);
      if row.prev != Some(prev) || Sha(prev, row.content) != row.hash.value {
        if Linked(chained, Genesis) {
          LinkedPrefix(chained, checked + 1, Genesis);
        }
        return VerificationResult(false, checked, None, Some((row.Table(), row.id)), unchained);
      }
      prev := row.hash.value;
      checked := checked + 1;
    }
    assert chained[..checked] == chained;
    return VerificationResult(true, checked, if checked > 0 then Some(prev) else None, None, unchained);
  }

  // ----- What a matching tip proves -----

  function Contents(c: seq<Row>): seq<Content> {
    seq(|c|, i requires 0 <= i < |c| => c[i].content)
  }

  lemma {:induction false} SameEndSameChain(c: seq<Row>, d: seq<Row>)
    requires Linked(c, Genesis) && Linked(d, Genesis)
    requires forall r :: r in c + d ==> Hashed(r)
    requires EndHash(c, Genesis) == EndHash(d, Genesis)
    ensures |c| == |d|
    ensures forall i :: 0 <= i < |c| ==>
            c[i].content == d[i].content && c[i].prev == d[i].prev && c[i].hash == d[i].hash
  {
    if c != [] && d != [] {
      var m, n := |c| - 1, |d| - 1;
      LinkedAt(c, Genesis, m);
      LinkedAt(d, Genesis, n);
      assert c == c[..m] + [c[m]] && d == d[..n] + [d[n]];
      LinkedAppend(c[..m], [c[m]], Genesis);
      LinkedAppend(d[..n], [d[n]], Genesis);
      SameEndSameChain(c[..m], d[..n]);
    } else if c != [] {
      LinkedAt(c, Genesis, |c| - 1);
    } else if d != [] {
      LinkedAt(d, Genesis, |d| - 1);
    }
  }

  /** Two intact databases that end in the same hash hold the same contents and
      hashes, row for row, in the same order. */
  lemma EqualTipsEqualHistories(rows: seq<Row>, other: seq<Row>)
    requires Intact(rows) && Intact(other)
    ensures EndHash(Chained(rows), Genesis) == EndHash(Chained(other), Genesis)
            <==> Contents(Chained(rows)) == Contents(Chained(other))
  {
    var c, d := Chained(rows), Chained(other);
    ChainedIsHashed(rows);
    ChainedIsHashed(other);
    if EndHash(c, Genesis) == EndHash(d, Genesis) {
      SameEndSameChain(c, d);
    }
    if Contents(c) == Contents(d) {
      assert forall i :: 0 <= i < |c| ==> c[i].content == Contents(c)[i] && d[i].content == Contents(d)[i];
      SameContentsSameEnd(c, d, Genesis);
    }
  }

  lemma {:induction false} SameContentsSameEnd(c: seq<Row>, d: seq<Row>, prev: Digest)
    requires Linked(c, prev) && Linked(d, prev) && |c| == |d|
    requires forall r :: r in c + d ==> Hashed(r)
    requires forall i :: 0 <= i < |c| ==> c[i].content == d[i].content
    ensures EndHash(c, prev) == EndHash(d, prev)
  {
    if c != [] {
      SameContentsSameEnd(c[1..], d[1..], c[0].hash.value);
    }
  }

  // ----- What deletion shows -----

  /** In a linked chain, what is left after deleting rows is linked only if it is a prefix. */
  lemma {:induction false} LinkedRemainder(c: seq<Row>, prev: Digest, keep: Row -> bool)
    requires Linked(c, prev) && Linked(Filter(c, keep), prev)
    ensures |Filter(c, keep)| <= |c| && Filter(c, keep) == c[..|Filter(c, keep)|]
    ensures forall i :: 0 <= i < |c| ==> (keep(c[i]) <==> i < |Filter(c, keep)|)
  {
    if c != [] {
      if keep(c[0]) {
        assert Filter(c, keep)[1..] == Filter(c[1..], keep);
        LinkedRemainder(c[1..], c[0].hash.value, keep);
      } else {
        var f := Filter(c[1..], keep);
        FilterMembers(c[1..], keep);
        if f != [] {
          assert f[0] in c[1..];
          var i :| 1 <= i < |c| && c[i] == f[0];
          LinkedAt(c, prev, i);
          assert false;
        }
        forall i | 0 <= i < |c| ensures !keep(c[i]) {
          if i > 0 {
            assert c[i] in c[1..] && c[i] !in f;
          }
        }
      }
    }
  }

  lemma FilterPrefix(c: seq<Row>, keep: Row -> bool, n: nat)
    requires n <= |c|
    requires forall i :: 0 <= i < |c| ==> (keep(c[i]) <==> i < n)
    ensures Filter(c, keep) == c[..n]
  {
    if c != [] {
      FilterPrefix(c[1..], keep, if n == 0 then 0 else n - 1);
    }
  }

  /** The rows that survive deleting all others. */
  function Remaining(rows: seq<Row>, keep: Row -> bool): seq<Row> {
    Filter(rows, keep)
  }

  /** Nothing that was deleted comes before something that was kept. */
  ghost predicate OnlySuffixGone(c: seq<Row>, keep: Row -> bool) {
    forall i, j :: 0 <= i < j < |c| && keep(c[j]) ==> keep(c[i])
  }

  /** From an intact chain, deleting any rows and touching no other leaves an
      intact chain if and only if the deleted chained rows are a suffix. */
  lemma DeletionShows(rows: seq<Row>, keep: Row -> bool)
    requires DistinctIds(rows) && Intact(rows)
    ensures Intact(Remaining(rows, keep)) <==> OnlySuffixGone(Chained(rows), keep)
  {
    var c := Chained(rows);
    WalkFilter(rows, keep);
    FilterFilter(Walk(rows), keep, Hashed);
    assert Chained(Remaining(rows, keep)) == Filter(c, keep);
    if Linked(Filter(c, keep), Genesis) {
      LinkedRemainder(c, Genesis, keep);
    }
    if OnlySuffixGone(c, keep) {
      var n := KeptLength(c, keep);
      FilterPrefix(c, keep, n);
      LinkedPrefix(c, n, Genesis);
    }
  }

  lemma KeptLength(c: seq<Row>, keep: Row -> bool) returns (n: nat)
    requires OnlySuffixGone(c, keep)
    ensures n <= |c| && forall i :: 0 <= i < |c| ==> (keep(c[i]) <==> i < n)
  {
    n := 0;
    while n < |c| && keep(c[n])
      invariant n <= |c| && forall i :: 0 <= i < n ==> keep(c[i])
    {
      n := n + 1;
    }
  }

  /** Emptying one whole table shows exactly when some row of the other table
      was chained after one of the deleted rows. */
  lemma EmptiedTableShows(rows: seq<Row>, table: Table)
    requires DistinctIds(rows) && Intact(rows)
    ensures !Intact(Remaining(rows, (r: Row) => r.Table() != table)) <==>
            exists i, j :: 0 <= i < j < |Chained(rows)| && Chained(rows)[i].Table() == table &&
                Chained(rows)[j].Table() != table
  {
    DeletionShows(rows, (r: Row) => r.Table() != table);
  }

  // ----- The tip -----

  /** The newest hashed row of one table: the first by descending sort key. */
  function TopOf(rows: seq<Row>, table: Table): (top: Option<Row>)
    ensures top.Some? ==> top.value in rows && top.value.Table() == table && Hashed(top.value)
    ensures top.None? ==> forall r :: r in rows && r.Table() == table ==> Unhashed(r)
    ensures top.Some? ==> forall r :: r in rows && r.Table() == table && Hashed(r) ==>
            !KeyLess(SortKey(top.value), SortKey(r))
  {
    if rows == [] then None
    else
      var rest := TopOf(rows[1..], table);
      if rows[0].Table() != table || Unhashed(rows[0]) then rest
      else if rest.Some? && KeyLess(SortKey(rows[0]), SortKey(rest.value)) then rest
      else Some(rows[0])
  }

  const CHAINED_TABLES: seq<Table> := [TaskTransitions, AgentActions]

  /** The later of the two tables' newest rows; the first table wins a tie. */
  function TipHash(rows: seq<Row>): Digest {
    match (TopOf(rows, TaskTransitions), TopOf(rows, AgentActions))
    case (None, None) => Genesis
    case (Some(a), None) => a.hash.value
    case (None, Some(b)) => b.hash.value
    case (Some(a), Some(b)) => if KeyLess(SortKey(a), SortKey(b)) then b.hash.value else a.hash.value
  }

  /** No two hashed rows of one table share a sort key. */
  ghost predicate NoTiesInTable(rows: seq<Row>) {
    forall x, y :: x in rows && y in rows && Hashed(x) && Hashed(y) ==>
      x.Table() == y.Table() && SortKey(x) == SortKey(y) ==> x == y
  }

  /** Rows of both tables share the greatest sort key and carry different hashes. */
  ghost predicate TiedTop(rows: seq<Row>) {
    exists x, y :: x in rows && y in rows && Hashed(x) && Hashed(y) && x.Table() != y.Table() &&
      SortKey(x) == SortKey(y) && x.hash != y.hash &&
      forall z :: z in rows && Hashed(z) ==> !KeyLess(SortKey(x), SortKey(z))
  }

  /** Reads the tip the way an append does, one table after another. */
  method CurrentTipHash(rows: seq<Row>) returns (tip: Digest)
    ensures tip == TipHash(rows)
  {
    var best: Option<Row> := None;
    for i := 0 to |CHAINED_TABLES|
      invariant i == 0 ==> best == None
      invariant i == 1 ==> best == TopOf(rows, TaskTransitions)
      invariant i == 2 ==>
                  TipHash(rows) == if best.Some? && best.value.hash.Some? then best.value.hash.value else Genesis
    {
      var top := TopOf(rows, CHAINED_TABLES[i]);
      if top.Some? && (best.None? || KeyLess(SortKey(best.value), SortKey(top.value))) {
        best := top;
      }
    }
    tip := if best.Some? && best.value.hash.Some? then best.value.hash.value else Genesis;
  }

  /** The last chained row of the walk has no row after it. */
  lemma LastChained(rows: seq<Row>)
    requires DistinctIds(rows) && Chained(rows) != []
    ensures var last := Chained(rows)[|Chained(rows)| - 1];
            last in rows && Hashed(last) && forall r :: r in rows && Hashed(r) && r != last ==> Before(r, last)
  {
    var c := Chained(rows);
    ChainedMembers(rows);
    LastInOrder(c);
    assert c[|c| - 1] in c;
  }

  lemma LastInOrder(c: seq<Row>)
    requires InOrder(c) && c != []
    ensures forall r :: r in c && r != c[|c| - 1] ==> Before(r, c[|c| - 1])
  {
  }

  /** The chained rows are the stored rows with a hash, ordered. */
  lemma ChainedMembers(rows: seq<Row>)
    requires DistinctIds(rows)
    ensures InOrder(Chained(rows))
    ensures forall r :: r in Chained(rows) <==> r in rows && Hashed(r)
  {
    WalkInOrder(rows);
    FilterMembers(Walk(rows), Hashed);
    FilterInOrder(Walk(rows), Hashed);
    forall r ensures r in Walk(rows) <==> r in rows {
      assert r in multiset(Walk(rows)) <==> r in multiset(rows);
    }
  }

  lemma FilterInOrder(w: seq<Row>, p: Row -> bool)
    requires InOrder(w)
    ensures InOrder(Filter(w, p))
  {
    if w != [] {
      FilterInOrder(w[1..], p);
      FilterMembers(w[1..], p);
      forall x | x in Filter(w[1..], p) ensures Before(w[0], x) {
        assert x in w[1..];
      }
    }
  }

  lemma EmptyTip(rows: seq<Row>)
    requires DistinctIds(rows) && Chained(rows) == []
    ensures TipHash(rows) == Genesis && !TiedTop(rows)
  {
    ChainedMembers(rows);
    assert forall r :: r in rows ==> Unhashed(r);
  }

  /** The last chained row is the newest of its own table. */
  lemma LastIsTop(rows: seq<Row>)
    requires DistinctIds(rows) && NoTiesInTable(rows) && Chained(rows) != []
    ensures var last := Chained(rows)[|Chained(rows)| - 1];
            last in rows && Hashed(last) && TopOf(rows, last.Table()) == Some(last)
  {
    LastChained(rows);
  }

  /** Against the newest row of the other table, the last chained row wins, or
      loses a tie it has to the first table. */
  lemma LastBeatsOther(rows: seq<Row>, last: Row, other: Row)
    requires last in rows && other in rows && Hashed(last) && Hashed(other) && last.Table() != other.Table()
    requires Before(other, last)
    ensures !KeyLess(SortKey(last), SortKey(other))
    ensures last.Table() == TaskTransitions ==> KeyLess(SortKey(other), SortKey(last))
  {
  }

  lemma TiedTopIff(rows: seq<Row>, last: Row)
    requires DistinctIds(rows) && NoTiesInTable(rows) && Chained(rows) != [] &&
             last == Chained(rows)[|Chained(rows)| - 1]
    ensures TiedTop(rows) <==>
            exists y :: y in rows && Hashed(y) && y.Table() != last.Table() && SortKey(y) == SortKey(last) &&
                y.hash != last.hash
  {
    LastChained(rows);
    if TiedTop(rows) {
      var x, y :| x in rows && y in rows && Hashed(x) && Hashed(y) && x.Table() != y.Table() &&
        SortKey(x) == SortKey(y) && x.hash != y.hash &&
        forall z :: z in rows && Hashed(z) ==> !KeyLess(SortKey(x), SortKey(z));
      assert !KeyLess(SortKey(x), SortKey(last));
      assert x == last || y == last;
    }
  }

  /** The tip an append reads is the hash of the last row of the merged walk, or
      GENESIS when no row is chained, unless the tables tie at the top. */
  lemma TipIsLastLink(rows: seq<Row>)
    requires DistinctIds(rows) && NoTiesInTable(rows)
    ensures TipHash(rows) == EndHash(Chained(rows), Genesis) <==> !TiedTop(rows)
  {
    var c := Chained(rows);
    if c == [] {
      EmptyTip(rows);
    } else {
      var last := c[|c| - 1];
      LastIsTop(rows);
      LastChained(rows);
      TiedTopIff(rows, last);
      var other := TopOf(rows, if last.Table() == TaskTransitions then AgentActions else TaskTransitions);
      if other.Some? {
        LastBeatsOther(rows, last, other.value);
      }
    }
  }

  /** Rows without a position, each stamped on the one with the next smaller id. */
  ghost predicate LegacyChain(rows: seq<Row>, prev: Digest)
    decreases |rows|
  {
    rows == [] ||
    (&& rows[0].pos == None && rows[0].prev == Some(prev) && rows[0].hash == Some(Sha(prev, rows[0].content))
     && (|rows| > 1 ==> rows[0].id < rows[1].id)
     && LegacyChain(rows[1..], Sha(prev, rows[0].content)))
  }

  lemma {:induction false} LegacyChainIs(rows: seq<Row>, prev: Digest)
    requires LegacyChain(rows, prev)
    ensures Linked(rows, prev) && InOrder(rows)
    ensures forall r :: r in rows ==> Hashed(r) && r.pos == None && rows[0].id <= r.id
    ensures rows != [] ==> Some(EndHash(rows, prev)) == rows[|rows| - 1].hash
    decreases |rows|
  {
    if rows != [] {
      var rest := rows[1..];
      LegacyChainIs(rest, Sha(prev, rows[0].content));
      assert rows == [rows[0]] + rest;
      forall r | r in rest ensures Before(rows[0], r) {
      }
      ConsInOrder(rows[0], rest);
    }
  }

  /** A chain from before the shared sequence, whatever order its rows are stored
      in, verifies, and the tip is the hash of its newest id. */
  lemma LegacyChainVerifies(rows: seq<Row>, stored: seq<Row>)
    requires LegacyChain(rows, Genesis) && rows != [] && DistinctIds(stored) && multiset(stored) == multiset(rows)
    requires forall r, q :: r in rows && q in rows ==> r.Table() == q.Table()
    ensures Intact(stored) && Chained(stored) == rows
    ensures Some(TipHash(stored)) == rows[|rows| - 1].hash
    ensures forall r :: r in stored ==> r.id <= rows[|rows| - 1].id
  {
    LegacyChainIs(rows, Genesis);
    WalkInOrder(stored);
    OrderIsUnique(Walk(stored), rows);
    FilterAll(rows, Hashed);
    forall r ensures r in stored <==> r in rows {
      assert r in multiset(stored) <==> r in multiset(rows);
    }
    LegacyTip(rows, stored);
  }

  lemma LegacyTip(rows: seq<Row>, stored: seq<Row>)
    requires rows != [] && InOrder(rows) && Chained(stored) == rows && DistinctIds(stored)
    requires forall r :: r in stored <==> r in rows
    requires forall r :: r in rows ==> Hashed(r) && r.pos == None && r.Table() == rows[0].Table()
    requires Some(EndHash(rows, Genesis)) == rows[|rows| - 1].hash
    ensures Some(TipHash(stored)) == rows[|rows| - 1].hash
    ensures forall r :: r in stored ==> r.id <= rows[|rows| - 1].id
  {
    forall x, y | x in stored && y in stored && SortKey(x) == SortKey(y) ensures x == y {
      var i :| 0 <= i < |stored| && stored[i] == x;
      var j :| 0 <= j < |stored| && stored[j] == y;
    }
    TipIsLastLink(stored);
    LastInOrder(rows);
    assert rows[|rows| - 1] in rows;
  }

  lemma WalkAppend(rows: seq<Row>, row: Row)
    requires DistinctIds(rows + [row]) && row.pos.Some?
    requires forall r :: r in rows && r.pos.Some? ==> r.pos.value < row.pos.value
    ensures DistinctIds(rows)
    ensures Walk(rows + [row]) == Walk(rows) + [row]
  {
    DistinctPrefix(rows, row);
    WalkInOrder(rows);
    WalkInOrder(rows + [row]);
    forall x | x in Walk(rows) ensures Before(x, row) {
      assert x in multiset(Walk(rows));
      assert x in rows;
    }
    OrderIsUnique(Walk(rows + [row]), Walk(rows) + [row]);
  }

  /** Appending under the current tip with a later position than any stored one
      extends an intact chain by exactly that row. */
  lemma AppendKeepsIntact(rows: seq<Row>, row: Row)
    requires DistinctIds(rows + [row]) && Intact(rows) && row.pos.Some?
    requires row == Stamped(row.id, row.content, row.pos.value, EndHash(Chained(rows), Genesis))
    requires forall r :: r in rows && r.pos.Some? ==> r.pos.value < row.pos.value
    ensures Intact(rows + [row])
    ensures Chained(rows + [row]) == Chained(rows) + [row]
  {
    WalkAppend(rows, row);
    FilterAppend(Walk(rows), [row], Hashed);
    assert Filter([row], Hashed) == [row];
    ChainedIsHashed(rows);
    LinkedAppend(Chained(rows), [row], Genesis);
  }

  lemma DistinctPrefix(rows: seq<Row>, row: Row)
    requires DistinctIds(rows + [row])
    ensures DistinctIds(rows)
  {
    forall i, j | 0 <= i < j < |rows| ensures !rows[i].SameRow(rows[j]) {
      assert rows[i] == (rows + [row])[i] && rows[j] == (rows + [row])[j];
    }
  }
}
