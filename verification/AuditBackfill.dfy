/** Chaining rows written before the chain existed (amop/audit/chain.py,
    `append_chained` and `backfill_chain`), and exactly when the result verifies. */
module AuditBackfill {
  import opened Wrappers
  import opened AuditRows
  import opened AuditChain

  /** Hashed before the shared sequence existed. */
  predicate Legacy(r: Row) {
    Hashed(r) && r.pos.None?
  }

  /** Never chained and never positioned. */
  predicate Unplaced(r: Row) {
    Unhashed(r) && r.pos.None?
  }

  function CountLegacy(w: seq<Row>): nat {
    |Filter(w, Legacy)|
  }

  function CountUnhashed(w: seq<Row>): nat {
    |Filter(w, Unhashed)|
  }

  /** Positions the sequence hands out while filling `w`. */
  function Drawn(w: seq<Row>): nat {
    |Filter(w, Unplaced)|
  }

  /** Where a backfill stands: the hash to link after, the last negative
      position given out and the next value of the sequence. */
  datatype Cursor = Cursor(prev: Digest, legacyPos: int, next: int)

  /** What one row of the walk becomes: an unhashed row is linked after `prev`
      and positioned if it had no position; a legacy row only gets the next
      negative position; any other row is left alone. */
  function FillRow(r: Row, c: Cursor): (f: Row)
    ensures Hashed(f) && f.pos.Some? && f.SameRow(r) && f.content == r.content
    ensures Hashed(r) ==> f.hash == r.hash && f.prev == r.prev
    ensures r.pos.Some? ==> f.pos == r.pos
  {
    if Unhashed(r) then
      r.(pos := if r.pos.None? then Some(c.next) else r.pos, prev := Some(c.prev), hash := Some(Sha(c.prev, r.content)))
    else if r.pos.None? then r.(pos := Some(c.legacyPos + 1))
    else r
  }

  function Advance(r: Row, c: Cursor): Cursor {
    Cursor(FillRow(r, c).hash.value,
           if Legacy(r) then c.legacyPos + 1 else c.legacyPos,
           if Unplaced(r) then c.next + 1 else c.next)
  }

  function Fill(w: seq<Row>, c: Cursor): (f: seq<Row>)
    ensures |f| == |w|
  {
    if w == [] then [] else [FillRow(w[0], c)] + Fill(w[1..], Advance(w[0], c))
  }

  function CursorAfter(w: seq<Row>, c: Cursor): Cursor {
    if w == [] then c else CursorAfter(w[1..], Advance(w[0], c))
  }

  function Start(w: seq<Row>, next: int): Cursor {
    Cursor(Genesis, -1 - CountLegacy(w), next)
  }

  /** The database after a backfill. */
  function Backfilled(rows: seq<Row>, next: int): seq<Row> {
    Fill(Walk(rows), Start(Walk(rows), next))
  }

  lemma {:induction false} FillAppend(w: seq<Row>, r: Row, c: Cursor)
    ensures Fill(w + [r], c) == Fill(w, c) + [FillRow(r, CursorAfter(w, c))]
    ensures CursorAfter(w + [r], c) == Advance(r, CursorAfter(w, c))
  {
    if w == [] {
      assert w + [r] == [r];
    } else {
      assert (w + [r])[1..] == w[1..] + [r];
      FillAppend(w[1..], r, Advance(w[0], c));
    }
  }

  lemma {:induction false} CursorNext(w: seq<Row>, c: Cursor)
    ensures CursorAfter(w, c).next == c.next + Drawn(w)
  {
    if w != [] {
      CursorNext(w[1..], Advance(w[0], c));
    }
  }

  lemma CountStep(w: seq<Row>, i: nat)
    requires i < |w|
    ensures CountLegacy(w[..i + 1]) == CountLegacy(w[..i]) + if Legacy(w[i]) then 1 else 0
    ensures CountUnhashed(w[..i + 1]) == CountUnhashed(w[..i]) + if Unhashed(w[i]) then 1 else 0
  {
    assert w[..i + 1] == w[..i] + [w[i]];
    FilterAppend(w[..i], [w[i]], Legacy);
    FilterAppend(w[..i], [w[i]], Unhashed);
  }

  class AuditStore {
    var rows: seq<Row>
    var nextPos: int

    constructor ()
      ensures rows == [] && nextPos == 1
    {
      rows, nextPos := [], 1;
    }

    /** `append_chained` and the commit after it, in a transaction of its own. */
    method AppendChained(id: int, content: Content) returns (row: Row)
      modifies this
      ensures row == Stamped(id, content, old(nextPos), TipHash(old(rows)))
      ensures rows == old(rows) + [row] && nextPos == old(nextPos) + 1
    {
      var prev := CurrentTipHash(rows);
      var pos := nextPos;
      nextPos := nextPos + 1;
      row := Row(id, content, Some(pos), Some(prev), Some(Sha(prev, content)));
      rows := rows + [row];
    }

    method BackfillChain() returns (filled: nat, positioned: nat)
      modifies this
      ensures rows == Backfilled(old(rows), old(nextPos))
      ensures nextPos == old(nextPos) + Drawn(Walk(old(rows)))
      ensures filled == CountUnhashed(Walk(old(rows))) && positioned == CountLegacy(Walk(old(rows)))
    {
      var walk := Walk(rows);
      var legacyPos := -1 - |Filter(walk, Legacy)|;
      var prev := Genesis;
      filled, positioned := 0, 0;
      var done: seq<Row> := [];
      for i := 0 to |walk|
        invariant done == Fill(walk[..i], Start(walk, old(nextPos)))
        invariant Cursor(prev, legacyPos, nextPos) == CursorAfter(walk[..i], Start(walk, old(nextPos)))
        invariant filled == CountUnhashed(walk[..i]) && positioned == CountLegacy(walk[..i])
      {
        assert walk[..i + 1] == walk[..i] + [walk[i]];
        FillAppend(walk[..i], walk[i], Start(walk, old(nextPos)));
        CountStep(walk, i);
        var row := walk[i];
        if row.hash.None? {
          if row.pos.None? {
            row := row.(pos := Some(nextPos));
            nextPos := nextPos + 1;
          }
          row := row.(prev := Some(prev));
          row := row.(hash := Some(Sha(prev, row.content)));
          filled := filled + 1;
        } else if row.pos.None? {
          legacyPos := legacyPos + 1;
          row := row.(pos := Some(legacyPos));
          positioned := positioned + 1;
        }
        prev := row.hash.value;
        done := done + [row];
      }
      assert walk[..|walk|] == walk;
      CursorNext(walk, Start(walk, old(nextPos)));
      rows := done;
    }
  }

  // ----- What every backfill keeps -----

  /** Row for row in walk order, identity and content stay, an existing hash and
      the hash it names stay, and every row ends up hashed and positioned. */
  lemma {:induction false} FillKeeps(w: seq<Row>, c: Cursor, i: nat)
    requires i < |w|
    ensures var f := Fill(w, c)[i];
            f.SameRow(w[i]) && f.content == w[i].content && Hashed(f) && f.pos.Some? &&
            (Hashed(w[i]) ==> f.hash == w[i].hash && f.prev == w[i].prev) &&
            (w[i].pos.Some? ==> f.pos == w[i].pos)
  {
    if i > 0 {
      FillKeeps(w[1..], Advance(w[0], c), i - 1);
    }
  }

  lemma BackfillKeepsIds(rows: seq<Row>, next: int)
    requires DistinctIds(rows)
    ensures DistinctIds(Backfilled(rows, next)) && |Backfilled(rows, next)| == |rows|
    ensures forall f :: f in Backfilled(rows, next) ==> Hashed(f) && f.pos.Some?
  {
    var w := Walk(rows);
    var out := Backfilled(rows, next);
    WalkInOrder(rows);
    WalkKeepsDistinct(rows);
    forall i | 0 <= i < |w| ensures out[i].SameRow(w[i]) && Hashed(out[i]) && out[i].pos.Some? {
      FillKeeps(w, Start(w, next), i);
    }
  }

  lemma WalkKeepsDistinct(rows: seq<Row>)
    requires DistinctIds(rows)
    ensures DistinctIds(Walk(rows))
  {
    if rows != [] {
      WalkKeepsDistinct(rows[1..]);
      WalkInOrder(rows[1..]);
      forall x | x in Walk(rows[1..]) ensures !rows[0].SameRow(x) {
        assert x in multiset(Walk(rows[1..]));
        assert x in rows[1..];
      }
      InsertKeepsDistinct(rows[0], Walk(rows[1..]));
    }
  }

  lemma InsertKeepsDistinct(r: Row, w: seq<Row>)
    requires DistinctIds(w) && forall x :: x in w ==> !r.SameRow(x)
    ensures DistinctIds(Insert(r, w))
  {
    if w == [] || Before(r, w[0]) {
    } else {
      assert forall x :: x in w[1..] ==> x in w && !w[0].SameRow(x);
      InsertKeepsDistinct(r, w[1..]);
      InsertContents(r, w[1..]);
      var tail := Insert(r, w[1..]);
      assert w[0] in w;
      forall x | x in tail ensures !w[0].SameRow(x) {
        assert x in multiset(tail);
        assert x == r || x in w[1..];
      }
    }
  }

  lemma {:induction false} FillOfFilled(w: seq<Row>, c: Cursor)
    requires forall r :: r in w ==> Hashed(r) && r.pos.Some?
    ensures Fill(w, c) == w
    ensures CountLegacy(w) == CountUnhashed(w) == Drawn(w) == 0
  {
    if w != [] {
      FillOfFilled(w[1..], Advance(w[0], c));
    }
  }

  /** A second run changes no row in the walk, draws no position and reports (0, 0). */
  lemma SecondBackfillIsIdle(rows: seq<Row>, next: int, later: int)
    requires DistinctIds(rows)
    ensures var out := Backfilled(rows, next);
            Backfilled(out, later) == Walk(out) &&
            CountUnhashed(Walk(out)) == CountLegacy(Walk(out)) == Drawn(Walk(out)) == 0
  {
    var out := Backfilled(rows, next);
    BackfillKeepsIds(rows, next);
    WalkInOrder(out);
    forall r | r in Walk(out) ensures Hashed(r) && r.pos.Some? {
      assert r in multiset(Walk(out));
      assert r in out;
    }
    FillOfFilled(Walk(out), Start(Walk(out), later));
  }

  // ----- When the result verifies -----

  /** What the shared sequence guarantees: it starts at 1, every position in use
      was drawn before, and negative positions appear only once no legacy row is left. */
  ghost predicate Sane(rows: seq<Row>, next: int) {
    && next >= 1
    && (forall r :: r in rows && r.pos.Some? ==> r.pos.value < next)
    && (forall r, l :: r in rows && r.pos.Some? && l in rows && Legacy(l) ==> r.pos.value > 0)
  }

  /** No row without a hash comes before one with a hash. */
  ghost predicate UnhashedLast(w: seq<Row>) {
    forall i, j :: 0 <= i < j < |w| && Hashed(w[j]) ==> Hashed(w[i])
  }

  /** Unhashed rows do not mix positioned and unpositioned ones. */
  ghost predicate OneKind(w: seq<Row>) {
    forall u, p :: u in w && Unplaced(u) && p in w && Unhashed(p) ==> p.pos.None?
  }

  lemma {:induction false} FillBounds(w: seq<Row>, c: Cursor, i: nat)
    requires i < |w|
    ensures Fill(w, c)[i].pos.Some?
    ensures Legacy(w[i]) ==> c.legacyPos < Fill(w, c)[i].pos.value <= c.legacyPos + CountLegacy(w)
    ensures Unplaced(w[i]) ==> c.next <= Fill(w, c)[i].pos.value
  {
    FillKeeps(w, c, i);
    if i > 0 {
      FillBounds(w[1..], Advance(w[0], c), i - 1);
    }
  }

  lemma {:induction false} FillInOrder(w: seq<Row>, c: Cursor)
    requires InOrder(w) && UnhashedLast(w) && OneKind(w)
    requires c.legacyPos + CountLegacy(w) == -1 && c.next >= 1
    requires CountLegacy(w) > 0 ==> forall r :: r in w && r.pos.Some? ==> r.pos.value > 0
    ensures InOrder(Fill(w, c))
  {
    if w != [] {
      var tail := Fill(w[1..], Advance(w[0], c));
      FillInOrder(w[1..], Advance(w[0], c));
      forall j | 0 <= j < |tail| ensures Before(FillRow(w[0], c), tail[j]) {
        assert Before(w[0], w[1..][j]) && w[1..][j] in w && w[0] in w;
        FillBounds(w[1..], Advance(w[0], c), j);
        FillKeeps(w[1..], Advance(w[0], c), j);
      }
    }
  }

  lemma {:induction false} FillLinked(w: seq<Row>, c: Cursor)
    requires Linked(Filter(w, Hashed), c.prev) && UnhashedLast(w)
    ensures Linked(Fill(w, c), c.prev)
  {
    if w != [] {
      if Unhashed(w[0]) {
        FilterMembers(w[1..], Hashed);
        assert Filter(w[1..], Hashed) == [] by {
          if Filter(w[1..], Hashed) != [] {
            var r := Filter(w[1..], Hashed)[0];
            assert r in w[1..] && Hashed(r);
          }
        }
      } else {
        assert Filter(w, Hashed)[1..] == Filter(w[1..], Hashed);
      }
      FillLinked(w[1..], Advance(w[0], c));
    }
  }

  lemma FirstHashed(w: seq<Row>) returns (j: nat)
    requires Filter(w, Hashed) != []
    ensures j < |w| && Filter(w, Hashed)[0] == w[j] && Hashed(w[j])
  {
    if Hashed(w[0]) {
      j := 0;
    } else {
      j := FirstHashed(w[1..]);
      j := j + 1;
    }
  }

  /** A row that had no hash and the next one that had one both name the same predecessor. */
  lemma {:induction false} TwoNameOnePredecessor(w: seq<Row>, c: Cursor) returns (i: nat, j: nat)
    requires Linked(Filter(w, Hashed), c.prev) && !UnhashedLast(w)
    ensures i < j < |w| && Fill(w, c)[i].prev == Fill(w, c)[j].prev
  {
    if Hashed(w[0]) {
      assert Filter(w, Hashed)[1..] == Filter(w[1..], Hashed);
      i, j := TwoNameOnePredecessor(w[1..], Advance(w[0], c));
      i, j := i + 1, j + 1;
    } else {
      FilterMembers(w, Hashed);
      assert Filter(w, Hashed) != [] by {
        var a, b :| 0 <= a < b < |w| && Hashed(w[b]) && Unhashed(w[a]);
        assert w[b] in Filter(w, Hashed);
      }
      j := FirstHashed(w);
      i := 0;
      FillKeeps(w, c, j);
    }
  }

  lemma LinkedNamesOnce(s: seq<Row>, x: Row, y: Row)
    requires Linked(s, Genesis) && x in s && y in s && x.prev == y.prev
    ensures x == y
  {
    var a :| 0 <= a < |s| && s[a] == x;
    var b :| 0 <= b < |s| && s[b] == y;
    LinkedAt(s, Genesis, a);
    LinkedAt(s, Genesis, b);
  }

  /** The links of a chain fix its order. */
  lemma LinksFixOrder(s: seq<Row>, t: seq<Row>)
    requires Linked(s, Genesis) && Linked(t, Genesis) && multiset(s) == multiset(t)
    ensures s == t
  {
    assert |s| == |multiset(s)| == |t|;
    forall i | 0 <= i < |s| ensures s[i] == t[i] {
      assert s[i] in multiset(t);
      var k :| 0 <= k < |t| && t[k] == s[i];
      LinkedAt(s, Genesis, i);
      LinkedAt(t, Genesis, k);
    }
  }

  lemma WalkOfBackfilled(rows: seq<Row>, next: int)
    requires DistinctIds(rows)
    ensures Chained(Backfilled(rows, next)) == Walk(Backfilled(rows, next))
    ensures multiset(Walk(Backfilled(rows, next))) == multiset(Backfilled(rows, next))
    ensures InOrder(Walk(Backfilled(rows, next)))
  {
    var out := Backfilled(rows, next);
    BackfillKeepsIds(rows, next);
    WalkInOrder(out);
    forall r | r in Walk(out) ensures Hashed(r) {
      assert r in multiset(Walk(out));
      assert r in out;
    }
    FilterAll(Walk(out), Hashed);
  }

  lemma SaneWalk(rows: seq<Row>, next: int)
    requires DistinctIds(rows) && Sane(rows, next)
    ensures InOrder(Walk(rows)) && forall r :: r in Walk(rows) <==> r in rows
    ensures CountLegacy(Walk(rows)) > 0 ==> forall r :: r in Walk(rows) && r.pos.Some? ==> r.pos.value > 0
  {
    WalkInOrder(rows);
    forall r ensures r in Walk(rows) <==> r in rows {
      assert r in multiset(Walk(rows)) <==> r in multiset(rows);
    }
    FilterMembers(Walk(rows), Legacy);
    if CountLegacy(Walk(rows)) > 0 {
      var l := Filter(Walk(rows), Legacy)[0];
      assert l in Filter(Walk(rows), Legacy);
      assert l in rows && Legacy(l);
    }
  }

  lemma GoodBackfillVerifies(rows: seq<Row>, next: int)
    requires DistinctIds(rows) && Intact(rows) && Sane(rows, next)
    requires UnhashedLast(Walk(rows)) && OneKind(rows)
    ensures Intact(Backfilled(rows, next)) && Walk(Backfilled(rows, next)) == Backfilled(rows, next)
  {
    var w := Walk(rows);
    SaneWalk(rows, next);
    FillInOrder(w, Start(w, next));
    FillLinked(w, Start(w, next));
    WalkOfOrdered(Backfilled(rows, next));
    WalkOfBackfilled(rows, next);
  }

  lemma VerifiedBackfillWasGood(rows: seq<Row>, next: int)
    requires DistinctIds(rows) && Intact(rows) && Sane(rows, next)
    requires Intact(Backfilled(rows, next))
    ensures UnhashedLast(Walk(rows)) && OneKind(rows)
  {
    var w := Walk(rows);
    var out := Backfilled(rows, next);
    var s := Walk(out);
    SaneWalk(rows, next);
    WalkOfBackfilled(rows, next);
    BackfillKeepsIds(rows, next);
    if !UnhashedLast(w) {
      var i, j := TwoNameOnePredecessor(w, Start(w, next));
      assert out[i] in multiset(s) && out[j] in multiset(s);
      LinkedNamesOnce(s, out[i], out[j]);
      assert false;
    }
    FillLinked(w, Start(w, next));
    LinksFixOrder(s, out);
    forall u, p | u in rows && Unplaced(u) && p in rows && Unhashed(p) ensures p.pos.None? {
      if p.pos.Some? {
        PlacedBehind(w, Start(w, next), u, p);
        assert false;
      }
    }
  }

  lemma PlacedBehind(w: seq<Row>, c: Cursor, u: Row, p: Row)
    requires InOrder(w) && u in w && p in w && Unplaced(u) && p.pos.Some? && p.pos.value < c.next
    ensures !InOrder(Fill(w, c))
  {
    var i :| 0 <= i < |w| && w[i] == u;
    var j :| 0 <= j < |w| && w[j] == p;
    assert !Before(p, u) && u != p;
    assert i < j;
    FillBounds(w, c, i);
    FillKeeps(w, c, j);
    assert !Before(Fill(w, c)[i], Fill(w, c)[j]);
  }

  /** Over an intact chain, the backfilled database verifies if and only if no
      unchained row preceded a chained one in the walk and the unchained rows
      were either all without a position or all with one. */
  lemma BackfillVerdict(rows: seq<Row>, next: int)
    requires DistinctIds(rows) && Intact(rows) && Sane(rows, next)
    ensures Intact(Backfilled(rows, next)) <==> UnhashedLast(Walk(rows)) && OneKind(rows)
  {
    if UnhashedLast(Walk(rows)) && OneKind(rows) {
      GoodBackfillVerifies(rows, next);
    }
    if Intact(Backfilled(rows, next)) {
      VerifiedBackfillWasGood(rows, next);
    }
  }

  lemma BareComesFirst(w: seq<Row>, bare: Row, placed: Row)
    requires InOrder(w) && bare in w && Unplaced(bare) && placed in w && Hashed(placed) && placed.pos.Some?
    ensures !UnhashedLast(w)
  {
    assert !Before(placed, bare) && bare != placed;
    var i :| 0 <= i < |w| && w[i] == bare;
    var j :| 0 <= j < |w| && w[j] == placed;
    assert i < j;
  }

  /** A positioned chained row together with a row that was never chained nor
      positioned, the state of an upgraded database whose application ran before
      the backfill, always ends up not verifying. */
  lemma LateBackfillBreaks(rows: seq<Row>, next: int, bare: Row, placed: Row)
    requires DistinctIds(rows) && Intact(rows) && Sane(rows, next)
    requires bare in rows && Unplaced(bare) && placed in rows && Hashed(placed) && placed.pos.Some?
    ensures !Intact(Backfilled(rows, next))
  {
    SaneWalk(rows, next);
    BareComesFirst(Walk(rows), bare, placed);
    BackfillVerdict(rows, next);
  }

  /** An append to an intact store, rows from before the shared sequence included,
      extends the chain unless the tables tie at the top with different hashes. */
  lemma AppendVerdict(rows: seq<Row>, next: int, id: int, content: Content)
    requires DistinctIds(rows + [Stamped(id, content, next, TipHash(rows))])
    requires Intact(rows) && Sane(rows, next) && NoTiesInTable(rows)
    ensures Intact(rows + [Stamped(id, content, next, TipHash(rows))]) <==> !TiedTop(rows)
  {
    var row := Stamped(id, content, next, TipHash(rows));
    WalkAppend(rows, row);
    TipIsLastLink(rows);
    FilterAppend(Walk(rows), [row], Hashed);
    assert Filter([row], Hashed) == [row];
    ChainedIsHashed(rows);
    LinkedAppend(Chained(rows), [row], Genesis);
  }

  /** The same evidence, row for row: everything but the position. */
  ghost predicate SameEvidence(c: seq<Row>, d: seq<Row>) {
    && |c| == |d|
    && forall i :: 0 <= i < |c| ==>
         c[i].SameRow(d[i]) && c[i].prev == d[i].prev && c[i].hash == d[i].hash && c[i].content == d[i].content
  }

  lemma {:induction false} SameEvidenceSameVerdict(c: seq<Row>, d: seq<Row>, prev: Digest)
    requires SameEvidence(c, d)
    ensures Linked(c, prev) <==> Linked(d, prev)
    ensures EndHash(c, prev) == EndHash(d, prev)
  {
    if c != [] && c[0].hash.Some? {
      SameEvidenceSameVerdict(c[1..], d[1..], c[0].hash.value);
    }
  }

  lemma FillOfHashed(w: seq<Row>, c: Cursor)
    requires forall r :: r in w ==> Hashed(r)
    ensures SameEvidence(Fill(w, c), w)
  {
    forall i | 0 <= i < |w|
      ensures Fill(w, c)[i].SameRow(w[i]) && Fill(w, c)[i].prev == w[i].prev &&
              Fill(w, c)[i].hash == w[i].hash && Fill(w, c)[i].content == w[i].content
    {
      assert w[i] in w;
      FillKeeps(w, c, i);
    }
  }

  /** With every row already chained, a backfill only positions rows: the walk
      lists the same rows in the same order, and verdict and tip are unchanged. */
  lemma BackfillOfChained(rows: seq<Row>, next: int)
    requires DistinctIds(rows) && Sane(rows, next)
    requires forall r :: r in rows ==> Hashed(r)
    ensures SameEvidence(Walk(Backfilled(rows, next)), Walk(rows))
    ensures Intact(Backfilled(rows, next)) <==> Intact(rows)
    ensures EndHash(Chained(Backfilled(rows, next)), Genesis) == EndHash(Chained(rows), Genesis)
  {
    var w := Walk(rows);
    SaneWalk(rows, next);
    FillInOrder(w, Start(w, next));
    WalkOfOrdered(Backfilled(rows, next));
    WalkOfBackfilled(rows, next);
    FilterAll(w, Hashed);
    FillOfHashed(w, Start(w, next));
    SameEvidenceSameVerdict(Fill(w, Start(w, next)), w, Genesis);
  }

  /** The sequence discipline survives appends and backfills. */
  lemma SaneIsKept(rows: seq<Row>, next: int, id: int, content: Content)
    requires DistinctIds(rows) && Sane(rows, next)
    ensures Sane(rows + [Stamped(id, content, next, TipHash(rows))], next + 1)
    ensures Sane(Backfilled(rows, next), next + Drawn(Walk(rows)))
  {
    var w := Walk(rows);
    var out := Backfilled(rows, next);
    SaneWalk(rows, next);
    BackfillKeepsIds(rows, next);
    forall r | r in out ensures r.pos.Some? && r.pos.value < next + Drawn(w) {
      var i :| 0 <= i < |out| && out[i] == r;
      FillKeeps(w, Start(w, next), i);
      FillBelow(w, Start(w, next), i);
      assert w[i] in w;
    }
  }

  lemma {:induction false} FillBelow(w: seq<Row>, c: Cursor, i: nat)
    requires i < |w| && c.legacyPos + CountLegacy(w) < c.next
    ensures Fill(w, c)[i].pos.Some?
    ensures w[i].pos.None? ==> Fill(w, c)[i].pos.value < c.next + Drawn(w)
  {
    if i > 0 {
      FillBelow(w[1..], Advance(w[0], c), i - 1);
    }
  }

  // ----- No ties without tampering -----

  /** No two rows share a position. */
  ghost predicate DistinctPositions(rows: seq<Row>) {
    forall i, j :: 0 <= i < j < |rows| && rows[i].pos.Some? ==> rows[i].pos != rows[j].pos
  }

  /** Only one table has rows hashed before the shared sequence existed. */
  ghost predicate LegacyInOneTable(rows: seq<Row>) {
    forall x, y :: x in rows && y in rows && Legacy(x) && Legacy(y) ==> x.Table() == y.Table()
  }

  /** A database only appends and backfills ever wrote to, whatever legacy rows of
      one table it began with. */
  ghost predicate Untampered(rows: seq<Row>, next: int) {
    DistinctIds(rows) && Sane(rows, next) && DistinctPositions(rows) && LegacyInOneTable(rows)
  }

  lemma UntamperedHasNoTies(rows: seq<Row>, next: int)
    requires Untampered(rows, next)
    ensures NoTiesInTable(rows) && !TiedTop(rows)
  {
    forall x, y | x in rows && y in rows && Hashed(x) && Hashed(y) && SortKey(x) == SortKey(y) ensures x == y {
      SameKeySameRow(rows, x, y);
    }
  }

  lemma SameKeySameRow(rows: seq<Row>, x: Row, y: Row)
    requires DistinctIds(rows) && DistinctPositions(rows) && LegacyInOneTable(rows)
    requires x in rows && y in rows && Hashed(x) && Hashed(y) && SortKey(x) == SortKey(y)
    ensures x == y
  {
    var i :| 0 <= i < |rows| && rows[i] == x;
    var j :| 0 <= j < |rows| && rows[j] == y;
    if x.pos.None? {
      assert Legacy(x) && Legacy(y) && x.SameRow(y);
    }
  }

  /** Two tables tie at the top only in a database someone else wrote to: a row of
      each was hashed without a position, or two rows share one. */
  lemma TieNeedsTampering(rows: seq<Row>)
    requires DistinctIds(rows) && TiedTop(rows)
    ensures !DistinctPositions(rows) || !LegacyInOneTable(rows)
  {
    if DistinctPositions(rows) && LegacyInOneTable(rows) {
      var x, y :| x in rows && y in rows && Hashed(x) && Hashed(y) &&
        x.Table() != y.Table() && SortKey(x) == SortKey(y);
      SameKeySameRow(rows, x, y);
    }
  }

  /** A row of each table hashed without a position, under one id, does tie. */
  lemma TieExists(id: int, t: Content, a: Content)
    requires t.Transition? && a.Action?
    ensures var first := Row(id, t, None, Some(Genesis), Some(Sha(Genesis, t)));
            var second := Row(id, a, None, Some(Sha(Genesis, t)), Some(Sha(Sha(Genesis, t), a)));
            DistinctIds([first, second]) && Sane([first, second], 1) && TiedTop([first, second])
  {
    var first := Row(id, t, None, Some(Genesis), Some(Sha(Genesis, t)));
    var second := Row(id, a, None, Some(Sha(Genesis, t)), Some(Sha(Sha(Genesis, t), a)));
    assert first in [first, second] && second in [first, second];
    assert SortKey(first) == SortKey(second) && first.hash != second.hash;
  }

  /** So every append to an intact database that nobody else wrote to extends it. */
  lemma UntamperedAppendVerifies(rows: seq<Row>, next: int, id: int, content: Content)
    requires Untampered(rows, next) && Intact(rows)
    requires DistinctIds(rows + [Stamped(id, content, next, TipHash(rows))])
    ensures Intact(rows + [Stamped(id, content, next, TipHash(rows))])
  {
    UntamperedHasNoTies(rows, next);
    AppendVerdict(rows, next, id, content);
  }

  lemma AppendKeepsUntampered(rows: seq<Row>, next: int, id: int, content: Content)
    requires Untampered(rows, next) && DistinctIds(rows + [Stamped(id, content, next, TipHash(rows))])
    ensures Untampered(rows + [Stamped(id, content, next, TipHash(rows))], next + 1)
  {
    SaneIsKept(rows, next, id, content);
    forall i | 0 <= i < |rows| && rows[i].pos.Some? ensures rows[i].pos.value < next {
      assert rows[i] in rows;
    }
  }

  lemma {:induction false} FillDistinct(w: seq<Row>, c: Cursor, i: nat, j: nat)
    requires i < j < |w| && DistinctPositions(w) && c.legacyPos + CountLegacy(w) < 0 < c.next
    requires forall r :: r in w && r.pos.Some? ==> r.pos.value < c.next
    requires CountLegacy(w) > 0 ==> forall r :: r in w && r.pos.Some? ==> r.pos.value > 0
    ensures Fill(w, c)[i].pos != Fill(w, c)[j].pos
    decreases i
  {
    var rest, later := w[1..], Advance(w[0], c);
    if i == 0 {
      FirstIsDistinct(w, c, j);
    } else {
      assert forall r :: r in rest ==> r in w;
      LegacyCounts(w, 0);
      FillDistinct(rest, later, i - 1, j - 1);
    }
  }

  lemma FirstIsDistinct(w: seq<Row>, c: Cursor, j: nat)
    requires 0 < j < |w| && DistinctPositions(w) && c.legacyPos + CountLegacy(w) < 0 < c.next
    requires forall r :: r in w && r.pos.Some? ==> r.pos.value < c.next
    requires CountLegacy(w) > 0 ==> forall r :: r in w && r.pos.Some? ==> r.pos.value > 0
    ensures Fill(w, c)[0].pos != Fill(w, c)[j].pos
  {
    var rest, later := w[1..], Advance(w[0], c);
    assert Fill(w, c)[j] == Fill(rest, later)[j - 1] && rest[j - 1] == w[j];
    assert w[0] in w && w[j] in w;
    FillBounds(rest, later, j - 1);
    FillKeeps(rest, later, j - 1);
    LegacyCounts(w, j);
  }

  /** A legacy row counts. */
  lemma LegacyCounts(w: seq<Row>, j: nat)
    requires j < |w|
    ensures Legacy(w[j]) ==> CountLegacy(w) > 0
    ensures Legacy(w[0]) ==> CountLegacy(w) == 1 + CountLegacy(w[1..])
    ensures !Legacy(w[0]) ==> CountLegacy(w) == CountLegacy(w[1..])
  {
    FilterMembers(w, Legacy);
    assert w[j] in w;
    if Legacy(w[j]) {
      assert w[j] in Filter(w, Legacy);
    }
  }

  lemma WalkKeepsPositions(rows: seq<Row>)
    requires DistinctIds(rows) && DistinctPositions(rows)
    ensures DistinctPositions(Walk(rows))
  {
    var w := Walk(rows);
    WalkInOrder(rows);
    forall i, j | 0 <= i < j < |w| && w[i].pos.Some? ensures w[i].pos != w[j].pos {
      assert w[i] in multiset(w) && w[j] in multiset(w);
      assert Before(w[i], w[j]);
      var h :| 0 <= h < |rows| && rows[h] == w[i];
      var k :| 0 <= k < |rows| && rows[k] == w[j];
    }
  }

  lemma BackfillKeepsUntampered(rows: seq<Row>, next: int)
    requires Untampered(rows, next)
    ensures Untampered(Backfilled(rows, next), next + Drawn(Walk(rows)))
  {
    var w, out := Walk(rows), Backfilled(rows, next);
    SaneIsKept(rows, next, 0, Action("", ""));
    BackfillKeepsIds(rows, next);
    SaneWalk(rows, next);
    WalkKeepsPositions(rows);
    forall i, j | 0 <= i < j < |out| ensures out[i].pos != out[j].pos {
      FillDistinct(w, Start(w, next), i, j);
    }
  }

  /** What is done to the store in its own process. */
  datatype StoreOp = Append(id: int, content: Content) | Backfill

  ghost function AfterOp(rows: seq<Row>, next: int, op: StoreOp): (seq<Row>, int) {
    match op
    case Append(id, content) => (rows + [Stamped(id, content, next, TipHash(rows))], next + 1)
    case Backfill => (Backfilled(rows, next), next + Drawn(Walk(rows)))
  }

  /** Every append uses an id its table has not. */
  ghost predicate CanRunOps(rows: seq<Row>, next: int, ops: seq<StoreOp>)
    decreases |ops|
  {
    ops == [] ||
    var (after, later) := AfterOp(rows, next, ops[0]);
    DistinctIds(after) && CanRunOps(after, later, ops[1..])
  }

  ghost function RunOps(rows: seq<Row>, next: int, ops: seq<StoreOp>): (seq<Row>, int)
    decreases |ops|
  {
    if ops == [] then (rows, next)
    else
      var (after, later) := AfterOp(rows, next, ops[0]);
      RunOps(after, later, ops[1..])
  }

  /** Whatever appends and backfills follow one another, the tables never tie, and
      the tip read is always the end of the merged walk. */
  lemma {:induction false} OpsNeverTie(rows: seq<Row>, next: int, ops: seq<StoreOp>)
    requires Untampered(rows, next) && CanRunOps(rows, next, ops)
    ensures var (after, later) := RunOps(rows, next, ops);
            Untampered(after, later) && !TiedTop(after) && TipHash(after) == EndHash(Chained(after), Genesis)
    decreases |ops|
  {
    if ops == [] {
      UntamperedHasNoTies(rows, next);
      TipIsLastLink(rows);
    } else {
      var (after, later) := AfterOp(rows, next, ops[0]);
      match ops[0] {
        case Append(id, content) => AppendKeepsUntampered(rows, next, id, content);
        case Backfill => BackfillKeepsUntampered(rows, next);
      }
      OpsNeverTie(after, later, ops[1..]);
    }
  }
}
