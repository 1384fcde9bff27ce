/** Reciprocal rank fusion and the hybrid search over it
    (amop/codebase_intel/search.py). Scores are exact reals. */
module RankFusion {

  const RRF_K: nat := 60
  const HYBRID_RETURN: nat := 5

  /** What one list adds to a key's score through its first `n` ranks, counting
      every occurrence. */
  function ListScore(ranked: seq<string>, key: string, k: nat, n: nat): real
    requires n <= |ranked|
  {
    if n == 0 then 0.0
    else ListScore(ranked, key, k, n - 1) + if ranked[n - 1] == key then 1.0 / (k + n) as real else 0.0
  }

  /** The fused score over the first `m` lists. */
  function Score(lists: seq<seq<string>>, key: string, k: nat, m: nat): real
    requires m <= |lists|
  {
    if m == 0 then 0.0 else Score(lists, key, k, m - 1) + ListScore(lists[m - 1], key, k, |lists[m - 1]|)
  }

  predicate Occurs(lists: seq<seq<string>>, key: string) {
    exists l :: l in lists && key in l
  }

  // ----- Sorting -----

  function InsertByScore(item: (string, real), s: seq<(string, real)>): seq<(string, real)> {
    if s == [] || item.1 >= s[0].1 then [item] + s else [s[0]] + InsertByScore(item, s[1..])
  }

  /** A stable sort, highest score first. */
  function SortByScore(s: seq<(string, real)>): seq<(string, real)> {
    if s == [] then [] else InsertByScore(s[0], SortByScore(s[1..]))
  }

  predicate Descending(s: seq<(string, real)>) {
    forall i, j :: 0 <= i < j < |s| ==> s[i].1 >= s[j].1
  }

  ghost predicate DistinctKeys(s: seq<(string, real)>) {
    forall i, j :: 0 <= i < j < |s| ==> s[i].0 != s[j].0
  }

  lemma {:induction false} InsertByScoreMembers(item: (string, real), s: seq<(string, real)>)
    ensures forall x :: x in InsertByScore(item, s) <==> x == item || x in s
  {
    if s != [] && item.1 < s[0].1 {
      InsertByScoreMembers(item, s[1..]);
      assert s == [s[0]] + s[1..];
    }
  }

  lemma ConsSorts(x: (string, real), s: seq<(string, real)>)
    requires Descending(s) && DistinctKeys(s) && forall y :: y in s ==> x.1 >= y.1 && x.0 != y.0
    ensures Descending([x] + s) && DistinctKeys([x] + s)
  {
  }

  lemma {:induction false} InsertByScoreSorts(item: (string, real), s: seq<(string, real)>)
    requires Descending(s) && DistinctKeys(s) && forall x :: x in s ==> x.0 != item.0
    ensures Descending(InsertByScore(item, s)) && DistinctKeys(InsertByScore(item, s))
    ensures forall x :: x in InsertByScore(item, s) <==> x == item || x in s
  {
    InsertByScoreMembers(item, s);
    if s == [] || item.1 >= s[0].1 {
      ConsSorts(item, s);
    } else {
      assert s[0] in s && forall x :: x in s[1..] ==> x in s;
      InsertByScoreSorts(item, s[1..]);
      ConsSorts(s[0], InsertByScore(item, s[1..]));
    }
  }

  lemma SortByScoreSorts(s: seq<(string, real)>)
    requires DistinctKeys(s)
    ensures Descending(SortByScore(s)) && DistinctKeys(SortByScore(s))
    ensures forall x :: x in SortByScore(s) <==> x in s
  {
    if s != [] {
      assert s == [s[0]] + s[1..];
      SortByScoreSorts(s[1..]);
      InsertByScoreSorts(s[0], SortByScore(s[1..]));
    }
  }

  /** The items with one score, in order. */
  function AtScore(s: seq<(string, real)>, v: real): seq<(string, real)> {
    if s == [] then [] else (if s[0].1 == v then [s[0]] else []) + AtScore(s[1..], v)
  }

  lemma {:induction false} InsertIsStable(item: (string, real), s: seq<(string, real)>, v: real)
    ensures AtScore(InsertByScore(item, s), v) == AtScore([item] + s, v)
  {
    assert ([item] + s)[1..] == s;
    if s != [] && item.1 < s[0].1 {
      InsertIsStable(item, s[1..], v);
      assert ([item] + s[1..])[1..] == s[1..];
    }
  }

  /** Sorting keeps items of one score in the order in which they came. */
  lemma {:induction false} SortIsStable(s: seq<(string, real)>, v: real)
    ensures AtScore(SortByScore(s), v) == AtScore(s, v)
  {
    if s != [] {
      SortIsStable(s[1..], v);
      InsertIsStable(s[0], SortByScore(s[1..]), v);
      assert ([s[0]] + SortByScore(s[1..]))[1..] == SortByScore(s[1..]);
    }
  }

  // ----- Fusion -----

  function Flatten(lists: seq<seq<string>>): seq<string> {
    if lists == [] then [] else Flatten(lists[..|lists| - 1]) + lists[|lists| - 1]
  }

  /** The keys of a list in the order in which they first occur. */
  function FirstSeen(keys: seq<string>): (d: seq<string>)
    ensures forall key :: key in d <==> key in keys
    ensures forall i, j :: 0 <= i < j < |d| ==> d[i] != d[j]
  {
    if keys == [] then []
    else
      var d, key := FirstSeen(keys[..|keys| - 1]), keys[|keys| - 1];
      if key in d then d else d + [key]
  }

  lemma FirstSeenSnoc(keys: seq<string>, key: string)
    ensures FirstSeen(keys + [key]) == if key in keys then FirstSeen(keys) else FirstSeen(keys) + [key]
  {
    assert (keys + [key])[..|keys|] == keys;
  }

  /** Every key once, where it first occurs, with its score. */
  function Tallied(lists: seq<seq<string>>, k: nat): seq<(string, real)> {
    var d := FirstSeen(Flatten(lists));
    seq(|d|, i requires 0 <= i < |d| => (d[i], Score(lists, d[i], k, |lists|)))
  }

  /** The dictionary while keys are being scored, in insertion order. */
  ghost predicate Tally(order: seq<string>, scores: map<string, real>) {
    && (forall i, j :: 0 <= i < j < |order| ==> order[i] != order[j])
    && (forall key :: key in order <==> key in scores)
  }

  /** The dictionary holds the scores of the first `m` lists and the first
      `rank` entries of `ranked`. */
  ghost predicate Scored(
    lists: seq<seq<string>>, m: nat, ranked: seq<string>, rank: nat, k: nat, order: seq<string>,
    scores: map<string, real>)
  {
    && m <= |lists| && rank <= |ranked| && Tally(order, scores)
    && order == FirstSeen(Flatten(lists[..m]) + ranked[..rank])
    && forall key :: ScoredAt(lists, m, ranked, rank, k, scores, key)
  }

  ghost predicate ScoredAt(
    lists: seq<seq<string>>, m: nat, ranked: seq<string>, rank: nat, k: nat, scores: map<string, real>, key: string)
    requires m <= |lists| && rank <= |ranked|
  {
    && (key in scores <==> Occurs(lists[..m], key) || key in ranked[..rank])
    && (if key in scores then scores[key] else 0.0) == Score(lists, key, k, m) + ListScore(ranked, key, k, rank)
  }

  function Bumped(scores: map<string, real>, key: string, gain: real): map<string, real> {
    scores[key := (if key in scores then scores[key] else 0.0) + gain]
  }

  lemma ScoreOne(
    lists: seq<seq<string>>, m: nat, ranked: seq<string>, rank: nat, k: nat, order: seq<string>,
    scores: map<string, real>)
    requires Scored(lists, m, ranked, rank, k, order, scores) && rank < |ranked|
    ensures Scored(lists, m, ranked, rank + 1, k, if ranked[rank] in scores then order else order + [ranked[rank]],
                   Bumped(scores, ranked[rank], 1.0 / (k + rank + 1) as real))
  {
    SeenOn(lists, m, ranked, rank, order);
    var after := Bumped(scores, ranked[rank], 1.0 / (k + rank + 1) as real);
    assert ranked[..rank + 1] == ranked[..rank] + [ranked[rank]];
    var next := rank + 1;
    forall key ensures ScoredAt(lists, m, ranked, next, k, after, key) {
      assert ScoredAt(lists, m, ranked, rank, k, scores, key);
    }
  }

  lemma ScoreList(lists: seq<seq<string>>, m: nat, k: nat, order: seq<string>, scores: map<string, real>)
    requires m < |lists| && Scored(lists, m, lists[m], |lists[m]|, k, order, scores)
    ensures Scored(lists, m + 1, [], 0, k, order, scores)
  {
    var ranked := lists[m];
    assert ranked[..|ranked|] == ranked && lists[..m + 1] == lists[..m] + [ranked];
    SeenList(lists, m);
    NothingMore(Flatten(lists[..m + 1]));
    var next := m + 1;
    forall key ensures ScoredAt(lists, next, [], 0, k, scores, key) {
      assert ScoredAt(lists, m, ranked, |ranked|, k, scores, key);
      OccursInMore(lists[..m], ranked, key);
    }
  }

  lemma StartList(
    lists: seq<seq<string>>, m: nat, ranked: seq<string>, k: nat, order: seq<string>, scores: map<string, real>)
    requires Scored(lists, m, [], 0, k, order, scores)
    ensures Scored(lists, m, ranked, 0, k, order, scores)
  {
    var none: seq<string> := [];
    assert ranked[..0] == none[..0];
    forall key ensures ScoredAt(lists, m, ranked, 0, k, scores, key) {
      assert ScoredAt(lists, m, [], 0, k, scores, key);
    }
  }

  lemma AllScored(lists: seq<seq<string>>, k: nat, order: seq<string>, scores: map<string, real>)
    requires Scored(lists, |lists|, [], 0, k, order, scores)
    ensures Tally(order, scores) && order == FirstSeen(Flatten(lists))
    ensures forall key :: key in scores <==> Occurs(lists, key)
    ensures forall key :: key in scores ==> scores[key] == Score(lists, key, k, |lists|)
  {
    assert lists[..|lists|] == lists;
    NothingMore(Flatten(lists));
    forall key ensures key in scores <==> Occurs(lists, key)
      ensures key in scores ==> scores[key] == Score(lists, key, k, |lists|)
    {
      assert ScoredAt(lists, |lists|, [], 0, k, scores, key);
    }
  }

  lemma OccursInMore(lists: seq<seq<string>>, ranked: seq<string>, key: string)
    ensures Occurs(lists + [ranked], key) <==> Occurs(lists, key) || key in ranked
  {
    if Occurs(lists, key) {
      var l :| l in lists && key in l;
      assert l in lists + [ranked];
    }
    if key in ranked {
      assert ranked in lists + [ranked];
    }
  }

  /** One list more. */
  method ScoreRanks(
    lists: seq<seq<string>>, m: nat, ranked: seq<string>, k: nat, order0: seq<string>, scores0: map<string, real>)
    returns (order: seq<string>, scores: map<string, real>)
    requires Scored(lists, m, ranked, 0, k, order0, scores0)
    ensures Scored(lists, m, ranked, |ranked|, k, order, scores)
  {
    order, scores := order0, scores0;
    for rank := 0 to |ranked|
      invariant Scored(lists, m, ranked, rank, k, order, scores)
    {
      var key := ranked[rank];
      ScoreOne(lists, m, ranked, rank, k, order, scores);
      if key !in scores {
        order := order + [key];
      }
      scores := Bumped(scores, key, 1.0 / (k + rank + 1) as real);
    }
  }

  /** The dictionary of scores, its keys in insertion order. */
  method ScoreAll(lists: seq<seq<string>>, k: nat) returns (order: seq<string>, scores: map<string, real>)
    ensures Scored(lists, |lists|, [], 0, k, order, scores)
  {
    order, scores := [], map[];
    StartFusion(lists, k);
    for m := 0 to |lists|
      invariant Scored(lists, m, [], 0, k, order, scores)
    {
      StartList(lists, m, lists[m], k, order, scores);
      order, scores := ScoreRanks(lists, m, lists[m], k, order, scores);
      ScoreList(lists, m, k, order, scores);
    }
  }

  /** Each distinct key once, with the exact sum over all its occurrences, best
      first, and keys of one score in the order in which they first occur. */
  method ReciprocalRankFusion(lists: seq<seq<string>>, k: nat) returns (fused: seq<(string, real)>)
    ensures DistinctKeys(fused) && Descending(fused)
    ensures forall key :: (exists i :: 0 <= i < |fused| && fused[i].0 == key) <==> Occurs(lists, key)
    ensures forall i :: 0 <= i < |fused| ==> fused[i].1 == Score(lists, fused[i].0, k, |lists|)
    ensures forall v :: AtScore(fused, v) == AtScore(Tallied(lists, k), v)
  {
    var order, scores := ScoreAll(lists, k);
    AllScored(lists, k, order, scores);
    var items := seq(|order|, i requires 0 <= i < |order| && order[i] in scores => (order[i], scores[order[i]]));
    fused := SortByScore(items);
    FusedIsSorted(lists, k, order, scores, items);
  }

  lemma FusedIsSorted(
    lists: seq<seq<string>>, k: nat, order: seq<string>, scores: map<string, real>, items: seq<(string, real)>)
    requires Tally(order, scores) && order == FirstSeen(Flatten(lists)) && |items| == |order|
    requires forall i :: 0 <= i < |items| ==> order[i] in scores && items[i] == (order[i], scores[order[i]])
    requires forall key :: key in scores <==> Occurs(lists, key)
    requires forall key :: key in scores ==> scores[key] == Score(lists, key, k, |lists|)
    ensures var fused := SortByScore(items);
            && DistinctKeys(fused) && Descending(fused)
            && (forall key :: (exists i :: 0 <= i < |fused| && fused[i].0 == key) <==> Occurs(lists, key))
            && (forall i :: 0 <= i < |fused| ==> fused[i].1 == Score(lists, fused[i].0, k, |lists|))
            && forall v :: AtScore(fused, v) == AtScore(Tallied(lists, k), v)
  {
    var fused := SortByScore(items);
    SortByScoreSorts(items);
    assert items == Tallied(lists, k);
    forall v ensures AtScore(fused, v) == AtScore(Tallied(lists, k), v) {
      SortIsStable(items, v);
    }
    forall key ensures (exists i :: 0 <= i < |fused| && fused[i].0 == key) <==> Occurs(lists, key) {
      FusedKeys(order, scores, items, fused, key);
    }
    forall i | 0 <= i < |fused| ensures fused[i].1 == Score(lists, fused[i].0, k, |lists|) {
      assert fused[i] in items;
    }
  }

  lemma NothingMore(keys: seq<string>)
    ensures var none: seq<string> := []; keys + none[..0] == keys
  {
  }

  lemma StartFusion(lists: seq<seq<string>>, k: nat)
    ensures Scored(lists, 0, [], 0, k, [], map[])
  {
    assert lists[..0] == [];
    NothingMore(Flatten(lists[..0]));
  }

  lemma SeenOn(lists: seq<seq<string>>, m: nat, ranked: seq<string>, rank: nat, order: seq<string>)
    requires m <= |lists| && rank < |ranked| && order == FirstSeen(Flatten(lists[..m]) + ranked[..rank])
    ensures FirstSeen(Flatten(lists[..m]) + ranked[..rank + 1]) ==
            if ranked[rank] in order then order else order + [ranked[rank]]
  {
    var before := Flatten(lists[..m]) + ranked[..rank];
    assert Flatten(lists[..m]) + ranked[..rank + 1] == before + [ranked[rank]];
    FirstSeenSnoc(before, ranked[rank]);
  }

  lemma SeenList(lists: seq<seq<string>>, m: nat)
    requires m < |lists|
    ensures Flatten(lists[..m]) + lists[m][..|lists[m]|] == Flatten(lists[..m + 1])
  {
    assert lists[..m + 1][..m] == lists[..m] && lists[m][..|lists[m]|] == lists[m];
  }

  lemma FusedKeys(
    order: seq<string>, scores: map<string, real>, items: seq<(string, real)>, fused: seq<(string, real)>, key: string)
    requires Tally(order, scores) && |items| == |order|
    requires forall i :: 0 <= i < |items| ==> order[i] in scores && items[i] == (order[i], scores[order[i]])
    requires forall x :: x in fused <==> x in items
    ensures (exists i :: 0 <= i < |fused| && fused[i].0 == key) <==> key in scores
  {
    if key in scores {
      var i :| 0 <= i < |order| && order[i] == key;
      assert items[i] in fused;
    }
    if exists i :: 0 <= i < |fused| && fused[i].0 == key {
      var i :| 0 <= i < |fused| && fused[i].0 == key;
      assert fused[i] in items;
    }
  }

  // ----- Dominance -----

  /** How often `key` occurs among the first `n` entries. */
  function Occurrences(l: seq<string>, key: string, n: nat): nat
    requires n <= |l|
  {
    if n == 0 then 0 else Occurrences(l, key, n - 1) + if l[n - 1] == key then 1 else 0
  }

  /** In every prefix of the list, `a` occurs at least as often as `b`. */
  ghost predicate Leads(l: seq<string>, a: string, b: string, n: nat)
    requires n <= |l|
  {
    forall i: nat :: i <= n ==> Occurrences(l, a, i) >= Occurrences(l, b, i)
  }

  lemma SignOf(v: real, p: real)
    requires p > 0.0
    ensures v * p > 0.0 <==> v > 0.0
  {
  }

  lemma LaterIsLess(d: nat, x: nat)
    requires x > 0
    ensures d as real / x as real >= d as real / (x + 1) as real
  {
    var q, r := d as real / x as real, d as real / (x + 1) as real;
    assert q * x as real == d as real == r * x as real + r;
    assert r >= 0.0;
    SignOf(r - q, x as real);
  }

  /** The lead in occurrences is worth at least the score of the last rank each. */
  lemma {:induction false} LeadScores(l: seq<string>, a: string, b: string, k: nat, n: nat)
    requires 0 < n <= |l| && Leads(l, a, b, n)
    ensures ListScore(l, a, k, n) - ListScore(l, b, k, n) >=
            (Occurrences(l, a, n) - Occurrences(l, b, n)) as real / (k + n) as real
  {
    var m := n - 1;
    var before: nat := Occurrences(l, a, m) - Occurrences(l, b, m);
    if m > 0 {
      LeadScores(l, a, b, k, m);
      LaterIsLess(before, k + m);
    }
    var change := (if l[m] == a then 1 else 0) - (if l[m] == b then 1 else 0);
    AddGain(ListScore(l, a, k, m) - ListScore(l, b, k, m), before, change, k + n);
  }

  lemma AddGain(diff: real, before: nat, change: int, rank: nat)
    requires rank > 0 && diff >= before as real / rank as real && -1 <= change <= 1
    ensures diff + (if change == 1 then 1.0 / rank as real else if change == 0 then 0.0 else -(1.0 / rank as real)) >=
            (before + change) as real / rank as real
  {
    var r := rank as real;
    assert (before as real + 1.0) / r == before as real / r + 1.0 / r;
    assert (before as real - 1.0) / r == before as real / r - 1.0 / r;
  }

  /** One occurrence at one rank is worth the reciprocal of `k` plus that rank. */
  lemma {:induction false} OneOccurrenceScores(l: seq<string>, key: string, k: nat, rank: nat, n: nat)
    requires rank < n <= |l| && l[rank] == key && forall i :: 0 <= i < n && i != rank ==> l[i] != key
    ensures ListScore(l, key, k, n) == 1.0 / (k + rank + 1) as real
  {
    if n - 1 == rank {
      NoOccurrenceScores(l, key, k, rank);
    } else {
      OneOccurrenceScores(l, key, k, rank, n - 1);
    }
  }

  lemma {:induction false} NoOccurrenceScores(l: seq<string>, key: string, k: nat, n: nat)
    requires n <= |l| && forall i :: 0 <= i < n ==> l[i] != key
    ensures ListScore(l, key, k, n) == 0.0
  {
    if n > 0 {
      NoOccurrenceScores(l, key, k, n - 1);
    }
  }

  /** A key that leads another in every prefix of every list, duplicates counted,
      never scores lower. */
  lemma {:induction false} DominanceIsRespected(lists: seq<seq<string>>, a: string, b: string, k: nat, m: nat)
    requires m <= |lists| && forall l :: l in lists ==> Leads(l, a, b, |l|)
    ensures Score(lists, a, k, m) >= Score(lists, b, k, m)
  {
    if m > 0 {
      var l := lists[m - 1];
      DominanceIsRespected(lists, a, b, k, m - 1);
      assert l in lists;
      if l != [] {
        LeadScores(l, a, b, k, |l|);
        assert Occurrences(l, a, |l|) >= Occurrences(l, b, |l|);
      }
    }
  }

  predicate DuplicateFree(l: seq<string>) {
    forall i, j :: 0 <= i < j < |l| ==> l[i] != l[j]
  }

  /** Wherever `b` is ranked, `a` is ranked no worse. */
  ghost predicate NoWorse(l: seq<string>, a: string, b: string) {
    forall j :: 0 <= j < |l| && l[j] == b ==> exists i :: 0 <= i <= j && l[i] == a
  }

  lemma {:induction false} OccursOnce(l: seq<string>, key: string, n: nat)
    requires DuplicateFree(l) && n <= |l|
    ensures Occurrences(l, key, n) == if key in l[..n] then 1 else 0
  {
    if n > 0 {
      OccursOnce(l, key, n - 1);
      assert l[..n] == l[..n - 1] + [l[n - 1]];
    }
  }

  /** Without duplicates in a list, leading in it is being ranked no worse. */
  lemma NoWorseIff(l: seq<string>, a: string, b: string)
    requires DuplicateFree(l)
    ensures NoWorse(l, a, b) <==> Leads(l, a, b, |l|)
  {
    forall i: nat | i <= |l| ensures Occurrences(l, a, i) >= Occurrences(l, b, i) <==> (b in l[..i] ==> a in l[..i]) {
      OccursOnce(l, a, i);
      OccursOnce(l, b, i);
    }
    if NoWorse(l, a, b) {
      forall i: nat | i <= |l| && b in l[..i] ensures a in l[..i] {
        var j :| 0 <= j < i && l[j] == b;
        var h :| 0 <= h <= j && l[h] == a;
        assert l[..i][h] == a;
      }
    }
    if Leads(l, a, b, |l|) {
      forall j | 0 <= j < |l| && l[j] == b ensures exists i :: 0 <= i <= j && l[i] == a {
        var next: nat := j + 1;
        assert l[..next][j] == b && Occurrences(l, a, next) >= Occurrences(l, b, next);
        var i :| 0 <= i < next && l[..next][i] == a;
      }
    }
  }

  /** Ranked first is not enough once another key is listed twice after it. */
  lemma DuplicatesBreakDominance(a: string, b: string, k: nat)
    requires a != b
    ensures NoWorse([a, b, b], a, b)
    ensures Score([[a, b, b]], a, k, 1) < Score([[a, b, b]], b, k, 1) <==> k > 0
  {
    var l := [a, b, b];
    var x, y, z := 1.0 / (k + 1) as real, 1.0 / (k + 2) as real, 1.0 / (k + 3) as real;
    assert ListScore(l, a, k, 0) == 0.0 == ListScore(l, b, k, 0);
    assert ListScore(l, a, k, 1) == x && ListScore(l, b, k, 1) == 0.0;
    assert ListScore(l, a, k, 2) == x && ListScore(l, b, k, 2) == y;
    assert ListScore(l, a, k, 3) == x && ListScore(l, b, k, 3) == y + z;
    assert Score([l], a, k, 0) == 0.0 == Score([l], b, k, 0);
    TwoBeatOne(k);
  }

  lemma TwoBeatOne(k: nat)
    ensures 1.0 / (k + 1) as real < 1.0 / (k + 2) as real + 1.0 / (k + 3) as real <==> k > 0
  {
    var c := k as real;
    var x, y, z := 1.0 / (c + 1.0), 1.0 / (c + 2.0), 1.0 / (c + 3.0);
    var p := (c + 1.0) * (c + 2.0) * (c + 3.0);
    assert p > 0.0;
    assert x * p == (x * (c + 1.0)) * ((c + 2.0) * (c + 3.0)) == (c + 2.0) * (c + 3.0);
    assert y * p == (y * (c + 2.0)) * ((c + 1.0) * (c + 3.0)) == (c + 1.0) * (c + 3.0);
    assert z * p == (z * (c + 3.0)) * ((c + 1.0) * (c + 2.0)) == (c + 1.0) * (c + 2.0);
    assert (y + z - x) * p == c * c + 2.0 * c - 1.0;
    SignOf(y + z - x, p);
    assert k > 0 ==> c >= 1.0 && c * c >= c;
    assert (k + 1) as real == c + 1.0 && (k + 2) as real == c + 2.0 && (k + 3) as real == c + 3.0;
  }

  // ----- Hybrid search -----

  datatype Chunk = Chunk(file: string, symbol: string, startLine: nat, content: string)

  function Keys(keyOf: Chunk -> string, chunks: seq<Chunk>): seq<string> {
    seq(|chunks|, i requires 0 <= i < |chunks| => keyOf(chunks[i]))
  }

  predicate LeftOut(keyOf: Chunk -> string, top: seq<Chunk>, c: Chunk) {
    forall u :: u in top ==> keyOf(u) != keyOf(c)
  }

  /** The chunk is the last listed under its key. */
  ghost predicate LastUnderKey(keyOf: Chunk -> string, chunks: seq<Chunk>, c: Chunk) {
    exists i :: LastAt(keyOf, chunks, c, i)
  }

  ghost predicate LastAt(keyOf: Chunk -> string, chunks: seq<Chunk>, c: Chunk, i: int) {
    0 <= i < |chunks| && chunks[i] == c && forall j :: i < j < |chunks| ==> keyOf(chunks[j]) != keyOf(c)
  }

  lemma LastOn(keyOf: Chunk -> string, chunks: seq<Chunk>, next: Chunk)
    ensures LastUnderKey(keyOf, chunks + [next], next)
    ensures forall c :: LastUnderKey(keyOf, chunks, c) && keyOf(c) != keyOf(next) ==>
            LastUnderKey(keyOf, chunks + [next], c)
  {
    assert LastAt(keyOf, chunks + [next], next, |chunks|);
    forall c | LastUnderKey(keyOf, chunks, c) && keyOf(c) != keyOf(next)
        ensures LastUnderKey(keyOf, chunks + [next], c) {
      var i :| LastAt(keyOf, chunks, c, i);
      assert LastAt(keyOf, chunks + [next], c, i);
    }
  }

  /** The distinct keys found. */
  function FoundKeys(keyOf: Chunk -> string, chunks: seq<Chunk>): set<string> {
    set c | c in chunks :: keyOf(c)
  }

  lemma {:induction false} DistinctCount(fused: seq<(string, real)>, keys: set<string>)
    requires DistinctKeys(fused) && forall key :: key in keys <==> exists i :: 0 <= i < |fused| && fused[i].0 == key
    ensures |fused| == |keys|
  {
    if fused == [] {
      assert keys == {};
    } else {
      var front, last := fused[..|fused| - 1], fused[|fused| - 1].0;
      assert last in keys && forall i :: 0 <= i < |front| ==> front[i] == fused[i];
      forall key ensures key in keys - {last} <==> exists i :: 0 <= i < |front| && front[i].0 == key {
      }
      DistinctCount(front, keys - {last});
    }
  }

  /** The chunks by key, a later one in place of an earlier one. */
  method ByKey(keyOf: Chunk -> string, chunks: seq<Chunk>) returns (byKey: map<string, Chunk>)
    ensures forall c :: c in chunks ==> keyOf(c) in byKey
    ensures forall key :: key in byKey ==>
              byKey[key] in chunks && keyOf(byKey[key]) == key && LastUnderKey(keyOf, chunks, byKey[key])
  {
    byKey := map[];
    for i := 0 to |chunks|
      invariant forall key :: key in byKey ==> byKey[key] in chunks && keyOf(byKey[key]) == key
      invariant forall key :: key in byKey ==> LastUnderKey(keyOf, chunks[..i], byKey[key])
      invariant forall j :: 0 <= j < i ==> keyOf(chunks[j]) in byKey
    {
      assert chunks[..i + 1] == chunks[..i] + [chunks[i]];
      LastOn(keyOf, chunks[..i], chunks[i]);
      byKey := byKey[keyOf(chunks[i]) := chunks[i]];
    }
    assert chunks[..|chunks|] == chunks;
  }

  lemma FusedIsFound(keyOf: Chunk -> string, semantic: seq<Chunk>, keyword: seq<Chunk>, fused: seq<(string, real)>)
    requires DistinctKeys(fused)
    requires forall key :: (exists i :: 0 <= i < |fused| && fused[i].0 == key) <==>
                           Occurs([Keys(keyOf, semantic), Keys(keyOf, keyword)], key)
    ensures |fused| == |FoundKeys(keyOf, semantic + keyword)|
    ensures forall i :: 0 <= i < |fused| ==> exists c :: c in semantic + keyword && keyOf(c) == fused[i].0
  {
    var keys := FoundKeys(keyOf, semantic + keyword);
    forall key ensures key in keys <==> exists i :: 0 <= i < |fused| && fused[i].0 == key {
      FoundIsFused(keyOf, semantic, keyword, fused, key);
    }
    DistinctCount(fused, keys);
    forall i | 0 <= i < |fused| ensures exists c :: c in semantic + keyword && keyOf(c) == fused[i].0 {
      assert fused[i].0 in keys;
    }
  }

  /** The first chunks by fused score are in order, and none left out scores more. */
  lemma TopIsBest(
    keyOf: Chunk -> string, semantic: seq<Chunk>, keyword: seq<Chunk>, fused: seq<(string, real)>, top: seq<Chunk>)
    requires Descending(fused) && |top| <= |fused| && forall i :: 0 <= i < |top| ==> keyOf(top[i]) == fused[i].0
    requires forall key :: (exists i :: 0 <= i < |fused| && fused[i].0 == key) <==>
                           Occurs([Keys(keyOf, semantic), Keys(keyOf, keyword)], key)
    requires forall i :: 0 <= i < |fused| ==>
               fused[i].1 == Score([Keys(keyOf, semantic), Keys(keyOf, keyword)], fused[i].0, RRF_K, 2)
    ensures var lists := [Keys(keyOf, semantic), Keys(keyOf, keyword)];
            && (forall i, j :: 0 <= i < j < |top| ==>
                  Score(lists, keyOf(top[i]), RRF_K, 2) >= Score(lists, keyOf(top[j]), RRF_K, 2))
            && (forall c, t :: (c in semantic || c in keyword) && t in top && LeftOut(keyOf, top, c) ==>
                  Score(lists, keyOf(t), RRF_K, 2) >= Score(lists, keyOf(c), RRF_K, 2))
  {
    var lists := [Keys(keyOf, semantic), Keys(keyOf, keyword)];
    forall c, t | (c in semantic || c in keyword) && t in top && LeftOut(keyOf, top, c)
      ensures Score(lists, keyOf(t), RRF_K, 2) >= Score(lists, keyOf(c), RRF_K, 2)
    {
      FoundKeyOccurs(keyOf, semantic, keyword, c);
      var i :| 0 <= i < |top| && top[i] == t;
      forall m | 0 <= m < |top| ensures fused[m].0 != keyOf(c) {
        assert top[m] in top;
      }
      CutKeepsBest(fused, |top|, i, keyOf(c));
    }
  }

  /** The best five distinct chunks by fused score. Every key looked up is
      present, and what is returned under it is one of the chunks found. */
  method HybridSearch(keyOf: Chunk -> string, semantic: seq<Chunk>, keyword: seq<Chunk>) returns (top: seq<Chunk>)
    ensures var n := |FoundKeys(keyOf, semantic + keyword)|; |top| == if n < 5 then n else 5
    ensures forall c :: c in top ==> (c in semantic || c in keyword) && LastUnderKey(keyOf, semantic + keyword, c)
    ensures forall i, j :: 0 <= i < j < |top| ==> keyOf(top[i]) != keyOf(top[j])
    ensures var lists := [Keys(keyOf, semantic), Keys(keyOf, keyword)];
            && (forall i, j :: 0 <= i < j < |top| ==>
                  Score(lists, keyOf(top[i]), RRF_K, 2) >= Score(lists, keyOf(top[j]), RRF_K, 2))
            && (forall c, t :: (c in semantic || c in keyword) && t in top && LeftOut(keyOf, top, c) ==>
                  Score(lists, keyOf(t), RRF_K, 2) >= Score(lists, keyOf(c), RRF_K, 2))
  {
    var byKey := ByKey(keyOf, semantic + keyword);
    var lists := [Keys(keyOf, semantic), Keys(keyOf, keyword)];
    var fused := ReciprocalRankFusion(lists, RRF_K);
    FusedIsFound(keyOf, semantic, keyword, fused);
    var n := if |fused| < HYBRID_RETURN then |fused| else HYBRID_RETURN;
    top := seq(n, i requires 0 <= i < n && fused[i].0 in byKey => byKey[fused[i].0]);
    TopIsBest(keyOf, semantic, keyword, fused, top);
  }

  lemma FoundIsFused(
    keyOf: Chunk -> string, semantic: seq<Chunk>, keyword: seq<Chunk>, fused: seq<(string, real)>, key: string)
    requires (exists i :: 0 <= i < |fused| && fused[i].0 == key) <==>
             Occurs([Keys(keyOf, semantic), Keys(keyOf, keyword)], key)
    ensures key in FoundKeys(keyOf, semantic + keyword) <==> exists i :: 0 <= i < |fused| && fused[i].0 == key
  {
    if key in FoundKeys(keyOf, semantic + keyword) {
      var c :| c in semantic + keyword && keyOf(c) == key;
      FoundKeyOccurs(keyOf, semantic, keyword, c);
    }
    if Occurs([Keys(keyOf, semantic), Keys(keyOf, keyword)], key) {
      KeyWasFound(keyOf, semantic, keyword, key);
      var i :| 0 <= i < |semantic + keyword| && keyOf((semantic + keyword)[i]) == key;
      assert (semantic + keyword)[i] in semantic + keyword;
    }
  }

  /** A key cut off scores no better than one that was kept. */
  lemma CutKeepsBest(fused: seq<(string, real)>, n: nat, i: nat, key: string)
    requires Descending(fused) && i < n <= |fused|
    requires exists j :: 0 <= j < |fused| && fused[j].0 == key
    requires forall m :: 0 <= m < n ==> fused[m].0 != key
    ensures exists j :: 0 <= j < |fused| && fused[j].0 == key && fused[i].1 >= fused[j].1
  {
  }

  lemma KeyWasFound(keyOf: Chunk -> string, semantic: seq<Chunk>, keyword: seq<Chunk>, key: string)
    requires Occurs([Keys(keyOf, semantic), Keys(keyOf, keyword)], key)
    ensures exists i :: 0 <= i < |semantic + keyword| && keyOf((semantic + keyword)[i]) == key
  {
    if key in Keys(keyOf, semantic) {
      var i :| 0 <= i < |semantic| && Keys(keyOf, semantic)[i] == key;
      assert (semantic + keyword)[i] == semantic[i];
    } else {
      var i :| 0 <= i < |keyword| && Keys(keyOf, keyword)[i] == key;
      assert (semantic + keyword)[|semantic| + i] == keyword[i];
    }
  }

  lemma FoundKeyOccurs(keyOf: Chunk -> string, semantic: seq<Chunk>, keyword: seq<Chunk>, c: Chunk)
    requires c in semantic || c in keyword
    ensures Occurs([Keys(keyOf, semantic), Keys(keyOf, keyword)], keyOf(c))
  {
    var lists := [Keys(keyOf, semantic), Keys(keyOf, keyword)];
    assert lists[0] in lists && lists[1] in lists;
    if c in semantic {
      var i :| 0 <= i < |semantic| && semantic[i] == c;
      assert Keys(keyOf, semantic)[i] == keyOf(c);
    } else {
      var i :| 0 <= i < |keyword| && keyword[i] == c;
      assert Keys(keyOf, keyword)[i] == keyOf(c);
    }
  }
}
