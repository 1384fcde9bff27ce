/** Greedy batching of texts for embedding (`batch_by_budget` of amop/models/ollama.py). */
module Batching {

  function Chars(batch: seq<string>): nat {
    if batch == [] then 0 else Chars(batch[..|batch| - 1]) + |batch[|batch| - 1]|
  }

  function Concat(batches: seq<seq<string>>): seq<string> {
    if batches == [] then [] else Concat(batches[..|batches| - 1]) + batches[|batches| - 1]
  }

  /** Within both limits, or a single text that cannot be split. */
  predicate Fits(batch: seq<string>, maxChars: int, maxItems: int) {
    |batch| == 1 || (|batch| > 0 && Chars(batch) <= maxChars && |batch| <= maxItems)
  }

  /** A contiguous split of `texts` into batches that fit. */
  ghost predicate IsSplit(batches: seq<seq<string>>, texts: seq<string>, maxChars: int, maxItems: int) {
    Concat(batches) == texts && forall b :: b in batches ==> Fits(b, maxChars, maxItems)
  }

  // ----- Closing batches early never helps -----

  lemma {:induction false} CharsAppend(a: seq<string>, b: seq<string>)
    ensures Chars(a + b) == Chars(a) + Chars(b)
  {
    if b == [] {
      assert a + b == a;
    } else {
      assert (a + b)[..|a + b| - 1] == a + b[..|b| - 1];
      CharsAppend(a, b[..|b| - 1]);
    }
  }

  /** Any non-empty stretch of a batch that fits, fits. */
  lemma FitsPart(batch: seq<string>, i: nat, j: nat, maxChars: int, maxItems: int)
    requires i < j <= |batch| && Fits(batch, maxChars, maxItems)
    ensures Fits(batch[i..j], maxChars, maxItems)
  {
    assert batch == batch[..i] + batch[i..j] + batch[j..];
    CharsAppend(batch[..i] + batch[i..j], batch[j..]);
    CharsAppend(batch[..i], batch[i..j]);
  }

  /** Where the batches of a split begin: `Covered(batches, n)` texts are in the first `n`. */
  function Covered(batches: seq<seq<string>>, n: nat): nat
    requires n <= |batches|
  {
    |Concat(batches[..n])|
  }

  /** Every batch but the last would not have fitted with the next text added. */
  ghost predicate Greedy(batches: seq<seq<string>>, texts: seq<string>, maxChars: int, maxItems: int) {
    forall n :: 0 <= n < |batches| && Covered(batches, n + 1) < |texts| ==>
      !Fits(batches[n] + [texts[Covered(batches, n + 1)]], maxChars, maxItems)
  }

  lemma {:induction false} ConcatAppend(a: seq<seq<string>>, b: seq<seq<string>>)
    ensures Concat(a + b) == Concat(a) + Concat(b)
  {
    if b == [] {
      assert a + b == a;
    } else {
      assert (a + b)[..|a + b| - 1] == a + b[..|b| - 1];
      ConcatAppend(a, b[..|b| - 1]);
    }
  }

  /** The first `n` batches of a split are the first `Covered(batches, n)` texts,
      and the next batch is the stretch after them. */
  lemma BatchAt(batches: seq<seq<string>>, texts: seq<string>, n: nat)
    requires Concat(batches) == texts && n < |batches|
    ensures Covered(batches, n) <= Covered(batches, n + 1) <= |texts|
    ensures Covered(batches, n + 1) == Covered(batches, n) + |batches[n]|
    ensures texts[Covered(batches, n)..Covered(batches, n + 1)] == batches[n]
  {
    assert batches == batches[..n + 1] + batches[n + 1..];
    ConcatAppend(batches[..n + 1], batches[n + 1..]);
    assert batches[..n + 1][..n] == batches[..n];
  }

  lemma InnerSlice(texts: seq<string>, lo: nat, b: seq<string>, i: nat, j: nat)
    requires lo + |b| <= |texts| && i <= j <= |b|
    requires forall k :: 0 <= k < |b| ==> b[k] == texts[lo + k]
    ensures b[i..j] == texts[lo + i..lo + j]
  {
  }

  lemma SliceSnoc(s: seq<string>, from: nat, upto: nat)
    requires from <= upto < |s|
    ensures s[from..upto + 1] == s[from..upto] + [s[upto]]
  {
  }

  /** A batch that fits leaves room for one text more after any stretch inside it. */
  lemma NextTextFits(texts: seq<string>, lo: nat, b: seq<string>, i: nat, j: nat, maxChars: int, maxItems: int)
    requires lo + |b| <= |texts| && i <= j < |b| && Fits(b, maxChars, maxItems)
    requires forall k :: 0 <= k < |b| ==> b[k] == texts[lo + k]
    ensures Fits(texts[lo + i..lo + j] + [texts[lo + j]], maxChars, maxItems)
  {
    InnerSlice(texts, lo, b, i, j + 1);
    SliceSnoc(texts, lo + i, lo + j);
    FitsPart(b, i, j + 1, maxChars, maxItems);
  }

  /** A batch `g` that ends before the texts do, and could not take the next one,
      ends no earlier than a fitting batch `b` that starts no later. */
  lemma AheadByOne(
    texts: seq<string>, g: seq<string>, from: nat, b: seq<string>, lo: nat, maxChars: int, maxItems: int)
    requires lo <= from && from + |g| <= |texts| && lo + |b| <= |texts| && Fits(b, maxChars, maxItems)
    requires g == texts[from..from + |g|] && forall k :: 0 <= k < |b| ==> b[k] == texts[lo + k]
    requires from + |g| < |texts| ==> !Fits(g + [texts[from + |g|]], maxChars, maxItems)
    ensures lo + |b| <= from + |g|
  {
    if from + |g| < lo + |b| {
      NextTextFits(texts, lo, b, from - lo, from + |g| - lo, maxChars, maxItems);
      assert false;
    }
  }

  /** Greedy stays ahead: after equally many batches it has covered at least as much. */
  lemma {:induction false} GreedyStaysAhead(
    greedy: seq<seq<string>>, other: seq<seq<string>>, texts: seq<string>, maxChars: int, maxItems: int, n: nat)
    requires IsSplit(greedy, texts, maxChars, maxItems) && Greedy(greedy, texts, maxChars, maxItems)
    requires IsSplit(other, texts, maxChars, maxItems)
    requires n <= |greedy| && n <= |other|
    ensures Covered(other, n) <= Covered(greedy, n)
  {
    if n > 0 {
      GreedyStaysAhead(greedy, other, texts, maxChars, maxItems, n - 1);
      BatchAt(greedy, texts, n - 1);
      BatchAt(other, texts, n - 1);
      AheadByOne(texts, greedy[n - 1], Covered(greedy, n - 1), other[n - 1], Covered(other, n - 1), maxChars, maxItems);
    }
  }

  /** No split of the same texts into fitting batches uses fewer batches. */
  lemma GreedyIsOptimal(
    greedy: seq<seq<string>>, other: seq<seq<string>>, texts: seq<string>, maxChars: int, maxItems: int)
    requires IsSplit(greedy, texts, maxChars, maxItems) && Greedy(greedy, texts, maxChars, maxItems)
    requires IsSplit(other, texts, maxChars, maxItems)
    ensures |greedy| <= |other|
  {
    if |other| < |greedy| {
      var n := |other|;
      assert other[..n] == other && Fits(greedy[n], maxChars, maxItems);
      BatchAt(greedy, texts, n);
      GreedyStaysAhead(greedy, other, texts, maxChars, maxItems, n);
    }
  }

  /** The closed batches were closed for a reason. */
  ghost predicate ClosedForReason(batches: seq<seq<string>>, texts: seq<string>, i: nat, maxChars: int, maxItems: int) {
    i <= |texts| &&
    forall n: nat :: n < |batches| ==> FullBefore(batches, texts, n, i, maxChars, maxItems)
  }

  /** Where the loop stands before text `i`: the closed batches and the open one. */
  ghost predicate Standing(
    batches: seq<seq<string>>, current: seq<string>, texts: seq<string>, i: nat, maxChars: int, maxItems: int)
  {
    && i <= |texts| && Concat(batches) + current == texts[..i]
    && (forall b :: b in batches ==> Fits(b, maxChars, maxItems))
    && (current == [] <==> i == 0) && (i == 0 ==> batches == [])
    && (current != [] ==> Fits(current, maxChars, maxItems))
    && ClosedForReason(batches, texts, i, maxChars, maxItems)
  }

  /** Batch `n` is followed by a text it would not have fitted with. */
  ghost predicate FullBefore(
    batches: seq<seq<string>>, texts: seq<string>, n: nat, i: nat, maxChars: int, maxItems: int)
    requires n < |batches| && i <= |texts|
  {
    Covered(batches, n + 1) < i && !Fits(batches[n] + [texts[Covered(batches, n + 1)]], maxChars, maxItems)
  }

  lemma CloseBatch(
    batches: seq<seq<string>>, current: seq<string>, texts: seq<string>, i: nat, maxChars: int, maxItems: int)
    requires i < |texts| && Concat(batches) + current == texts[..i]
    requires ClosedForReason(batches, texts, i, maxChars, maxItems)
    requires !Fits(current + [texts[i]], maxChars, maxItems)
    ensures ClosedForReason(batches + [current], texts, i + 1, maxChars, maxItems)
  {
    var more, next := batches + [current], i + 1;
    assert more[..|more|] == more && more[..|batches|] == batches;
    assert Covered(more, |more|) == i;
    forall n: nat | n < |more| ensures FullBefore(more, texts, n, next, maxChars, maxItems) {
      if n < |batches| {
        assert FullBefore(batches, texts, n, i, maxChars, maxItems);
        assert more[..n + 1] == batches[..n + 1] && more[n] == batches[n];
      } else {
        assert more[..n + 1] == more && more[n] == current;
      }
    }
  }

  lemma TakeText(
    batches: seq<seq<string>>, current: seq<string>, texts: seq<string>, i: nat, maxChars: int, maxItems: int)
    requires i < |texts| && Standing(batches, current, texts, i, maxChars, maxItems)
    ensures Fits(current + [texts[i]], maxChars, maxItems) ==>
              Standing(batches, current + [texts[i]], texts, i + 1, maxChars, maxItems)
    ensures !Fits(current + [texts[i]], maxChars, maxItems) ==>
              Standing(batches + [current], [texts[i]], texts, i + 1, maxChars, maxItems)
  {
    var next := i + 1;
    assert texts[..next] == texts[..i] + [texts[i]];
    forall n: nat | n < |batches| ensures FullBefore(batches, texts, n, next, maxChars, maxItems) {
      assert FullBefore(batches, texts, n, i, maxChars, maxItems);
    }
    if !Fits(current + [texts[i]], maxChars, maxItems) {
      assert (batches + [current])[..|batches|] == batches;
      CloseBatch(batches, current, texts, i, maxChars, maxItems);
    }
  }

  lemma FitsNext(current: seq<string>, text: string, maxChars: int, maxItems: int)
    ensures Chars(current + [text]) == Chars(current) + |text|
    ensures Fits(current + [text], maxChars, maxItems) <==>
            current == [] || (Chars(current) + |text| <= maxChars && |current| < maxItems)
  {
    assert (current + [text])[..|current|] == current;
  }

  lemma FinishBatches(batches: seq<seq<string>>, current: seq<string>, texts: seq<string>, maxChars: int, maxItems: int)
    requires texts != [] && Standing(batches, current, texts, |texts|, maxChars, maxItems)
    ensures IsSplit(batches + [current], texts, maxChars, maxItems)
    ensures Greedy(batches + [current], texts, maxChars, maxItems)
  {
    var more := batches + [current];
    assert more[..|more|] == more && more[..|batches|] == batches && texts[..|texts|] == texts;
    forall n | 0 <= n < |more| && Covered(more, n + 1) < |texts|
      ensures !Fits(more[n] + [texts[Covered(more, n + 1)]], maxChars, maxItems)
    {
      assert n < |batches| by {
        assert Covered(more, |more|) == |texts|;
      }
      assert more[..n + 1] == batches[..n + 1] && FullBefore(batches, texts, n, |texts|, maxChars, maxItems);
    }
  }

  /** Splits `texts` in order into as few fitting batches as possible. */
  method BatchByBudget(texts: seq<string>, maxChars: int, maxItems: int) returns (batches: seq<seq<string>>)
    ensures IsSplit(batches, texts, maxChars, maxItems)
    ensures forall other :: IsSplit(other, texts, maxChars, maxItems) ==> |batches| <= |other|
  {
    batches := [];
    if texts == [] {
      return;
    }
    var current: seq<string> := [];
    var currentChars := 0;
    for i := 0 to |texts|
      invariant Standing(batches, current, texts, i, maxChars, maxItems)
      invariant currentChars == Chars(current)
    {
      var text := texts[i];
      FitsNext(current, text, maxChars, maxItems);
      FitsNext([], text, maxChars, maxItems);
      TakeText(batches, current, texts, i, maxChars, maxItems);
      var wouldExceedChars := current != [] && currentChars + |text| > maxChars;
      var wouldExceedItems := current != [] && |current| >= maxItems;
      if wouldExceedChars || wouldExceedItems {
        batches := batches + [current];
        current := [];
        currentChars := 0;
      }
      current := current + [text];
      currentChars := currentChars + |text|;
    }
    if current != [] {
      FinishBatches(batches, current, texts, maxChars, maxItems);
      batches := batches + [current];
    }
    forall other | IsSplit(other, texts, maxChars, maxItems) ensures |batches| <= |other| {
      GreedyIsOptimal(batches, other, texts, maxChars, maxItems);
    }
  }
}
