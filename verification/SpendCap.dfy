/** The daily spend cap (amop/models/cost.py, amop/agents/base.py,
    `record_model_call` of amop/audit/actions.py). Amounts are whole numbers of
    a small unit: one hundredth of a micro-dollar, the finest a published
    per-million rate in cents resolves for a single token. */
module SpendCap {
  import opened Wrappers

  // ----- Pricing one call -----

  datatype TokenRates = TokenRates(baseInput: nat, cacheWrite: nat, cacheRead: nat, output: nat)

  /** The published rates, in cents per million tokens. */
  const RATE_TABLE: map<string, TokenRates> := map[
    "claude-opus" := TokenRates(1500, 1875, 150, 7500),
    "claude-sonnet" := TokenRates(300, 375, 30, 1500),
    "claude-haiku" := TokenRates(80, 100, 8, 400),
    "gpt-4o" := TokenRates(250, 250, 125, 1000),
    "gpt-4" := TokenRates(3000, 3000, 1500, 6000),
    "gpt-3.5" := TokenRates(50, 50, 25, 150)
  ]

  datatype Usage = Usage(cacheWrite: nat, cacheRead: nat, uncached: nat, output: nat)

  function EstimateCost(rates: TokenRates, u: Usage): nat {
    u.cacheWrite * rates.cacheWrite + u.cacheRead * rates.cacheRead + u.uncached * rates.baseInput +
        u.output * rates.output
  }

  function MaxPlausibleCost(rates: TokenRates, inputEstimate: nat, maxTokens: nat): nat {
    inputEstimate * rates.baseInput + maxTokens * rates.output
  }

  predicate WithinEstimate(u: Usage, inputEstimate: nat, maxTokens: nat) {
    u.cacheWrite + u.cacheRead + u.uncached <= inputEstimate && u.output <= maxTokens
  }

  /** Each kind of token costs its own rate, however many of the others there are. */
  lemma EachTokenAtItsRate(rates: TokenRates, u: Usage)
    ensures EstimateCost(rates, Usage(0, 0, 0, 0)) == 0
    ensures EstimateCost(rates, u.(cacheWrite := u.cacheWrite + 1)) == EstimateCost(rates, u) + rates.cacheWrite
    ensures EstimateCost(rates, u.(cacheRead := u.cacheRead + 1)) == EstimateCost(rates, u) + rates.cacheRead
    ensures EstimateCost(rates, u.(uncached := u.uncached + 1)) == EstimateCost(rates, u) + rates.baseInput
    ensures EstimateCost(rates, u.(output := u.output + 1)) == EstimateCost(rates, u) + rates.output
    ensures EstimateCost(rates, Usage(0, 0, u.uncached, u.output)) == MaxPlausibleCost(rates, u.uncached, u.output)
  {
    assert (u.cacheWrite + 1) * rates.cacheWrite == u.cacheWrite * rates.cacheWrite + rates.cacheWrite;
    assert (u.cacheRead + 1) * rates.cacheRead == u.cacheRead * rates.cacheRead + rates.cacheRead;
    assert (u.uncached + 1) * rates.baseInput == u.uncached * rates.baseInput + rates.baseInput;
    assert (u.output + 1) * rates.output == u.output * rates.output + rates.output;
    assert 0 * rates.cacheWrite == 0 * rates.cacheRead == 0;
  }

  /** How the published rates hang together: claude writes its cache at a quarter
      over the base rate and reads it at a tenth; gpt writes at the base rate and
      reads at half. */
  lemma RateShapes(family: string)
    requires family in RATE_TABLE
    ensures var r := RATE_TABLE[family];
            if family in {"claude-opus", "claude-sonnet", "claude-haiku"} then
              4 * r.cacheWrite == 5 * r.baseInput && 10 * r.cacheRead == r.baseInput && r.output == 5 * r.baseInput
            else r.cacheWrite == r.baseInput && 2 * r.cacheRead == r.baseInput
  {
  }

  /** No usage within the token estimates costs more than the pre-dispatch worst case. */
  ghost predicate WorstCaseCovers(rates: TokenRates) {
    forall u: Usage, n: nat, m: nat :: WithinEstimate(u, n, m) ==>
        EstimateCost(rates, u) <= MaxPlausibleCost(rates, n, m)
  }

  lemma MulMonotone(a: nat, b: nat, c: nat)
    requires a <= b
    ensures a * c <= b * c && c * a <= c * b
  {
  }

  lemma CoveredUsage(rates: TokenRates, u: Usage, n: nat, m: nat)
    requires rates.cacheWrite <= rates.baseInput && rates.cacheRead <= rates.baseInput && WithinEstimate(u, n, m)
    ensures EstimateCost(rates, u) <= MaxPlausibleCost(rates, n, m)
  {
    MulMonotone(rates.cacheWrite, rates.baseInput, u.cacheWrite);
    MulMonotone(rates.cacheRead, rates.baseInput, u.cacheRead);
    var inputs := u.cacheWrite + u.cacheRead + u.uncached;
    assert inputs * rates.baseInput == u.cacheWrite * rates.baseInput + u.cacheRead * rates.baseInput +
           u.uncached * rates.baseInput;
    MulMonotone(inputs, n, rates.baseInput);
    MulMonotone(u.output, m, rates.output);
  }

  /** The worst case treats all input as uncached. It bounds every real cost if
      and only if neither kind of cached token is priced above an uncached one. */
  lemma WorstCaseIff(rates: TokenRates)
    ensures WorstCaseCovers(rates) <==> rates.cacheWrite <= rates.baseInput && rates.cacheRead <= rates.baseInput
  {
    if rates.cacheWrite <= rates.baseInput && rates.cacheRead <= rates.baseInput {
      forall u: Usage, n: nat, m: nat | WithinEstimate(u, n, m)
        ensures EstimateCost(rates, u) <= MaxPlausibleCost(rates, n, m)
      {
        CoveredUsage(rates, u, n, m);
      }
    }
    if WorstCaseCovers(rates) {
      assert WithinEstimate(Usage(1, 0, 0, 0), 1, 0) && WithinEstimate(Usage(0, 1, 0, 0), 1, 0);
      assert EstimateCost(rates, Usage(1, 0, 0, 0)) <= MaxPlausibleCost(rates, 1, 0);
      assert EstimateCost(rates, Usage(0, 1, 0, 0)) <= MaxPlausibleCost(rates, 1, 0);
    }
  }

  /** Of the published rates, exactly the gpt families are covered: a claude call
      that writes its cache can cost more than its worst case said. */
  lemma CoveredFamilies(family: string)
    requires family in RATE_TABLE
    ensures WorstCaseCovers(RATE_TABLE[family]) <==> family in {"gpt-4o", "gpt-4", "gpt-3.5"}
  {
    WorstCaseIff(RATE_TABLE[family]);
  }

  // ----- Many calls -----

  /** A call between reading the counter and its own record: what it read, its
      worst case, and whether it was dispatched yet. */
  datatype Call = Call(estimate: nat, read: int, dispatched: bool)

  /** `spent` is the counter, `costs` the recorded costs of the day in commit
      order, `summed` how many of them a running reconciliation has added up. */
  datatype Ledger = Ledger(cap: nat, spent: int, costs: seq<nat>, inFlight: seq<Call>, summed: Option<nat>)

  datatype Step =
    | ReadCounter(estimate: nat)
    | Decide(i: nat)
    | Return(i: nat, cost: nat)
    | Abandon(i: nat)
    | SumCosts
    | Overwrite

  function Sum(costs: seq<nat>): nat {
    if costs == [] then 0 else Sum(costs[..|costs| - 1]) + costs[|costs| - 1]
  }

  predicate Passes(cap: int, c: Call) {
    c.read + c.estimate <= cap
  }

  function Without(s: seq<Call>, i: nat): seq<Call>
    requires i < |s|
  {
    s[..i] + s[i + 1..]
  }

  /** At most `k` calls at once, none with a worst case above `w`, and none that
      costs more than its worst case. */
  predicate Enabled(l: Ledger, k: nat, w: nat, step: Step) {
    match step
    case ReadCounter(e) => |l.inFlight| < k && e <= w
    case Decide(i) => i < |l.inFlight| && !l.inFlight[i].dispatched
    case Return(i, cost) => i < |l.inFlight| && l.inFlight[i].dispatched && cost <= l.inFlight[i].estimate
    case Abandon(i) => i < |l.inFlight|
    case SumCosts => l.summed.None?
    case Overwrite => l.summed.Some? && l.summed.value <= |l.costs|
  }

  function Do(l: Ledger, k: nat, w: nat, step: Step): Ledger
    requires Enabled(l, k, w, step)
  {
    match step
    case ReadCounter(e) => l.(inFlight := l.inFlight + [Call(e, l.spent, false)])
    case Decide(i) =>
      if Passes(l.cap, l.inFlight[i]) then l.(inFlight := l.inFlight[i := l.inFlight[i].(dispatched := true)])
      else l.(inFlight := Without(l.inFlight, i))
    // The audit row and the increment commit together.
    case Return(i, cost) =>
      l.(costs := l.costs + [cost], spent := l.spent + cost, inFlight := Without(l.inFlight, i))
    case Abandon(i) => l.(inFlight := Without(l.inFlight, i))
    case SumCosts => l.(summed := Some(|l.costs|))
    case Overwrite => l.(spent := Sum(l.costs[..l.summed.value]), summed := None)
  }

  /** The worst cases of the calls that were or will be let through. */
  function Exposure(cap: int, calls: seq<Call>): nat {
    if calls == [] then 0
    else Exposure(cap, calls[1..]) + if Passes(cap, calls[0]) then calls[0].estimate else 0
  }

  lemma {:induction false} ExposureAppend(cap: int, s: seq<Call>, t: seq<Call>)
    ensures Exposure(cap, s + t) == Exposure(cap, s) + Exposure(cap, t)
  {
    if s == [] {
      assert s + t == t;
    } else {
      assert (s + t)[1..] == s[1..] + t;
      ExposureAppend(cap, s[1..], t);
    }
  }

  lemma ExposureSplit(cap: int, s: seq<Call>, i: nat)
    requires i < |s|
    ensures Exposure(cap, s) == Exposure(cap, Without(s, i)) + if Passes(cap, s[i]) then s[i].estimate else 0
  {
    assert s == s[..i] + ([s[i]] + s[i + 1..]);
    ExposureAppend(cap, s[..i], [s[i]] + s[i + 1..]);
    ExposureAppend(cap, s[..i], s[i + 1..]);
    assert ([s[i]] + s[i + 1..])[1..] == s[i + 1..];
  }

  /** The largest worst case a call can pass the check with. */
  function Worst(cap: nat, w: nat): nat {
    if cap < w then cap else w
  }

  lemma PassesWithin(cap: nat, c: Call, w: nat)
    requires c.estimate <= w && 0 <= c.read
    ensures Passes(cap, c) ==> c.estimate <= Worst(cap, w)
  {
  }

  lemma OneMore(n: nat, amount: nat)
    ensures (n + 1) * amount == n * amount + amount
  {
  }

  lemma {:induction false} ExposureBound(cap: nat, s: seq<Call>, w: nat)
    requires forall c :: c in s ==> c.estimate <= w && 0 <= c.read
    ensures Exposure(cap, s) <= |s| * Worst(cap, w)
  {
    if s != [] {
      ExposureBound(cap, s[1..], w);
      PassesWithin(cap, s[0], w);
      OneMore(|s[1..]|, Worst(cap, w));
    }
  }

  ghost predicate Capped(l: Ledger, k: nat, w: nat) {
    && k > 0 && |l.inFlight| <= k
    && (forall c :: c in l.inFlight ==> c.estimate <= w && 0 <= c.read && (c.dispatched ==> Passes(l.cap, c)))
    && l.spent + Exposure(l.cap, l.inFlight) <= l.cap + (k - 1) * Worst(l.cap, w)
  }

  ghost predicate Counted(l: Ledger) {
    && l.spent == Sum(l.costs)
    && (l.summed.Some? ==> l.summed.value <= |l.costs|)
  }

  /** A reconciliation whose read and overwrite no record came between. */
  predicate Unsplit(l: Ledger, step: Step) {
    step.Overwrite? ==> l.summed == Some(|l.costs|)
  }

  lemma StepKeepsCapped(l: Ledger, k: nat, w: nat, step: Step)
    requires Capped(l, k, w) && Counted(l) && Enabled(l, k, w, step) && Unsplit(l, step)
    ensures Capped(Do(l, k, w, step), k, w)
  {
    match step {
      case ReadCounter(e) =>
        var c := Call(e, l.spent, false);
        ExposureAppend(l.cap, l.inFlight, [c]);
        ExposureBound(l.cap, l.inFlight, w);
        MulMonotone(|l.inFlight|, k - 1, Worst(l.cap, w));
      case Decide(i) =>
        ExposureSplit(l.cap, l.inFlight, i);
        if Passes(l.cap, l.inFlight[i]) {
          var s := l.inFlight[i := l.inFlight[i].(dispatched := true)];
          ExposureSplit(l.cap, s, i);
          assert Without(s, i) == Without(l.inFlight, i);
        }
      case Return(i, cost) => ExposureSplit(l.cap, l.inFlight, i);
      case Abandon(i) => ExposureSplit(l.cap, l.inFlight, i);
      case SumCosts =>
      case Overwrite => assert l.costs[..|l.costs|] == l.costs;
    }
  }

  lemma StepKeepsCounted(l: Ledger, k: nat, w: nat, step: Step)
    requires Counted(l) && Enabled(l, k, w, step) && Unsplit(l, step)
    ensures Counted(Do(l, k, w, step))
  {
    match step {
      case Return(i, cost) => assert (l.costs + [cost])[..|l.costs|] == l.costs;
      case Overwrite => assert l.costs[..|l.costs|] == l.costs;
      case _ =>
    }
  }

  ghost predicate CanRun(l: Ledger, k: nat, w: nat, steps: seq<Step>)
    decreases |steps|
  {
    steps == [] || (Enabled(l, k, w, steps[0]) && CanRun(Do(l, k, w, steps[0]), k, w, steps[1..]))
  }

  ghost function Run(l: Ledger, k: nat, w: nat, steps: seq<Step>): Ledger
    requires CanRun(l, k, w, steps)
    decreases |steps|
  {
    if steps == [] then l else Run(Do(l, k, w, steps[0]), k, w, steps[1..])
  }

  ghost predicate AllUnsplit(l: Ledger, k: nat, w: nat, steps: seq<Step>)
    requires CanRun(l, k, w, steps)
    decreases |steps|
  {
    steps == [] || (Unsplit(l, steps[0]) && AllUnsplit(Do(l, k, w, steps[0]), k, w, steps[1..]))
  }

  lemma {:induction false} RunKeeps(l: Ledger, k: nat, w: nat, steps: seq<Step>)
    requires Capped(l, k, w) && Counted(l) && CanRun(l, k, w, steps) && AllUnsplit(l, k, w, steps)
    ensures Capped(Run(l, k, w, steps), k, w) && Counted(Run(l, k, w, steps)) && Run(l, k, w, steps).cap == l.cap
    decreases |steps|
  {
    if steps != [] {
      StepKeepsCapped(l, k, w, steps[0]);
      StepKeepsCounted(l, k, w, steps[0]);
      RunKeeps(Do(l, k, w, steps[0]), k, w, steps[1..]);
    }
  }

  function Estimates(calls: seq<Call>): nat {
    if calls == [] then 0 else Estimates(calls[1..]) + if calls[0].dispatched then calls[0].estimate else 0
  }

  lemma {:induction false} DispatchedIsExposed(cap: int, s: seq<Call>)
    requires forall c :: c in s && c.dispatched ==> Passes(cap, c)
    ensures Estimates(s) <= Exposure(cap, s)
  {
    if s != [] {
      assert s[0] in s;
      DispatchedIsExposed(cap, s[1..]);
    }
  }

  /** The day's start. */
  function Opening(cap: nat): Ledger {
    Ledger(cap, 0, [], [], None)
  }

  /** What the cap is about: the recorded spend and the worst cases of the calls dispatched. */
  function AtStake(l: Ledger): nat {
    Sum(l.costs) + Estimates(l.inFlight)
  }

  /** The overshoot is bounded in every interleaving of reading the counter,
      deciding, dispatching, recording and reconciling: the recorded spend plus
      the worst cases of the calls in flight exceeds the cap by at most one worst
      case for each call but one, and the counter is the recorded spend. */
  lemma OvershootIsBounded(cap: nat, k: nat, w: nat, steps: seq<Step>)
    requires k > 0
    requires CanRun(Opening(cap), k, w, steps) && AllUnsplit(Opening(cap), k, w, steps)
    ensures var end := Run(Opening(cap), k, w, steps);
            end.spent == Sum(end.costs) && AtStake(end) <= cap + (k - 1) * Worst(cap, w) <= cap + (k - 1) * w
  {
    assert 0 <= (k - 1) * Worst(cap, w);
    RunKeeps(Opening(cap), k, w, steps);
    var end := Run(Opening(cap), k, w, steps);
    DispatchedIsExposed(end.cap, end.inFlight);
    MulMonotone(Worst(cap, w), w, k - 1);
  }

  // ----- The bound is tight -----

  /** The bound is reached in some run if and only if calls can cost anything, or
      the cap is zero. */
  lemma OvershootIsReachedIff(cap: nat, k: nat, w: nat)
    requires k > 0
    ensures (exists steps :: ReachesBound(cap, k, w, steps)) <==> w > 0 || cap == 0
  {
    if cap == 0 {
      EmptyRunReaches(k, w);
    } else if w > 0 {
      var steps := Reach(cap, k, w);
    } else {
      forall steps ensures !ReachesBound(cap, k, w, steps) {
        FreeRunFallsShort(cap, k, steps);
      }
    }
  }

  lemma EmptyRunReaches(k: nat, w: nat)
    requires k > 0
    ensures ReachesBound(0, k, w, [])
  {
    assert Worst(0, w) == 0 && (k - 1) * 0 == 0;
  }

  lemma FreeRunFallsShort(cap: nat, k: nat, steps: seq<Step>)
    requires k > 0 && cap > 0
    ensures !ReachesBound(cap, k, 0, steps)
  {
    assert Worst(cap, 0) == 0 && (k - 1) * 0 == 0;
    if CanRun(Opening(cap), k, 0, steps) {
      FreeRun(Opening(cap), k, steps);
      FreeIsNothing(Run(Opening(cap), k, 0, steps).costs, Run(Opening(cap), k, 0, steps).inFlight);
    }
  }

  ghost predicate ReachesBound(cap: nat, k: nat, w: nat, steps: seq<Step>) {
    && CanRun(Opening(cap), k, w, steps) && AllUnsplit(Opening(cap), k, w, steps)
    && AtStake(Run(Opening(cap), k, w, steps)) == cap + (k - 1) * Worst(cap, w)
  }

  /** `n` calls of one worst case that read the same counter, the first `dispatched` of them let through. */
  function Calls(estimate: nat, read: int, n: nat, dispatched: nat): seq<Call> {
    seq(n, i => Call(estimate, read, i < dispatched))
  }

  lemma RunCons(l: Ledger, k: nat, w: nat, step: Step, rest: seq<Step>)
    requires Enabled(l, k, w, step) && Unsplit(l, step)
    requires CanRun(Do(l, k, w, step), k, w, rest) && AllUnsplit(Do(l, k, w, step), k, w, rest)
    ensures CanRun(l, k, w, [step] + rest) && AllUnsplit(l, k, w, [step] + rest)
    ensures Run(l, k, w, [step] + rest) == Run(Do(l, k, w, step), k, w, rest)
  {
    assert ([step] + rest)[1..] == rest;
  }

  /** Spends up to one worst case below the cap, a unit at a time, then lets `k`
      calls read that counter before the first of them decides. */
  lemma Reach(cap: nat, k: nat, w: nat) returns (steps: seq<Step>)
    requires k > 0 && w > 0 && cap > 0
    ensures ReachesBound(cap, k, w, steps)
  {
    var end;
    steps, end := PayUp(cap, k, w, []);
    var m := Worst(cap, w);
    SumOfOnes(end.costs, cap - m);
    EstimatesOf(m, cap - m, k, k);
    assert (k - 1) * m + m == k * m;
  }

  ghost predicate Ones(costs: seq<nat>) {
    forall i :: 0 <= i < |costs| ==> costs[i] == 1
  }

  lemma {:induction false} PayUp(cap: nat, k: nat, w: nat, paid: seq<nat>) returns (steps: seq<Step>, end: Ledger)
    requires k > 0 && w > 0 && cap > 0 && Ones(paid) && |paid| <= cap - Worst(cap, w)
    ensures var l := Ledger(cap, |paid|, paid, [], None);
            CanRun(l, k, w, steps) && AllUnsplit(l, k, w, steps) && end == Run(l, k, w, steps)
    ensures Ones(end.costs) && |end.costs| == cap - Worst(cap, w)
    ensures end.inFlight == Calls(Worst(cap, w), cap - Worst(cap, w), k, k)
    decreases cap - |paid|
  {
    var l := Ledger(cap, |paid|, paid, [], None);
    if |paid| == cap - Worst(cap, w) {
      assert Calls(Worst(cap, w), |paid|, 0, 0) == [];
      steps := ReadAll(cap, k, w, paid, 0);
      end := Run(l, k, w, steps);
    } else {
      var rest;
      rest, end := PayUp(cap, k, w, paid + [1]);
      steps := PayOne(cap, k, w, paid, rest);
    }
  }

  lemma PayOne(cap: nat, k: nat, w: nat, paid: seq<nat>, rest: seq<Step>) returns (steps: seq<Step>)
    requires k > 0 && w > 0 && |paid| < cap
    requires var l := Ledger(cap, |paid| + 1, paid + [1], [], None); CanRun(l, k, w, rest) && AllUnsplit(l, k, w, rest)
    ensures var l := Ledger(cap, |paid|, paid, [], None);
            && CanRun(l, k, w, steps) && AllUnsplit(l, k, w, steps)
            && Run(l, k, w, steps) == Run(Ledger(cap, |paid| + 1, paid + [1], [], None), k, w, rest)
  {
    var l := Ledger(cap, |paid|, paid, [], None);
    var l1 := Do(l, k, w, ReadCounter(1));
    assert l1.inFlight == [Call(1, |paid|, false)];
    var l2 := Do(l1, k, w, Decide(0));
    assert l2.inFlight == [Call(1, |paid|, true)];
    var l3 := Do(l2, k, w, Return(0, 1));
    assert l3 == Ledger(cap, |paid| + 1, paid + [1], [], None);
    RunCons(l2, k, w, Return(0, 1), rest);
    RunCons(l1, k, w, Decide(0), [Return(0, 1)] + rest);
    RunCons(l, k, w, ReadCounter(1), [Decide(0)] + ([Return(0, 1)] + rest));
    steps := [ReadCounter(1)] + ([Decide(0)] + ([Return(0, 1)] + rest));
  }

  lemma {:induction false} ReadAll(cap: nat, k: nat, w: nat, paid: seq<nat>, n: nat) returns (steps: seq<Step>)
    requires n <= k && |paid| + Worst(cap, w) == cap
    ensures var l := Ledger(cap, |paid|, paid, Calls(Worst(cap, w), |paid|, n, 0), None);
            && CanRun(l, k, w, steps) && AllUnsplit(l, k, w, steps)
            && Run(l, k, w, steps) == Ledger(cap, |paid|, paid, Calls(Worst(cap, w), |paid|, k, k), None)
    decreases k - n
  {
    var m := Worst(cap, w);
    var l := Ledger(cap, |paid|, paid, Calls(m, |paid|, n, 0), None);
    if n == k {
      steps := DecideAll(cap, k, w, paid, 0);
    } else {
      var rest := ReadAll(cap, k, w, paid, n + 1);
      assert Do(l, k, w, ReadCounter(m)).inFlight == Calls(m, |paid|, n + 1, 0);
      RunCons(l, k, w, ReadCounter(m), rest);
      steps := [ReadCounter(m)] + rest;
    }
  }

  lemma {:induction false} DecideAll(cap: nat, k: nat, w: nat, paid: seq<nat>, n: nat) returns (steps: seq<Step>)
    requires n <= k && |paid| + Worst(cap, w) == cap
    ensures var l := Ledger(cap, |paid|, paid, Calls(Worst(cap, w), |paid|, k, n), None);
            && CanRun(l, k, w, steps) && AllUnsplit(l, k, w, steps)
            && Run(l, k, w, steps) == Ledger(cap, |paid|, paid, Calls(Worst(cap, w), |paid|, k, k), None)
    decreases k - n
  {
    var m := Worst(cap, w);
    var l := Ledger(cap, |paid|, paid, Calls(m, |paid|, k, n), None);
    if n == k {
      steps := [];
    } else {
      var rest := DecideAll(cap, k, w, paid, n + 1);
      assert Do(l, k, w, Decide(n)).inFlight == Calls(m, |paid|, k, n + 1);
      RunCons(l, k, w, Decide(n), rest);
      steps := [Decide(n)] + rest;
    }
  }

  lemma {:induction false} SumOfOnes(costs: seq<nat>, n: nat)
    requires Ones(costs) && |costs| == n
    ensures Sum(costs) == n
  {
    if n > 0 {
      SumOfOnes(costs[..n - 1], n - 1);
    }
  }

  lemma {:induction false} EstimatesOf(estimate: nat, read: int, n: nat, dispatched: nat)
    requires n <= dispatched
    ensures Estimates(Calls(estimate, read, n, dispatched)) == n * estimate
  {
    if n > 0 {
      assert Calls(estimate, read, n, dispatched)[1..] == Calls(estimate, read, n - 1, dispatched);
      EstimatesOf(estimate, read, n - 1, dispatched);
      assert n * estimate == (n - 1) * estimate + estimate;
    }
  }

  ghost predicate Free(l: Ledger) {
    && (forall i :: 0 <= i < |l.costs| ==> l.costs[i] == 0)
    && (forall i :: 0 <= i < |l.inFlight| ==> l.inFlight[i].estimate == 0)
  }

  lemma {:induction false} FreeRun(l: Ledger, k: nat, steps: seq<Step>)
    requires Free(l) && CanRun(l, k, 0, steps)
    ensures Free(Run(l, k, 0, steps))
    decreases |steps|
  {
    if steps != [] {
      FreeRun(Do(l, k, 0, steps[0]), k, steps[1..]);
    }
  }

  lemma {:induction false} FreeIsNothing(costs: seq<nat>, calls: seq<Call>)
    requires (forall i :: 0 <= i < |costs| ==> costs[i] == 0) &&
             (forall i :: 0 <= i < |calls| ==> calls[i].estimate == 0)
    ensures Sum(costs) == 0 && Estimates(calls) == 0
    decreases |costs| + |calls|
  {
    if costs != [] {
      FreeIsNothing(costs[..|costs| - 1], calls);
    } else if calls != [] {
      FreeIsNothing(costs, calls[1..]);
    }
  }

  lemma {:induction false} SumAppend(a: seq<nat>, b: seq<nat>)
    ensures Sum(a + b) == Sum(a) + Sum(b)
  {
    if b == [] {
      assert a + b == a;
    } else {
      assert (a + b)[..|a + b| - 1] == a + b[..|b| - 1];
      SumAppend(a, b[..|b| - 1]);
    }
  }

  /** A reconciliation that costs were recorded during loses exactly those from
      the counter, so the counter is right afterwards only if they were free. */
  lemma SplitReconciliationLoses(l: Ledger, k: nat, w: nat)
    requires Enabled(l, k, w, Overwrite)
    ensures var after := Do(l, k, w, Overwrite);
            && after.spent == Sum(after.costs) - Sum(l.costs[l.summed.value..])
            && (after.spent == Sum(after.costs) <==> Sum(l.costs[l.summed.value..]) == 0)
  {
    assert l.costs == l.costs[..l.summed.value] + l.costs[l.summed.value..];
    SumAppend(l.costs[..l.summed.value], l.costs[l.summed.value..]);
  }

  /** Whatever the counter drifted to, one undisturbed reconciliation restores it. */
  lemma ReconciliationRestores(l: Ledger, k: nat, w: nat)
    requires l.summed == None
    ensures Do(Do(l, k, w, SumCosts), k, w, Overwrite).spent == Sum(l.costs)
  {
    assert l.costs[..|l.costs|] == l.costs;
  }
}
