/** The agent chain (`run_chain` of amop/orchestrator/chain.py): a retry loop
    with three budgets around agents that may answer anything.

    A `Script` fixes what every agent, the test suite and GitHub answer, attempt
    by attempt; what is proved for every script is proved for arbitrary agents. */
module ChainDriver {
  import opened Wrappers
  import opened StateMachine
  import opened ReviewGate

  /** What one pass through the coding loop meets: whether the coder made a
      successful mutating tool call and ended well, git's changed files and
      diff against the base branch, the orchestrator's own suite run, and the
      review agent's verdict (None if that agent fails) with the outcome of
      executing its counterexample. */
  datatype Attempt = Attempt(
    mutated: bool, agentOk: bool, changed: seq<string>, diff: seq<string>,
    suitePassed: bool, verdict: Option<ReviewVerdict>, status: CounterexampleStatus)

  /** The branch as `create_pull_request` finds it, and whether GitHub plays along. */
  datatype Publication = Publication(diff: seq<string>, secretFound: bool, accepted: bool)

  datatype Script = Script(
    investigation: Option<RootCauseReport>, exists_: string -> bool, attempt: nat -> Attempt, publication: Publication)

  datatype CodeStatus = Success | Failure | NeedsDecomposition

  datatype CodeChangeReport = CodeChangeReport(status: CodeStatus, changed: seq<string>, noOp: bool)

  /** Control flow: go on with a value, return early, `_ChainFailure`, or an
      illegal transition raised. */
  datatype Flow<+T> = Next(value: T) | Returned | ChainFailed | Illegal {
    predicate IsFailure() {
      !Next?
    }

    function PropagateFailure<U>(): Flow<U> {
      if Returned? then Returned else if ChainFailed? then ChainFailed else Illegal
    }

    function Extract(): T
      requires Next?
    {
      value
    }
  }

  /** Where one stage of the loop leads: on to the next stage, or back to CODING
      at the expense of one of the budgets. */
  datatype Route = Proceed | RetryFix | RetryNoop | RetryReview

  /** A pull request is opened only past the secret scan and the line cap. */
  function CreatePullRequest(p: Publication): bool {
    if p.secretFound then false
    else if OverCap(p.diff) then false
    else p.accepted
  }

  function Assemble(a: Attempt): CodeChangeReport {
    CodeChangeReport(if a.changed != [] && a.agentOk && a.mutated then Success else Failure, a.changed, !a.mutated)
  }

  /** How often a run moved into CODING after its start, `moves[0]`. */
  function CodingEntries(moves: seq<TaskState>): nat {
    if |moves| <= 1 then 0 else CodingEntries(moves[..|moves| - 1]) + if moves[|moves| - 1] == Coding then 1 else 0
  }

  /** The states a run enters CODING from. */
  predicate AtCodingEntry(s: TaskState) {
    s == PlanningFix || s == Testing || s == Reviewing
  }

  /** The start states from which every move of a run is legal. */
  predicate CanStart(start: TaskState, resumed: bool) {
    if resumed then start in {Coding, Testing, Investigating} else start in {Created, Triaging}
  }

  /** The review agent's word is taken only for an in-scope diff on a green suite,
      and a rejection only if its counterexample did not hold up. */
  predicate Approved(a: Attempt, report: RootCauseReport) {
    && a.suitePassed
    && a.verdict.Some?
    && (if a.verdict.value.approved then a.verdict.value.addressesSymptom
         else report.affected != [] && a.status != Verified)
    && (report.affected != [] ==> InScope(a.changed, report.affected))
  }

  /** The attempt passed the line cap before review, unless its agent run failed
      after mutating files, or git saw no changed file: those two go to review
      uncapped and meet the cap only when the pull request is opened. */
  predicate CapSeen(a: Attempt) {
    OverCap(a.diff) ==> a.mutated && (!a.agentOk || a.changed == [])
  }

  lemma ApprovedByGate(a: Attempt, report: RootCauseReport)
    requires a.suitePassed && a.verdict.Some?
    ensures EnforceReviewChecks(a.verdict.value, a.changed, report, true, a.status).approved <==> Approved(a, report)
  {
    if report.affected != [] {
      GateDecides(a.verdict.value, a.changed, report, a.status);
    }
  }

  // ----- What a run amounts to -----

  /** The diff is over the line cap where the loop looks: after a good attempt, or
      after a no-op on a green suite. */
  predicate TooLarge(a: Attempt) {
    OverCap(a.diff) && (Assemble(a).status == Success || (!a.mutated && a.suitePassed))
  }

  datatype Kind = Oversized | RedNoop | Red | ReviewBroke | Rejected | Accepted

  /** What an attempt is worth, whatever budgets are left. */
  function KindOf(a: Attempt, report: RootCauseReport): Kind {
    if TooLarge(a) then Oversized
    else if !a.suitePassed then if a.mutated then Red else RedNoop
    else if a.verdict.None? then ReviewBroke
    else if EnforceReviewChecks(a.verdict.value, a.changed, report, true, a.status).approved then Accepted
    else Rejected
  }

  /** The diff is over the cap and the loop sees it: after a good attempt that
      changed files, or a no-op on a green suite. */
  predicate CapHit(a: Attempt) {
    |Filter(a.diff, IsChange)| > 150 &&
    if a.mutated then a.agentOk && a.changed != [] else a.suitePassed
  }

  /** What makes an attempt one of each kind. */
  lemma KindMeans(a: Attempt, report: RootCauseReport)
    ensures KindOf(a, report) == Oversized <==> CapHit(a)
    ensures KindOf(a, report) == Red <==> !CapHit(a) && !a.suitePassed && a.mutated
    ensures KindOf(a, report) == RedNoop <==> !a.suitePassed && !a.mutated
    ensures KindOf(a, report) == ReviewBroke <==> !CapHit(a) && a.suitePassed && a.verdict.None?
    ensures KindOf(a, report) == Rejected <==>
            !CapHit(a) && a.suitePassed && a.verdict.Some? && !Approved(a, report)
  {
    SizeIsChanges(a.diff);
    if a.suitePassed && a.verdict.Some? {
      ApprovedByGate(a, report);
    }
  }

  function Count(kind: Kind, report: RootCauseReport, script: Script, n: nat): nat {
    if n == 0 then 0
    else Count(kind, report, script, n - 1) + if KindOf(script.attempt(n - 1), report) == kind then 1 else 0
  }

  /** The budget an attempt of this kind is retried from, if some of it is left. */
  function RetryOf(kind: Kind, fixIterations: nat, reviewCycles: nat, noopAttempts: nat): Option<Route> {
    if kind == Red && fixIterations < MAX_FIX_ITERATIONS then Some(RetryFix)
    else if kind == Rejected && reviewCycles < MAX_REVIEW_CYCLES then Some(RetryReview)
    else if kind == RedNoop && noopAttempts + 1 < MAX_NOOP_ATTEMPTS then Some(RetryNoop)
    else None
  }

  /** Attempt `n` is tried again: its kind has a budget, and some of it is left. */
  predicate Retried(report: RootCauseReport, script: Script, n: nat) {
    RetryOf(KindOf(script.attempt(n), report),
            Count(Red, report, script, n), Count(Rejected, report, script, n), Count(RedNoop, report, script, n)).Some?
  }

  predicate Reached(report: RootCauseReport, script: Script, n: nat) {
    n == 0 || (Reached(report, script, n - 1) && Retried(report, script, n - 1))
  }

  /** Attempt `n` is made exactly if every one before it was red or rejected, none
      of them more often than its budget allows. */
  lemma {:induction false} ReachedIff(report: RootCauseReport, script: Script, n: nat)
    ensures Reached(report, script, n) <==>
            n == Count(Red, report, script, n) + Count(Rejected, report, script, n)
                 + Count(RedNoop, report, script, n) &&
            Count(Red, report, script, n) <= MAX_FIX_ITERATIONS &&
            Count(Rejected, report, script, n) <= MAX_REVIEW_CYCLES &&
            Count(RedNoop, report, script, n) < MAX_NOOP_ATTEMPTS
    ensures Count(Red, report, script, n) + Count(Rejected, report, script, n) + Count(RedNoop, report, script, n) <= n
  {
    if n > 0 {
      ReachedIff(report, script, n - 1);
    }
  }

  const MAX_ATTEMPTS: nat := 1 + MAX_FIX_ITERATIONS + MAX_REVIEW_CYCLES + (MAX_NOOP_ATTEMPTS - 1)

  /** The attempt the loop ends with, looking from a reached one on. */
  function LastFrom(report: RootCauseReport, script: Script, n: nat): (last: nat)
    requires Reached(report, script, n)
    ensures n <= last < MAX_ATTEMPTS && Reached(report, script, last) && !Retried(report, script, last)
    decreases MAX_ATTEMPTS - n
  {
    ReachedIff(report, script, n);
    if Retried(report, script, n) then ReachedIff(report, script, n + 1); LastFrom(report, script, n + 1) else n
  }

  function LastAttempt(report: RootCauseReport, script: Script): (last: nat)
    ensures last < MAX_ATTEMPTS && Reached(report, script, last) && !Retried(report, script, last)
  {
    LastFrom(report, script, 0)
  }

  lemma {:induction false} EarlierWasRetried(report: RootCauseReport, script: Script, i: nat, n: nat)
    requires Reached(report, script, n) && i < n
    ensures Retried(report, script, i)
  {
    if i < n - 1 {
      EarlierWasRetried(report, script, i, n - 1);
    }
  }

  lemma LastIsUnique(report: RootCauseReport, script: Script, n: nat)
    requires Reached(report, script, n) && !Retried(report, script, n)
    ensures n == LastAttempt(report, script)
  {
    var last := LastAttempt(report, script);
    if n < last {
      EarlierWasRetried(report, script, n, last);
    } else if last < n {
      EarlierWasRetried(report, script, last, n);
    }
  }

  /** Attempt `n` is made, after so many spent from each budget. */
  predicate Spent(
    report: RootCauseReport, script: Script, n: nat, fixIterations: nat, reviewCycles: nat, noopAttempts: nat)
  {
    && Reached(report, script, n)
    && fixIterations == Count(Red, report, script, n)
    && reviewCycles == Count(Rejected, report, script, n)
    && noopAttempts == Count(RedNoop, report, script, n)
  }

  lemma SpendOn(
    report: RootCauseReport, script: Script, n: nat, fixIterations: nat, reviewCycles: nat, noopAttempts: nat)
    requires Spent(report, script, n, fixIterations, reviewCycles, noopAttempts)
    ensures n < MAX_ATTEMPTS
    ensures var retry := RetryOf(KindOf(script.attempt(n), report), fixIterations, reviewCycles, noopAttempts);
            if retry == Some(RetryFix) then Spent(report, script, n + 1, fixIterations + 1, reviewCycles, noopAttempts)
            else if retry == Some(RetryReview) then
              Spent(report, script, n + 1, fixIterations, reviewCycles + 1, noopAttempts)
            else if retry == Some(RetryNoop) then
              Spent(report, script, n + 1, fixIterations, reviewCycles, noopAttempts + 1)
            else retry == None && n == LastAttempt(report, script)
  {
    ReachedIff(report, script, n);
    if !Retried(report, script, n) {
      LastIsUnique(report, script, n);
    }
  }

  /** The report a run codes from: the recorded one, or a confident, grounded answer. */
  function PlannedReport(resumeReport: Option<RootCauseReport>, script: Script): Option<RootCauseReport> {
    if resumeReport.Some? then resumeReport
    else if script.investigation.None? then None
    else if RouteAfterInvestigation(script.investigation.value, script.exists_) == PlanningFix then script.investigation
    else None
  }

  function EndOf(kind: Kind, p: Publication): TaskState {
    match kind
    case Oversized => NeedsHumanInput
    case Accepted => if CreatePullRequest(p) then WaitingForApproval else NeedsHumanInput
    case _ => Failed
  }

  /** How the loop leaves the state and its caller after an attempt that is not retried. */
  predicate StopsLike<T(==)>(r: Flow<T>, next: T, state: TaskState, kind: Kind) {
    if kind == Accepted then r == Next(next) && state == Reviewing
    else if kind == ReviewBroke then r == ChainFailed && state == Reviewing
    else r == Returned && state == if kind == Oversized then NeedsHumanInput else Failed
  }

  /** Where a run ends, and how many attempts it makes. */
  function RunEnd(resumeReport: Option<RootCauseReport>, script: Script): TaskState {
    var report := PlannedReport(resumeReport, script);
    if report.None? then NeedsHumanInput
    else EndOf(KindOf(script.attempt(LastAttempt(report.value, script)), report.value), script.publication)
  }

  function RunAttempts(resumeReport: Option<RootCauseReport>, script: Script): (n: nat)
    ensures n <= MAX_ATTEMPTS == 8
  {
    var report := PlannedReport(resumeReport, script);
    if report.None? then 0 else LastAttempt(report.value, script) + 1
  }

  /** A green oversized diff reaches review exactly if its attempt edited files and
      then failed, or git lists no changed file. */
  lemma UncappedReviewIff(a: Attempt, report: RootCauseReport)
    requires OverCap(a.diff) && a.suitePassed
    ensures KindOf(a, report) in {ReviewBroke, Rejected, Accepted} <==> a.mutated && (!a.agentOk || a.changed == [])
  {
  }

  /** A fresh run has a planned report exactly if the investigation answered, with
      confidence at least 0.6 and at least one file, all of which exist. */
  lemma PlannedIff(script: Script, report: RootCauseReport)
    ensures PlannedReport(None, script) == Some(report) <==>
            && script.investigation == Some(report) && report.confidence >= 0.6
            && (exists f :: f in report.affected && !All(f, IsSpace))
            && forall f :: f in report.affected ==> script.exists_(f)
  {
    PlansIff(report, script.exists_);
  }

  /** Where a run that does not wait for approval ends: with a human if there was
      nothing to plan, the diff was too large or the pull request did not open, and
      in failure if the last attempt was red, rejected or not reviewed at all. */
  lemma EndsIff(resumeReport: Option<RootCauseReport>, script: Script)
    ensures var end, planned := RunEnd(resumeReport, script), PlannedReport(resumeReport, script);
            && end in {WaitingForApproval, NeedsHumanInput, Failed}
            && (planned.None? ==> end == NeedsHumanInput)
            && (planned.Some? ==>
                  var a := script.attempt(LastAttempt(planned.value, script));
                  && (end == Failed <==> !CapHit(a) && !(Approved(a, planned.value) && CapSeen(a)))
                  && (end == NeedsHumanInput <==>
                      CapHit(a) ||
                      (Approved(a, planned.value) && CapSeen(a) &&
                       (script.publication.secretFound || |Filter(script.publication.diff, IsChange)| > 150 ||
                        !script.publication.accepted))))
  {
    var planned := PlannedReport(resumeReport, script);
    SizeIsChanges(script.publication.diff);
    if planned.Some? {
      var a := script.attempt(LastAttempt(planned.value, script));
      KindMeans(a, planned.value);
      AcceptedIff(a, planned.value);
    }
  }

  lemma EndFromPlan(resumeReport: Option<RootCauseReport>, script: Script, report: RootCauseReport)
    requires PlannedReport(resumeReport, script) == Some(report)
    ensures var last := LastAttempt(report, script);
            && RunEnd(resumeReport, script) == EndOf(KindOf(script.attempt(last), report), script.publication)
            && RunAttempts(resumeReport, script) == last + 1
  {
  }

  /** Where a failed agent leaves a run. */
  lemma FailureStates()
    ensures FailureState(Investigating) == NeedsHumanInput && FailureState(Reviewing) == Failed
    ensures !Terminal(Investigating) && !Terminal(Reviewing)
  {
  }

  /** An attempt is accepted exactly if its approval stands and it met the cap
      wherever the loop looks. */
  lemma AcceptedIff(a: Attempt, report: RootCauseReport)
    ensures KindOf(a, report) == Accepted <==> Approved(a, report) && CapSeen(a)
  {
    if a.suitePassed && a.verdict.Some? {
      ApprovedByGate(a, report);
    }
  }

  /** A run waits for approval if and only if there is a planned report, some
      attempt within the budgets passed the suite, the gate and the line cap, and
      the pull request went through. */
  lemma WaitsIff(resumeReport: Option<RootCauseReport>, script: Script)
    ensures RunEnd(resumeReport, script) == WaitingForApproval <==>
            && PlannedReport(resumeReport, script).Some?
            && !script.publication.secretFound && script.publication.accepted
            && ChangedLineCount(script.publication.diff) <= MAX_LOC_PER_TASK
            && var report := PlannedReport(resumeReport, script).value;
               exists n: nat :: Reached(report, script, n) && Approved(script.attempt(n), report) &&
                   CapSeen(script.attempt(n))
  {
    var planned := PlannedReport(resumeReport, script);
    if planned.Some? {
      var report := planned.value;
      var last := LastAttempt(report, script);
      AcceptedIff(script.attempt(last), report);
      forall n: nat | Reached(report, script, n) && Approved(script.attempt(n), report) && CapSeen(script.attempt(n))
        ensures n == last
      {
        AcceptedIff(script.attempt(n), report);
        LastIsUnique(report, script, n);
      }
    }
  }

  /** Whatever waits for approval was published within the line cap and past the
      secret scan; unless resumed, its root cause was confident and every file it
      cites exists. */
  lemma WaitingWasChecked(resumeReport: Option<RootCauseReport>, script: Script)
    requires RunEnd(resumeReport, script) == WaitingForApproval
    ensures ChangedLineCount(script.publication.diff) <= MAX_LOC_PER_TASK && !script.publication.secretFound
    ensures resumeReport.None? ==>
              && script.investigation.Some? && script.investigation.value.confidence >= CONFIDENCE_THRESHOLD
              && Grounded(script.investigation.value, script.exists_)
  {
  }

  /** A run makes eight attempts if and only if the first seven spend every budget. */
  lemma EightIff(resumeReport: Option<RootCauseReport>, script: Script)
    ensures RunAttempts(resumeReport, script) == 8 <==>
            var report := PlannedReport(resumeReport, script);
            && report.Some?
            && Count(Red, report.value, script, 7) == 4
            && Count(Rejected, report.value, script, 7) == 2
            && Count(RedNoop, report.value, script, 7) == 1
  {
    var planned := PlannedReport(resumeReport, script);
    if planned.Some? {
      var last := LastAttempt(planned.value, script);
      ReachedIff(planned.value, script, 7);
      if Reached(planned.value, script, 7) && last < 7 {
        EarlierWasRetried(planned.value, script, last, 7);
      }
    }
  }

  /** The suite is red and the code untouched: a second such attempt ends a run. */
  lemma {:induction false} TwoNoopsFail(report: RootCauseReport, script: Script, i: nat, j: nat)
    requires i < j && Reached(report, script, j)
    requires KindOf(script.attempt(i), report) == RedNoop && KindOf(script.attempt(j), report) == RedNoop
    ensures LastAttempt(report, script) == j && EndOf(RedNoop, script.publication) == Failed
  {
    CountedBefore(RedNoop, report, script, i, j);
    LastIsUnique(report, script, j);
  }

  lemma {:induction false} CountedBefore(kind: Kind, report: RootCauseReport, script: Script, i: nat, n: nat)
    requires i < n && KindOf(script.attempt(i), report) == kind
    ensures Count(kind, report, script, n) > 0
  {
    if i < n - 1 {
      CountedBefore(kind, report, script, i, n - 1);
    }
  }

  // ----- The run itself -----

  class ChainRun {
    const start: TaskState
    var state: TaskState
    var moves: seq<TaskState>
    var attempts: nat
    var codeReport: Option<CodeChangeReport>

    ghost predicate Valid()
      reads this
    {
      && |moves| > 0 && moves[0] == start && moves[|moves| - 1] == state
      && IsPath(moves)
      && CodingEntries(moves) == attempts
    }

    constructor (start: TaskState)
      ensures Valid() && this.start == start && state == start && moves == [start] && attempts == 0
    {
      this.start := start;
      state, moves, attempts, codeReport := start, [start], 0, None;
    }

    method Go(to: TaskState) returns (r: Flow<()>)
      requires Valid()
      modifies this`state, this`moves, this`attempts
      ensures Valid()
      ensures if Legal(old(state), to)
              then r == Next(()) && state == to && moves == old(moves) + [to] &&
                  attempts == old(attempts) + (if to == Coding then 1 else 0)
              else r == Illegal && state == old(state) && moves == old(moves) && attempts == old(attempts)
    {
      if !Legal(state, to) {
        return Illegal;
      }
      state := to;
      moves := moves + [to];
      if to == Coding {
        attempts := attempts + 1;
      }
      assert moves[..|moves| - 1] == old(moves);
      return Next(());
    }

    /** Up to PLANNING_FIX: only a confident report whose citations all exist gets there. */
    method Investigate(script: Script) returns (r: Flow<RootCauseReport>)
      requires Valid() && attempts == 0
      modifies this`state, this`moves, this`attempts
      ensures Valid() && attempts == 0
      ensures r.Illegal? <==> !CanStart(old(state), false)
      ensures r.Illegal? ==> moves == old(moves)
      ensures r.Returned? ==> state == NeedsHumanInput
      ensures r.ChainFailed? ==> state == Investigating
      ensures r.Next? ==> state == PlanningFix && PlannedReport(None, script) == Some(r.value)
      ensures r.Returned? || r.ChainFailed? ==> PlannedReport(None, script) == None
    {
      if state == Created {
        var _ :- Go(Triaging);
      }
      var _ :- Go(Investigating);
      if script.investigation.None? {
        return ChainFailed;
      }
      var report := script.investigation.value;
      if RouteAfterInvestigation(report, script.exists_) == NeedsHumanInput {
        var _ :- Go(NeedsHumanInput);
        return Returned;
      }
      var _ :- Go(PlanningFix);
      return Next(report);
    }

    method ApplySizeCapIfOver(diff: seq<string>) returns (r: Flow<()>)
      requires Valid() && codeReport.Some? && state in {Coding, Testing}
      modifies this`state, this`moves, this`attempts, this`codeReport
      ensures Valid() && attempts == old(attempts)
      ensures if OverCap(diff)
              then r == Returned && state == NeedsHumanInput &&
                  codeReport == Some(old(codeReport).value.(status := NeedsDecomposition))
              else r == Next(()) && state == old(state) && codeReport == old(codeReport)
    {
      if !OverCap(diff) {
        return Next(());
      }
      codeReport := Some(codeReport.value.(status := NeedsDecomposition));
      var _ :- Go(NeedsHumanInput);
      return Returned;
    }

    /** CODING: an oversized diff of a good attempt stops here. */
    method Code(script: Script) returns (r: Flow<Attempt>)
      requires Valid() && AtCodingEntry(state)
      modifies this
      ensures Valid() && attempts == old(attempts) + 1
      ensures var a := script.attempt(old(attempts));
              if OverCap(a.diff) && Assemble(a).status == Success then r == Returned && state == NeedsHumanInput
              else r == Next(a) && state == Coding && codeReport == Some(Assemble(a))
    {
      var _ :- Go(Coding);
      var a := script.attempt(attempts - 1);
      codeReport := Some(Assemble(a));
      if codeReport.value.status == Success {
        var _ :- ApplySizeCapIfOver(a.diff);
      }
      return Next(a);
    }

    /** TESTING: only a green suite leads on; a no-op attempt on a red suite
        spends its own budget, any other red suite a fix iteration. */
    method Test(a: Attempt, fixIterations: nat, noopAttempts: nat) returns (r: Flow<Route>)
      requires Valid() && state == Coding && codeReport == Some(Assemble(a))
      requires !(OverCap(a.diff) && Assemble(a).status == Success)
      modifies this
      ensures Valid() && attempts == old(attempts)
      ensures codeReport.Some? && codeReport.value.changed == a.changed
      ensures r.Next? ==> state == Testing
      ensures TooLarge(a) ==> r == Returned && state == NeedsHumanInput
      ensures !TooLarge(a) && a.suitePassed ==> r == Next(Proceed)
      ensures !a.suitePassed && a.mutated ==>
                if fixIterations < MAX_FIX_ITERATIONS then r == Next(RetryFix) else r == Returned && state == Failed
      ensures !a.suitePassed && !a.mutated ==>
                if noopAttempts + 1 < MAX_NOOP_ATTEMPTS then r == Next(RetryNoop) else r == Returned && state == Failed
    {
      var _ :- Go(Testing);
      if codeReport.value.noOp && a.suitePassed {
        codeReport := Some(codeReport.value.(status := Success));
        var _ :- ApplySizeCapIfOver(a.diff);
      } else if codeReport.value.noOp {
        if noopAttempts + 1 >= MAX_NOOP_ATTEMPTS {
          var _ :- Go(Failed);
          return Returned;
        }
        return Next(RetryNoop);
      }
      var nextState := RouteAfterTesting(a.suitePassed, fixIterations);
      if nextState == Coding {
        return Next(RetryFix);
      }
      if nextState == Failed {
        var _ :- Go(Failed);
        return Returned;
      }
      return Next(Proceed);
    }

    /** REVIEWING: the review agent's verdict, as corrected by the gate. */
    method Review(a: Attempt, report: RootCauseReport, reviewCycles: nat) returns (r: Flow<Route>)
      requires Valid() && state == Testing && a.suitePassed && !TooLarge(a)
      requires codeReport.Some? && codeReport.value.changed == a.changed
      modifies this
      ensures Valid() && attempts == old(attempts)
      ensures r.Returned? || state == Reviewing
      ensures match KindOf(a, report)
              case ReviewBroke => r == ChainFailed
              case Accepted => r == Next(Proceed)
              case Rejected =>
                if reviewCycles < MAX_REVIEW_CYCLES then r == Next(RetryReview) else r == Returned && state == Failed
              case _ => true
    {
      var _ :- Go(Reviewing);
      if a.verdict.None? {
        return ChainFailed;
      }
      var verdict := EnforceReviewChecks(a.verdict.value, codeReport.value.changed, report, a.suitePassed, a.status);
      var nextState := RouteAfterReview(verdict, reviewCycles);
      if nextState == Coding {
        return Next(RetryReview);
      }
      if nextState == Failed {
        var _ :- Go(Failed);
        return Returned;
      }
      return Next(Proceed);
    }

    /** One attempt through CODING, TESTING and REVIEWING, against what is left of the budgets. */
    method OnePass(report: RootCauseReport, script: Script, fixIterations: nat, reviewCycles: nat, noopAttempts: nat)
      returns (r: Flow<Route>)
      requires Valid() && AtCodingEntry(state)
      modifies this
      ensures Valid() && attempts == old(attempts) + 1
      ensures var kind := KindOf(script.attempt(old(attempts)), report);
              var retry := RetryOf(kind, fixIterations, reviewCycles, noopAttempts);
              if retry.Some? then r == Next(retry.value) && AtCodingEntry(state)
              else StopsLike(r, Proceed, state, kind)
    {
      var a :- Code(script);
      var route :- Test(a, fixIterations, noopAttempts);
      if route != Proceed {
        return Next(route);
      }
      r := Review(a, report, reviewCycles);
    }

    /** Code, test, review, until an attempt is approved or a budget is spent: the
        loop ends with the last attempt the budgets allow, at the end its kind calls for. */
    method CodingLoop(report: RootCauseReport, script: Script) returns (r: Flow<()>)
      requires Valid() && attempts == 0 && state == PlanningFix
      modifies this
      ensures Valid() && attempts == LastAttempt(report, script) + 1
      ensures StopsLike(r, (), state, KindOf(script.attempt(LastAttempt(report, script)), report))
    {
      var fixIterations: nat, reviewCycles: nat, noopAttempts: nat := 0, 0, 0;
      while true
        invariant Valid() && AtCodingEntry(state)
        invariant Spent(report, script, attempts, fixIterations, reviewCycles, noopAttempts)
        decreases MAX_ATTEMPTS - attempts
      {
        SpendOn(report, script, attempts, fixIterations, reviewCycles, noopAttempts);
        var route :- OnePass(report, script, fixIterations, reviewCycles, noopAttempts);
        match route {
          case RetryNoop => noopAttempts := noopAttempts + 1;
          case RetryFix => fixIterations := fixIterations + 1;
          case RetryReview => reviewCycles := reviewCycles + 1;
          case Proceed => return Next(());
        }
      }
    }

    method OpenPullRequest(script: Script) returns (r: Flow<()>)
      requires Valid() && state == Reviewing
      modifies this`state, this`moves, this`attempts
      ensures Valid() && attempts == old(attempts) && r == Returned
      ensures state == WaitingForApproval || state == NeedsHumanInput
      ensures state == EndOf(Accepted, script.publication)
      ensures state == WaitingForApproval <==>
              && !script.publication.secretFound && script.publication.accepted
              && ChangedLineCount(script.publication.diff) <= MAX_LOC_PER_TASK
    {
      var _ :- Go(PrCreation);
      if !CreatePullRequest(script.publication) {
        var _ :- Go(NeedsHumanInput);
        return Returned;
      }
      var _ :- Go(WaitingForApproval);
      return Returned;
    }

    /** A resumed task goes straight to PLANNING_FIX with its recorded report. */
    method Plan(resumeReport: Option<RootCauseReport>, script: Script) returns (r: Flow<RootCauseReport>)
      requires Valid() && attempts == 0
      modifies this`state, this`moves, this`attempts
      ensures Valid() && attempts == 0
      ensures r.Illegal? <==> !CanStart(old(state), resumeReport.Some?)
      ensures r.Illegal? ==> moves == old(moves)
      ensures r.Next? ==> state == PlanningFix && PlannedReport(resumeReport, script) == Some(r.value)
      ensures r.Returned? || r.ChainFailed? ==> PlannedReport(resumeReport, script) == None
      ensures r.Returned? ==> state == NeedsHumanInput
      ensures r.ChainFailed? ==> state == Investigating
    {
      if resumeReport.Some? {
        var _ :- Go(PlanningFix);
        return Next(resumeReport.value);
      }
      r := Investigate(script);
    }

    method Drive(resumeReport: Option<RootCauseReport>, script: Script) returns (r: Flow<()>)
      requires Valid() && attempts == 0
      modifies this
      ensures Valid()
      ensures r.Illegal? <==> !CanStart(old(state), resumeReport.Some?)
      ensures r.Illegal? ==> moves == old(moves) && attempts == 0
      ensures !r.Next?
      ensures !r.Illegal? ==> attempts == RunAttempts(resumeReport, script)
      ensures r.Returned? ==> state == RunEnd(resumeReport, script)
      ensures r.ChainFailed? ==> !Terminal(state) && FailureState(state) == RunEnd(resumeReport, script)
    {
      FailureStates();
      var report :- Plan(resumeReport, script);
      EndFromPlan(resumeReport, script, report);
      var _ :- CodingLoop(report, script);
      r := OpenPullRequest(script);
    }

    /** Whatever the agents answer, a run makes only legal moves, terminates in
        the state and after the attempts its answers call for, and raises, on its
        very first move, exactly when it was started in a state it cannot start from. */
    method RunChain(resumeReport: Option<RootCauseReport>, script: Script) returns (raised: bool)
      requires Valid() && attempts == 0
      modifies this
      ensures Valid()
      ensures raised <==> !CanStart(old(state), resumeReport.Some?)
      ensures raised ==> moves == old(moves)
      ensures !raised ==> state == RunEnd(resumeReport, script) && attempts == RunAttempts(resumeReport, script)
    {
      var r := Drive(resumeReport, script);
      if r.ChainFailed? {
        FailureIsLegal(state);
        var failed := Go(FailureState(state));
        return failed.Illegal?;
      }
      return r.Illegal?;
    }
  }
}
