/** Routing and the mechanical checks on top of a review verdict
    (the pure part of amop/orchestrator/chain.py, amop/safety/scope_guard.py). */
module ReviewGate {
  import opened Wrappers
  import opened StateMachine

  const MAX_FIX_ITERATIONS: nat := 4
  const MAX_REVIEW_CYCLES: nat := 2
  const MAX_NOOP_ATTEMPTS: nat := 2
  const CONFIDENCE_THRESHOLD: real := 0.6
  const MAX_LOC_PER_TASK: nat := 150

  datatype RootCauseReport = RootCauseReport(confidence: real, affected: seq<string>)

  datatype ReviewVerdict = ReviewVerdict(approved: bool, addressesSymptom: bool)

  datatype CounterexampleStatus = NoClaim | Verified | Refuted | Unavailable

  // ----- Paths -----

  predicate IsSpace(c: char) {
    c in {' ', '\t', '\n', '\r', '\U{0b}', '\U{0c}'}
  }

  function DropLeft(s: string, p: char -> bool): string {
    if s != [] && p(s[0]) then DropLeft(s[1..], p) else s
  }

  function DropRight(s: string, p: char -> bool): string {
    if s != [] && p(s[|s| - 1]) then DropRight(s[..|s| - 1], p) else s
  }

  function Strip(s: string, p: char -> bool): string {
    DropRight(DropLeft(s, p), p)
  }

  function RemovePrefix(s: string, prefix: string): string {
    if prefix <= s then s[|prefix|..] else s
  }

  /** The form in which model-supplied and git-supplied paths are compared. */
  function NormalizeRepoPath(path: string): string {
    Strip(RemovePrefix(RemovePrefix(Strip(path, IsSpace), "/workspace/"), "./"), IsSlash)
  }

  predicate IsSlash(c: char) {
    c == '/'
  }

  predicate All(s: string, p: char -> bool) {
    forall i :: 0 <= i < |s| ==> p(s[i])
  }

  lemma {:induction false} DropLeftIs(b: string, x: string, p: char -> bool)
    requires All(b, p) && (x != "" ==> !p(x[0]))
    ensures DropLeft(b + x, p) == x
    decreases |b|
  {
    if b == "" {
      assert b + x == x;
    } else {
      assert (b + x)[0] == b[0] && (b + x)[1..] == b[1..] + x;
      DropLeftIs(b[1..], x, p);
    }
  }

  lemma {:induction false} DropRightIs(x: string, a: string, p: char -> bool)
    requires All(a, p) && (x != "" ==> !p(x[|x| - 1]))
    ensures DropRight(x + a, p) == x
    decreases |a|
  {
    if a == "" {
      assert x + a == x;
    } else {
      var s := x + a;
      assert s[|s| - 1] == a[|a| - 1] && s[..|s| - 1] == x + a[..|a| - 1];
      DropRightIs(x, a[..|a| - 1], p);
    }
  }

  lemma StripIs(b: string, x: string, a: string, p: char -> bool)
    requires All(b, p) && All(a, p) && x != "" && !p(x[0]) && !p(x[|x| - 1])
    ensures Strip(b + (x + a), p) == x
  {
    assert (x + a)[0] == x[0];
    DropLeftIs(b, x + a, p);
    DropRightIs(x, a, p);
  }

  /** A path as git reports it: no space or slash at either end, and no `./` in front. */
  predicate IsPlain(path: string) {
    && path != "" && path != "." && !("./" <= path)
    && !IsSpace(path[0]) && !IsSlash(path[0]) && !IsSpace(path[|path| - 1]) && !IsSlash(path[|path| - 1])
  }

  /** What a model may put in front of a path. */
  predicate IsLead(lead: string) {
    lead == "" || lead == "./" || lead == "/workspace/" || lead == "/workspace/./"
  }

  lemma LeadIsDropped(lead: string, rest: string)
    requires IsLead(lead) && rest != "" && !IsSlash(rest[0]) && !("./" <= rest)
    ensures RemovePrefix(RemovePrefix(lead + rest, "/workspace/"), "./") == rest
  {
    var s := lead + rest;
    assert ("./" + rest)[2..] == rest && "" + rest == rest;
    if lead == "/workspace/" || lead == "/workspace/./" {
      assert s[11..] == (if lead == "/workspace/" then "" else "./") + rest;
    } else {
      assert s[0] != '/';
    }
  }

  lemma PlainRest(path: string, slashes: string)
    requires IsPlain(path) && All(slashes, IsSlash)
    ensures !("./" <= path + slashes)
  {
    var rest := path + slashes;
    assert rest[0] == path[0];
    assert |path| == 1 ==> path == [path[0]];
    assert |path| > 1 ==> path[1] == rest[1] && path[..2] == [path[0], path[1]];
  }

  /** Every way to write a plain path normalizes to it: with spaces around it, with
      the container's directory or `./` in front, with slashes at the end. */
  lemma NormalizesToPlain(b: string, lead: string, path: string, slashes: string, a: string)
    requires All(b, IsSpace) && All(a, IsSpace) && All(slashes, IsSlash) && IsLead(lead) && IsPlain(path)
    ensures NormalizeRepoPath(b + ((lead + (path + slashes)) + a)) == path
  {
    var rest := path + slashes;
    var x := lead + rest;
    assert rest[0] == path[0] && x[|x| - 1] == rest[|rest| - 1];
    assert rest[|rest| - 1] == if slashes == "" then path[|path| - 1] else slashes[|slashes| - 1];
    StripIs(b, x, a, IsSpace);
    PlainRest(path, slashes);
    LeadIsDropped(lead, rest);
    StripIs("", path, slashes, IsSlash);
    assert "" + (path + slashes) == rest;
  }

  /** A path is blank exactly if there is nothing but spaces in it. */
  lemma BlankIff(path: string)
    ensures Blank(path) <==> All(path, IsSpace)
  {
    var left := DropLeft(path, IsSpace);
    if All(path, IsSpace) {
      DropLeftIs(path, "", IsSpace);
      assert path + "" == path;
    } else {
      NotAllStays(path, IsSpace);
      NotAllStaysRight(left, IsSpace);
    }
  }

  lemma {:induction false} NotAllStays(s: string, p: char -> bool)
    requires !All(s, p)
    ensures !All(DropLeft(s, p), p)
    decreases |s|
  {
    if p(s[0]) {
      var i :| 0 <= i < |s| && !p(s[i]);
      assert s[1..][i - 1] == s[i];
      NotAllStays(s[1..], p);
    }
  }

  lemma {:induction false} NotAllStaysRight(s: string, p: char -> bool)
    requires !All(s, p)
    ensures DropRight(s, p) != ""
    decreases |s|
  {
    if p(s[|s| - 1]) {
      var i :| 0 <= i < |s| && !p(s[i]);
      assert s[..|s| - 1][i] == s[i];
      NotAllStaysRight(s[..|s| - 1], p);
    }
  }

  predicate Blank(path: string) {
    Strip(path, IsSpace) == ""
  }

  // ----- Scope -----

  /** Some changed file is not, normalized, one the root cause named; never so if it named none. */
  predicate OutOfScope(changed: seq<string>, affected: seq<string>) {
    affected != [] &&
    exists c :: c in changed && forall a :: a in affected ==> NormalizeRepoPath(a) != NormalizeRepoPath(c)
  }

  /** Every changed file normalizes to a declared one. */
  predicate InScope(changed: seq<string>, affected: seq<string>) {
    forall c :: c in changed ==> exists a :: a in affected && NormalizeRepoPath(a) == NormalizeRepoPath(c)
  }

  function ChangedLineCount(diff: seq<string>): nat {
    if diff == [] then 0
    else
      ChangedLineCount(diff[1..]) +
      if "+++" <= diff[0] || "---" <= diff[0] then 0
      else if "+" <= diff[0] || "-" <= diff[0] then 1
      else 0
  }

  predicate OverCap(diff: seq<string>) {
    ChangedLineCount(diff) > MAX_LOC_PER_TASK
  }

  /** An added or removed line that is no file header. */
  predicate IsChange(line: string) {
    ("+" <= line || "-" <= line) && !("+++" <= line) && !("---" <= line)
  }

  /** The size of a diff is the number of those lines, and the cap is 150. */
  lemma {:induction false} SizeIsChanges(diff: seq<string>)
    ensures ChangedLineCount(diff) == |Filter(diff, IsChange)|
    ensures OverCap(diff) <==> |Filter(diff, IsChange)| > 150
  {
    if diff != [] {
      SizeIsChanges(diff[1..]);
    }
  }

  // ----- Routing -----

  /** Names at least one file, and every file it names exists. */
  predicate Grounded(report: RootCauseReport, exists_: string -> bool) {
    (exists f :: f in report.affected && !Blank(f)) && (forall f :: f in report.affected ==> exists_(f))
  }

  function RouteAfterInvestigation(report: RootCauseReport, exists_: string -> bool): TaskState {
    if !Grounded(report, exists_) then NeedsHumanInput
    else if report.confidence < CONFIDENCE_THRESHOLD then NeedsHumanInput
    else PlanningFix
  }

  /** A report gets a fix planned if and only if it names a file that is not blank,
      every file it names exists, and its confidence is at least 0.6. */
  lemma PlansIff(report: RootCauseReport, exists_: string -> bool)
    ensures RouteAfterInvestigation(report, exists_) ==
            if (exists f :: f in report.affected && !All(f, IsSpace)) &&
               (forall f :: f in report.affected ==> exists_(f)) && report.confidence >= 0.6
            then PlanningFix else NeedsHumanInput
  {
    forall f ensures Blank(f) <==> All(f, IsSpace) {
      BlankIff(f);
    }
  }

  function RouteAfterTesting(allPassed: bool, fixIterations: nat): TaskState {
    if allPassed then Reviewing
    else if fixIterations < MAX_FIX_ITERATIONS then Coding
    else Failed
  }

  function RouteAfterReview(verdict: ReviewVerdict, reviewCycles: nat): TaskState {
    if verdict.approved then PrCreation
    else if reviewCycles < MAX_REVIEW_CYCLES then Coding
    else Failed
  }

  /** The preferred legal exit of a run that failed in `current`. */
  function FailureState(current: TaskState): TaskState {
    if Legal(current, Failed) then Failed
    else if Legal(current, NeedsHumanInput) then NeedsHumanInput
    else Cancelled
  }

  /** A run that fails in any non-terminal state has a legal exit, and it is terminal. */
  lemma FailureIsLegal(current: TaskState)
    ensures Terminal(FailureState(current))
    ensures Legal(current, FailureState(current)) <==> !Terminal(current)
  {
  }

  /** Which exit that is: failure where the table has one, a human where it has
      not, and cancellation as the last resort. */
  lemma FailurePreference(current: TaskState)
    ensures FailureState(current) == Failed <==> current in {Testing, Reviewing}
    ensures FailureState(current) == NeedsHumanInput <==> current in {Triaging, Investigating, Coding, PrCreation}
    ensures FailureState(current) in {Failed, NeedsHumanInput, Cancelled}
  {
  }

  // ----- The gate -----

  function OverrideUngroundedRejection(
    verdict: ReviewVerdict, changed: seq<string>, report: RootCauseReport, testsPassed: bool,
    status: CounterexampleStatus): ReviewVerdict
  {
    if verdict.approved then verdict
    else if !testsPassed then verdict
    else if report.affected == [] then verdict
    else if OutOfScope(changed, report.affected) then verdict
    else if status == Verified then verdict
    else verdict.(approved := true)
  }

  function EnforceReviewChecks(
    verdict: ReviewVerdict, changed: seq<string>, report: RootCauseReport, testsPassed: bool,
    status: CounterexampleStatus): ReviewVerdict
  {
    if !verdict.approved then OverrideUngroundedRejection(verdict, changed, report, testsPassed, status)
    else if OutOfScope(changed, report.affected) then verdict.(approved := false)
    else if !verdict.addressesSymptom then verdict.(approved := false)
    else verdict
  }

  lemma ScopeIsComplement(changed: seq<string>, affected: seq<string>)
    requires affected != []
    ensures OutOfScope(changed, affected) <==> !InScope(changed, affected)
  {
  }

  /** No answer of the review agent gets an out-of-scope diff through once the root
      cause names a file; an in-scope one on a green suite fails review exactly
      when the model approved it for the wrong symptom, or rejected it with a
      counterexample that ran and held. */
  lemma GateDecides(
    verdict: ReviewVerdict, changed: seq<string>, report: RootCauseReport, status: CounterexampleStatus)
    requires report.affected != []
    ensures EnforceReviewChecks(verdict, changed, report, true, status).approved <==>
            InScope(changed, report.affected) &&
            (if verdict.approved then verdict.addressesSymptom else status != Verified)
  {
    ScopeIsComplement(changed, report.affected);
  }

  /** The gate on every input: an approval stands for the right symptom and in scope,
      a rejection falls on a green suite, in the scope of named files, unless its
      counterexample held. Nothing else of the verdict changes. */
  lemma GateIff(
    verdict: ReviewVerdict, changed: seq<string>, report: RootCauseReport, testsPassed: bool,
    status: CounterexampleStatus)
    ensures var checked := EnforceReviewChecks(verdict, changed, report, testsPassed, status);
            && checked.addressesSymptom == verdict.addressesSymptom
            && (checked.approved <==>
                if verdict.approved then
                  verdict.addressesSymptom && (report.affected == [] || InScope(changed, report.affected))
                else
                  testsPassed && report.affected != [] && InScope(changed, report.affected) && status != Verified)
  {
    if report.affected != [] {
      ScopeIsComplement(changed, report.affected);
    }
  }

  /** On a red suite no rejection is ever turned into an approval. */
  lemma RedSuiteKeepsRejection(
    verdict: ReviewVerdict, changed: seq<string>, report: RootCauseReport, status: CounterexampleStatus)
    requires !verdict.approved
    ensures !EnforceReviewChecks(verdict, changed, report, false, status).approved
  {
  }
}
