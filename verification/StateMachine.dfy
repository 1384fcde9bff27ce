/** The task lifecycle (amop/orchestrator/state_machine.py): states, the
    merged transition table and what follows for every path through it. */
module StateMachine {

  datatype TaskState =
    | Created
    | Triaging
    | Investigating
    | PlanningFix
    | Coding
    | Testing
    | Reviewing
    | PrCreation
    | WaitingForApproval
    | Merged
    | Resolved
    | Failed
    | Cancelled
    | NeedsHumanInput
    | MergedIntoExisting

  predicate Terminal(s: TaskState) {
    s in {Resolved, Failed, MergedIntoExisting, Cancelled, NeedsHumanInput}
  }

  /** Membership of `(from, to)` in TRANSITIONS: the table of the design, a
      cancellation edge out of every non-terminal state, and the abort and
      reconciliation edges added later. */
  predicate Legal(from: TaskState, to: TaskState) {
    (to == Cancelled && !Terminal(from)) ||
    match from
    case Created => to == Triaging
    case Triaging => to in {MergedIntoExisting, Investigating, NeedsHumanInput}
    case Investigating => to in {PlanningFix, NeedsHumanInput}
    case PlanningFix => to == Coding
    case Coding => to in {Testing, NeedsHumanInput, PlanningFix}
    case Testing => to in {Coding, Failed, Reviewing, PlanningFix, NeedsHumanInput}
    case Reviewing => to in {Coding, Failed, PrCreation}
    case PrCreation => to in {WaitingForApproval, Merged, NeedsHumanInput}
    case WaitingForApproval => to == Merged
    case Merged => to == Resolved
    case _ => false
  }

  /** The table of the design, edge by edge. */
  predicate InSpecTable(from: TaskState, to: TaskState) {
    || (from == Created && to == Triaging)
    || (from == Triaging && to == MergedIntoExisting)
    || (from == Triaging && to == Investigating)
    || (from == Triaging && to == Cancelled)
    || (from == Investigating && to == PlanningFix)
    || (from == Investigating && to == NeedsHumanInput)
    || (from == PlanningFix && to == Coding)
    || (from == Coding && to == Testing)
    || (from == Testing && to == Coding)
    || (from == Testing && to == Failed)
    || (from == Testing && to == Reviewing)
    || (from == Reviewing && to == Coding)
    || (from == Reviewing && to == Failed)
    || (from == Reviewing && to == PrCreation)
    || (from == PrCreation && to == WaitingForApproval)
    || (from == PrCreation && to == Merged)
    || (from == WaitingForApproval && to == Merged)
    || (from == WaitingForApproval && to == Cancelled)
    || (from == Merged && to == Resolved)
  }

  /** The abort edges added later. */
  predicate IsAbort(from: TaskState, to: TaskState) {
    || (from == Coding && to == NeedsHumanInput)
    || (from == PrCreation && to == NeedsHumanInput)
    || (from == Triaging && to == NeedsHumanInput)
  }

  /** The edges added for crash recovery. */
  predicate IsReconciliation(from: TaskState, to: TaskState) {
    || (from == Coding && to == PlanningFix)
    || (from == Testing && to == PlanningFix)
    || (from == Testing && to == NeedsHumanInput)
  }

  /** A move is legal exactly if one of the tables lists it, or it cancels a task
      that is not in one of the five terminal states. */
  lemma LegalIff(from: TaskState, to: TaskState)
    ensures Legal(from, to) <==>
            || InSpecTable(from, to) || IsAbort(from, to) || IsReconciliation(from, to)
            || (to == Cancelled && from != Resolved && from != Failed && from != MergedIntoExisting &&
                from != Cancelled && from != NeedsHumanInput)
  {
  }

  /** The terminal states are those nothing leads out of. */
  lemma TerminalIff(s: TaskState)
    ensures Terminal(s) <==> forall to :: !Legal(s, to)
  {
    assert !Terminal(s) ==> Legal(s, Cancelled);
  }

  /** Only approval or auto-merge leads to MERGED, and only that to RESOLVED. */
  lemma WhatLeadsToTheEnd(from: TaskState)
    ensures Legal(from, Merged) <==> from == PrCreation || from == WaitingForApproval
    ensures Legal(from, Resolved) <==> from == Merged
    ensures Legal(WaitingForApproval, from) <==> from == Merged || from == Cancelled
  {
  }

  /** Every step of `p` is an edge of the table. */
  ghost predicate IsPath(p: seq<TaskState>) {
    forall i, j :: 0 <= i < j < |p| && j == i + 1 ==> Legal(p[i], p[j])
  }

  lemma PathPrefix(p: seq<TaskState>, n: nat)
    requires IsPath(p) && n <= |p|
    ensures IsPath(p[..n])
  {
  }

  lemma PathGrows(p: seq<TaskState>, to: TaskState)
    requires IsPath(p) && (|p| > 0 ==> Legal(p[|p| - 1], to))
    ensures IsPath(p + [to])
  {
  }

  predicate PastReview(s: TaskState) {
    s == PrCreation || s == WaitingForApproval || s == Merged || s == Resolved
  }

  lemma PastReviewBefore(from: TaskState, to: TaskState)
    requires Legal(from, to) && PastReview(to) && to != PrCreation
    ensures PastReview(from)
  {
  }

  predicate ReviewedAt(p: seq<TaskState>, i: nat) {
    i + 2 < |p| && p[i] == Testing && p[i + 1] == Reviewing && p[i + 2] == PrCreation
  }

  lemma PrCreationWasReviewed(p: seq<TaskState>)
    requires IsPath(p) && |p| > 0 && p[0] == Created && p[|p| - 1] == PrCreation
    ensures |p| > 2 && ReviewedAt(p, |p| - 3)
  {
    var n := |p| - 1;
    assert Legal(p[n - 1], p[n]);
    assert p[n - 1] == Reviewing;
    assert Legal(p[n - 2], p[n - 1]);
  }

  /** No path from CREATED reaches a merge without leaving REVIEWING for
      PR_CREATION, and none enters REVIEWING except out of TESTING. */
  lemma {:induction false} MergeWasReviewed(p: seq<TaskState>)
    requires IsPath(p) && |p| > 0 && p[0] == Created
    requires PastReview(p[|p| - 1])
    ensures exists i: nat :: ReviewedAt(p, i)
  {
    var n := |p| - 1;
    if p[n] == PrCreation {
      PrCreationWasReviewed(p);
    } else {
      assert n > 0 && Legal(p[n - 1], p[n]);
      PastReviewBefore(p[n - 1], p[n]);
      var q := p[..n];
      PathPrefix(p, n);
      MergeWasReviewed(q);
      var i: nat :| ReviewedAt(q, i);
      assert ReviewedAt(p, i);
    }
  }
}
