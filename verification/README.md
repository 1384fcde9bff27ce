# AMOP: verified model of its protocols

AMOP drives language-model agents that fix bugs in a repository. What keeps a
run honest is not the agents but the machinery around them: a hash-chained
audit trail written by concurrent sessions, an optimistic task state machine, a
git branch and a database without a common transaction, locks, a spend cap, and
mechanical gates on everything an agent says. This project models that machinery
in Dafny and proves what it guarantees, for every interleaving, every crash
point and every agent answer.

`dafny verify dfyconfig.toml` checks everything.

## How it is organised

| module | models |
|---|---|
| `StateMachine` | task states, the transition table, paths in it |
| `AuditRows`, `AuditChain` | rows of the two chained tables, their order, verification, the tip, what tampering and deletion show |
| `AuditBackfill` | chaining old rows, and exactly when the result verifies |
| `TaskProtocol` | any number of sessions moving tasks and appending audit rows: a step system over committed state and one pending transaction per session |
| `GitHistory`, `Reconcile` | the branch as a commit DAG, the chain's commit and database steps, a crash after any of them, the recovery classifier |
| `ReviewGate`, `ChainDriver`, `Counterexample` | routing, the mechanical review gate, the retry loop around arbitrary agents, executable counterexamples |
| `PatchGates`, `ReadTracking` | the walks over unified diffs, what a coding attempt has seen of a file, the gates of the edit tools |
| `Locks`, `SpendCap` | lock ranks and deadlock freedom, the bounded overshoot of the daily cap |
| `Batching`, `RankFusion` | greedy batching, reciprocal rank fusion |

Code that works by updating state is modelled by methods and classes
(`AuditStore`, `TaskRecord`, `ChainRun`, `CoderTools`, the loops over rows,
diffs, lists and calls), each tied to a specification function or stated
outright. Protocols between concurrent parties are step systems, and the theorems
about them are over all runs.

## Conventions

- A digest is a free term over the previous digest and the row's content:
  distinct inputs have distinct digests and none is GENESIS. `Foreign` digests
  stand for whatever a tampered column may hold.
- A stored row serializes to the content it was stamped with.
- Agents, the test suite, git's answers, GitHub and the code under test are
  parameters that may take any value. Nothing is assumed of them beyond what a
  lemma's `requires` says.
- Money is a whole number of hundredths of a micro-dollar, scores are reals.
- `old_`, `real_` and `exists_` carry an underscore because the bare words are
  Dafny keywords.

## Where the code and its own account of itself differ

Each of these is a theorem below, stated as an exact condition or as a whole
family of inputs.

- `amop/orchestrator/reconcile.py` argues that nothing in AMOP rewrites history,
  so a HEAD that does not descend from the recorded commit is interference. The
  squash before a pull request does rewrite it, and a crash before that squash is
  recorded is classified as interference (`Reconcile.UnrecordedSquashDiverges`,
  `Reconcile.CrashInPrCreation`). So is a crash during the re-run of failing tests
  against the base branch, which leaves HEAD on `main`, as soon as something was
  committed (`Reconcile.CrashIsResumable`, `Reconcile.WindowDiverges`).
- If nothing was committed, that crash is resumed with `main` still checked out,
  and the resumed run commits its fix to `main` (`Reconcile.ResumesOnOwnBranch`,
  `Reconcile.ResumedInWindowMovesBase`).
- `amop resume` is documented for a task in any non-terminal state. A resumable
  outcome can only re-enter from INVESTIGATING, CODING and TESTING; from the
  others, PR_CREATION among them, it raises (`Reconcile.ReEntryIff`) and removes the
  directory with all its commits (`Reconcile.RaisedResumeLosesScratch`,
  `Reconcile.ResumeLosesWorkIff`).
- A comment in `run_chain` says every diff that reaches REVIEWING has passed the
  line cap. The diff of an attempt that edited files and then failed has not; it
  meets the cap only when the pull request is opened (`ChainDriver.UncappedReviewIff`).
- The pre-dispatch estimate is called a worst case because it prices all input
  as uncached. For the claude families a cache write costs more than an uncached
  token, so the real cost can exceed it (`SpendCap.CoveredFamilies`).
- A reconciliation of the spend counter that a record falls into loses that
  record from the counter (`SpendCap.SplitReconciliationLoses`).
- Backfilling after the upgraded application has already appended a positioned
  row yields a chain that does not verify (`AuditBackfill.LateBackfillBreaks`).
- Reading the tip table by table agrees with the merged order, and an append keeps
  the chain intact, only if the tables do not tie at the top
  (`AuditChain.TipIsLastLink`, `AuditBackfill.AppendVerdict`). Appends and backfills
  never bring a tie about (`AuditBackfill.OpsNeverTie`); a tampered database can
  hold one (`AuditBackfill.TieExists`).
- The strict fidelity check ignores lines claimed outside the file and hunks
  whose header does not parse, so it can pass what the lenient one stops
  (`PatchGates.StrictIsNotAlwaysStricter`).
- A removed line whose text starts with `-- ` reads as a file header and ends the
  format check for the rest of its hunk (`PatchGates.CheckedIff`,
  `PatchGates.MarkerlessLineEscapes`).
- A short range read that is cut down, or whose own first line begins like a
  notice, is credited with lines it did not show (`ReadTracking.OverCreditIff`).
- `patch_file` says that only its `path` argument decides which file is patched.
  Normalizing rewrites the first `--- ` and `+++ ` line and no other
  (`PatchGates.NormalizedNamesIff`), so a diff with a section for a second file
  passes every gate of the first and reaches git with both
  (`ReadTracking.TwoSectionsSlipThrough`). Nothing goes stale that way exactly if
  the normalized diff names no other file (`ReadTracking.PatchStaysFreshIff`).
- A path keeps its read credit when its file changes under another spelling or
  through a patch addressed elsewhere (`ReadTracking.OthersKeepCredit`), and a diff
  without any hunk header is not gated by the last read at all
  (`ReadTracking.HeaderlessDiffsAreNotGated`).
- A task that declares no files holds only the repository key, which excludes no
  task that declares some (`Locks.FilelessTaskExcludes`).
- A relation over incomparable values, or with a comparison nested in it, raises
  past the caller (`Counterexample.JudgeClaim`).
- Keyword search lists a chunk once per matching line, so a key can overtake one
  ranked above it (`RankFusion.DuplicatesBreakDominance`); leading in every prefix,
  repetitions counted, rules that out (`RankFusion.DominanceIsRespected`).

## Model

| member | source | states |
|---|---|---|
| StateMachine.LegalIff | amop/orchestrator/state_machine.py:38-160 | a move is legal exactly if the design's table, the abort edges or the recovery edges list it, or it cancels a task that is not terminal |
| StateMachine.TerminalIff | amop/orchestrator/state_machine.py:27-35 | the terminal states are exactly those nothing leads out of |
| StateMachine.WhatLeadsToTheEnd | amop/orchestrator/state_machine.py:72-86 | only PR_CREATION and WAITING_FOR_APPROVAL lead to MERGED, only that to RESOLVED, and approval leads to MERGED or CANCELLED |
| StateMachine.MergeWasReviewed | amop/orchestrator/state_machine.py:38-160 | every path from CREATED that reaches PR_CREATION or beyond passes TESTING, REVIEWING, PR_CREATION in a row |
| AuditRows.WalkInOrder | amop/audit/chain.py:380-417 | the merged walk is a permutation of the stored rows, strictly ordered |
| AuditRows.WalkIsByPosition | amop/audit/chain.py:404-417 | rows without a position come first by ascending id, transitions first on equal ids; the others follow by ascending position |
| AuditRows.OrderIsUnique | amop/audit/chain.py:380-417 | chain order leaves only one such listing |
| AuditRows.WalkFilter | amop/audit/chain.py:380-417 | deleting rows before or after ordering is the same |
| AuditChain.VerifyChain | amop/audit/chain.py:420-472 | reports intact exactly when the chained rows link up from GENESIS; otherwise names the first row whose addition breaks the links; counts unchained rows; returns the tip |
| AuditChain.EqualTipsEqualHistories | amop/audit/chain.py:185-194 | two intact databases with equal tips hold the same contents and hashes row for row |
| AuditChain.DeletionShows | amop/audit/chain.py:420-472 | from an intact chain, deleting any rows leaves it intact if and only if the deleted chained rows are a suffix |
| AuditChain.EmptiedTableShows | amop/audit/chain.py:380-472 | emptying a table is detected exactly when a row of the other table was chained after one of its rows |
| AuditChain.CurrentTipHash | amop/audit/chain.py:288-332 | reads the per-table maxima and merges them as specified |
| AuditChain.TopOf | amop/audit/chain.py:288-332 | the newest hashed row of one table has no hashed row of that table after it |
| AuditChain.TipIsLastLink | amop/audit/chain.py:288-332 | the tip read is the hash of the last chained row of the merged walk, or GENESIS, if and only if the tables do not tie at the top with different hashes |
| AuditChain.AppendKeepsIntact | amop/audit/chain.py:335-355 | appending under the end hash with a later position extends an intact chain by exactly that row |
| AuditChain.LegacyChainVerifies | amop/audit/chain.py:380-417 | rows of one table without positions, each stamped on the one with the next smaller id, verify in whatever order they are stored, and the tip is the newest id's hash |
| AuditBackfill.AuditStore.AppendChained | amop/audit/chain.py:335-355 | appends one row stamped with the current tip and the next position |
| AuditBackfill.AuditStore.BackfillChain | amop/audit/chain.py:489-549 | computes the specified filling of the walk, draws one position per row that had neither hash nor position, returns both counts |
| AuditBackfill.FillKeeps | amop/audit/chain.py:489-549 | a backfill keeps every row's identity and content, every existing hash and link and every existing position, and leaves every row hashed and positioned |
| AuditBackfill.SecondBackfillIsIdle | amop/audit/chain.py:489-549 | a second run changes no row, draws no position and reports (0, 0) |
| AuditBackfill.BackfillOfChained | amop/audit/chain.py:489-549 | with nothing unchained, walk order, verdict and tip are unchanged |
| AuditBackfill.BackfillVerdict | amop/audit/chain.py:489-549 | over an intact chain the result verifies if and only if no unchained row preceded a chained one and the unchained rows were all positioned or all not |
| AuditBackfill.LateBackfillBreaks | amop/audit/chain.py:489-549 | a positioned chained row together with a never-chained unpositioned row always ends up not verifying |
| AuditBackfill.AppendVerdict | amop/audit/chain.py:288-355 | an append to an intact database, legacy rows included, keeps it intact if and only if the tables do not tie at the top |
| AuditBackfill.OpsNeverTie | amop/audit/chain.py:335-549 | from legacy rows of one table and distinct positions, no sequence of appends and backfills ever ties the tables, and the tip read is always the end of the merged walk |
| AuditBackfill.UntamperedAppendVerifies | amop/audit/chain.py:335-355 | so every append to such an intact database extends it |
| AuditBackfill.BackfillKeepsUntampered | amop/audit/chain.py:489-549 | a backfill keeps ids and positions distinct and leaves no legacy rows in two tables |
| AuditBackfill.TieNeedsTampering | amop/audit/chain.py:380-417 | a tie at the top takes legacy rows in both tables or two rows with one position |
| AuditBackfill.TieExists | amop/audit/chain.py:380-417 | a row of each table hashed without a position, under one id, does tie |
| AuditBackfill.SaneIsKept | amop/audit/chain.py:335-355 | appends and backfills keep the position discipline the verdict rests on |
| TaskProtocol.StepKeepsInv | amop/orchestrator/task.py:66-196 | every step of every session keeps the linear chain, the locks, what pending transactions read, and the agreement of tasks, trail and call log |
| TaskProtocol.ChainStaysLinear | amop/audit/chain.py:262-355 | after any interleaving the committed rows of both tables, in commit order, are one verified chain with strictly increasing positions, and the tip read is its end |
| TaskProtocol.TrailIsThePath | amop/orchestrator/task.py:66-196 | after any interleaving each task's transition rows spell a path of the table from CREATED to its committed state, and they are exactly the successful calls, one each |
| TaskProtocol.MergedWasReviewed | amop/orchestrator/task.py:66-149 | after any interleaving, a merged or approval-waiting task has TESTING, REVIEWING, PR_CREATION in a row in its audit trail |
| TaskProtocol.TerminalStays | amop/orchestrator/state_machine.py:27-35 | a terminal task never moves again, whatever other sessions had pending |
| TaskProtocol.StepEffect | amop/database/models.py:52-65 | each step commits nothing, one action row, or one transition row together with exactly that task's move under the guarded version |
| TaskProtocol.UncontendedMoveLands | amop/orchestrator/task.py:66-149 | an uncontended legal move runs to its commit, with any number of tries: state, version and one stamped row |
| TaskProtocol.MoveCallIff | amop/orchestrator/task.py:152-196 | over any run of any sessions in which its own does not crash, a call is refused if and only if the move is illegal from the last state it read or it lost as many races as it has tries; otherwise it moves the task once, when it commits |
| TaskProtocol.RacesGetNewer | amop/orchestrator/task.py:177-195 | each race is lost to a strictly newer committed version |
| TaskProtocol.RetryLands | amop/orchestrator/task.py:177-195 | whatever version was committed in front of a mover, if it leaves the move legal and a try is left, the move lands with one row |
| TaskProtocol.ContendedMoveLands | amop/orchestrator/task.py:177-195 | a mover that loses its first race to another write of the row still lands, two versions on |
| TaskProtocol.RollbackUndoes | amop/orchestrator/task.py:139-147 | a rollback leaves no row, no change of a task and no lock |
| GitHistory.AmopCommitAdvances | amop/sandbox/repo.py:497-506 | an AMOP commit on HEAD keeps an earlier point an ancestor with only AMOP commits in between |
| GitHistory.SquashDropsOldTip | amop/sandbox/repo.py:227-258 | a squash keeps the old tip an ancestor if and only if nothing was committed since the base |
| GitHistory.SquashKeepsTree | amop/sandbox/repo.py:227-258 | a squash leaves one commit over the base with the tree the branch had, or the base itself if that has the same tree |
| GitHistory.CommitHolds | amop/sandbox/repo.py:170-224 | a commit holds the working tree on top of what was checked out |
| Reconcile.TaskRecord.Reconcile | amop/orchestrator/reconcile.py:213-376 | in any task state and for any repository: the classifier's outcome; a resumable one leaves the state and, in cases A and B, adopts HEAD; any other parks the task for a human, or raises where that is illegal; nothing else is recorded |
| Reconcile.VerdictIff | amop/orchestrator/reconcile.py:213-366 | for every record and every directory, the exact condition of each outcome: no repo, fsck failure, no root cause, gone, divergence, missing commit, ahead, equal, and git failing |
| Reconcile.AdoptionIff | amop/orchestrator/reconcile.py:156-164 | the record takes over branch and commit of what is checked out exactly where the outcome is resumable and it was missing, unknown or behind |
| Reconcile.OutsiderStops | amop/sandbox/repo.py:497-506 | one commit by anybody else between the recorded commit and HEAD is enough for case D |
| Reconcile.TaskRecord.Resume | amop/orchestrator/chain.py:1769-1884 | a resume re-enters at PLANNING_FIX, parks the task or raises, with exactly that state and record, and leaves, makes or removes the directory |
| Reconcile.RaisedResumeLosesScratch | amop/orchestrator/chain.py:1878-1884 | after a resumable verdict the directory is removed if and only if the state is not INVESTIGATING, CODING or TESTING; then the outcome is case C and resuming raises again |
| Reconcile.ResumeLosesWorkIff | amop/orchestrator/chain.py:1878-1884 | of AMOP's own interrupted runs, resuming destroys the directory and its commits exactly in PLANNING_FIX, REVIEWING and, with the squash recorded, PR_CREATION |
| Reconcile.ResumesIff | amop/orchestrator/reconcile.py:292-366 | for any repository, whoever wrote to it and whatever is checked out: resumable from a surviving clone exactly when HEAD is a commit and nothing is recorded, the recorded commit does not exist, or HEAD descends from it through AMOP's commits alone |
| Reconcile.ReEntryIff | amop/cli/main.py:278-302 | re-entry takes a resumable outcome in INVESTIGATING, CODING or TESTING; parking takes any other outcome in a state with an edge to NEEDS_HUMAN_INPUT |
| Reconcile.StepKeepsGood | amop/orchestrator/chain.py:742-1095 | every commit, database and branch step, every resumed crash, inside the base-branch re-run or not, and every lost directory keeps record and branch in agreement |
| Reconcile.CrashIsResumable | amop/orchestrator/reconcile.py:292-366 | wherever AMOP's own run is cut in CODING or TESTING, after any crashes and lost directories, it is resumable if and only if the crash did not hit the base-branch re-run after a commit; case D comes from that window alone, case B from a lost directory alone |
| Reconcile.NothingCommittedIsLost | amop/orchestrator/reconcile.py:292-366 | after a resumed crash the database records HEAD and HEAD contains every commit made in the surviving directory |
| Reconcile.RerunRestores | amop/orchestrator/chain.py:1408-1426 | a re-run against the base branch that nothing cuts short leaves branch and working tree as they were |
| Reconcile.ResumesOnOwnBranch | amop/orchestrator/chain.py:1769-1884 | a resumed run works on the task's own branch if and only if the crash was outside the re-run, or that branch is the base branch already |
| Reconcile.ResumedInWindowMovesBase | amop/orchestrator/chain.py:1411-1426 | resumed inside the re-run, the next edit is committed to the base branch and the task's branch stays behind |
| Reconcile.WindowDiverges | amop/orchestrator/chain.py:1411-1426 | every fresh task that commits, records and crashes in its re-run is stopped as case D |
| Reconcile.CrashInPrCreation | amop/orchestrator/chain.py:1010-1035 | a crash in PR_CREATION is case D and parked between the squash and its record, and otherwise resumable with no legal re-entry |
| Reconcile.UnrecordedSquashDiverges | amop/orchestrator/reconcile.py:313-340 | a record of the pre-squash tip is classified as case D unless nothing was committed |
| ReviewGate.NormalizesToPlain | amop/orchestrator/chain.py:143-153 | every way to write a plain path, with spaces, the container's directory or `./` in front, or slashes at the end, normalizes to it |
| ReviewGate.SizeIsChanges | amop/safety/scope_guard.py:42-57 | the size of a diff is the number of its added and removed lines, file headers aside, and the cap is 150 |
| ReviewGate.PlansIff | amop/orchestrator/chain.py:101-124 | a fix is planned if and only if the report names a file that is not blank, every file it names exists and its confidence is at least 0.6 |
| ReviewGate.FailurePreference | amop/orchestrator/chain.py:467-478 | a failed run ends in FAILED where the table has that edge, with a human where it has not, and is cancelled as a last resort |
| ReviewGate.GateIff | amop/orchestrator/chain.py:226-361 | the gate on every input: when an approval stands and when a rejection falls |
| ReviewGate.FailureIsLegal | amop/orchestrator/chain.py:467-478 | the failure state is terminal, and a legal move from exactly the non-terminal states |
| ReviewGate.GateDecides | amop/orchestrator/chain.py:226-361 | once the root cause names a file, a green diff is approved exactly if it is in scope and the model approved it for the right symptom or rejected it without a verified counterexample |
| ReviewGate.RedSuiteKeepsRejection | amop/orchestrator/chain.py:226-296 | on a red suite no rejection becomes an approval |
| ChainDriver.KindMeans | amop/orchestrator/chain.py:742-940 | what makes an attempt oversized, red, a red no-op, unreviewed or rejected, in terms of what its agents, suite and diff were |
| ChainDriver.PlannedIff | amop/orchestrator/chain.py:101-124 | a fresh run has a plan exactly for a confident answer whose files all exist |
| ChainDriver.EndsIff | amop/orchestrator/chain.py:742-1095 | when a run ends in FAILED and when with a human |
| ChainDriver.ReachedIff | amop/orchestrator/chain.py:742-1008 | an attempt is made exactly if all before it were red, rejected or red no-ops, none more often than its budget |
| ChainDriver.LastIsUnique | amop/orchestrator/chain.py:742-1008 | exactly one attempt is reached and not retried, within the sum of the budgets |
| ChainDriver.EightIff | amop/orchestrator/chain.py:84-93 | a run enters CODING at most eight times, and eight times exactly if the first seven attempts spend every budget |
| ChainDriver.TwoNoopsFail | amop/orchestrator/chain.py:857-896 | a second attempt on a red suite that changed nothing fails the run |
| ChainDriver.UncappedReviewIff | amop/orchestrator/chain.py:800-851 | a green oversized diff reaches review exactly if its attempt edited files and then failed, or git lists no changed file |
| ChainDriver.AcceptedIff | amop/orchestrator/chain.py:299-361 | an attempt leads to a pull request exactly if its suite passed, the verdict stands after the gate, every changed file is in scope, and its diff met the line cap wherever the loop looks |
| ChainDriver.WaitsIff | amop/orchestrator/chain.py:664-1082 | a run waits for approval if and only if there is a planned report, some attempt within the budgets was accepted, and the pull request went through |
| ChainDriver.WaitingWasChecked | amop/tools/github.py:141-159 | whatever waits for approval was published within the line cap and past the secret scan; a fresh run's report was confident and cites only existing files |
| ChainDriver.ChainRun.Investigate | amop/orchestrator/chain.py:101-124 | PLANNING_FIX is reached only with a confident report whose citations all exist |
| ChainDriver.ChainRun.OnePass | amop/orchestrator/chain.py:742-1008 | one attempt through CODING, TESTING and REVIEWING is retried from the budget of its kind or stops the loop the way its kind calls for |
| ChainDriver.ChainRun.CodingLoop | amop/orchestrator/chain.py:742-1008 | the loop terminates with exactly the last attempt the budgets allow and in its end state |
| ChainDriver.ChainRun.OpenPullRequest | amop/tools/github.py:124-190 | a pull request is opened only past the secret scan and the line cap; otherwise a human is asked |
| ChainDriver.ChainRun.RunChain | amop/orchestrator/chain.py:481-1095 | for every agent, suite and GitHub answer: every move legal, termination in exactly the end state and after exactly the attempts of the run, an exception only from a start state it cannot start from |
| Counterexample.IdentIff | amop/orchestrator/counterexample.py:69 | identifiers are letters, digits and underscores, not starting with a digit |
| Counterexample.IsTargetIff | amop/orchestrator/counterexample.py:207-231 | a target is a public identifier or two of them around the only dot |
| Counterexample.ClaimIsBounded | amop/orchestrator/counterexample.py:75-100 | whatever is executed has at most four calls of at most eight arguments, each a scalar or a flat list of at most 32 |
| Counterexample.ParseClaim | amop/orchestrator/counterexample.py:186-294 | accepts a raw object exactly if it denotes a bounded, self-consistent claim, and returns that claim |
| Counterexample.ClaimIsUnique | amop/orchestrator/counterexample.py:186-294 | a raw object denotes at most one claim |
| Counterexample.MatchesIsSymmetric | amop/orchestrator/counterexample.py:378-383 | tolerance matching is reflexive and symmetric |
| Counterexample.MatchesIff | amop/orchestrator/counterexample.py:378-383 | booleans match only themselves, numbers within the tolerance, strings and null only if equal |
| Counterexample.CloseIff | amop/orchestrator/counterexample.py:105-106 | the tolerance is a billionth, or a millionth of either number |
| Counterexample.ComparesNumbers | amop/orchestrator/counterexample.py:359-372 | each operator compares numbers and booleans by value |
| Counterexample.ComparesText | amop/orchestrator/counterexample.py:359-372 | each operator compares strings as a dictionary does |
| Counterexample.ComparesLists | amop/orchestrator/counterexample.py:359-372 | lists compare by the first entries that are not equal, or by length |
| Counterexample.ComparesOthers | amop/orchestrator/counterexample.py:359-372 | anything else can be told apart but not ordered |
| Counterexample.CallMeans | amop/orchestrator/counterexample.py:457-498 | a call that states an exception needs that one; any other may not raise and must match |
| Counterexample.EvaluateRelation | amop/orchestrator/counterexample.py:340-375 | a chained relation holds exactly if every adjacent comparison does; it is false, or raises, exactly if the first comparison that is not true is |
| Counterexample.RunCalls | amop/orchestrator/counterexample.py:137-178 | every call is made once; a raise is recorded beside a null value |
| Counterexample.JudgeCalls | amop/orchestrator/counterexample.py:457-498 | holds exactly if every call returned or raised what it states |
| Counterexample.JudgeRelation | amop/orchestrator/counterexample.py:499-527 | the exact condition of each verdict on the relation |
| Counterexample.JudgeClaim | amop/orchestrator/counterexample.py:457-527 | the exact condition of each of VERIFIED, REFUTED, UNAVAILABLE and an escaping exception |
| Counterexample.VerifyCounterexample | amop/orchestrator/counterexample.py:386-527 | from the raw answer, the exact condition of each of VERIFIED, REFUTED, UNAVAILABLE, no claim and an escaping exception |
| Counterexample.ReviewWithCounterexample | amop/orchestrator/chain.py:924-957 | end to end, on a green suite: a rejection falls if and only if the diff is in the scope of named files and its raw claim does not denote one that loads and holds in every part; an approval stands exactly in scope and for the right symptom; exactly an unevaluable relation raises |
| PatchGates.HeaderIff | amop/sandbox/tools.py:509 | a line is a hunk header that starts at line n exactly if it is built like one, counts optional, with n for its first number |
| PatchGates.HunksAreHeaders | amop/sandbox/tools.py:512-545 | the walk sees a hunk for every header line of the diff and no other, in order |
| PatchGates.HeadersAreAll | amop/sandbox/tools.py:512-545 | the header lines are all of the diff's, in order |
| PatchGates.BodyEndIsNext | amop/sandbox/tools.py:526-534 | a body runs to the next line that starts with the opening mark, or to the end |
| PatchGates.OldSideIsFilter | amop/sandbox/tools.py:530-545 | a hunk's old side is every line of its body that starts with a space or a minus, cut into mark and text |
| PatchGates.DiffMismatchIsFirst | amop/sandbox/tools.py:512-545 | the walk over the hunks finds nothing exactly if every claimed line of the file is quoted truly, and otherwise the first false quotation |
| PatchGates.FindContextMismatch | amop/sandbox/tools.py:512-545 | the line walk computes exactly that |
| PatchGates.DiffTargetRange | amop/sandbox/tools.py:790-832 | the line walk computes the union of the hunks' ranges |
| PatchGates.ComparedLinesAreInRange | amop/sandbox/tools.py:790-832 | every old-file line the fidelity walk compares lies in that range, and its ends are a hunk's start and a hunk's end |
| PatchGates.HunkOldSideSequences | amop/sandbox/tools.py:589-610 | the loose walk lists the old side of every block opened by `@@` |
| PatchGates.BlocksAreOpenings | amop/sandbox/tools.py:589-610 | the blocks are the non-empty old sides under the lines that start `@@` |
| PatchGates.SequenceAppears | amop/sandbox/tools.py:613-622 | true exactly if the block occurs contiguously somewhere |
| PatchGates.CheckContentFidelity | amop/sandbox/tools.py:625-714 | passes exactly if, strictly, every claim in the file is true, or leniently, every block occurs |
| PatchGates.FaithfulInFileIsExact | amop/sandbox/tools.py:512-545 | a hunk with all claims in the file passes the strict check exactly if it quotes the file where it says |
| PatchGates.StrictImpliesLenientIff | amop/sandbox/tools.py:625-714 | for a well-formed diff, strict implies lenient exactly if the hunks claiming lines outside the file quote a block of it anyway |
| PatchGates.StrictIsNotAlwaysStricter | amop/sandbox/tools.py:625-714 | a family of diffs the lenient check always stops, and the strict one only under a header naming line 1 |
| PatchGates.FindDiffFormatDefect | amop/sandbox/tools.py:717-763 | finds the first unmarked line the walk takes for part of a hunk |
| PatchGates.CheckedIff | amop/sandbox/tools.py:717-763 | a line is checked exactly if a hunk was opened before it and no line since reads as a file header |
| PatchGates.DefectIff | amop/sandbox/tools.py:717-763 | a line is a defect exactly if it is in an open hunk, opens none, reads as no file header and starts with none of the four markers |
| PatchGates.MarkerlessLineEscapes | amop/sandbox/tools.py:717-763 | after a removed line that starts like a file header a line without a marker passes |
| PatchGates.NormalizeDiffHeaders | amop/sandbox/tools.py:456-506 | the loop computes the normalized diff |
| PatchGates.NormalizeIsNormalized | amop/sandbox/tools.py:456-506 | with both header lines present the first of each becomes the call's and no other line changes; otherwise both are put in front |
| PatchGates.NormalizedNamesIff | amop/sandbox/tools.py:456-506 | the normalized diff names the call's file alone if and only if every name line but those two did so before |
| ReadTracking.ReadShows | amop/sandbox/tools.py:197-327 | a read fails only for a range without a line of the file; otherwise it shows the lines asked for, or the first sixty if they are too much, exactly as they are, numbered and noticed as specified |
| ReadTracking.BodyOfParts | amop/sandbox/tools.py:240-322 | what is shown is the lines one after another, each after its number |
| ReadTracking.DecimalIsValue | amop/sandbox/tools.py:240-322 | those numbers are decimal |
| ReadTracking.UnderCreditIff | amop/sandbox/tools.py:843-869 | a read is denied credit for a line it showed exactly if it showed more than sixty after a notice or what looks like one, or lines past the first billion |
| ReadTracking.OverCreditIff | amop/sandbox/tools.py:843-869 | a read is credited with an existing line it did not show exactly for a range that stops short of sixty lines and the end of the file and was cut down or begins like a notice |
| ReadTracking.CoderTools.ReadFile | amop/sandbox/tools.py:197-327 | returns what the request selects and records the credit and the numbering |
| ReadTracking.ReadIff | amop/sandbox/tools.py:197-327 | every answer of a read, and that a successful one is recorded for its path and no other |
| ReadTracking.CoderTools.WriteFile | amop/sandbox/tools.py:401-453 | replaces the file and drops the credit, unless the new content is under a fifth of the old |
| ReadTracking.WriteIff | amop/sandbox/tools.py:401-453 | every answer of a write and what it leaves |
| ReadTracking.CoderTools.PatchFile | amop/sandbox/tools.py:985-1196 | the gates in order, each with its own refusal; git is given the normalized diff, every file it changes changes, and only the call's own path loses its credit |
| ReadTracking.PatchIff | amop/sandbox/tools.py:985-1196 | the exact condition of each answer of a patch, in the order of the gates |
| ReadTracking.StaleIff | amop/sandbox/tools.py:1023-1081 | a diff with a hunk is stale exactly if the path was not read, a hunk reaches outside what was credited, or the whole file was read without numbers |
| ReadTracking.RunKeepsTracked | amop/sandbox/tools.py:113-145 | over any run of calls, whatever files patches change, a tracked path still names the content its last recorded read saw, unless the file was changed by a call that named another path |
| ReadTracking.PatchStaysFreshIff | amop/sandbox/tools.py:1134-1195 | past the gates, a patch makes no tracked path stale under any git that takes file names from the lines that name them, if and only if every other tracked path is for another file and, if there is one, the normalized diff names no other file |
| ReadTracking.WriteStaysFreshIff | amop/sandbox/tools.py:401-453 | a write makes none stale, whatever the content, if and only if no other tracked path is a spelling of the file |
| ReadTracking.GuardedRunStaysFresh | amop/sandbox/tools.py:113-145 | with one path string a file and patches that name one file each, nothing goes stale in any run |
| ReadTracking.TwoSectionsSlipThrough | amop/sandbox/tools.py:1023-1183 | a family of two-section patches passes the format, freshness and strict fidelity gates; if git changes the second file, its credit stands on content no longer there |
| ReadTracking.AcceptedPatchQuotesShownLines | amop/sandbox/tools.py:1023-1081 | an accepted patch to a path that is not stale was checked against the content last read; each line it quotes was shown or over-credited, and after a numbered read is quoted exactly |
| ReadTracking.EditedMustBeReread | amop/sandbox/tools.py:1188-1196 | after a successful edit and any other calls, a patch with a header is refused until the path is read again |
| ReadTracking.OthersKeepCredit | amop/sandbox/tools.py:1188-1196 | an edit leaves every other tracked path exactly as fresh as before, whatever happened to its file |
| ReadTracking.HeaderlessDiffsAreNotGated | amop/sandbox/tools.py:1023-1081 | without a header a diff is accepted exactly if it applies and either the last read was numbered or its blocks occur |
| Locks.KeysAreFiles | amop/orchestrator/concurrency.py:103-129 | the keys are strictly increasing and exactly those of the declared non-blank files |
| Locks.TaskIsOrdered | amop/orchestrator/concurrency.py:150-179 | every task, whatever files and transactions, acquires in rank order: file keys, task row, chain lock, budget rows |
| Locks.SomeTaskSteps | amop/orchestrator/concurrency.py:103-129 | while a task is unfinished, some task can step |
| Locks.MaximalRunsFinish | amop/orchestrator/concurrency.py:150-179 | no run exceeds the work there is, and one that cannot go on has finished every task and holds nothing |
| Locks.NoDeadlock | amop/audit/actions.py:196-223 | the same for any tasks launched together, under every schedule |
| Locks.SharedFileExcludes | amop/orchestrator/concurrency.py:150-179 | two tasks of a repository that declare a common normalized file are never inside together |
| Locks.SharedFileWorksAlone | amop/orchestrator/concurrency.py:150-179 | nor are they ever at work in their edit, test and review cycles at the same time |
| Locks.TransactionTakes | amop/audit/actions.py:196-223 | each kind of transaction takes exactly its locks, holds them to its end and keeps none |
| Locks.FilelessTaskExcludes | amop/orchestrator/concurrency.py:150-179 | a task without files excludes one with files if and only if a file key collides with the repository key |
| SpendCap.EachTokenAtItsRate | amop/models/cost.py:145-168 | each kind of token costs its own rate, however many of the others there are, and an uncached call costs what the estimate says |
| SpendCap.RateShapes | amop/models/cost.py:92-99 | claude writes its cache at a quarter over the base rate and reads it at a tenth, gpt at the base rate and at half |
| SpendCap.WorstCaseIff | amop/models/cost.py:187-199 | the estimate bounds every real cost exactly if no cached token is priced above an uncached one |
| SpendCap.CoveredFamilies | amop/models/cost.py:92-99 | of the published rates exactly the gpt families are covered |
| SpendCap.OvershootIsBounded | amop/models/cost.py:218-264 | in every interleaving recorded spend plus worst cases in flight stay within the cap plus k - 1 of the largest worst case that can pass, and the counter is the recorded spend |
| SpendCap.OvershootIsReachedIff | amop/models/cost.py:218-264 | some run reaches exactly that bound if and only if calls can cost anything or the cap is zero |
| SpendCap.SplitReconciliationLoses | amop/models/cost.py:292-327 | a reconciliation loses exactly the costs recorded between its read and its overwrite |
| SpendCap.ReconciliationRestores | amop/models/cost.py:292-327 | an undisturbed reconciliation makes the counter the recorded spend from any drift |
| Batching.BatchByBudget | amop/models/ollama.py:129-171 | batches concatenate to the input, each non-empty and within both limits or a singleton, and no such split has fewer |
| Batching.GreedyStaysAhead | amop/models/ollama.py:129-171 | after equally many batches greedy has covered at least as much as any split |
| Batching.GreedyIsOptimal | amop/models/ollama.py:129-171 | a greedy split is as short as any |
| RankFusion.ReciprocalRankFusion | amop/codebase_intel/search.py:62-78 | each occurring key once, with the exact sum over all its occurrences, in descending order, keys of one score in the order in which they first occur |
| RankFusion.OneOccurrenceScores | amop/codebase_intel/search.py:62-78 | one occurrence is worth the reciprocal of k plus its rank |
| RankFusion.DominanceIsRespected | amop/codebase_intel/search.py:62-78 | over any lists, a key that occurs at least as often as another in every prefix of every list never scores lower |
| RankFusion.NoWorseIff | amop/codebase_intel/search.py:62-78 | without duplicates that is the same as being ranked no worse wherever the other is ranked |
| RankFusion.DuplicatesBreakDominance | amop/codebase_intel/search.py:62-78 | for all distinct a and b, a ranked first scores below b listed twice after it if and only if k > 0 |
| RankFusion.HybridSearch | amop/codebase_intel/search.py:201-216 | as many chunks as there are distinct keys, at most five, each the last found under its key, best first, none left out scoring above one kept, and no lookup of a missing key |

## Left out

- Docker, subprocesses, git itself, GitHub, model providers, the web and command-line front ends: their answers are parameters.
- SHA-256, JSON serialization and Postgres: a free digest, contents as terms, atomic transactions with row locks and a version check. The framing of hash and content by a separator byte is part of the free digest.
- Audit rows lost because `record_action` and `record_model_call` swallow their own exceptions: in `TaskProtocol` such a transaction is a rollback, and nothing is said about which actions got recorded.
- TaskProtocol.StepEffect: `transition_with_retry` is a step of the session, not a loop, because the other sessions run between its tries; its re-read and re-validation are the `BeginMove` step.
- ChainDriver.ChainRun.RunChain: no competing writer and no exception other than the chain's own failure; the re-run of failing tests against the base branch, notifications and memory writes do not influence routing and are not part of it.
- Reconcile.TaskRecord.Reconcile: the orphaned pull request check of case E needs GitHub; a recorded report that does not parse is not modelled.
- Reconcile.CrashIsResumable: a lost directory is replaced by a fresh clone that holds the recorded commit only if it starts there, so a source that moved on past a recorded base is not covered; work put aside in the stash during the re-run is not followed after a crash.
- SpendCap.OvershootIsBounded: rounding of costs to eight decimals, the change of day at midnight and per-task scopes, which have the same structure without a cap, are not modelled; that each cost stays within its estimate is an assumption of the theorem, and `WorstCaseIff` says when the rates justify it.
- Slot counters of `task_slot`: two independent counters, easy beside the locks.
- PatchGates: a file or diff is its list of lines; the characters besides the newline at which `splitlines` also splits, and digits outside ASCII that the header pattern also accepts, are not modelled.
- ReadTracking: sizes of files are given with them; sandbox errors other than a missing file, tools used outside a coding attempt (where the freshness gate is off) and captures of unexplained conflicts are not modelled.
- ReadTracking.PatchStaysFreshIff: git's own parsing of a diff is not modelled. Which files an accepted patch changes, creates or deletes is arbitrary; where a theorem needs a bound, it assumes that a diff whose every name line (`diff --git`, `---`, `+++`, `rename`, `copy`) names one file changes no other. A removed line that reads like a name line counts as one, which is on the safe side.
- ReviewGate: whitespace is the ASCII kind; the review agent's findings and messages carry no decision and are dropped.
- Counterexample: decoding JSON and parsing the relation's syntax are parameters; not-a-number and infinity are outside the reals.
- RankFusion.HybridSearch: the two searches that feed it, and the semantic-only and keyword-only modes, which do not fuse.
- Secret and blacklist scanners, embeddings, tree-sitter indexing, permission modes, reports and evaluation metrics: pattern lists, foreign libraries or simple lookups.
