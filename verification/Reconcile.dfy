/** Crash recovery (amop/orchestrator/reconcile.py, `resume_fix`) over the task's
    repository, and the chain's own commit and database steps with a crash after
    any of them. */
module Reconcile {
  import opened Wrappers
  import opened StateMachine
  import opened GitHistory

  /** The parts of `task_context` reconciliation reads and writes. */
  datatype Context = Context(repoRecorded: bool, reportRecorded: bool, branch: Option<string>, commitSha: Option<Sha>)

  datatype Scratch = Gone | Surviving(repo: Repo, fsckClean: bool)

  datatype Case = Equal | A | B | C | D | F | NoWorkingRepo | NoRootCause

  datatype ReconcileResult = ReconcileResult(resumable: bool, case_: Case, needsFreshCheckout: bool)

  /** How the recorded commit relates to HEAD of a surviving repository. */
  function Classify(recorded: Option<Sha>, repo: Repo): Case
    requires HeadResolves(repo)
  {
    var head := Head(repo);
    if recorded.None? then A
    else if recorded.value == head then Equal
    else if recorded.value !in repo.commits then B
    else if IsAncestor(repo.commits, recorded.value, head) then
      if AdvancedByAmopOnly(repo.commits, recorded.value, head) then A else D
    else D
  }

  /** The classification; None where git itself fails, on a HEAD without a commit. */
  function Verdict(context: Context, scratch: Scratch): Option<ReconcileResult> {
    if !context.repoRecorded then Some(ReconcileResult(false, NoWorkingRepo, false))
    else if scratch.Gone? then
      if context.reportRecorded then Some(ReconcileResult(true, C, true))
      else Some(ReconcileResult(false, NoRootCause, false))
    else if !scratch.fsckClean then Some(ReconcileResult(false, F, false))
    else if !HeadResolves(scratch.repo) then None
    else
      var c := Classify(context.commitSha, scratch.repo);
      if c == D then Some(ReconcileResult(false, D, false))
      else if !context.reportRecorded then Some(ReconcileResult(false, NoRootCause, false))
      else Some(ReconcileResult(true, c, false))
  }

  /** In cases A and B the database takes over what is checked out. */
  function Adopted(context: Context, scratch: Scratch): Context {
    var v := Verdict(context, scratch);
    if v.Some? && v.value.resumable && (v.value.case_ == A || v.value.case_ == B)
    then context.(branch := Some(BranchName(scratch.repo)), commitSha := Some(Head(scratch.repo)))
    else context
  }

  /** How `resume_fix` gets as far as the chain: it re-enters, leaves the task to
      a human, or raises. */
  datatype Resumption = ReEntered | Parked | Raised

  function ResumptionOf(state: TaskState, context: Context, scratch: Scratch): Resumption {
    var v := Verdict(context, scratch);
    if v.None? then Raised
    else if v.value.resumable then if Legal(state, PlanningFix) then ReEntered else Raised
    else if Legal(state, NeedsHumanInput) then Parked
    else Raised
  }

  /** The directory `resume_fix` leaves behind: it makes a fresh checkout in case C,
      and once the outcome was resumable it removes the directory when the chain raises. */
  function ScratchAfter(state: TaskState, context: Context, scratch: Scratch, clone: Repo): Scratch {
    var v := Verdict(context, scratch);
    if v.None? || !v.value.resumable then scratch
    else if !Legal(state, PlanningFix) then Gone
    else if v.value.needsFreshCheckout then Surviving(clone, true)
    else scratch
  }

  class TaskRecord {
    var state: TaskState
    var context: Context

    constructor (state: TaskState, context: Context)
      ensures this.state == state && this.context == context
    {
      this.state, this.context := state, context;
    }

    /** None where the transition is illegal and raises. */
    method ToHumanInput(case_: Case) returns (r: Option<ReconcileResult>)
      modifies this`state
      ensures r == if Legal(old(state), NeedsHumanInput) then Some(ReconcileResult(false, case_, false)) else None
      ensures state == if r.Some? then NeedsHumanInput else old(state)
    {
      if !Legal(state, NeedsHumanInput) {
        return None;
      }
      state := NeedsHumanInput;
      return Some(ReconcileResult(false, case_, false));
    }

    method AdoptHead(repo: Repo)
      requires HeadResolves(repo)
      modifies this`context
      ensures context == old(context).(branch := Some(BranchName(repo)), commitSha := Some(Head(repo)))
    {
      context := context.(branch := Some(BranchName(repo)), commitSha := Some(Head(repo)));
    }

    /** In any state and with any repository: a resumable outcome leaves the state
        alone and, in cases A and B, adopts HEAD; any other parks the task for a
        human and records nothing. None if git or the transition raises. */
    method Reconcile(scratch: Scratch) returns (r: Option<ReconcileResult>)
      modifies this
      ensures var v := Verdict(old(context), scratch);
              r == if v.Some? && !v.value.resumable && !Legal(old(state), NeedsHumanInput) then None else v
      ensures r.Some? && r.value.resumable <==>
              old(context).repoRecorded && old(context).reportRecorded &&
              (scratch.Gone? || (Readable(scratch) && !Diverged(old(context).commitSha, scratch.repo)))
      ensures r.Some? && r.value.case_ == F ==> scratch.Surviving? && !scratch.fsckClean && state == NeedsHumanInput
      ensures old(context).repoRecorded && scratch.Surviving? && !scratch.fsckClean ==>
                if Legal(old(state), NeedsHumanInput) then r == Some(ReconcileResult(false, F, false)) else r == None
      ensures state == if r.Some? && !r.value.resumable then NeedsHumanInput else old(state)
      ensures context == Adopted(old(context), scratch)
    {
      VerdictIff(context, scratch);
      if !context.repoRecorded {
        r := ToHumanInput(NoWorkingRepo);
        return;
      }
      if scratch.Gone? {
        if !context.reportRecorded {
          r := ToHumanInput(NoRootCause);
          return;
        }
        return Some(ReconcileResult(true, C, true));
      }
      if !scratch.fsckClean {
        r := ToHumanInput(F);
        return;
      }
      var repo := scratch.repo;
      if !HeadResolves(repo) {
        return None;
      }
      var head := Head(repo);
      var dbSha := context.commitSha;
      var case_: Case;
      if dbSha.None? || dbSha.value == head {
        case_ := if dbSha.None? then A else Equal;
      } else if dbSha.value !in repo.commits {
        case_ := B;
      } else if IsAncestor(repo.commits, dbSha.value, head) {
        if AdvancedByAmopOnly(repo.commits, dbSha.value, head) {
          case_ := A;
        } else {
          r := ToHumanInput(D);
          return;
        }
      } else {
        r := ToHumanInput(D);
        return;
      }
      if !context.reportRecorded {
        r := ToHumanInput(NoRootCause);
        return;
      }
      if case_ in {A, B} {
        AdoptHead(repo);
      }
      return Some(ReconcileResult(true, case_, false));
    }

    /** `resume_fix` up to its re-entry at PLANNING_FIX, or to where it raises; a
        fresh checkout yields `clone`. */
    method Resume(scratch: Scratch, clone: Repo) returns (o: Resumption, left: Scratch)
      modifies this
      ensures o == ResumptionOf(old(state), old(context), scratch)
      ensures left == ScratchAfter(old(state), old(context), scratch, clone)
      ensures context == Adopted(old(context), scratch)
      ensures state == match o
                       case ReEntered => PlanningFix
                       case Parked => NeedsHumanInput
                       case Raised => old(state)
    {
      left := scratch;
      var r := Reconcile(scratch);
      if r.None? {
        return Raised, left;
      }
      if !r.value.resumable {
        return Parked, left;
      }
      if r.value.needsFreshCheckout {
        left := Surviving(clone, true);
      }
      if !Legal(state, PlanningFix) {
        left := Gone;
        return Raised, left;
      }
      state := PlanningFix;
      return ReEntered, left;
    }
  }

  /** The recorded commit is there, and HEAD is neither it nor ahead of it by AMOP's
      own commits alone. */
  predicate Diverged(recorded: Option<Sha>, repo: Repo)
    requires HeadResolves(repo)
  {
    && recorded.Some? && recorded.value in repo.commits && recorded.value != Head(repo)
    && !(IsAncestor(repo.commits, recorded.value, Head(repo)) &&
         AdvancedByAmopOnly(repo.commits, recorded.value, Head(repo)))
  }

  /** The directory survives, passes fsck and has a HEAD. */
  predicate Readable(scratch: Scratch) {
    scratch.Surviving? && scratch.fsckClean && HeadResolves(scratch.repo)
  }

  /** Every outcome, for every record and every directory. */
  lemma VerdictIff(context: Context, scratch: Scratch)
    ensures var v := Verdict(context, scratch);
            var recorded, report := context.repoRecorded, context.reportRecorded;
            && (v.None? <==> recorded && scratch.Surviving? && scratch.fsckClean && !HeadResolves(scratch.repo))
            && (v.Some? && v.value.resumable <==>
                recorded && report &&
                (scratch.Gone? || (Readable(scratch) && !Diverged(context.commitSha, scratch.repo))))
            && (v.Some? && v.value.needsFreshCheckout <==> recorded && report && scratch.Gone?)
            && (v.Some? && v.value.case_ == NoWorkingRepo <==> !recorded)
            && (v.Some? && v.value.case_ == F <==> recorded && scratch.Surviving? && !scratch.fsckClean)
            && (v.Some? && v.value.case_ == C <==> recorded && report && scratch.Gone?)
            && (v.Some? && v.value.case_ == D <==>
                recorded && Readable(scratch) && Diverged(context.commitSha, scratch.repo))
            && (v.Some? && v.value.case_ == NoRootCause <==>
                recorded && !report &&
                (scratch.Gone? || (Readable(scratch) && !Diverged(context.commitSha, scratch.repo))))
            && (v.Some? && v.value.case_ == Equal <==>
                recorded && report && Readable(scratch) && context.commitSha == Some(Head(scratch.repo)))
            && (v.Some? && v.value.case_ == B <==>
                recorded && report && Readable(scratch) &&
                context.commitSha.Some? && context.commitSha.value !in scratch.repo.commits)
            && (v.Some? && v.value.case_ == A <==>
                recorded && report && Readable(scratch) && !Diverged(context.commitSha, scratch.repo) &&
                (context.commitSha.None? ||
                 (context.commitSha.value in scratch.repo.commits && context.commitSha.value != Head(scratch.repo))))
  {
  }

  /** For any repository, whoever wrote to it and whatever is checked out: a task
      with a repo and a root cause is resumable from a surviving clean checkout if
      and only if HEAD is a commit and no commit is recorded, or the recorded one
      is not in the repository at all, or HEAD descends from it through AMOP's own
      commits alone. */
  lemma ResumesIff(context: Context, repo: Repo)
    requires context.repoRecorded && context.reportRecorded
    ensures var v := Verdict(context, Surviving(repo, true));
            && (v.Some? <==> HeadResolves(repo))
            && (v.Some? && v.value.resumable <==>
                && HeadResolves(repo)
                && (context.commitSha.None? || context.commitSha.value !in repo.commits ||
                    (IsAncestor(repo.commits, context.commitSha.value, Head(repo)) &&
                     AdvancedByAmopOnly(repo.commits, context.commitSha.value, Head(repo)))))
  {
  }

  /** What is recorded: commit and branch of what is checked out where the outcome is
      resumable and the record was missing, unknown or behind, and nothing else. */
  lemma AdoptionIff(context: Context, scratch: Scratch)
    ensures var next, v := Adopted(context, scratch), Verdict(context, scratch);
            && next.repoRecorded == context.repoRecorded && next.reportRecorded == context.reportRecorded
            && if v.Some? && v.value.resumable && scratch.Surviving? &&
                  context.commitSha != Some(Head(scratch.repo))
               then
                 && next.commitSha == Some(Head(scratch.repo))
                 && match scratch.repo.head
                    case On(b) => next.branch == Some(b)
                    case Detached(_) => next.branch == Some("HEAD")
               else next == context
  {
    VerdictIff(context, scratch);
  }

  /** One commit by anybody else on the way from the recorded commit to HEAD is enough
      to stop the task. */
  lemma OutsiderStops(context: Context, repo: Repo, c: Sha, email: string)
    requires context.repoRecorded && HeadResolves(repo) && context.commitSha.Some?
    requires context.commitSha.value in repo.commits && context.commitSha.value != Head(repo)
    requires c in repo.commits && repo.commits[c].author == Outsider(email)
    requires IsAncestor(repo.commits, c, Head(repo)) && !IsAncestor(repo.commits, c, context.commitSha.value)
    ensures Verdict(context, Surviving(repo, true)) == Some(ReconcileResult(false, D, false))
  {
  }

  /** Which states a task can be resumed from at all, and which can be parked. From
      the others, PR_CREATION among them if the outcome is resumable, it raises. */
  lemma ReEntryIff(state: TaskState, context: Context, scratch: Scratch)
    ensures var v := Verdict(context, scratch);
            var o := ResumptionOf(state, context, scratch);
            && (o == ReEntered <==> v.Some? && v.value.resumable && state in {Investigating, Coding, Testing})
            && (o == Parked <==>
                v.Some? && !v.value.resumable && state in {Triaging, Investigating, Coding, Testing, PrCreation})
  {
  }

  /** After a resumable verdict the surviving directory is removed if and only if
      the task's state has no edge to PLANNING_FIX. From then on the outcome is case
      C, resuming raises again, and what was committed in the directory is gone. */
  lemma RaisedResumeLosesScratch(state: TaskState, context: Context, scratch: Scratch, clone: Repo)
    requires scratch.Surviving? && Verdict(context, scratch).Some? && Verdict(context, scratch).value.resumable
    ensures ScratchAfter(state, context, scratch, clone) == Gone <==> state !in {Investigating, Coding, Testing}
    ensures ScratchAfter(state, context, scratch, clone) == Gone ==>
              var next := Adopted(context, scratch);
              && ResumptionOf(state, context, scratch) == Raised
              && Verdict(next, Gone) == Some(ReconcileResult(true, C, true))
              && ResumptionOf(state, next, Gone) == Raised && ScratchAfter(state, next, Gone, clone) == Gone
  {
    ReEntryIff(state, context, scratch);
    ReEntryIff(state, Adopted(context, scratch), Gone);
  }

  // ----- The chain's own steps -----

  /** The world of one task between PLANNING_FIX and its end: database row,
      repository, the commit its branch was cut from, every commit made for the
      task in this repository, whether HEAD was recorded since the last commit
      and the last entry into CODING, during the re-run against the base branch
      the branch and working tree put aside, and a bound on the names in use. */
  datatype World = World(
    state: TaskState, context: Context, repo: Repo, base: Sha, made: set<Sha>,
    recorded: bool, aside: Option<(string, Tree)>, bound: Sha)

  datatype Step =
    | Move(to: TaskState)
    | Edit(path: string, text: string)
    | MicroCommit(sha: Sha)
    | CommitAll(sha: Sha)
    | RecordHead
    | CheckoutBase
    | RestoreBranch
    | Squash(sha: Sha)
    | RecordSquash
    | CrashAndResume
    | CrashAndLose(clone: Repo, bound: Sha)

  predicate InLoop(s: TaskState) {
    s == PlanningFix || s == Coding || s == Testing || s == Reviewing
  }

  /** A checkout fresh from the source: on a branch just cut from the base branch. */
  ghost predicate FreshClone(repo: Repo, bound: Sha) {
    && GoodRepo(repo, bound) && BASE_BRANCH in repo.refs
    && repo.head.branch != BASE_BRANCH && Head(repo) == repo.refs[BASE_BRANCH]
  }

  /** Branches point to commits, one of them is checked out, and all names are below `bound`. */
  ghost predicate GoodRepo(repo: Repo, bound: Sha) {
    && GoodDag(repo.commits) && (forall c :: c in repo.commits ==> c < bound)
    && (forall b :: b in repo.refs ==> repo.refs[b] in repo.commits)
    && repo.head.On? && repo.head.branch in repo.refs
  }

  /** What the steps need to be defined; every good world has it. */
  ghost predicate Ready(w: World) {
    && w.repo.head.On? && HeadResolves(w.repo) && w.base in w.repo.commits
    && BASE_BRANCH in w.repo.refs && w.repo.refs[BASE_BRANCH] in w.repo.commits
  }

  ghost predicate Enabled(w: World, step: Step) {
    Ready(w) &&
    match step
    case Move(to) => Legal(w.state, to) && to != PlanningFix && w.aside.None? && (to == Testing ==> w.recorded)
    case Edit(_, _) => w.state in {Coding, Testing}
    case MicroCommit(sha) => w.state == Coding && w.bound <= sha
    case CommitAll(sha) => w.state == Coding && w.bound <= sha
    case RecordHead => w.state == Coding
    case CheckoutBase => w.state == Testing && w.aside.None?
    case RestoreBranch => w.aside.Some?
    case Squash(sha) => w.state == PrCreation && w.recorded && w.bound <= sha
    case RecordSquash => w.state == PrCreation
    case CrashAndResume => w.state in {Coding, Testing}
    // The clone may hold the recorded commit only if that is where it starts.
    case CrashAndLose(clone, bound) =>
      && w.state in {Coding, Testing} && w.bound <= bound && FreshClone(clone, bound)
      && (w.context.commitSha.Some? && w.context.commitSha.value in clone.commits ==>
          w.context.commitSha.value == clone.refs[BASE_BRANCH])
  }

  /** The branch the task works on, checked out or put aside. */
  function WorkBranch(w: World): string {
    if w.aside.Some? then w.aside.value.0 else BranchName(w.repo)
  }

  function WorkTip(w: World): Sha
    requires WorkBranch(w) in w.repo.refs
  {
    w.repo.refs[WorkBranch(w)]
  }

  /** The merge-base of the base branch and what is checked out. */
  function MergeBase(w: World): Sha
    requires HeadResolves(w.repo)
  {
    if w.repo.head == On(BASE_BRANCH) then Head(w.repo) else w.base
  }

  /** `micro_commit` and `commit_all`: nothing happens if nothing changed. */
  function WithCommit(w: World, sha: Sha, author: Author): World
    requires HeadResolves(w.repo)
  {
    if HasChanges(w.repo) then
      w.(repo := Committed(w.repo, sha, author), made := w.made + {sha}, recorded := false, bound := sha + 1)
    else w
  }

  function WithSquash(w: World, sha: Sha): World
    requires HeadResolves(w.repo) && MergeBase(w) in w.repo.commits
  {
    var repo := Squashed(w.repo, sha, MergeBase(w));
    w.(repo := repo, recorded := w.recorded && repo == w.repo, bound := if w.bound <= sha then sha + 1 else w.bound)
  }

  function Recorded(w: World): World
    requires HeadResolves(w.repo)
  {
    w.(context := w.context.(branch := Some(BranchName(w.repo)), commitSha := Some(Head(w.repo))), recorded := true)
  }

  /** A new orchestrator process resumes from the surviving directory. It picks up
      what is checked out there; what was put aside stays in the stash. */
  ghost function Resumed(w: World): World {
    var scratch := Surviving(w.repo, true);
    var next := w.(context := Adopted(w.context, scratch), aside := None, recorded := false);
    match ResumptionOf(w.state, w.context, scratch)
    case ReEntered => next.(state := PlanningFix)
    case Parked => next.(state := NeedsHumanInput)
    case Raised => next
  }

  ghost function Do(w: World, step: Step): World
    requires Enabled(w, step)
  {
    match step
    case Move(to) => w.(state := to, recorded := w.recorded && to != Coding)
    case Edit(path, text) => w.(repo := w.repo.(work := w.repo.work[path := text]))
    case MicroCommit(sha) => WithCommit(w, sha, AmopBot)
    case CommitAll(sha) => WithCommit(w, sha, AmopAgent)
    case RecordHead => Recorded(w)
    case CheckoutBase =>
      w.(aside := Some((w.repo.head.branch, w.repo.work)),
         repo := w.repo.(head := On(BASE_BRANCH), work := w.repo.commits[w.repo.refs[BASE_BRANCH]].tree))
    case RestoreBranch =>
      w.(aside := None, repo := w.repo.(head := On(w.aside.value.0), work := w.aside.value.1))
    case Squash(sha) => WithSquash(w, sha)
    case RecordSquash => Recorded(w)
    case CrashAndResume => Resumed(w)
    case CrashAndLose(clone, bound) =>
      w.(state := PlanningFix, repo := clone, base := clone.refs[BASE_BRANCH], made := {},
         recorded := false, aside := None, bound := bound)
  }

  ghost predicate GoodWorld(w: World) {
    NamesGood(w) && PhaseGood(w)
  }

  ghost predicate NamesGood(w: World) {
    && GoodRepo(w.repo, w.bound)
    && w.context.repoRecorded && w.context.reportRecorded
    && (w.context.commitSha.Some? ==> w.context.commitSha.value < w.bound)
    && BASE_BRANCH in w.repo.refs && w.base in w.repo.commits && WorkBranch(w) in w.repo.refs
    && (WorkBranch(w) != BASE_BRANCH ==> w.repo.refs[BASE_BRANCH] == w.base)
    && (w.aside.Some? ==> w.state == Testing && w.repo.head == On(BASE_BRANCH))
    && (forall c :: c in w.made ==> w.base < c)
  }

  ghost predicate PhaseGood(w: World)
    requires WorkBranch(w) in w.repo.refs
  {
    && (InLoop(w.state) ==> LoopGood(w, w.repo.commits, WorkTip(w)))
    && (w.state == PrCreation ==> PublishGood(w))
  }

  /** Until PR creation the branch only ever grows, by AMOP's commits: from the
      base, over everything made so far, and from the recorded commit unless that
      one was lost with an earlier directory. */
  ghost predicate LoopGood(w: World, commits: map<Sha, Commit>, tip: Sha) {
    && IsAncestor(commits, w.base, tip)
    && (forall c :: c in w.made ==> IsAncestor(commits, c, tip)) && (tip == w.base || tip in w.made)
    && (w.context.commitSha.Some? && w.context.commitSha.value in commits ==>
          && IsAncestor(commits, w.context.commitSha.value, tip)
          && AdvancedByAmopOnly(commits, w.context.commitSha.value, tip))
    && (w.recorded ==> w.context.commitSha == Some(tip))
    && (w.state == Testing || w.state == Reviewing ==> w.recorded)
  }

  /** During PR creation the record is HEAD, or the tip an unrecorded squash replaced. */
  ghost predicate PublishGood(w: World) {
    && HeadResolves(w.repo) && w.aside.None? && w.context.commitSha.Some? && w.context.commitSha.value in w.repo.commits
    && IsAncestor(w.repo.commits, w.base, Head(w.repo))
    && (if w.recorded then w.context.commitSha.value == Head(w.repo)
        else w.context.commitSha.value != Head(w.repo)
             && !IsAncestor(w.repo.commits, w.context.commitSha.value, Head(w.repo)))
  }

  // ----- What every step keeps -----

  lemma SelfDescends(commits: map<Sha, Commit>, c: Sha)
    requires c in commits
    ensures IsAncestor(commits, c, c) && AdvancedByAmopOnly(commits, c, c)
  {
  }

  lemma CommitKeepsLoop(w: World, sha: Sha, author: Author)
    requires GoodWorld(w) && w.state == Coding && w.bound <= sha && Known(author)
    ensures var more := w.repo.commits[sha := Commit({Head(w.repo)}, author, w.repo.work)];
            GoodDag(more) && LoopGood(w.(made := w.made + {sha}, recorded := false), more, sha)
  {
    var commits, head := w.repo.commits, Head(w.repo);
    var more := commits[sha := Commit({head}, author, w.repo.work)];
    NewCommitAncestors(commits, sha, head, author, w.repo.work, w.base);
    if w.context.commitSha.Some? && w.context.commitSha.value in more {
      AmopCommitAdvances(commits, sha, head, author, w.repo.work, w.context.commitSha.value);
    }
    forall c | c in w.made + {sha} ensures IsAncestor(more, c, sha) {
      NewCommitAncestors(commits, sha, head, author, w.repo.work, c);
    }
  }

  /** A new commit on `parent`, moved to or not, keeps the repository in order. */
  lemma CommitKeepsRepo(repo: Repo, sha: Sha, parent: Sha, author: Author, tree: Tree, bound: Sha)
    requires GoodRepo(repo, bound) && bound <= sha && parent in repo.commits
    ensures GoodRepo(MoveHead(repo.(commits := repo.commits[sha := Commit({parent}, author, tree)]), sha), sha + 1)
  {
    NewCommitAncestors(repo.commits, sha, parent, author, tree, sha);
  }

  lemma CommitKeepsNames(w: World, sha: Sha, author: Author)
    requires NamesGood(w) && w.aside.None? && w.bound <= sha && HasChanges(w.repo)
    ensures NamesGood(WithCommit(w, sha, author))
  {
    CommitKeepsRepo(w.repo, sha, Head(w.repo), author, w.repo.work, w.bound);
  }

  lemma CommitKeepsGood(w: World, sha: Sha, author: Author)
    requires GoodWorld(w) && w.state == Coding && w.bound <= sha && Known(author)
    ensures GoodWorld(WithCommit(w, sha, author))
  {
    if HasChanges(w.repo) {
      CommitKeepsNames(w, sha, author);
      CommitKeepsLoop(w, sha, author);
    }
  }

  lemma SquashKeepsNames(w: World, sha: Sha)
    requires NamesGood(w) && w.aside.None? && w.bound <= sha
    ensures NamesGood(WithSquash(w, sha))
  {
    CommitKeepsRepo(w.repo, sha, MergeBase(w), AmopBot, w.repo.commits[Head(w.repo)].tree, w.bound);
  }

  lemma SquashKeepsPublish(w: World, sha: Sha)
    requires NamesGood(w) && PublishGood(w) && w.recorded && w.bound <= sha
    ensures PublishGood(WithSquash(w, sha))
  {
    var base, head := MergeBase(w), Head(w.repo);
    if head != base {
      SquashDropsOldTip(w.repo, sha, base);
      NewCommitAncestors(w.repo.commits, sha, base, AmopBot, w.repo.commits[head].tree, base);
      SelfDescends(w.repo.commits, base);
    }
  }

  lemma SquashKeepsGood(w: World, sha: Sha)
    requires GoodWorld(w) && w.state == PrCreation && w.recorded && w.bound <= sha
    ensures GoodWorld(WithSquash(w, sha))
  {
    SquashKeepsNames(w, sha);
    SquashKeepsPublish(w, sha);
  }

  /** The tip is the base exactly while nothing was committed. */
  lemma NothingMadeIff(w: World)
    requires GoodWorld(w) && InLoop(w.state)
    ensures WorkTip(w) == w.base <==> w.made == {}
  {
    if WorkTip(w) == w.base {
      forall c | c in w.made ensures false {
        AncestorIsSmaller(w.repo.commits, c, w.base);
      }
    }
  }

  /** Before PR creation the directory is resumable exactly if HEAD is the
      tip of the task's branch: always outside the re-run against the base branch,
      and inside it if the two branches have the same tip. */
  lemma LoopVerdict(w: World)
    requires GoodWorld(w) && InLoop(w.state)
    ensures var v := Verdict(w.context, Surviving(w.repo, true));
            && v.Some?
            && (v.value.resumable <==> Head(w.repo) == WorkTip(w))
            && (!v.value.resumable ==> v.value.case_ == D)
            && (v.value.resumable ==> v.value.case_ in {Equal, A, B})
            && (v.value.case_ == B <==> w.context.commitSha.Some? && w.context.commitSha.value !in w.repo.commits)
  {
    var head, tip := Head(w.repo), WorkTip(w);
    if w.aside.Some? && head != tip {
      assert w.context.commitSha == Some(tip) && head == w.base;
      if IsAncestor(w.repo.commits, tip, head) {
        AncestorIsSmaller(w.repo.commits, tip, head);
        AncestorIsSmaller(w.repo.commits, head, tip);
      }
    }
  }

  /** What a resumable crash leaves: everything but the branch put aside, with
      HEAD in the record. */
  lemma ReEnters(w: World)
    requires GoodWorld(w) && w.state in {Coding, Testing} && Head(w.repo) == WorkTip(w)
    ensures var next := Resumed(w);
            && next == w.(state := PlanningFix, context := next.context, recorded := false, aside := None)
            && next.context.repoRecorded && next.context.reportRecorded
            && next.context.commitSha == Some(Head(w.repo))
  {
    LoopVerdict(w);
  }

  lemma ReEnteredKeepsLoop(w: World, next: World)
    requires NamesGood(w) && LoopGood(w, w.repo.commits, Head(w.repo))
    requires next.base == w.base && next.made == w.made && next.state == PlanningFix && !next.recorded
    requires next.context.commitSha == Some(Head(w.repo))
    ensures LoopGood(next, w.repo.commits, Head(w.repo))
  {
    SelfDescends(w.repo.commits, Head(w.repo));
  }

  lemma ReEnteredIsGood(w: World)
    requires GoodWorld(w) && w.state in {Coding, Testing} && Head(w.repo) == WorkTip(w)
    ensures GoodWorld(Resumed(w))
  {
    ReEnters(w);
    ReEnteredKeepsLoop(w, Resumed(w));
  }

  lemma ParkedIsGood(w: World)
    requires GoodWorld(w) && w.state in {Coding, Testing} && Head(w.repo) != WorkTip(w)
    ensures GoodWorld(Resumed(w))
  {
    LoopVerdict(w);
  }

  lemma CloneIsGood(w: World, clone: Repo, bound: Sha)
    requires NamesGood(w) && Enabled(w, CrashAndLose(clone, bound))
    ensures GoodWorld(Do(w, CrashAndLose(clone, bound)))
  {
    SelfDescends(clone.commits, Head(clone));
  }

  lemma RecordKeepsGood(w: World)
    requires GoodWorld(w) && w.state in {Coding, PrCreation} && w.aside.None?
    ensures GoodWorld(Recorded(w))
  {
    SelfDescends(w.repo.commits, Head(w.repo));
  }

  lemma MoveKeepsGood(w: World, to: TaskState)
    requires GoodWorld(w) && Enabled(w, Move(to))
    ensures GoodWorld(Do(w, Move(to)))
  {
  }

  lemma CheckoutKeepsGood(w: World, step: Step)
    requires GoodWorld(w) && Enabled(w, step) && (step.CheckoutBase? || step.RestoreBranch? || step.Edit?)
    ensures GoodWorld(Do(w, step))
  {
  }

  /** The re-run against the base branch, if nothing cuts it short, leaves branch and
      working tree as they were. */
  lemma RerunRestores(w: World)
    requires GoodWorld(w) && w.state == Testing && w.aside.None?
    ensures Enabled(w, CheckoutBase) && Enabled(Do(w, CheckoutBase), RestoreBranch)
    ensures Do(Do(w, CheckoutBase), RestoreBranch) == w
  {
  }

  lemma GoodIsReady(w: World)
    requires GoodWorld(w)
    ensures Ready(w)
  {
  }

  /** Every step of the chain, and every crash it is resumed from, keeps the
      branch and the record in agreement. */
  lemma StepKeepsGood(w: World, step: Step)
    requires GoodWorld(w) && Enabled(w, step)
    ensures GoodWorld(Do(w, step))
  {
    match step {
      case Move(to) => MoveKeepsGood(w, to);
      case MicroCommit(sha) => CommitKeepsGood(w, sha, AmopBot);
      case CommitAll(sha) => CommitKeepsGood(w, sha, AmopAgent);
      case RecordHead => RecordKeepsGood(w);
      case RecordSquash => RecordKeepsGood(w);
      case Squash(sha) => SquashKeepsGood(w, sha);
      case CrashAndResume => if Head(w.repo) == WorkTip(w) { ReEnteredIsGood(w); } else { ParkedIsGood(w); }
      case CrashAndLose(clone, bound) => CloneIsGood(w, clone, bound);
      case _ => CheckoutKeepsGood(w, step);
    }
  }

  ghost predicate CanRun(w: World, steps: seq<Step>)
    decreases |steps|
  {
    steps == [] || (Enabled(w, steps[0]) && CanRun(Do(w, steps[0]), steps[1..]))
  }

  ghost function Run(w: World, steps: seq<Step>): World
    requires CanRun(w, steps)
    decreases |steps|
  {
    if steps == [] then w else Run(Do(w, steps[0]), steps[1..])
  }

  lemma {:induction false} RunKeepsGood(w: World, steps: seq<Step>)
    requires GoodWorld(w) && CanRun(w, steps)
    ensures GoodWorld(Run(w, steps))
    decreases |steps|
  {
    if steps != [] {
      StepKeepsGood(w, steps[0]);
      RunKeepsGood(Do(w, steps[0]), steps[1..]);
    }
  }

  /** A task entering PLANNING_FIX with nothing committed and nothing recorded. */
  ghost predicate Fresh(w: World) {
    && w.state == PlanningFix
    && FreshClone(w.repo, w.bound) && w.base == w.repo.refs[BASE_BRANCH]
    && w.context == Context(true, true, None, None) && w.made == {} && !w.recorded && w.aside.None?
  }

  lemma FreshIsGood(w: World)
    requires Fresh(w)
    ensures GoodWorld(w)
  {
    SelfDescends(w.repo.commits, w.base);
  }

  /** Where AMOP's own steps, crashes and lost directories included, can lead. */
  ghost predicate Reachable(w: World) {
    exists start, steps :: Fresh(start) && CanRun(start, steps) && w == Run(start, steps)
  }

  lemma ReachableIsGood(w: World)
    requires Reachable(w)
    ensures GoodWorld(w)
  {
    var start, steps :| Fresh(start) && CanRun(start, steps) && w == Run(start, steps);
    FreshIsGood(start);
    RunKeepsGood(start, steps);
  }

  // ----- What a crash leads to -----

  /** Wherever AMOP's own steps are cut short in CODING or TESTING, through any
      number of earlier crashes and lost directories, a surviving clean directory
      is resumable except in the re-run against the base branch once something
      was committed. Case D comes from that window alone, case B from a lost
      directory alone. */
  lemma CrashIsResumable(w: World)
    requires Reachable(w) && w.state in {Coding, Testing}
    ensures var v := Verdict(w.context, Surviving(w.repo, true));
            && v.Some?
            && (v.value.resumable <==> w.aside.None? || WorkBranch(w) == BASE_BRANCH || w.made == {})
            && (v.value.case_ == D <==> !v.value.resumable)
            && (v.value.case_ == B <==> w.context.commitSha.Some? && w.context.commitSha.value !in w.repo.commits)
            && (v.value.resumable ==> v.value.case_ in {Equal, A, B})
  {
    ReachableIsGood(w);
    LoopVerdict(w);
    NothingMadeIff(w);
  }

  /** No committed edit is lost: after a resumed crash the database records HEAD,
      and HEAD contains every commit made for the task in the surviving directory. */
  lemma NothingCommittedIsLost(w: World)
    requires Reachable(w) && w.state in {Coding, Testing} && Resumed(w).state == PlanningFix
    ensures Resumed(w).repo == w.repo && HeadResolves(w.repo)
    ensures Resumed(w).context.commitSha == Some(Head(w.repo))
    ensures forall c :: c in w.made ==> IsAncestor(w.repo.commits, c, Head(w.repo))
  {
    ReachableIsGood(w);
    LoopVerdict(w);
  }

  /** A resumed run works on the branch the task worked on if and only if the crash
      was outside the re-run against the base branch, or that branch is the base
      branch already. */
  lemma ResumesOnOwnBranch(w: World)
    requires Reachable(w) && w.state in {Coding, Testing} && Resumed(w).state == PlanningFix
    ensures WorkBranch(Resumed(w)) == WorkBranch(w) <==> w.aside.None? || WorkBranch(w) == BASE_BRANCH
  {
    ReachableIsGood(w);
    LoopVerdict(w);
  }

  lemma RunOne(w: World, step: Step)
    requires Enabled(w, step)
    ensures CanRun(w, [step]) && Run(w, [step]) == Do(w, step)
  {
    assert [step][1..] == [];
  }

  /** From PLANNING_FIX, a first edit and its commit land on what is checked out. */
  lemma CodesOnHead(w: World, path: string, text: string, sha: Sha)
    requires Ready(w) && w.state == PlanningFix && w.aside.None? && w.bound <= sha
    ensures var steps := [Move(Coding), Edit(path, text), MicroCommit(sha)];
            var edited := w.(state := Coding, recorded := false, repo := w.repo.(work := w.repo.work[path := text]));
            CanRun(w, steps) && Run(w, steps) == WithCommit(edited, sha, AmopBot)
  {
    var steps := [Move(Coding), Edit(path, text), MicroCommit(sha)];
    var w1 := Do(w, Move(Coding));
    var w2 := Do(w1, Edit(path, text));
    assert steps[1..] == [Edit(path, text), MicroCommit(sha)] && steps[1..][1..] == [MicroCommit(sha)];
    RunOne(w2, MicroCommit(sha));
    assert CanRun(w1, steps[1..]) && Run(w1, steps[1..]) == Do(w2, MicroCommit(sha));
  }

  /** Recording HEAD, a red suite and the re-run against the base branch. */
  lemma RerunsOnBase(w: World)
    requires Ready(w) && w.state == Coding && w.aside.None?
    ensures var steps := [RecordHead, Move(Testing), CheckoutBase];
            CanRun(w, steps) && Run(w, steps) == Do(Recorded(w).(state := Testing), CheckoutBase)
  {
    var steps := [RecordHead, Move(Testing), CheckoutBase];
    var w1 := Do(w, RecordHead);
    var w2 := Do(w1, Move(Testing));
    assert steps[1..] == [Move(Testing), CheckoutBase] && steps[1..][1..] == [CheckoutBase];
    RunOne(w2, CheckoutBase);
    assert CanRun(w1, steps[1..]) && Run(w1, steps[1..]) == Do(w2, CheckoutBase);
  }

  /** A run resumed in that window, which takes that nothing was committed before,
      commits its next edit to the base branch and leaves the task's own behind. */
  lemma ResumedInWindowMovesBase(w: World, path: string, text: string, sha: Sha)
    requires GoodWorld(w) && w.aside.Some? && WorkBranch(w) != BASE_BRANCH && w.made == {} && w.bound <= sha
    requires HasChanges(w.repo.(work := w.repo.work[path := text]))
    ensures var next := Resumed(w);
            var steps := [Move(Coding), Edit(path, text), MicroCommit(sha)];
            && next.state == PlanningFix && CanRun(next, steps)
            && var refs := Run(next, steps).repo.refs;
               WorkBranch(w) in refs && refs[WorkBranch(w)] == w.base && BASE_BRANCH in refs && refs[BASE_BRANCH] == sha
  {
    LoopVerdict(w);
    NothingMadeIff(w);
    CodesOnHead(Resumed(w), path, text, sha);
  }

  /** That window exists: any fresh task that changes a file, commits and records
      it, and crashes in its re-run against the base branch is stopped as case D. */
  lemma WindowDiverges(w: World, path: string, text: string, sha: Sha)
    requires Fresh(w) && w.bound <= sha && HasChanges(w.repo.(work := w.repo.work[path := text]))
    ensures var coded, rerun := [Move(Coding), Edit(path, text), MicroCommit(sha)],
            [RecordHead, Move(Testing), CheckoutBase];
            && CanRun(w, coded) && CanRun(Run(w, coded), rerun)
            && var end := Run(Run(w, coded), rerun);
               end.state == Testing && Verdict(end.context, Surviving(end.repo, true)) ==
                   Some(ReconcileResult(false, D, false))
  {
    FreshIsGood(w);
    var coded, rerun := [Move(Coding), Edit(path, text), MicroCommit(sha)], [RecordHead, Move(Testing), CheckoutBase];
    CodesOnHead(w, path, text, sha);
    RunKeepsGood(w, coded);
    var after := Run(w, coded);
    GoodIsReady(after);
    RerunsOnBase(after);
    RunKeepsGood(after, rerun);
    RerunDiverges(after, Run(after, rerun));
  }

  lemma RerunDiverges(w: World, end: World)
    requires GoodWorld(w) && w.state == Coding && w.aside.None? && w.repo.head != On(BASE_BRANCH) &&
             Head(w.repo) != w.base
    requires end == Do(Recorded(w).(state := Testing), CheckoutBase) && GoodWorld(end)
    ensures Verdict(end.context, Surviving(end.repo, true)) == Some(ReconcileResult(false, D, false))
  {
    LoopVerdict(end);
  }

  /** A crash in PR_CREATION: between the squash and its record the outcome is
      case D and the task is parked; otherwise it is resumable, but there is no
      way from PR_CREATION back to PLANNING_FIX, and resuming raises. */
  lemma CrashInPrCreation(w: World)
    requires Reachable(w) && w.state == PrCreation
    ensures HeadResolves(w.repo)
    ensures var scratch := Surviving(w.repo, true);
            if w.context.commitSha == Some(Head(w.repo)) then
              && Verdict(w.context, scratch) == Some(ReconcileResult(true, Equal, false))
              && ResumptionOf(w.state, w.context, scratch) == Raised
            else
              && Verdict(w.context, scratch) == Some(ReconcileResult(false, D, false))
              && ResumptionOf(w.state, w.context, scratch) == Parked
  {
    ReachableIsGood(w);
  }

  /** Of AMOP's own runs cut short before the pull request, resuming destroys the
      directory, and with it every commit made in it, exactly in PLANNING_FIX, in
      REVIEWING, and in PR_CREATION unless the squash is not yet recorded. */
  lemma ResumeLosesWorkIff(w: World, clone: Repo)
    requires Reachable(w) && (InLoop(w.state) || w.state == PrCreation)
    ensures HeadResolves(w.repo)
    ensures ScratchAfter(w.state, w.context, Surviving(w.repo, true), clone) == Gone <==>
            || w.state == PlanningFix || w.state == Reviewing
            || (w.state == PrCreation && w.context.commitSha == Some(Head(w.repo)))
  {
    ReachableIsGood(w);
    if w.state == PrCreation {
      CrashInPrCreation(w);
    } else {
      LoopVerdict(w);
    }
    if Verdict(w.context, Surviving(w.repo, true)).value.resumable {
      RaisedResumeLosesScratch(w.state, w.context, Surviving(w.repo, true), clone);
    }
  }

  /** The classifier's premise that AMOP never rewrites history does not cover
      the squash before a pull request: unless nothing was committed, a record of
      the pre-squash tip is classified as external interference. */
  lemma UnrecordedSquashDiverges(w: World, sha: Sha)
    requires GoodWorld(w) && w.state == PrCreation && w.recorded && w.bound <= sha
    ensures Classify(Some(Head(w.repo)), WithSquash(w, sha).repo) == (if Head(w.repo) == MergeBase(w) then Equal else D)
  {
    if Head(w.repo) != MergeBase(w) {
      SquashDropsOldTip(w.repo, sha, MergeBase(w));
    }
  }
}
