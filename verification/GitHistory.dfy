/** The task's repository as a commit DAG (amop/sandbox/repo.py). A commit's
    parents have smaller names; git itself is not modelled. */
module GitHistory {
  type Sha = nat
  type Tree = map<string, string>

  /** The two identities AMOP commits under, and everybody else. */
  datatype Author = AmopBot | AmopAgent | Outsider(email: string)

  datatype Commit = Commit(parents: set<Sha>, author: Author, tree: Tree)

  const BASE_BRANCH := "main"

  /** What is checked out: a branch, or a commit with no branch. */
  datatype Checkout = On(branch: string) | Detached(commit: Sha)

  datatype Repo = Repo(commits: map<Sha, Commit>, refs: map<string, Sha>, head: Checkout, work: Tree)

  predicate Known(author: Author) {
    !author.Outsider?
  }

  ghost predicate GoodDag(commits: map<Sha, Commit>) {
    forall c :: c in commits ==> forall p :: p in commits[c].parents ==> p < c && p in commits
  }

  /** `rev-parse HEAD` succeeds: it does not on a branch without a commit. */
  predicate HeadResolves(repo: Repo) {
    match repo.head
    case On(b) => b in repo.refs && repo.refs[b] in repo.commits
    case Detached(c) => c in repo.commits
  }

  function Head(repo: Repo): (c: Sha)
    requires HeadResolves(repo)
    ensures c in repo.commits
  {
    match repo.head
    case On(b) => repo.refs[b]
    case Detached(c) => c
  }

  /** `rev-parse --abbrev-ref HEAD`. */
  function BranchName(repo: Repo): string {
    match repo.head
    case On(b) => b
    case Detached(_) => "HEAD"
  }

  /** `merge-base --is-ancestor`: `a` is `d` or reached from it through parents. */
  predicate IsAncestor(commits: map<Sha, Commit>, a: Sha, d: Sha)
    decreases d
  {
    a in commits && d in commits &&
    (a == d || exists p :: p in commits[d].parents && p < d && IsAncestor(commits, a, p))
  }

  /** Every commit in `since..head` carries a known identity. */
  predicate AdvancedByAmopOnly(commits: map<Sha, Commit>, since: Sha, head: Sha) {
    forall c :: c in commits && IsAncestor(commits, c, head) && !IsAncestor(commits, c, since) ==>
        Known(commits[c].author)
  }

  predicate HasChanges(repo: Repo)
    requires HeadResolves(repo)
  {
    repo.work != repo.commits[Head(repo)].tree
  }

  /** Moves what is checked out to another commit. */
  function MoveHead(repo: Repo, c: Sha): Repo {
    match repo.head
    case On(b) => repo.(refs := repo.refs[b := c])
    case Detached(_) => repo.(head := Detached(c))
  }

  /** `add -A` and commit, under a name not yet in use. */
  function Committed(repo: Repo, sha: Sha, author: Author): Repo
    requires HeadResolves(repo)
  {
    MoveHead(repo.(commits := repo.commits[sha := Commit({Head(repo)}, author, repo.work)]), sha)
  }

  /** `squash_wip_commits`: one commit on top of the merge-base replaces the
      branch. If the commits since cancel out there is nothing to commit after
      the reset: git refuses, and the branch stays at the merge-base. */
  function Squashed(repo: Repo, sha: Sha, base: Sha): Repo
    requires HeadResolves(repo) && base in repo.commits
  {
    var tree := repo.commits[Head(repo)].tree;
    if Head(repo) == base then repo
    else if tree == repo.commits[base].tree then MoveHead(repo, base)
    else MoveHead(repo.(commits := repo.commits[sha := Commit({base}, AmopBot, tree)]), sha)
  }

  /** A commit holds the working tree, on top of what was checked out. */
  lemma CommitHolds(repo: Repo, sha: Sha, author: Author)
    requires HeadResolves(repo)
    ensures var next := Committed(repo, sha, author);
            && HeadResolves(next) && Head(next) == sha
            && next.commits[sha] == Commit({Head(repo)}, author, repo.work)
            && next.work == repo.work && BranchName(next) == BranchName(repo) && !HasChanges(next)
  {
  }

  /** A squash leaves what is checked out on one commit of the bot over the base, with
      the tree it had, or on the base itself if that has the same tree. */
  lemma SquashKeepsTree(repo: Repo, sha: Sha, base: Sha)
    requires HeadResolves(repo) && base in repo.commits && sha !in repo.commits
    ensures var next := Squashed(repo, sha, base);
            && HeadResolves(next) && next.work == repo.work && BranchName(next) == BranchName(repo)
            && next.commits[Head(next)].tree == repo.commits[Head(repo)].tree
            && (Head(next) == base ||
                next.commits[Head(next)] == Commit({base}, AmopBot, repo.commits[Head(repo)].tree))
            && (Head(next) == base <==> repo.commits[Head(repo)].tree == repo.commits[base].tree)
  {
  }

  // ----- Ancestry -----

  lemma {:induction false} AncestorIsSmaller(commits: map<Sha, Commit>, a: Sha, d: Sha)
    requires IsAncestor(commits, a, d)
    ensures a <= d
  {
    if a != d {
      var p :| p in commits[d].parents && p < d && IsAncestor(commits, a, p);
      AncestorIsSmaller(commits, a, p);
    }
  }

  /** Adding a commit changes no ancestry between the old ones. */
  lemma {:induction false} AncestryUnchanged(commits: map<Sha, Commit>, sha: Sha, commit: Commit, a: Sha, d: Sha)
    requires GoodDag(commits) && sha !in commits && d in commits
    ensures IsAncestor(commits[sha := commit], a, d) <==> IsAncestor(commits, a, d)
    decreases d
  {
    var more := commits[sha := commit];
    assert more[d] == commits[d];
    forall p | p in commits[d].parents
      ensures IsAncestor(more, a, p) <==> IsAncestor(commits, a, p)
    {
      AncestryUnchanged(commits, sha, commit, a, p);
    }
  }

  /** The ancestors of a new commit are itself and those of its one parent. */
  lemma NewCommitAncestors(commits: map<Sha, Commit>, sha: Sha, parent: Sha, author: Author, tree: Tree, a: Sha)
    requires GoodDag(commits) && sha !in commits && parent in commits && parent < sha
    ensures var more := commits[sha := Commit({parent}, author, tree)];
            GoodDag(more) && (IsAncestor(more, a, sha) <==> a == sha || IsAncestor(commits, a, parent))
  {
    var more := commits[sha := Commit({parent}, author, tree)];
    AncestryUnchanged(commits, sha, Commit({parent}, author, tree), a, parent);
    forall c | c in more ensures forall p :: p in more[c].parents ==> p < c && p in more {
      if c != sha {
        assert more[c] == commits[c];
      }
    }
    if IsAncestor(more, a, sha) && a != sha {
      var p :| p in more[sha].parents && p < sha && IsAncestor(more, a, p);
      assert p == parent;
    }
    if IsAncestor(commits, a, parent) {
      assert parent in more[sha].parents && IsAncestor(more, a, parent);
    }
  }

  /** An AMOP commit on top of HEAD keeps every earlier point of the branch an
      ancestor with nothing but AMOP commits in between. */
  lemma AmopCommitAdvances(commits: map<Sha, Commit>, sha: Sha, head: Sha, author: Author, tree: Tree, since: Sha)
    requires GoodDag(commits) && sha !in commits && head in commits && head < sha && Known(author)
    requires IsAncestor(commits, since, head) && AdvancedByAmopOnly(commits, since, head)
    ensures var more := commits[sha := Commit({head}, author, tree)];
            IsAncestor(more, since, sha) && AdvancedByAmopOnly(more, since, sha)
  {
    var commit := Commit({head}, author, tree);
    var more := commits[sha := commit];
    NewCommitAncestors(commits, sha, head, author, tree, since);
    forall c | c in more && IsAncestor(more, c, sha) && !IsAncestor(more, c, since)
      ensures Known(more[c].author)
    {
      NewCommitAncestors(commits, sha, head, author, tree, c);
      if c != sha {
        AncestryUnchanged(commits, sha, commit, c, since);
      }
    }
  }

  /** A squash does rewrite history: unless nothing was committed since the
      merge-base, the old tip is no longer an ancestor of what is checked out. */
  lemma SquashDropsOldTip(repo: Repo, sha: Sha, base: Sha)
    requires GoodDag(repo.commits) && HeadResolves(repo)
    requires sha !in repo.commits && base < sha && IsAncestor(repo.commits, base, Head(repo))
    ensures HeadResolves(Squashed(repo, sha, base))
    ensures IsAncestor(Squashed(repo, sha, base).commits, Head(repo), Head(Squashed(repo, sha, base))) <==>
            Head(repo) == base
  {
    var head, tree := Head(repo), repo.commits[Head(repo)].tree;
    if head != base {
      NewCommitAncestors(repo.commits, sha, base, AmopBot, tree, head);
      if IsAncestor(repo.commits, head, base) {
        AncestorIsSmaller(repo.commits, head, base);
        AncestorIsSmaller(repo.commits, base, head);
      }
    }
  }
}
