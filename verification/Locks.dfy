/** Lock acquisition across tasks (amop/orchestrator/concurrency.py) together
    with the locks its transactions take (amop/orchestrator/task.py,
    amop/audit/chain.py, amop/audit/actions.py). */
module Locks {
  import opened ReviewGate

  /** Everything a task ever waits for. Budget 0 is the global scope, the others
      belong to single tasks. */
  datatype Lock =
    | FileKey(key: int)
    | TaskRow(task: nat)
    | ChainLock
    | BudgetRow(scope: nat)

  /** The one order in which locks are taken. */
  function Rank(l: Lock): (nat, int) {
    match l
    case FileKey(k) => (0, k)
    case TaskRow(t) => (1, t)
    case ChainLock => (2, 0)
    case BudgetRow(b) => (3, b)
  }

  predicate Less(a: Lock, b: Lock) {
    Rank(a).0 < Rank(b).0 || (Rank(a).0 == Rank(b).0 && Rank(a).1 < Rank(b).1)
  }

  // ----- Keys -----

  /** Inserts into a sorted list without repeating an element. */
  function InsertKey(k: int, s: seq<int>): seq<int> {
    if s == [] || k < s[0] then [k] + s
    else if k == s[0] then s
    else [s[0]] + InsertKey(k, s[1..])
  }

  /** One key per declared file, sorted; `key` stands for the hash of repository and normalized path. */
  function FileLockKeys(key: (string, string) -> int, repo: string, files: seq<string>): seq<int> {
    if files == [] then []
    else if Blank(files[0]) then FileLockKeys(key, repo, files[1..])
    else InsertKey(key(repo, NormalizeRepoPath(files[0])), FileLockKeys(key, repo, files[1..]))
  }

  /** What `repo_file_lock` acquires: the file keys, or the repository's own key if there are none. */
  function HeldKeys(key: (string, string) -> int, repoKey: string -> int, repo: string, files: seq<string>): seq<int> {
    var keys := FileLockKeys(key, repo, files);
    if keys == [] then [repoKey(repo)] else keys
  }

  ghost predicate Increasing(s: seq<int>) {
    forall i, j :: 0 <= i < j < |s| ==> s[i] < s[j]
  }

  lemma InsertKeyIsSorted(k: int, s: seq<int>)
    requires Increasing(s)
    ensures Increasing(InsertKey(k, s))
    ensures forall x :: x in InsertKey(k, s) <==> x == k || x in s
  {
    if s == [] || k < s[0] || k == s[0] {
    } else {
      InsertKeyIsSorted(k, s[1..]);
      assert s == [s[0]] + s[1..];
    }
  }

  /** The keys are strictly increasing and exactly the hashes of the declared non-blank files. */
  lemma {:induction false} KeysAreFiles(key: (string, string) -> int, repo: string, files: seq<string>)
    ensures Increasing(FileLockKeys(key, repo, files))
    ensures forall k :: k in FileLockKeys(key, repo, files) <==>
                        exists f :: f in files && !Blank(f) && k == key(repo, NormalizeRepoPath(f))
  {
    if files != [] {
      KeysAreFiles(key, repo, files[1..]);
      assert files == [files[0]] + files[1..];
      if !Blank(files[0]) {
        InsertKeyIsSorted(key(repo, NormalizeRepoPath(files[0])), FileLockKeys(key, repo, files[1..]));
      }
    }
  }

  // ----- Programs -----

  datatype Op = Acquire(lock: Lock) | Release(locks: set<Lock>)

  /** One database transaction inside a task: moving a task row, writing it
      otherwise, recording a tool call, recording a model call. */
  datatype Transaction = MoveTask(task: nat) | WriteTask(task: nat) | RecordAction | RecordModelCall(task: nat)

  function TransactionOps(t: Transaction): seq<Op> {
    match t
    case MoveTask(id) => [Acquire(TaskRow(id)), Acquire(ChainLock), Release({TaskRow(id), ChainLock})]
    case WriteTask(id) => [Acquire(TaskRow(id)), Release({TaskRow(id)})]
    case RecordAction => [Acquire(ChainLock), Release({ChainLock})]
    case RecordModelCall(id) =>
      [Acquire(ChainLock), Acquire(BudgetRow(0)), Acquire(BudgetRow(id + 1)),
          Release({ChainLock, BudgetRow(0), BudgetRow(id + 1)})]
  }

  function AcquireAll(keys: seq<int>): seq<Op> {
    if keys == [] then [] else [Acquire(FileKey(keys[0]))] + AcquireAll(keys[1..])
  }

  function AllOps(ts: seq<Transaction>): seq<Op> {
    if ts == [] then [] else TransactionOps(ts[0]) + AllOps(ts[1..])
  }

  function KeySet(keys: seq<int>): set<Lock> {
    set k | k in keys :: FileKey(k)
  }

  /** A task: transactions before it edits anything, then its keys in order,
      held over every transaction of the edit, test and review cycle. */
  function TaskProgram(before: seq<Transaction>, keys: seq<int>, inside: seq<Transaction>): seq<Op> {
    AllOps(before) + (AcquireAll(keys) + (AllOps(inside) + [Release(KeySet(keys))]))
  }

  /** Every acquisition ranks above everything held, and nothing is held at the end. */
  ghost predicate Ordered(held: set<Lock>, ops: seq<Op>)
    decreases |ops|
  {
    if ops == [] then held == {}
    else
      match ops[0]
      case Acquire(l) => (forall h :: h in held ==> Less(h, l)) && Ordered(held + {l}, ops[1..])
      case Release(ls) => Ordered(held - ls, ops[1..])
  }

  lemma OrderedAcquire(held: set<Lock>, l: Lock, ops: seq<Op>)
    requires (forall h :: h in held ==> Less(h, l)) && Ordered(held + {l}, ops)
    ensures Ordered(held, [Acquire(l)] + ops)
  {
    assert ([Acquire(l)] + ops)[1..] == ops;
  }

  lemma OrderedRelease(held: set<Lock>, taken: set<Lock>, ops: seq<Op>)
    requires held !! taken && Ordered(held, ops)
    ensures Ordered(held + taken, [Release(taken)] + ops)
  {
    assert ([Release(taken)] + ops)[1..] == ops && held + taken - taken == held;
  }

  lemma OrderedMove(held: set<Lock>, id: nat, rest: seq<Op>)
    requires (forall h :: h in held ==> h.FileKey?) && Ordered(held, rest)
    ensures Ordered(held, TransactionOps(MoveTask(id)) + rest)
  {
    var row, chain, done := TaskRow(id), ChainLock, [Release({TaskRow(id), ChainLock})] + rest;
    OrderedRelease(held, {row, chain}, rest);
    assert held + {row} + {chain} == held + {row, chain};
    OrderedAcquire(held + {row}, chain, done);
    OrderedAcquire(held, row, [Acquire(chain)] + done);
    assert TransactionOps(MoveTask(id)) + rest == [Acquire(row)] + ([Acquire(chain)] + done);
  }

  lemma OrderedModelCall(held: set<Lock>, id: nat, rest: seq<Op>)
    requires (forall h :: h in held ==> h.FileKey?) && Ordered(held, rest)
    ensures Ordered(held, TransactionOps(RecordModelCall(id)) + rest)
  {
    var chain, day, task := ChainLock, BudgetRow(0), BudgetRow(id + 1);
    var done := [Release({chain, day, task})] + rest;
    OrderedRelease(held, {chain, day, task}, rest);
    assert held + {chain} + {day} + {task} == held + {chain, day, task};
    OrderedAcquire(held + {chain} + {day}, task, done);
    OrderedAcquire(held + {chain}, day, [Acquire(task)] + done);
    OrderedAcquire(held, chain, [Acquire(day)] + ([Acquire(task)] + done));
    assert TransactionOps(RecordModelCall(id)) + rest == [Acquire(chain)] + ([Acquire(day)] + ([Acquire(task)] + done));
  }

  lemma OrderedSingle(held: set<Lock>, l: Lock, rest: seq<Op>)
    requires (forall h :: h in held ==> h.FileKey?) && !l.FileKey? && Ordered(held, rest)
    ensures Ordered(held, [Acquire(l), Release({l})] + rest)
  {
    OrderedRelease(held, {l}, rest);
    OrderedAcquire(held, l, [Release({l})] + rest);
    assert [Acquire(l), Release({l})] + rest == [Acquire(l)] + ([Release({l})] + rest);
  }

  lemma OrderedTransaction(held: set<Lock>, t: Transaction, rest: seq<Op>)
    requires (forall h :: h in held ==> h.FileKey?) && Ordered(held, rest)
    ensures Ordered(held, TransactionOps(t) + rest)
  {
    match t {
      case MoveTask(id) => OrderedMove(held, id, rest);
      case WriteTask(id) => OrderedSingle(held, TaskRow(id), rest);
      case RecordAction => OrderedSingle(held, ChainLock, rest);
      case RecordModelCall(id) => OrderedModelCall(held, id, rest);
    }
  }

  lemma {:induction false} OrderedTransactions(held: set<Lock>, ts: seq<Transaction>, rest: seq<Op>)
    requires forall h :: h in held ==> h.FileKey?
    requires Ordered(held, rest)
    ensures Ordered(held, AllOps(ts) + rest)
  {
    if ts == [] {
      assert AllOps(ts) + rest == rest;
    } else {
      OrderedTransactions(held, ts[1..], rest);
      OrderedTransaction(held, ts[0], AllOps(ts[1..]) + rest);
      assert AllOps(ts) + rest == TransactionOps(ts[0]) + (AllOps(ts[1..]) + rest);
    }
  }

  /** Only file keys are held, all of them below `k`. */
  ghost predicate AllBelow(held: set<Lock>, k: int) {
    forall h :: h in held ==> h.FileKey? && h.key < k
  }

  /** What is held once the keys are acquired as well. */
  ghost function HeldAfter(held: set<Lock>, keys: seq<int>): set<Lock>
    decreases |keys|
  {
    if keys == [] then held else HeldAfter(held + {FileKey(keys[0])}, keys[1..])
  }

  lemma {:induction false} HeldAfterIs(held: set<Lock>, keys: seq<int>)
    ensures HeldAfter(held, keys) == held + KeySet(keys)
    decreases |keys|
  {
    if keys == [] {
      assert KeySet(keys) == {};
    } else {
      HeldAfterIs(held + {FileKey(keys[0])}, keys[1..]);
      assert keys == [keys[0]] + keys[1..];
      assert KeySet(keys) == {FileKey(keys[0])} + KeySet(keys[1..]);
    }
  }

  lemma {:induction false} OrderedKeys(held: set<Lock>, keys: seq<int>, rest: seq<Op>)
    requires Increasing(keys)
    requires keys == [] || AllBelow(held, keys[0])
    requires Ordered(HeldAfter(held, keys), rest)
    ensures Ordered(held, AcquireAll(keys) + rest)
    decreases |keys|
  {
    if keys == [] {
      assert AcquireAll(keys) + rest == rest;
    } else {
      var first, more := keys[0], keys[1..];
      assert more == [] || AllBelow(held + {FileKey(first)}, more[0]);
      OrderedKeys(held + {FileKey(first)}, more, rest);
      OrderedAcquire(held, FileKey(first), AcquireAll(more) + rest);
      assert AcquireAll(keys) + rest == [Acquire(FileKey(first))] + (AcquireAll(more) + rest);
    }
  }

  /** Every task respects the order, whatever files it declares and whatever
      transactions it runs. */
  lemma TaskIsOrdered(before: seq<Transaction>, keys: seq<int>, inside: seq<Transaction>)
    requires Increasing(keys)
    ensures Ordered({}, TaskProgram(before, keys, inside))
  {
    var held := KeySet(keys);
    assert held - held == {};
    assert Ordered(held, [Release(held)]);
    OrderedTransactions(held, inside, [Release(held)]);
    HeldAfterIs({}, keys);
    assert HeldAfter({}, keys) == held;
    OrderedKeys({}, keys, AllOps(inside) + [Release(held)]);
    OrderedTransactions({}, before, AcquireAll(keys) + (AllOps(inside) + [Release(held)]));
  }

  // ----- Running tasks together -----

  datatype Proc = Proc(held: set<Lock>, todo: seq<Op>)

  type System = seq<Proc>

  predicate Finished(p: Proc) {
    p.todo == []
  }

  ghost predicate CanStep(sys: System, i: nat) {
    && i < |sys| && !Finished(sys[i])
    && (sys[i].todo[0].Acquire? ==> forall j :: 0 <= j < |sys| && j != i ==> sys[i].todo[0].lock !in sys[j].held)
  }

  function StepProc(p: Proc): Proc
    requires !Finished(p)
  {
    match p.todo[0]
    case Acquire(l) => Proc(p.held + {l}, p.todo[1..])
    case Release(ls) => Proc(p.held - ls, p.todo[1..])
  }

  function Step(sys: System, i: nat): System
    requires i < |sys| && !Finished(sys[i])
  {
    sys[i := StepProc(sys[i])]
  }

  /** No lock has two holders, and every task respects the order from here on. */
  ghost predicate Good(sys: System) {
    && (forall i, j :: 0 <= i < j < |sys| ==> sys[i].held !! sys[j].held)
    && (forall i :: 0 <= i < |sys| ==> Ordered(sys[i].held, sys[i].todo))
  }

  lemma StepKeepsGood(sys: System, i: nat)
    requires Good(sys) && CanStep(sys, i)
    ensures Good(Step(sys, i))
  {
  }

  /** The unfinished task whose wanted lock ranks highest among the first `n`. */
  lemma HighestWanted(sys: System, n: nat) returns (m: nat)
    requires n <= |sys| && exists i :: 0 <= i < n && !Finished(sys[i])
    requires forall i :: 0 <= i < |sys| && !Finished(sys[i]) ==> sys[i].todo[0].Acquire?
    ensures m < n && !Finished(sys[m])
    ensures forall i :: 0 <= i < n && !Finished(sys[i]) ==> !Less(sys[m].todo[0].lock, sys[i].todo[0].lock)
  {
    if forall i :: 0 <= i < n - 1 ==> Finished(sys[i]) {
      m := n - 1;
    } else {
      m := HighestWanted(sys, n - 1);
      if !Finished(sys[n - 1]) && Less(sys[m].todo[0].lock, sys[n - 1].todo[0].lock) {
        m := n - 1;
      }
    }
  }

  /** Whoever holds a lock is unfinished and, if it acquires next, wants a higher one. */
  lemma HolderWantsHigher(p: Proc, l: Lock)
    requires Ordered(p.held, p.todo) && l in p.held
    ensures !Finished(p) && (p.todo[0].Acquire? ==> Less(l, p.todo[0].lock))
  {
  }

  lemma BlockedByHolder(sys: System, i: nat) returns (j: nat)
    requires i < |sys| && !Finished(sys[i]) && !CanStep(sys, i)
    ensures sys[i].todo[0].Acquire?
    ensures j < |sys| && sys[i].todo[0].lock in sys[j].held
  {
    j :| 0 <= j < |sys| && j != i && sys[i].todo[0].lock in sys[j].held;
  }

  lemma StuckMeansDone(sys: System)
    requires Good(sys) && forall i :: 0 <= i < |sys| ==> !CanStep(sys, i)
    ensures forall i :: 0 <= i < |sys| ==> Finished(sys[i])
  {
    if exists i :: 0 <= i < |sys| && !Finished(sys[i]) {
      forall i | 0 <= i < |sys| && !Finished(sys[i]) ensures sys[i].todo[0].Acquire? {
        var j := BlockedByHolder(sys, i);
      }
      var m := HighestWanted(sys, |sys|);
      var j := BlockedByHolder(sys, m);
      HolderWantsHigher(sys[j], sys[m].todo[0].lock);
      assert false;
    }
  }

  /** No deadlock: as long as some task is unfinished, some task can step. */
  lemma SomeTaskSteps(sys: System)
    requires Good(sys) && exists i :: 0 <= i < |sys| && !Finished(sys[i])
    ensures exists i :: CanStep(sys, i)
  {
    if forall i :: 0 <= i < |sys| ==> !CanStep(sys, i) {
      StuckMeansDone(sys);
    }
  }

  function Remaining(sys: System): nat {
    if sys == [] then 0 else |sys[0].todo| + Remaining(sys[1..])
  }

  lemma {:induction false} StepRemaining(sys: System, i: nat)
    requires i < |sys| && !Finished(sys[i])
    ensures Remaining(Step(sys, i)) == Remaining(sys) - 1
  {
    if i == 0 {
      assert Step(sys, 0)[1..] == sys[1..];
    } else {
      StepRemaining(sys[1..], i - 1);
      assert Step(sys, i)[1..] == Step(sys[1..], i - 1);
    }
  }

  /** `schedule` names the task that steps next, again and again. */
  ghost predicate CanRun(sys: System, schedule: seq<nat>)
    decreases |schedule|
  {
    schedule == [] || (CanStep(sys, schedule[0]) && CanRun(Step(sys, schedule[0]), schedule[1..]))
  }

  ghost function Run(sys: System, schedule: seq<nat>): System
    requires CanRun(sys, schedule)
    decreases |schedule|
  {
    if schedule == [] then sys else Run(Step(sys, schedule[0]), schedule[1..])
  }

  lemma {:induction false} RunIsGood(sys: System, schedule: seq<nat>)
    requires Good(sys) && CanRun(sys, schedule)
    ensures Good(Run(sys, schedule)) && Remaining(Run(sys, schedule)) + |schedule| == Remaining(sys)
    decreases |schedule|
  {
    if schedule != [] {
      StepKeepsGood(sys, schedule[0]);
      StepRemaining(sys, schedule[0]);
      RunIsGood(Step(sys, schedule[0]), schedule[1..]);
    }
  }

  /** Every maximal run finishes every task: no run is longer than the work
      there is, and one that cannot go on has left nothing undone and nothing locked. */
  lemma MaximalRunsFinish(sys: System, schedule: seq<nat>)
    requires Good(sys) && CanRun(sys, schedule)
    ensures |schedule| <= Remaining(sys)
    ensures (forall i :: !CanStep(Run(sys, schedule), i)) ==>
            forall i :: 0 <= i < |Run(sys, schedule)| ==>
                Finished(Run(sys, schedule)[i]) && Run(sys, schedule)[i].held == {}
  {
    RunIsGood(sys, schedule);
    var end := Run(sys, schedule);
    if (forall i :: !CanStep(end, i)) && exists i :: 0 <= i < |end| && !Finished(end[i]) {
      SomeTaskSteps(end);
    }
  }

  // ----- Tasks in repositories -----

  datatype Task = Task(repo: string, files: seq<string>, before: seq<Transaction>, inside: seq<Transaction>)

  function TaskKeys(key: (string, string) -> int, repoKey: string -> int, t: Task): seq<int> {
    HeldKeys(key, repoKey, t.repo, t.files)
  }

  /** All tasks at their beginning. */
  function Launch(key: (string, string) -> int, repoKey: string -> int, tasks: seq<Task>): System {
    seq(|tasks|, i requires 0 <= i < |tasks| =>
      Proc({}, TaskProgram(tasks[i].before, TaskKeys(key, repoKey, tasks[i]), tasks[i].inside)))
  }

  lemma LaunchIsGood(key: (string, string) -> int, repoKey: string -> int, tasks: seq<Task>)
    ensures Good(Launch(key, repoKey, tasks))
  {
    forall i | 0 <= i < |tasks| ensures Ordered({}, Launch(key, repoKey, tasks)[i].todo) {
      KeysAreFiles(key, tasks[i].repo, tasks[i].files);
      TaskIsOrdered(tasks[i].before, TaskKeys(key, repoKey, tasks[i]), tasks[i].inside);
    }
  }

  /** Whatever tasks with whatever files and transactions are launched together,
      under every schedule either some task can step or all are done. */
  lemma NoDeadlock(key: (string, string) -> int, repoKey: string -> int, tasks: seq<Task>, schedule: seq<nat>)
    requires CanRun(Launch(key, repoKey, tasks), schedule)
    ensures var end := Run(Launch(key, repoKey, tasks), schedule);
            (exists i :: CanStep(end, i)) || forall i :: 0 <= i < |end| ==> Finished(end[i]) && end[i].held == {}
  {
    LaunchIsGood(key, repoKey, tasks);
    MaximalRunsFinish(Launch(key, repoKey, tasks), schedule);
  }

  /** The task holds every key of its declared files. */
  predicate Inside(p: Proc, keys: seq<int>) {
    KeySet(keys) <= p.held
  }

  predicate SharesFile(s: Task, t: Task) {
    s.repo == t.repo &&
    exists f, g :: f in s.files && g in t.files && !Blank(f) && !Blank(g) &&
        NormalizeRepoPath(f) == NormalizeRepoPath(g)
  }

  /** Two tasks of one repository that declare a common file are never inside together. */
  lemma SharedFileExcludes(
    key: (string, string) -> int, repoKey: string -> int, tasks: seq<Task>, schedule: seq<nat>, i: nat, j: nat)
    requires CanRun(Launch(key, repoKey, tasks), schedule)
    requires i < |tasks| && j < |tasks| && i != j && SharesFile(tasks[i], tasks[j])
    ensures |Run(Launch(key, repoKey, tasks), schedule)| == |tasks|
    ensures var end := Run(Launch(key, repoKey, tasks), schedule);
            !(Inside(end[i], TaskKeys(key, repoKey, tasks[i])) && Inside(end[j], TaskKeys(key, repoKey, tasks[j])))
  {
    LaunchIsGood(key, repoKey, tasks);
    RunIsGood(Launch(key, repoKey, tasks), schedule);
    RunLength(Launch(key, repoKey, tasks), schedule);
    var end := Run(Launch(key, repoKey, tasks), schedule);
    var f, g :| f in tasks[i].files && g in tasks[j].files && !Blank(f) && !Blank(g) &&
        NormalizeRepoPath(f) == NormalizeRepoPath(g);
    KeysAreFiles(key, tasks[i].repo, tasks[i].files);
    KeysAreFiles(key, tasks[j].repo, tasks[j].files);
    var k := key(tasks[i].repo, NormalizeRepoPath(f));
    assert k in TaskKeys(key, repoKey, tasks[i]) && k in TaskKeys(key, repoKey, tasks[j]);
    assert FileKey(k) in KeySet(TaskKeys(key, repoKey, tasks[i])) &&
           FileKey(k) in KeySet(TaskKeys(key, repoKey, tasks[j]));
    assert end[if i < j then i else j].held !! end[if i < j then j else i].held;
  }

  // ----- Exclusion by where a task is in its program -----

  function HeldNext(held: set<Lock>, op: Op): set<Lock> {
    match op
    case Acquire(l) => held + {l}
    case Release(ls) => held - ls
  }

  ghost function HeldBy(held: set<Lock>, ops: seq<Op>): set<Lock>
    decreases |ops|
  {
    if ops == [] then held else HeldBy(HeldNext(held, ops[0]), ops[1..])
  }

  lemma {:induction false} HeldByAppend(held: set<Lock>, a: seq<Op>, b: seq<Op>)
    ensures HeldBy(held, a + b) == HeldBy(HeldBy(held, a), b)
    decreases |a|
  {
    if a == [] {
      assert a + b == b;
    } else {
      assert (a + b)[0] == a[0] && (a + b)[1..] == a[1..] + b;
      HeldByAppend(HeldNext(held, a[0]), a[1..], b);
    }
  }

  predicate ReleasesNoKey(op: Op) {
    op.Release? ==> forall l :: l in op.locks ==> !l.FileKey?
  }

  lemma {:induction false} TransactionsKeepKeys(ts: seq<Transaction>)
    ensures forall op :: op in AllOps(ts) ==> ReleasesNoKey(op)
  {
    if ts != [] {
      TransactionsKeepKeys(ts[1..]);
    }
  }

  lemma {:induction false} KeysStay(held: set<Lock>, ops: seq<Op>, keys: seq<int>)
    requires KeySet(keys) <= held && forall op :: op in ops ==> ReleasesNoKey(op)
    ensures KeySet(keys) <= HeldBy(held, ops)
    decreases |ops|
  {
    if ops != [] {
      assert ops[0] in ops && forall op :: op in ops[1..] ==> op in ops;
      KeysStay(HeldNext(held, ops[0]), ops[1..], keys);
    }
  }

  lemma {:induction false} KeysAreHeld(held: set<Lock>, keys: seq<int>)
    ensures HeldBy(held, AcquireAll(keys)) == HeldAfter(held, keys)
    decreases |keys|
  {
    if keys != [] {
      KeysAreHeld(held + {FileKey(keys[0])}, keys[1..]);
      assert AcquireAll(keys)[1..] == AcquireAll(keys[1..]);
    }
  }

  /** The task has done the first part of its program and holds what that left it. */
  ghost predicate AtPosition(p: Proc, program: seq<Op>) {
    && |p.todo| <= |program|
    && var n := |program| - |p.todo|;
       p.todo == program[n..] && p.held == HeldBy({}, program[..n])
  }

  lemma StepKeepsPosition(p: Proc, program: seq<Op>)
    requires AtPosition(p, program) && !Finished(p)
    ensures AtPosition(StepProc(p), program)
  {
    var n := |program| - |p.todo|;
    assert program[..n + 1] == program[..n] + [program[n]] && p.todo[0] == program[n];
    HeldByAppend({}, program[..n], [program[n]]);
    assert HeldBy(p.held, [program[n]]) == HeldNext(p.held, program[n]);
    assert p.todo[1..] == program[n + 1..];
  }

  lemma {:induction false} RunKeepsPositions(sys: System, schedule: seq<nat>, programs: seq<seq<Op>>)
    requires CanRun(sys, schedule) && |programs| == |sys|
    requires forall i :: 0 <= i < |sys| ==> AtPosition(sys[i], programs[i])
    ensures |Run(sys, schedule)| == |sys|
    ensures forall i :: 0 <= i < |sys| ==> AtPosition(Run(sys, schedule)[i], programs[i])
    decreases |schedule|
  {
    if schedule != [] {
      StepKeepsPosition(sys[schedule[0]], programs[schedule[0]]);
      RunKeepsPositions(Step(sys, schedule[0]), schedule[1..], programs);
    }
  }

  /** The task has something left of its inside transactions, or its keys to release. */
  predicate Working(p: Proc, t: Task) {
    0 < |p.todo| <= |AllOps(t.inside)| + 1
  }

  lemma WorkingHoldsKeys(p: Proc, keys: seq<int>, t: Task)
    requires AtPosition(p, TaskProgram(t.before, keys, t.inside)) && Working(p, t)
    ensures KeySet(keys) <= p.held
  {
    var program, work := TaskProgram(t.before, keys, t.inside), AllOps(t.inside);
    var start := AllOps(t.before) + AcquireAll(keys);
    var m := |work| + 1 - |p.todo|;
    assert program == start + (work + [Release(KeySet(keys))]);
    assert program[..|start| + m] == start + work[..m];
    HeldByAppend({}, start, work[..m]);
    HeldByAppend({}, AllOps(t.before), AcquireAll(keys));
    KeysAreHeld(HeldBy({}, AllOps(t.before)), keys);
    HeldAfterIs(HeldBy({}, AllOps(t.before)), keys);
    TransactionsKeepKeys(t.inside);
    assert forall op :: op in work[..m] ==> op in work;
    KeysStay(HeldBy({}, start), work[..m], keys);
  }

  /** So two tasks of one repository that declare a common file are never at work in
      their edit, test and review cycles at the same time. */
  lemma SharedFileWorksAlone(
    key: (string, string) -> int, repoKey: string -> int, tasks: seq<Task>, schedule: seq<nat>, i: nat, j: nat)
    requires CanRun(Launch(key, repoKey, tasks), schedule)
    requires i < |tasks| && j < |tasks| && i != j && SharesFile(tasks[i], tasks[j])
    ensures |Run(Launch(key, repoKey, tasks), schedule)| == |tasks|
    ensures var end := Run(Launch(key, repoKey, tasks), schedule);
            !(Working(end[i], tasks[i]) && Working(end[j], tasks[j]))
  {
    var start := Launch(key, repoKey, tasks);
    var programs := seq(|tasks|, n requires 0 <= n < |tasks| =>
      TaskProgram(tasks[n].before, TaskKeys(key, repoKey, tasks[n]), tasks[n].inside));
    RunKeepsPositions(start, schedule, programs);
    SharedFileExcludes(key, repoKey, tasks, schedule, i, j);
    var end := Run(start, schedule);
    if Working(end[i], tasks[i]) && Working(end[j], tasks[j]) {
      WorkingHoldsKeys(end[i], TaskKeys(key, repoKey, tasks[i]), tasks[i]);
      WorkingHoldsKeys(end[j], TaskKeys(key, repoKey, tasks[j]), tasks[j]);
    }
  }

  /** What each kind of transaction locks, every lock of it until it ends. */
  function LocksOf(t: Transaction): set<Lock> {
    match t
    case MoveTask(id) => {TaskRow(id), ChainLock}
    case WriteTask(id) => {TaskRow(id)}
    case RecordAction => {ChainLock}
    case RecordModelCall(id) => {ChainLock, BudgetRow(0), BudgetRow(id + 1)}
  }

  lemma TransactionTakes(held: set<Lock>, t: Transaction)
    requires held !! LocksOf(t)
    ensures var ops := TransactionOps(t);
            HeldBy(held, ops[..|ops| - 1]) == held + LocksOf(t) && HeldBy(held, ops) == held
  {
    var ops := TransactionOps(t);
    assert ops == ops[..|ops| - 1] + [ops[|ops| - 1]];
    HeldByAppend(held, ops[..|ops| - 1], [ops[|ops| - 1]]);
    TransactionAcquires(held, t);
    assert HeldBy(held + LocksOf(t), [Release(LocksOf(t))]) == held + LocksOf(t) - LocksOf(t) == held;
  }

  lemma TransactionAcquires(held: set<Lock>, t: Transaction)
    ensures var ops := TransactionOps(t);
            HeldBy(held, ops[..|ops| - 1]) == held + LocksOf(t) && ops[|ops| - 1] == Release(LocksOf(t))
  {
    var ops := TransactionOps(t);
    var first := ops[..|ops| - 1];
    match t {
      case MoveTask(id) =>
        assert first == [Acquire(TaskRow(id))] + [Acquire(ChainLock)];
        HeldByAppend(held, [Acquire(TaskRow(id))], [Acquire(ChainLock)]);
      case WriteTask(id) => assert first == [Acquire(TaskRow(id))];
      case RecordAction => assert first == [Acquire(ChainLock)];
      case RecordModelCall(id) =>
        var day, task := [Acquire(BudgetRow(0))], [Acquire(BudgetRow(id + 1))];
        assert first == [Acquire(ChainLock)] + (day + task);
        HeldByAppend(held, [Acquire(ChainLock)], day + task);
        HeldByAppend(held + {ChainLock}, day, task);
        assert HeldBy(held, [Acquire(ChainLock)]) == held + {ChainLock};
        assert HeldBy(held + {ChainLock}, day) == held + {ChainLock} + {BudgetRow(0)};
    }
  }

  lemma {:induction false} RunLength(sys: System, schedule: seq<nat>)
    requires CanRun(sys, schedule)
    ensures |Run(sys, schedule)| == |sys|
    decreases |schedule|
  {
    if schedule != [] {
      RunLength(Step(sys, schedule[0]), schedule[1..]);
    }
  }

  lemma NoFilesNoKeys(key: (string, string) -> int, repo: string, files: seq<string>)
    requires forall f :: f in files ==> Blank(f)
    ensures FileLockKeys(key, repo, files) == []
  {
  }

  /** A task without declared files takes the repository key only, which shuts
      out no task that names files, unless the two keys happen to collide. */
  lemma FilelessTaskExcludes(key: (string, string) -> int, repoKey: string -> int, s: Task, t: Task)
    requires (forall f :: f in s.files ==> Blank(f)) && (exists g :: g in t.files && !Blank(g))
    ensures KeySet(TaskKeys(key, repoKey, s)) !! KeySet(TaskKeys(key, repoKey, t)) <==>
            forall g :: g in t.files && !Blank(g) ==> key(t.repo, NormalizeRepoPath(g)) != repoKey(s.repo)
  {
    KeysAreFiles(key, s.repo, s.files);
    KeysAreFiles(key, t.repo, t.files);
    NoFilesNoKeys(key, s.repo, s.files);
    assert TaskKeys(key, repoKey, s) == [repoKey(s.repo)];
    var g :| g in t.files && !Blank(g);
    var k := key(t.repo, NormalizeRepoPath(g));
    assert k in FileLockKeys(key, t.repo, t.files);
    assert TaskKeys(key, repoKey, t) == FileLockKeys(key, t.repo, t.files);
    assert FileKey(repoKey(s.repo)) in KeySet(TaskKeys(key, repoKey, s));
    forall h | h in t.files && !Blank(h)
        ensures FileKey(key(t.repo, NormalizeRepoPath(h))) in KeySet(TaskKeys(key, repoKey, t)) {
      var l := key(t.repo, NormalizeRepoPath(h));
      assert l in FileLockKeys(key, t.repo, t.files);
    }
  }
}
