/** Concurrent writers on one database (amop/orchestrator/task.py,
    amop/audit/chain.py, the version column of amop/database/models.py).

    Committed state plus one pending transaction per session. A session may
    drive a task (`transition_with_retry`), write a task row without moving it
    (every such write bumps the version too), or record an agent action. The
    version-guarded UPDATE of the task row and the chain lock may be taken in
    either order, as long as both precede reading the tip; the UPDATE holds the
    task row until the transaction ends. Any session may also roll back at any
    point, which is what a crash looks like from the database. */
module TaskProtocol {
  import opened Wrappers
  import opened StateMachine
  import opened AuditRows
  import opened AuditChain

  type SessionId = nat

  datatype TaskRow = TaskRow(state: TaskState, version: nat)

  /** The task object a session holds: a snapshot of some committed version. */
  datatype View = View(task: TaskId, state: TaskState, version: nat)

  /** How far a transaction's append has come. */
  datatype Append = NoLock | Locked | TipRead(tip: Digest) | Drawn(tip: Digest, pos: int)

  datatype Job =
    | Idle
    | Moving(to: TaskState, tries: nat, flushed: bool, append: Append)
    | Touching(flushed: bool)
    | Acting(agent: string, body: string, append: Append)

  datatype Session = Session(view: Option<View>, job: Job)

  datatype Event =
    | Moved(session: SessionId, task: TaskId, from: TaskState, to: TaskState)
    | Refused(session: SessionId, task: TaskId, to: TaskState)

  datatype Db = Db(
    rows: seq<Row>,
    tasks: map<TaskId, TaskRow>,
    nextPos: int,
    chainLock: Option<SessionId>,
    rowLocks: map<TaskId, SessionId>,
    sessions: map<SessionId, Session>,
    log: seq<Event>)

  datatype Step =
    | CreateTask(task: TaskId)
    | Refresh(sid: SessionId, task: TaskId)
    | CallMove(sid: SessionId, to: TaskState, tries: nat)
    | CallTouch(sid: SessionId)
    | CallAct(sid: SessionId, agent: string, body: string)
    | Flush(sid: SessionId)
    | LockChain(sid: SessionId)
    | ReadTip(sid: SessionId)
    | DrawPos(sid: SessionId)
    | Commit(sid: SessionId, id: int)
    | Rollback(sid: SessionId)

  function AppendOf(job: Job): Append {
    match job
    case Moving(_, _, _, a) => a
    case Acting(_, _, a) => a
    case _ => NoLock
  }

  function WithAppend(job: Job, a: Append): Job {
    match job
    case Moving(to, tries, flushed, _) => Moving(to, tries, flushed, a)
    case Acting(agent, body, _) => Acting(agent, body, a)
    case _ => job
  }

  predicate HasFlushed(job: Job) {
    (job.Moving? && job.flushed) || (job.Touching? && job.flushed)
  }

  predicate NeedsFlush(job: Job) {
    (job.Moving? && !job.flushed && job.append in {NoLock, Locked}) || (job.Touching? && !job.flushed)
  }

  // ----- The steps -----

  predicate Enabled(db: Db, step: Step) {
    match step
    case CreateTask(t) => t !in db.tasks
    case Refresh(s, t) => s in db.sessions && db.sessions[s].job.Idle? && t in db.tasks
    case CallMove(s, to, tries) => s in db.sessions && db.sessions[s].job.Idle? && db.sessions[s].view.Some? &&
        tries > 0
    case CallTouch(s) => s in db.sessions && db.sessions[s].job.Idle? && db.sessions[s].view.Some?
    case CallAct(s, _, _) => s in db.sessions && db.sessions[s].job.Idle?
    // The UPDATE waits while another transaction holds the task row.
    case Flush(s) =>
      s in db.sessions && NeedsFlush(db.sessions[s].job) && db.sessions[s].view.Some? &&
      db.sessions[s].view.value.task in db.tasks && db.sessions[s].view.value.task !in db.rowLocks
    case LockChain(s) =>
      s in db.sessions && (db.sessions[s].job.Moving? || db.sessions[s].job.Acting?) &&
      AppendOf(db.sessions[s].job) == NoLock && db.chainLock == None
    case ReadTip(s) =>
      s in db.sessions && AppendOf(db.sessions[s].job) == Locked &&
      (db.sessions[s].job.Moving? ==> db.sessions[s].job.flushed)
    case DrawPos(s) => s in db.sessions && AppendOf(db.sessions[s].job).TipRead?
    case Commit(s, id) =>
      s in db.sessions &&
      match db.sessions[s].job {
        case Moving(_, _, _, a) =>
          a.Drawn? && db.sessions[s].view.Some? && FreshId(db.rows, TaskTransitions, id)
        case Acting(_, _, a) => a.Drawn? && FreshId(db.rows, AgentActions, id)
        case Touching(flushed) => flushed && db.sessions[s].view.Some? && db.sessions[s].view.value.task in db.tasks
        case Idle => false
      }
    case Rollback(s) => s in db.sessions && !db.sessions[s].job.Idle?
  }

  predicate FreshId(rows: seq<Row>, table: Table, id: int) {
    forall r :: r in rows && r.Table() == table ==> r.id != id
  }

  /** Everything the session holds is released and nothing it wrote persists. */
  function Released(db: Db, s: SessionId): Db {
    db.(chainLock := if db.chainLock == Some(s) then None else db.chainLock,
        rowLocks := map t | t in db.rowLocks && db.rowLocks[t] != s :: db.rowLocks[t])
  }

  function WithSession(db: Db, s: SessionId, session: Session): Db {
    db.(sessions := db.sessions[s := session])
  }

  function SeenNow(db: Db, t: TaskId): View
    requires t in db.tasks
  {
    View(t, db.tasks[t].state, db.tasks[t].version)
  }

  /** Validation against the view; an illegal move is refused and nothing is written. */
  function BeginMove(db: Db, s: SessionId, view: View, to: TaskState, tries: nat): Db {
    if Legal(view.state, to) then WithSession(db, s, Session(Some(view), Moving(to, tries, false, NoLock)))
    else WithSession(db, s, Session(Some(view), Idle)).(log := db.log + [Refused(s, view.task, to)])
  }

  /** The guarded UPDATE: it takes the row if the version still matches;
      otherwise the transaction rolls back, and a mover with tries left re-reads
      the row and re-validates. */
  function FlushUpdate(db: Db, s: SessionId, view: View, job: Job): Db
    requires view.task in db.tasks
  {
    if db.tasks[view.task].version == view.version then
      WithSession(db.(rowLocks := db.rowLocks[view.task := s]), s,
                  Session(Some(view), if job.Moving? then job.(flushed := true) else Touching(true)))
    else
      var rolledBack := Released(db, s);
      if job.Moving? && job.tries > 1 then BeginMove(rolledBack, s, SeenNow(db, view.task), job.to, job.tries - 1)
      else if job.Moving? then
        WithSession(rolledBack, s, Session(None, Idle)).(log := db.log + [Refused(s, view.task, job.to)])
      else WithSession(rolledBack, s, Session(None, Idle))
  }

  /** Task update and audit row become visible together, and the locks go. */
  function CommitMove(db: Db, s: SessionId, id: int, view: View, job: Job): Db
    requires job.Moving? && job.append.Drawn?
  {
    var row := Stamped(id, Transition(view.task, view.state, job.to, ""), job.append.pos, job.append.tip);
    WithSession(
      Released(db, s).(rows := db.rows + [row],
                       tasks := db.tasks[view.task := TaskRow(job.to, view.version + 1)],
                       log := db.log + [Moved(s, view.task, view.state, job.to)]),
      s, Session(Some(View(view.task, job.to, view.version + 1)), Idle))
  }

  function Do(db: Db, step: Step): Db
    requires Enabled(db, step)
  {
    match step
    case CreateTask(t) => db.(tasks := db.tasks[t := TaskRow(Created, 1)])
    case Refresh(s, t) => WithSession(db, s, Session(Some(SeenNow(db, t)), Idle))
    case CallMove(s, to, tries) => BeginMove(db, s, db.sessions[s].view.value, to, tries)
    case CallTouch(s) => WithSession(db, s, db.sessions[s].(job := Touching(false)))
    case CallAct(s, agent, body) => WithSession(db, s, db.sessions[s].(job := Acting(agent, body, NoLock)))
    case Flush(s) => FlushUpdate(db, s, db.sessions[s].view.value, db.sessions[s].job)
    case LockChain(s) =>
      WithSession(db.(chainLock := Some(s)), s, db.sessions[s].(job := WithAppend(db.sessions[s].job, Locked)))
    case ReadTip(s) =>
      WithSession(db, s, db.sessions[s].(job := WithAppend(db.sessions[s].job, TipRead(TipHash(db.rows)))))
    case DrawPos(s) =>
      WithSession(db.(nextPos := db.nextPos + 1), s,
                  db.sessions[s].(job := WithAppend(db.sessions[s].job,
                      Drawn(AppendOf(db.sessions[s].job).tip, db.nextPos))))
    case Commit(s, id) =>
      var session := db.sessions[s];
      (match session.job
       case Moving(_, _, _, _) => CommitMove(db, s, id, session.view.value, session.job)
       case Acting(agent, body, a) =>
         WithSession(Released(db, s).(rows := db.rows + [Stamped(id, Action(agent, body), a.pos, a.tip)]),
                     s, session.(job := Idle))
       case Touching(_) =>
         var v := session.view.value;
         WithSession(Released(db, s).(tasks := db.tasks[v.task := TaskRow(db.tasks[v.task].state, v.version + 1)]),
                     s, Session(Some(View(v.task, v.state, v.version + 1)), Idle))
       case Idle => db)
    case Rollback(s) =>
      var session := db.sessions[s];
      var gone := WithSession(Released(db, s), s, Session(None, Idle));
      if session.job.Moving? && session.view.Some? then
        gone.(log := db.log + [Refused(s, session.view.value.task, session.job.to)])
      else gone
  }

  // ----- What every step keeps -----

  /** Storage order is commit order: positions increase along it, and the rows
      link up from GENESIS. Gaps in the positions are allowed. */
  ghost predicate ChainGood(rows: seq<Row>, nextPos: int) {
    && Linked(rows, Genesis)
    && (forall i :: 0 <= i < |rows| ==> rows[i].pos.Some? && rows[i].pos.value < nextPos)
    && (forall i, j :: 0 <= i < j < |rows| ==> rows[i].pos.value < rows[j].pos.value)
    && DistinctIds(rows)
  }

  /** A session is past the chain lock exactly if it holds it, and holds the
      task row its pending UPDATE changes. */
  ghost predicate LocksGood(db: Db, s: SessionId)
    requires s in db.sessions
  {
    var session := db.sessions[s];
    && (AppendOf(session.job) != NoLock <==> db.chainLock == Some(s))
    && (HasFlushed(session.job) ==>
          session.view.Some? && session.view.value.task in db.rowLocks && db.rowLocks[session.view.value.task] == s)
  }

  /** What a session read under the chain lock is still true. */
  ghost predicate AppendGood(db: Db, s: SessionId)
    requires s in db.sessions
  {
    match AppendOf(db.sessions[s].job)
    case TipRead(tip) => tip == EndHash(db.rows, Genesis)
    case Drawn(tip, pos) =>
      tip == EndHash(db.rows, Genesis) && pos < db.nextPos &&
      forall r :: r in db.rows && r.pos.Some? ==> r.pos.value < pos
    case _ => true
  }

  /** A view is some committed version of its task, the current one if the
      version numbers agree, and certainly the current one while an UPDATE is pending. */
  ghost predicate ViewGood(db: Db, s: SessionId)
    requires s in db.sessions
  {
    var session := db.sessions[s];
    && (session.job.Moving? || session.job.Touching? ==> session.view.Some?)
    && (session.view.Some? ==>
          var v := session.view.value;
          && v.task in db.tasks
          && v.version <= db.tasks[v.task].version
          && (v.version == db.tasks[v.task].version ==> v.state == db.tasks[v.task].state)
          && (HasFlushed(session.job) ==> v.version == db.tasks[v.task].version)
          && (session.job.Moving? ==> Legal(v.state, session.job.to)))
    && (session.job.Moving? && (session.job.append.TipRead? || session.job.append.Drawn?) ==> session.job.flushed)
  }

  /** The state the audit trail alone says a task is in. */
  function TrailEnd(rows: seq<Row>, t: TaskId): TaskState {
    if rows == [] then Created
    else
      var last := rows[|rows| - 1].content;
      if last.Transition? && last.task == t then last.to else TrailEnd(rows[..|rows| - 1], t)
  }

  /** Every transition row starts where the trail before it left its task,
      CREATED at first, and follows an edge of the table. */
  ghost predicate TrailLegal(rows: seq<Row>) {
    forall i :: 0 <= i < |rows| && rows[i].content.Transition? ==>
      rows[i].content.from == TrailEnd(rows[..i], rows[i].content.task) &&
      Legal(rows[i].content.from, rows[i].content.to)
  }

  ghost predicate TasksFollowTrail(db: Db) {
    && (forall t :: t in db.tasks ==> db.tasks[t].state == TrailEnd(db.rows, t))
    && (forall r :: r in db.rows && r.content.Transition? ==> r.content.task in db.tasks)
  }

  predicate IsTransition(r: Row) {
    r.content.Transition?
  }

  predicate IsMoved(e: Event) {
    e.Moved?
  }

  /** The successful calls, in order, are the transition rows: one each, and a
      refused call has none. */
  ghost predicate LogIsTrail(db: Db) {
    var moved := Filter(db.log, IsMoved);
    var trail := Filter(db.rows, IsTransition);
    && |moved| == |trail|
    && forall i :: 0 <= i < |moved| ==>
         moved[i].Moved? && trail[i].content.Transition? && trail[i].content.task == moved[i].task &&
         trail[i].content.from == moved[i].from && trail[i].content.to == moved[i].to
  }

  ghost predicate Inv(db: Db) {
    && ChainGood(db.rows, db.nextPos)
    && (forall s :: s in db.sessions ==> LocksGood(db, s) && AppendGood(db, s) && ViewGood(db, s))
    && TrailLegal(db.rows)
    && TasksFollowTrail(db)
    && LogIsTrail(db)
  }

  /** What increasing positions make of the stored rows: the walk is the storage
      order, verification succeeds, and the tip is the last row's hash. */
  lemma GoodChain(rows: seq<Row>, nextPos: int)
    requires ChainGood(rows, nextPos)
    ensures Walk(rows) == rows && Chained(rows) == rows && Intact(rows)
    ensures TipHash(rows) == EndHash(rows, Genesis)
  {
    assert InOrder(rows);
    WalkOfOrdered(rows);
    forall r | r in rows ensures Hashed(r) {
      var i :| 0 <= i < |rows| && rows[i] == r;
      LinkedAt(rows, Genesis, i);
    }
    FilterAll(rows, Hashed);
    forall x, y | x in rows && y in rows && SortKey(x) == SortKey(y) ensures x == y {
      var i :| 0 <= i < |rows| && rows[i] == x;
      var j :| 0 <= j < |rows| && rows[j] == y;
    }
    TipIsLastLink(rows);
  }

  lemma GrownChain(rows: seq<Row>, nextPos: int, row: Row)
    requires ChainGood(rows, nextPos)
    requires row.pos.Some? && row == Stamped(row.id, row.content, row.pos.value, EndHash(rows, Genesis))
    requires row.pos.value < nextPos && FreshId(rows, row.Table(), row.id)
    requires forall r :: r in rows && r.pos.Some? ==> r.pos.value < row.pos.value
    ensures ChainGood(rows + [row], nextPos)
  {
    LinkGrows(rows, nextPos, row);
    var grown := rows + [row];
    forall i | 0 <= i < |rows| ensures rows[i].pos.value < row.pos.value && !rows[i].SameRow(row) {
      assert rows[i] in rows;
    }
    forall i, j | 0 <= i < j < |grown| ensures grown[i].pos.value < grown[j].pos.value && !grown[i].SameRow(grown[j]) {
      assert grown[i] == rows[i];
    }
  }

  lemma LinkGrows(rows: seq<Row>, nextPos: int, row: Row)
    requires ChainGood(rows, nextPos)
    requires row.pos.Some? && row == Stamped(row.id, row.content, row.pos.value, EndHash(rows, Genesis))
    ensures Linked(rows + [row], Genesis)
  {
    GoodChain(rows, nextPos);
    ChainedIsHashed(rows);
    LinkedAppend(rows, [row], Genesis);
  }

  lemma ChainKept(db: Db, step: Step)
    requires Inv(db) && Enabled(db, step)
    ensures ChainGood(Do(db, step).rows, Do(db, step).nextPos)
  {
    if step.Commit? && !db.sessions[step.sid].job.Touching? {
      CommittedRow(db, step);
      GrownChain(db.rows, db.nextPos, Do(db, step).rows[|db.rows|]);
    } else {
      ChainUntouched(db, step);
    }
  }

  lemma ChainUntouched(db: Db, step: Step)
    requires Enabled(db, step) && !(step.Commit? && !db.sessions[step.sid].job.Touching?)
    ensures Do(db, step).rows == db.rows && Do(db, step).nextPos >= db.nextPos
  {
  }

  /** A commit appends the row its session stamped under the chain lock. */
  lemma CommittedRow(db: Db, step: Step)
    requires Enabled(db, step) && step.Commit? && !db.sessions[step.sid].job.Touching?
    requires AppendGood(db, step.sid)
    ensures var after := Do(db, step);
            && after.nextPos == db.nextPos && |after.rows| == |db.rows| + 1
            && var row := after.rows[|db.rows|];
            && after.rows == db.rows + [row] && row.pos.Some?
            && row == Stamped(row.id, row.content, row.pos.value, EndHash(db.rows, Genesis))
            && row.pos.value < db.nextPos && FreshId(db.rows, row.Table(), row.id)
            && forall r :: r in db.rows && r.pos.Some? ==> r.pos.value < row.pos.value
  {
  }

  function Actor(step: Step): SessionId
    requires !step.CreateTask?
  {
    step.sid
  }

  /** What a step of session `s` leaves alone: the other sessions, the locks
      they hold and the task rows those locks cover. Versions never go back. */
  ghost predicate OthersUntouched(db: Db, after: Db, s: SessionId) {
    && after.sessions.Keys == db.sessions.Keys
    && (forall x :: x in db.sessions && x != s ==> after.sessions[x] == db.sessions[x])
    && (forall x :: x != s ==> (after.chainLock == Some(x) <==> db.chainLock == Some(x)))
    && (forall t :: t in db.rowLocks && db.rowLocks[t] != s ==>
         t in after.rowLocks && after.rowLocks[t] == db.rowLocks[t])
    && (forall t :: t in db.tasks ==> t in after.tasks && db.tasks[t].version <= after.tasks[t].version)
    && (forall t :: t in db.tasks && t in after.tasks && after.tasks[t].version == db.tasks[t].version ==>
         after.tasks[t] == db.tasks[t])
    && (forall t :: t in db.tasks && t in after.tasks && t in db.rowLocks && db.rowLocks[t] != s ==>
         after.tasks[t] == db.tasks[t])
  }

  /** What the invariant says about the one session that steps. */
  ghost predicate ActorReady(db: Db, s: SessionId) {
    s in db.sessions &&
    var session := db.sessions[s];
    && (HasFlushed(session.job) ==>
          && session.view.Some?
          && session.view.value.task in db.tasks
          && db.tasks[session.view.value.task] == TaskRow(session.view.value.state, session.view.value.version)
          && session.view.value.task in db.rowLocks && db.rowLocks[session.view.value.task] == s)
    && (session.job.Moving? && session.job.append.Drawn? ==> session.job.flushed)
    && (session.job.Moving? && session.view.Some? ==> Legal(session.view.value.state, session.job.to))
  }

  lemma ActorIsReady(db: Db, s: SessionId)
    requires s in db.sessions && LocksGood(db, s) && ViewGood(db, s)
    ensures ActorReady(db, s)
  {
  }

  lemma ReleaseTouchesOwnOnly(db: Db, s: SessionId)
    requires s in db.sessions
    ensures OthersUntouched(db, Released(db, s), s)
  {
  }

  lemma FlushTouchesActorOnly(db: Db, s: SessionId, view: View, job: Job)
    requires s in db.sessions && view.task in db.tasks && view.task !in db.rowLocks
    ensures OthersUntouched(db, FlushUpdate(db, s, view, job), s)
  {
    ReleaseTouchesOwnOnly(db, s);
  }

  lemma CommitTouchesActorOnly(db: Db, s: SessionId, id: int)
    requires Enabled(db, Commit(s, id)) && ActorReady(db, s)
    ensures OthersUntouched(db, Do(db, Commit(s, id)), s)
  {
    ReleaseTouchesOwnOnly(db, s);
  }

  lemma StepTouchesActorOnly(db: Db, step: Step)
    requires Enabled(db, step) && !step.CreateTask? && ActorReady(db, Actor(step))
    ensures OthersUntouched(db, Do(db, step), Actor(step))
  {
    match step {
      case Commit(s, id) => CommitTouchesActorOnly(db, s, id);
      case Flush(s) => FlushTouchesActorOnly(db, s, db.sessions[s].view.value, db.sessions[s].job);
      case Rollback(s) => ReleaseTouchesOwnOnly(db, s);
      case _ =>
    }
  }

  lemma OthersStayGood(db: Db, after: Db, s: SessionId, x: SessionId)
    requires OthersUntouched(db, after, s) && x in db.sessions && x != s
    requires LocksGood(db, x) && ViewGood(db, x) && AppendGood(db, x)
    requires after.nextPos >= db.nextPos && (after.rows == db.rows || db.chainLock == Some(s))
    ensures x in after.sessions && LocksGood(after, x) && ViewGood(after, x) && AppendGood(after, x)
  {
  }

  /** The session's locks and view are in order. */
  ghost predicate ActorGood(db: Db, s: SessionId) {
    s in db.sessions && LocksGood(db, s) && ViewGood(db, s)
  }

  lemma BeginKeepsActor(db: Db, step: Step)
    requires Enabled(db, step) && (step.Refresh? || step.CallMove? || step.CallTouch? || step.CallAct?)
    requires ActorGood(db, Actor(step))
    ensures ActorGood(Do(db, step), Actor(step))
  {
  }

  lemma AppendKeepsActor(db: Db, step: Step)
    requires Enabled(db, step) && (step.LockChain? || step.ReadTip? || step.DrawPos?)
    requires ActorGood(db, Actor(step))
    ensures ActorGood(Do(db, step), Actor(step))
  {
  }

  lemma FlushKeepsActor(db: Db, s: SessionId)
    requires Enabled(db, Flush(s)) && ActorGood(db, s)
    ensures ActorGood(Do(db, Flush(s)), s)
  {
    var view, job := db.sessions[s].view.value, db.sessions[s].job;
    if db.tasks[view.task].version == view.version {
      FlushTakesRow(db, s, view, job);
    } else {
      FlushRollsBack(db, s, view, job);
    }
  }

  lemma FlushTakesRow(db: Db, s: SessionId, view: View, job: Job)
    requires ActorGood(db, s) && db.sessions[s] == Session(Some(view), job) && NeedsFlush(job)
    requires view.task !in db.rowLocks && db.tasks[view.task].version == view.version
    ensures ActorGood(FlushUpdate(db, s, view, job), s)
  {
  }

  lemma FlushRollsBack(db: Db, s: SessionId, view: View, job: Job)
    requires ActorGood(db, s) && db.sessions[s] == Session(Some(view), job) && NeedsFlush(job)
    requires db.tasks[view.task].version != view.version
    ensures ActorGood(FlushUpdate(db, s, view, job), s)
  {
  }

  lemma CommitKeepsActor(db: Db, s: SessionId, id: int)
    requires Enabled(db, Commit(s, id)) && ActorGood(db, s)
    ensures ActorGood(Do(db, Commit(s, id)), s)
  {
  }

  lemma RollbackKeepsActor(db: Db, s: SessionId)
    requires Enabled(db, Rollback(s)) && ActorGood(db, s)
    ensures ActorGood(Do(db, Rollback(s)), s)
  {
  }

  lemma ActorKept(db: Db, step: Step)
    requires Enabled(db, step) && !step.CreateTask? && ActorGood(db, Actor(step))
    ensures ActorGood(Do(db, step), Actor(step))
  {
    match step {
      case Flush(s) => FlushKeepsActor(db, s);
      case Commit(s, id) => CommitKeepsActor(db, s, id);
      case Rollback(s) => RollbackKeepsActor(db, s);
      case LockChain(_) => AppendKeepsActor(db, step);
      case ReadTip(_) => AppendKeepsActor(db, step);
      case DrawPos(_) => AppendKeepsActor(db, step);
      case _ => BeginKeepsActor(db, step);
    }
  }

  lemma OnlyReadingAdvances(db: Db, step: Step)
    requires Enabled(db, step) && !step.CreateTask? && !step.ReadTip? && !step.DrawPos?
    ensures Actor(step) in Do(db, step).sessions
    ensures AppendOf(Do(db, step).sessions[Actor(step)].job) in {NoLock, Locked}
  {
  }

  lemma PositionsBelow(rows: seq<Row>, nextPos: int)
    requires ChainGood(rows, nextPos)
    ensures forall r :: r in rows && r.pos.Some? ==> r.pos.value < nextPos
  {
  }

  lemma ActorKeepsAppend(db: Db, step: Step)
    requires Enabled(db, step) && !step.CreateTask? && AppendGood(db, Actor(step))
    requires TipHash(db.rows) == EndHash(db.rows, Genesis)
    requires forall r :: r in db.rows && r.pos.Some? ==> r.pos.value < db.nextPos
    ensures Actor(step) in Do(db, step).sessions && AppendGood(Do(db, step), Actor(step))
  {
    match step {
      case ReadTip(s) =>
      case DrawPos(s) =>
      case _ => OnlyReadingAdvances(db, step);
    }
  }

  lemma RowsChangeUnderLock(db: Db, step: Step)
    requires Enabled(db, step) && !step.CreateTask? && LocksGood(db, Actor(step))
    ensures Do(db, step).nextPos >= db.nextPos
    ensures Do(db, step).rows == db.rows || (step.Commit? && db.chainLock == Some(Actor(step)))
  {
  }

  lemma SessionsKept(db: Db, step: Step)
    requires Inv(db) && Enabled(db, step)
    ensures var after := Do(db, step);
            forall x :: x in after.sessions ==> LocksGood(after, x) && AppendGood(after, x) && ViewGood(after, x)
  {
    var after := Do(db, step);
    if step.CreateTask? {
      forall x | x in after.sessions ensures LocksGood(after, x) && AppendGood(after, x) && ViewGood(after, x) {
        assert LocksGood(db, x) && AppendGood(db, x) && ViewGood(db, x);
      }
    } else {
      var s := Actor(step);
      ActorIsReady(db, s);
      StepTouchesActorOnly(db, step);
      RowsChangeUnderLock(db, step);
      ActorKept(db, step);
      GoodChain(db.rows, db.nextPos);
      PositionsBelow(db.rows, db.nextPos);
      ActorKeepsAppend(db, step);
      forall x | x in after.sessions && x != s
          ensures LocksGood(after, x) && AppendGood(after, x) && ViewGood(after, x) {
        OthersStayGood(db, after, s, x);
      }
    }
  }

  // ----- The audit trail -----

  lemma TrailGrows(rows: seq<Row>, row: Row)
    requires TrailLegal(rows)
    requires row.content.Transition? ==>
             row.content.from == TrailEnd(rows, row.content.task) && Legal(row.content.from, row.content.to)
    ensures TrailLegal(rows + [row])
    ensures forall t :: TrailEnd(rows + [row], t) ==
                        if row.content.Transition? && row.content.task == t then row.content.to else TrailEnd(rows, t)
  {
    var grown := rows + [row];
    assert grown[..|rows|] == rows;
    forall i | 0 <= i < |grown| && grown[i].content.Transition?
      ensures grown[i].content.from == TrailEnd(grown[..i], grown[i].content.task) &&
              Legal(grown[i].content.from, grown[i].content.to)
    {
      if i < |rows| {
        assert grown[..i] == rows[..i];
      }
    }
  }

  /** No row is added and no task changes state; at most a refusal is logged. */
  ghost predicate Quiet(db: Db, after: Db) {
    && after.rows == db.rows
    && (after.log == db.log || (exists e: Event :: e.Refused? && after.log == db.log + [e]))
    && (forall t :: t in db.tasks ==> t in after.tasks && after.tasks[t].state == db.tasks[t].state)
    && (forall t :: t in after.tasks && t !in db.tasks ==> after.tasks[t].state == Created)
  }

  /** Exactly one action row is added. */
  ghost predicate RecordsAction(db: Db, after: Db) {
    && (exists r: Row :: r.content.Action? && after.rows == db.rows + [r])
    && after.log == db.log && after.tasks == db.tasks
  }

  /** A task moves along an edge, with exactly one row and one log entry for it. */
  ghost predicate RecordsMove(db: Db, after: Db, s: SessionId, t: TaskId, to: TaskState) {
    && t in db.tasks && Legal(db.tasks[t].state, to)
    && (exists r: Row :: r.content == Transition(t, db.tasks[t].state, to, "") && after.rows == db.rows + [r])
    && after.log == db.log + [Moved(s, t, db.tasks[t].state, to)]
    && (exists v: nat :: after.tasks == db.tasks[t := TaskRow(to, v)])
  }

  lemma QuietSteps(db: Db, step: Step)
    requires Enabled(db, step) && !step.Commit?
    ensures Quiet(db, Do(db, step))
  {
    match step {
      case CallMove(s, to, tries) =>
        assert Refused(s, db.sessions[s].view.value.task, to).Refused?;
      case Flush(s) =>
        var v, job := db.sessions[s].view.value, db.sessions[s].job;
        assert job.Moving? ==> Refused(s, v.task, job.to).Refused?;
      case Rollback(s) =>
        var session := db.sessions[s];
        assert session.job.Moving? && session.view.Some? ==>
               Refused(s, session.view.value.task, session.job.to).Refused?;
      case _ =>
    }
  }

  lemma CommitEffect(db: Db, s: SessionId, id: int)
    requires Enabled(db, Commit(s, id)) && ActorReady(db, s)
    ensures var after := Do(db, Commit(s, id));
            var session := db.sessions[s];
            (session.job.Touching? ==> Quiet(db, after)) &&
            (session.job.Acting? ==> RecordsAction(db, after)) &&
            (session.job.Moving? ==> RecordsMove(db, after, s, session.view.value.task, session.job.to))
  {
    var session := db.sessions[s];
    match session.job {
      case Touching(_) =>
      case Acting(agent, body, a) =>
        assert Stamped(id, Action(agent, body), a.pos, a.tip).content.Action?;
      case Moving(to, _, _, a) =>
        var v := session.view.value;
        assert Stamped(id, Transition(v.task, v.state, to, ""), a.pos, a.tip).content ==
               Transition(v.task, v.state, to, "");
        assert Do(db, Commit(s, id)).tasks == db.tasks[v.task := TaskRow(to, v.version + 1)];
    }
  }

  /** Every step does one of three things to what is committed. */
  lemma StepEffect(db: Db, step: Step)
    requires Inv(db) && Enabled(db, step)
    ensures Quiet(db, Do(db, step)) || RecordsAction(db, Do(db, step)) ||
            exists s, t, to :: RecordsMove(db, Do(db, step), s, t, to)
  {
    if step.Commit? {
      ActorIsReady(db, step.sid);
      CommitEffect(db, step.sid, step.id);
    } else {
      QuietSteps(db, step);
    }
  }

  ghost predicate TrailGood(db: Db) {
    TrailLegal(db.rows) && TasksFollowTrail(db) && LogIsTrail(db)
  }

  lemma FreshTaskHasNoTrail(rows: seq<Row>, t: TaskId)
    requires forall r :: r in rows && r.content.Transition? ==> r.content.task != t
    ensures TrailEnd(rows, t) == Created
  {
    if rows != [] {
      assert rows[|rows| - 1] in rows;
    }
  }

  lemma QuietKeepsTrail(db: Db, after: Db)
    requires TrailGood(db) && Quiet(db, after)
    ensures TrailGood(after)
  {
    forall t | t in after.tasks && t !in db.tasks ensures TrailEnd(db.rows, t) == Created {
      FreshTaskHasNoTrail(db.rows, t);
    }
    if after.log != db.log {
      FilterAppend(db.log, [after.log[|db.log|]], IsMoved);
      assert after.log == db.log + [after.log[|db.log|]];
      assert Filter([after.log[|db.log|]], IsMoved) == [];
    }
  }

  lemma ActionKeepsTrail(db: Db, after: Db)
    requires TrailGood(db) && RecordsAction(db, after)
    ensures TrailGood(after)
  {
    var r: Row :| r.content.Action? && after.rows == db.rows + [r];
    TrailGrows(db.rows, r);
    FilterAppend(db.rows, [r], IsTransition);
    assert Filter([r], IsTransition) == [];
  }

  lemma MoveKeepsTrail(db: Db, after: Db, s: SessionId, t: TaskId, to: TaskState)
    requires TrailGood(db) && RecordsMove(db, after, s, t, to)
    ensures TrailGood(after)
  {
    var from := db.tasks[t].state;
    var r: Row :| r.content == Transition(t, from, to, "") && after.rows == db.rows + [r];
    TrailGrows(db.rows, r);
    FilterAppend(db.rows, [r], IsTransition);
    assert Filter([r], IsTransition) == [r];
    FilterAppend(db.log, [Moved(s, t, from, to)], IsMoved);
    assert Filter([Moved(s, t, from, to)], IsMoved) == [Moved(s, t, from, to)];
  }

  // ----- Runs -----

  /** Every step of every session keeps the invariant. */
  lemma StepKeepsInv(db: Db, step: Step)
    requires Inv(db) && Enabled(db, step)
    ensures Inv(Do(db, step))
  {
    var after := Do(db, step);
    ChainKept(db, step);
    SessionsKept(db, step);
    StepEffect(db, step);
    assert TrailGood(db);
    if Quiet(db, after) {
      QuietKeepsTrail(db, after);
    } else if RecordsAction(db, after) {
      ActionKeepsTrail(db, after);
    } else {
      var s, t, to :| RecordsMove(db, after, s, t, to);
      MoveKeepsTrail(db, after, s, t, to);
    }
  }

  /** An empty database, or one whose rows already form a fully positioned
      chain, with no transaction open. */
  ghost predicate Initial(db: Db) {
    && ChainGood(db.rows, db.nextPos) && TrailLegal(db.rows) && TasksFollowTrail(db)
    && db.chainLock == None && db.rowLocks == map[]
    && (forall s :: s in db.sessions ==> db.sessions[s] == Session(None, Idle))
    && LogIsTrail(db)
  }

  /** `steps` can be taken one after another from `db`. */
  ghost predicate CanRun(db: Db, steps: seq<Step>)
    decreases |steps|
  {
    steps == [] || (Enabled(db, steps[0]) && CanRun(Do(db, steps[0]), steps[1..]))
  }

  ghost function Run(db: Db, steps: seq<Step>): Db
    requires CanRun(db, steps)
    decreases |steps|
  {
    if steps == [] then db else Run(Do(db, steps[0]), steps[1..])
  }

  lemma {:induction false} RunKeepsInv(db: Db, steps: seq<Step>)
    requires Inv(db) && CanRun(db, steps)
    ensures Inv(Run(db, steps))
    decreases |steps|
  {
    if steps != [] {
      StepKeepsInv(db, steps[0]);
      RunKeepsInv(Do(db, steps[0]), steps[1..]);
    }
  }

  /** After any interleaving of any sessions, the committed rows of both tables
      in commit order are the verified chain itself. */
  lemma ChainStaysLinear(db: Db, steps: seq<Step>)
    requires Initial(db) && CanRun(db, steps)
    ensures var end := Run(db, steps);
            && Intact(end.rows)
            && Chained(end.rows) == end.rows
            && TipHash(end.rows) == EndHash(end.rows, Genesis)
            && forall i, j :: 0 <= i < j < |end.rows| ==>
                 end.rows[i].pos.Some? && end.rows[j].pos.Some? && end.rows[i].pos.value < end.rows[j].pos.value
  {
    RunKeepsInv(db, steps);
    GoodChain(Run(db, steps).rows, Run(db, steps).nextPos);
  }

  /** The states the audit trail alone says a task went through. */
  function TrailOf(rows: seq<Row>, t: TaskId): seq<TaskState> {
    if rows == [] then [Created]
    else
      var last := rows[|rows| - 1].content;
      TrailOf(rows[..|rows| - 1], t) + if last.Transition? && last.task == t then [last.to] else []
  }

  lemma {:induction false} TrailOfIsPath(rows: seq<Row>, t: TaskId)
    requires TrailLegal(rows)
    ensures var p := TrailOf(rows, t);
            |p| > 0 && p[0] == Created && p[|p| - 1] == TrailEnd(rows, t) && IsPath(p)
  {
    if rows != [] {
      var front, n := rows[..|rows| - 1], |rows| - 1;
      assert forall i :: 0 <= i < n ==> front[..i] == rows[..i];
      TrailOfIsPath(front, t);
      var last := rows[n].content;
      if last.Transition? && last.task == t {
        PathGrows(TrailOf(front, t), last.to);
      }
    }
  }

  lemma TrailsArePaths(db: Db)
    requires TrailLegal(db.rows) && TasksFollowTrail(db)
    ensures forall t :: t in db.tasks ==>
              var p := TrailOf(db.rows, t);
              |p| > 0 && p[0] == Created && IsPath(p) && db.tasks[t].state == p[|p| - 1] == TrailEnd(db.rows, t)
  {
    forall t | t in db.tasks
      ensures var p := TrailOf(db.rows, t);
              |p| > 0 && p[0] == Created && IsPath(p) && db.tasks[t].state == p[|p| - 1] == TrailEnd(db.rows, t)
    {
      TrailOfIsPath(db.rows, t);
    }
  }

  /** After any interleaving, the audit trail of every task is a path of the
      state machine from CREATED to the task's committed state, and the
      transition rows are exactly the successful calls. */
  lemma TrailIsThePath(db: Db, steps: seq<Step>)
    requires Initial(db) && CanRun(db, steps)
    ensures var end := Run(db, steps);
            && LogIsTrail(end) && TrailLegal(end.rows)
            && forall t :: t in end.tasks ==>
                 var p := TrailOf(end.rows, t);
                 |p| > 0 && p[0] == Created && IsPath(p) && end.tasks[t].state == p[|p| - 1] == TrailEnd(end.rows, t)
  {
    RunKeepsInv(db, steps);
    TrailsArePaths(Run(db, steps));
  }

  /** After any interleaving, whatever merged or waits for approval was tested,
      reviewed and turned into a pull request, one after the other, in its trail. */
  lemma MergedWasReviewed(db: Db, steps: seq<Step>, t: TaskId)
    requires Initial(db) && CanRun(db, steps)
    requires t in Run(db, steps).tasks && PastReview(Run(db, steps).tasks[t].state)
    ensures exists i: nat :: ReviewedAt(TrailOf(Run(db, steps).rows, t), i)
  {
    TrailIsThePath(db, steps);
    TrailOfIsPath(Run(db, steps).rows, t);
    MergeWasReviewed(TrailOf(Run(db, steps).rows, t));
  }

  /** A transaction that is rolled back leaves nothing behind: no row, no change of a
      task, no lock. */
  lemma RollbackUndoes(db: Db, s: SessionId)
    requires Enabled(db, Rollback(s))
    ensures var after := Do(db, Rollback(s));
            && after.rows == db.rows && after.tasks == db.tasks && HoldsNothing(after, s)
            && s in after.sessions && after.sessions[s] == Session(None, Idle)
  {
  }

  lemma TerminalUnmoved(db: Db, after: Db, t: TaskId)
    requires t in db.tasks && Terminal(db.tasks[t].state)
    requires Quiet(db, after) || RecordsAction(db, after) || exists s, u, to :: RecordsMove(db, after, s, u, to)
    ensures t in after.tasks && after.tasks[t].state == db.tasks[t].state
  {
  }

  /** A task that is terminal at some point never moves again, whatever the
      sessions were in the middle of. */
  lemma {:induction false} TerminalStays(db: Db, steps: seq<Step>, t: TaskId)
    requires Inv(db) && CanRun(db, steps) && t in db.tasks && Terminal(db.tasks[t].state)
    ensures t in Run(db, steps).tasks && Run(db, steps).tasks[t].state == db.tasks[t].state
    decreases |steps|
  {
    if steps != [] {
      StepKeepsInv(db, steps[0]);
      StepEffect(db, steps[0]);
      TerminalUnmoved(db, Do(db, steps[0]), t);
      TerminalStays(Do(db, steps[0]), steps[1..], t);
    }
  }

  /** A database in which `s` drives `t` and holds both locks. */
  function Driving(db: Db, s: SessionId, t: TaskId, job: Job): Db
    requires t in db.tasks
  {
    db.(chainLock := Some(s), rowLocks := db.rowLocks[t := s],
        sessions := db.sessions[s := Session(Some(SeenNow(db, t)), job)])
  }

  lemma RunOne(db: Db, steps: seq<Step>)
    requires steps != [] && Enabled(db, steps[0]) && CanRun(Do(db, steps[0]), steps[1..])
    ensures CanRun(db, steps) && Run(db, steps) == Run(Do(db, steps[0]), steps[1..])
  {
  }

  /** A database in which `s` has begun to move `t`, its UPDATE flushed or not. */
  function Starting(db: Db, s: SessionId, t: TaskId, to: TaskState, tries: nat, flushed: bool): Db
    requires t in db.tasks
  {
    WithSession(db, s, Session(Some(SeenNow(db, t)), Moving(to, tries, flushed, NoLock)))
      .(rowLocks := if flushed then db.rowLocks[t := s] else db.rowLocks)
  }

  lemma CallStarts(db: Db, s: SessionId, t: TaskId, to: TaskState, tries: nat)
    requires s in db.sessions && t in db.tasks && db.sessions[s] == Session(Some(SeenNow(db, t)), Idle)
    requires Legal(db.tasks[t].state, to) && tries > 0
    ensures Enabled(db, CallMove(s, to, tries)) &&
            Do(db, CallMove(s, to, tries)) == Starting(db, s, t, to, tries, false)
  {
  }

  lemma FlushStarts(db: Db, s: SessionId, t: TaskId, to: TaskState, tries: nat)
    requires s in db.sessions && t in db.tasks && t !in db.rowLocks
    ensures Enabled(Starting(db, s, t, to, tries, false), Flush(s))
    ensures Do(Starting(db, s, t, to, tries, false), Flush(s)) == Starting(db, s, t, to, tries, true)
  {
  }

  lemma LockStarts(db: Db, s: SessionId, t: TaskId, to: TaskState, tries: nat)
    requires s in db.sessions && t in db.tasks && db.chainLock == None
    ensures Enabled(Starting(db, s, t, to, tries, true), LockChain(s))
    ensures Do(Starting(db, s, t, to, tries, true), LockChain(s)) == Driving(db, s, t, Moving(to, tries, true, Locked))
  {
  }

  lemma UncontendedStart(db: Db, s: SessionId, t: TaskId, to: TaskState, tries: nat, rest: seq<Step>)
    requires s in db.sessions && t in db.tasks && db.sessions[s] == Session(Some(SeenNow(db, t)), Idle)
    requires db.chainLock == None && t !in db.rowLocks && Legal(db.tasks[t].state, to) && tries > 0
    requires CanRun(Driving(db, s, t, Moving(to, tries, true, Locked)), rest)
    ensures CanRun(db, [CallMove(s, to, tries), Flush(s), LockChain(s)] + rest)
    ensures Run(db, [CallMove(s, to, tries), Flush(s), LockChain(s)] + rest) ==
            Run(Driving(db, s, t, Moving(to, tries, true, Locked)), rest)
  {
    CallStarts(db, s, t, to, tries);
    FlushStarts(db, s, t, to, tries);
    LockStarts(db, s, t, to, tries);
    RunStep(Starting(db, s, t, to, tries, true), LockChain(s), rest);
    RunStep(Starting(db, s, t, to, tries, false), Flush(s), [LockChain(s)] + rest);
    RunStep(db, CallMove(s, to, tries), [Flush(s)] + ([LockChain(s)] + rest));
    assert [CallMove(s, to, tries)] + ([Flush(s)] + ([LockChain(s)] + rest)) ==
           [CallMove(s, to, tries), Flush(s), LockChain(s)] + rest;
  }

  lemma RunStep(db: Db, step: Step, rest: seq<Step>)
    requires Enabled(db, step) && CanRun(Do(db, step), rest)
    ensures CanRun(db, [step] + rest) && Run(db, [step] + rest) == Run(Do(db, step), rest)
  {
    assert ([step] + rest)[1..] == rest;
  }

  /** Six steps carry an uncontended move through: nobody holds a lock, the view
      is current and the edge exists. The trail gains exactly that move. */
  lemma UncontendedMoveLands(db: Db, s: SessionId, t: TaskId, to: TaskState, tries: nat, id: int)
    requires s in db.sessions && t in db.tasks && db.sessions[s] == Session(Some(SeenNow(db, t)), Idle)
    requires db.chainLock == None && t !in db.rowLocks && Legal(db.tasks[t].state, to) && tries > 0
    requires FreshId(db.rows, TaskTransitions, id)
    ensures var steps := [CallMove(s, to, tries), Flush(s), LockChain(s)] + [ReadTip(s), DrawPos(s), Commit(s, id)];
            CanRun(db, steps) &&
            Run(db, steps).tasks == db.tasks[t := TaskRow(to, db.tasks[t].version + 1)] &&
            Run(db, steps).rows ==
              db.rows + [Stamped(id, Transition(t, db.tasks[t].state, to, ""), db.nextPos, TipHash(db.rows))]
  {
    UncontendedEnd(db, s, t, to, tries, id);
    UncontendedStart(db, s, t, to, tries, [ReadTip(s), DrawPos(s), Commit(s, id)]);
  }

  lemma UncontendedEnd(db: Db, s: SessionId, t: TaskId, to: TaskState, tries: nat, id: int)
    requires s in db.sessions && t in db.tasks && FreshId(db.rows, TaskTransitions, id)
    ensures var from := Driving(db, s, t, Moving(to, tries, true, Locked));
            var rest := [ReadTip(s), DrawPos(s), Commit(s, id)];
            CanRun(from, rest) &&
            Run(from, rest).tasks == db.tasks[t := TaskRow(to, db.tasks[t].version + 1)] &&
            Run(from, rest).rows ==
              db.rows + [Stamped(id, Transition(t, db.tasks[t].state, to, ""), db.nextPos, TipHash(db.rows))]
  {
    var rest := [ReadTip(s), DrawPos(s), Commit(s, id)];
    var d3 := Driving(db, s, t, Moving(to, tries, true, Locked));
    var d4 := Do(d3, ReadTip(s));
    var d5 := Do(d4, DrawPos(s));
    CommitLands(d5, s, t, to, tries, id, TipHash(db.rows), db.nextPos);
    assert rest[1..] == [DrawPos(s), Commit(s, id)] && rest[1..][1..] == [Commit(s, id)];
    RunOne(d4, rest[1..]);
    RunOne(d3, rest);
  }

  lemma CommitLands(db: Db, s: SessionId, t: TaskId, to: TaskState, tries: nat, id: int, tip: Digest, pos: int)
    requires s in db.sessions && t in db.tasks && FreshId(db.rows, TaskTransitions, id)
    requires db.sessions[s] == Session(Some(SeenNow(db, t)), Moving(to, tries, true, Drawn(tip, pos)))
    ensures CanRun(db, [Commit(s, id)])
    ensures Run(db, [Commit(s, id)]).tasks == db.tasks[t := TaskRow(to, db.tasks[t].version + 1)]
    ensures Run(db, [Commit(s, id)]).rows == db.rows + [Stamped(id, Transition(t, db.tasks[t].state, to, ""), pos, tip)]
  {
    RunOne(db, [Commit(s, id)]);
  }

  // ----- Lost races are tried again -----

  /** What one session's calls were answered, in order. */
  function EventsOf(log: seq<Event>, s: SessionId): seq<Event> {
    if log == [] then []
    else EventsOf(log[..|log| - 1], s) + if log[|log| - 1].session == s then [log[|log| - 1]] else []
  }

  lemma EventsSnoc(log: seq<Event>, e: Event, s: SessionId)
    ensures EventsOf(log + [e], s) == EventsOf(log, s) + if e.session == s then [e] else []
  {
    assert (log + [e])[..|log|] == log;
  }

  /** The steps of one call of `s`, with any steps of other sessions in between:
      `s` begins nothing else, and does not crash. */
  predicate OneCall(steps: seq<Step>, s: SessionId) {
    forall step :: step in steps && !step.CreateTask? && step.sid == s ==>
      step.Flush? || step.LockChain? || step.ReadTip? || step.DrawPos? || step.Commit?
  }

  /** The committed versions a call that last read `read` finds in front of it. */
  ghost function LostRaces(db: Db, read: View, s: SessionId, steps: seq<Step>): seq<View>
    requires CanRun(db, steps)
    decreases |steps|
  {
    if steps == [] then []
    else if steps[0] == Flush(s) && read.task in db.tasks && db.tasks[read.task].version != read.version then
      [SeenNow(db, read.task)] + LostRaces(Do(db, steps[0]), SeenNow(db, read.task), s, steps[1..])
    else LostRaces(Do(db, steps[0]), read, s, steps[1..])
  }

  predicate Commits(steps: seq<Step>, s: SessionId) {
    exists i :: 0 <= i < |steps| && steps[i].Commit? && steps[i].sid == s
  }

  function LastRead(read: View, races: seq<View>): View {
    if races == [] then read else races[|races| - 1]
  }

  /** A call that may lose `tries` races is over without a move: it lost them all,
      or found the task where the move is illegal. */
  predicate GivesUp(read: View, races: seq<View>, to: TaskState, tries: nat) {
    |races| == tries || !Legal(LastRead(read, races).state, to)
  }

  /** How a call is answered. */
  ghost function Answer(
    s: SessionId, read: View, races: seq<View>, to: TaskState, tries: nat, committed: bool): seq<Event>
  {
    if GivesUp(read, races, to, tries) then [Refused(s, read.task, to)]
    else if committed then [Moved(s, read.task, LastRead(read, races).state, to)]
    else []
  }

  lemma OtherSession(db: Db, step: Step, s: SessionId)
    requires Enabled(db, step) && (step.CreateTask? || step.sid != s) && s in db.sessions
    ensures s in Do(db, step).sessions && Do(db, step).sessions[s] == db.sessions[s]
  {
  }

  /** A step answers at most one call, its own session's. */
  ghost predicate LogGrows(db: Db, after: Db, s: SessionId) {
    after.log == db.log || exists e: Event :: e.session == s && after.log == db.log + [e]
  }

  lemma FlushLogs(db: Db, s: SessionId, view: View, job: Job)
    requires view.task in db.tasks
    ensures LogGrows(db, FlushUpdate(db, s, view, job), s)
  {
    assert Refused(s, view.task, if job.Moving? then job.to else Created).session == s;
  }

  lemma CommitLogs(db: Db, s: SessionId, id: int)
    requires Enabled(db, Commit(s, id))
    ensures LogGrows(db, Do(db, Commit(s, id)), s)
  {
    var v := db.sessions[s].view;
    if db.sessions[s].job.Moving? {
      assert Moved(s, v.value.task, v.value.state, db.sessions[s].job.to).session == s;
    }
  }

  lemma StepLogs(db: Db, step: Step)
    requires Enabled(db, step) && !step.CreateTask?
    ensures LogGrows(db, Do(db, step), Actor(step))
  {
    match step {
      case Flush(s) => FlushLogs(db, s, db.sessions[s].view.value, db.sessions[s].job);
      case Commit(s, id) => CommitLogs(db, s, id);
      case CallMove(s, to, _) => assert Refused(s, db.sessions[s].view.value.task, to).session == s;
      case Rollback(s) =>
        if db.sessions[s].job.Moving? && db.sessions[s].view.Some? {
          assert Refused(s, db.sessions[s].view.value.task, db.sessions[s].job.to).session == s;
        }
      case _ =>
    }
  }

  lemma OtherStep(db: Db, step: Step, s: SessionId)
    requires Enabled(db, step) && (step.CreateTask? || step.sid != s) && s in db.sessions
    ensures s in Do(db, step).sessions && Do(db, step).sessions[s] == db.sessions[s]
    ensures EventsOf(Do(db, step).log, s) == EventsOf(db.log, s)
  {
    OtherSession(db, step, s);
    if !step.CreateTask? {
      StepLogs(db, step);
      var after := Do(db, step);
      if after.log != db.log {
        var e: Event :| e.session == Actor(step) && after.log == db.log + [e];
        EventsSnoc(db.log, e, s);
      }
    }
  }

  lemma TasksStay(db: Db, step: Step)
    requires Enabled(db, step)
    ensures forall t :: t in db.tasks ==> t in Do(db, step).tasks
  {
  }

  /** An idle session's call is over. */
  lemma {:induction false} IdleRun(db: Db, read: View, s: SessionId, steps: seq<Step>)
    requires CanRun(db, steps) && OneCall(steps, s) && s in db.sessions && db.sessions[s].job == Idle
    ensures EventsOf(Run(db, steps).log, s) == EventsOf(db.log, s)
    ensures LostRaces(db, read, s, steps) == [] && !Commits(steps, s)
    decreases |steps|
  {
    if steps != [] {
      assert steps[0] in steps && forall step :: step in steps[1..] ==> step in steps;
      assert steps[0].CreateTask? || steps[0].sid != s;
      OtherStep(db, steps[0], s);
      IdleRun(Do(db, steps[0]), read, s, steps[1..]);
      assert steps == [steps[0]] + steps[1..];
    }
  }

  ghost predicate Calling(db: Db, s: SessionId, read: View, to: TaskState, tries: nat) {
    && s in db.sessions && db.sessions[s].view == Some(read) && read.task in db.tasks && Legal(read.state, to)
    && db.sessions[s].job.Moving? && db.sessions[s].job.to == to && db.sessions[s].job.tries == tries > 0
  }

  /** What a lost race does to the call. */
  lemma LostFlush(db: Db, s: SessionId, read: View, to: TaskState, tries: nat)
    requires Calling(db, s, read, to, tries) && Enabled(db, Flush(s)) && db.tasks[read.task].version != read.version
    ensures var now, after := SeenNow(db, read.task), Do(db, Flush(s));
            && s in after.sessions
            && (if tries > 1 && Legal(now.state, to) then
                  Calling(after, s, now, to, tries - 1) && EventsOf(after.log, s) == EventsOf(db.log, s)
                else
                  after.sessions[s].job == Idle &&
                      EventsOf(after.log, s) == EventsOf(db.log, s) + [Refused(s, read.task, to)])
  {
    EventsSnoc(db.log, Refused(s, read.task, to), s);
  }

  /** Any other step of the call that is not its commit. */
  lemma CallGoesOn(db: Db, step: Step, s: SessionId, read: View, to: TaskState, tries: nat)
    requires Calling(db, s, read, to, tries) && Enabled(db, step)
    requires step.LockChain? || step.ReadTip? || step.DrawPos?
             || (step.Flush? && db.tasks[read.task].version == read.version)
    requires step.sid == s
    ensures Calling(Do(db, step), s, read, to, tries) && Do(db, step).log == db.log
  {
  }

  lemma CallCommits(db: Db, s: SessionId, id: int, read: View, to: TaskState, tries: nat)
    requires Calling(db, s, read, to, tries) && Enabled(db, Commit(s, id))
    ensures var after := Do(db, Commit(s, id));
            && s in after.sessions && after.sessions[s].job == Idle
            && EventsOf(after.log, s) == EventsOf(db.log, s) + [Moved(s, read.task, read.state, to)]
  {
    EventsSnoc(db.log, Moved(s, read.task, read.state, to), s);
  }

  ghost predicate CallAnswered(db: Db, read: View, s: SessionId, to: TaskState, tries: nat, steps: seq<Step>)
    requires CanRun(db, steps)
  {
    var races := LostRaces(db, read, s, steps);
    && |races| <= tries
    && (forall i :: 0 <= i < |races| - 1 ==> Legal(races[i].state, to))
    && EventsOf(Run(db, steps).log, s) ==
         EventsOf(db.log, s) + Answer(s, read, races, to, tries, Commits(steps, s))
  }

  lemma LastStepAnswers(
    db: Db, read: View, s: SessionId, step: Step, to: TaskState, tries: nat, rest: seq<Step>, after: Db)
    requires CanRun(db, [step] + rest) && step != Flush(s) && Commits([step] + rest, s)
    requires tries > 0 && Legal(read.state, to)
    requires after == Do(db, step) && CanRun(after, rest) && LostRaces(after, read, s, rest) == []
    requires EventsOf(Run(after, rest).log, s) == EventsOf(db.log, s) + [Moved(s, read.task, read.state, to)]
    ensures CallAnswered(db, read, s, to, tries, [step] + rest)
  {
    RunTail(db, step, rest);
  }

  lemma OwnCommit(db: Db, read: View, s: SessionId, step: Step, to: TaskState, tries: nat, rest: seq<Step>)
    requires step.Commit? && step.sid == s
    requires CanRun(db, [step] + rest) && OneCall(rest, s) && Calling(db, s, read, to, tries)
    ensures CallAnswered(db, read, s, to, tries, [step] + rest)
  {
    RunTail(db, step, rest);
    CallCommits(db, s, step.id, read, to, tries);
    IdleRun(Do(db, step), read, s, rest);
    CommitsCons(step, rest, s);
    LastStepAnswers(db, read, s, step, to, tries, rest, Do(db, step));
  }

  lemma RunTail(db: Db, step: Step, rest: seq<Step>)
    requires CanRun(db, [step] + rest)
    ensures Enabled(db, step) && CanRun(Do(db, step), rest) && Run(db, [step] + rest) == Run(Do(db, step), rest)
    ensures forall read: View, s ::
              LostRaces(db, read, s, [step] + rest) ==
              if step == Flush(s) && read.task in db.tasks && db.tasks[read.task].version != read.version then
                [SeenNow(db, read.task)] + LostRaces(Do(db, step), SeenNow(db, read.task), s, rest)
              else LostRaces(Do(db, step), read, s, rest)
  {
    assert ([step] + rest)[1..] == rest;
  }

  /** The last race lost ends the call. */
  lemma OwnLastLoss(db: Db, read: View, s: SessionId, to: TaskState, tries: nat, rest: seq<Step>)
    requires CanRun(db, [Flush(s)] + rest) && OneCall(rest, s) && Calling(db, s, read, to, tries)
    requires db.tasks[read.task].version != read.version
    requires tries == 1 || !Legal(db.tasks[read.task].state, to)
    ensures CallAnswered(db, read, s, to, tries, [Flush(s)] + rest)
  {
    var now := SeenNow(db, read.task);
    RunTail(db, Flush(s), rest);
    LostFlush(db, s, read, to, tries);
    IdleRun(Do(db, Flush(s)), now, s, rest);
    assert LostRaces(db, read, s, [Flush(s)] + rest) == [now];
  }

  /** Any other race lost is followed by a try on what it left. */
  lemma OwnLoss(db: Db, read: View, s: SessionId, to: TaskState, tries: nat, rest: seq<Step>)
    requires CanRun(db, [Flush(s)] + rest) && Calling(db, s, read, to, tries)
    requires db.tasks[read.task].version != read.version && tries > 1 && Legal(db.tasks[read.task].state, to)
    requires CanRun(Do(db, Flush(s)), rest)
    requires CallAnswered(Do(db, Flush(s)), SeenNow(db, read.task), s, to, tries - 1, rest)
    ensures CallAnswered(db, read, s, to, tries, [Flush(s)] + rest)
  {
    var now := SeenNow(db, read.task);
    RunTail(db, Flush(s), rest);
    LostFlush(db, s, read, to, tries);
    CommitsCons(Flush(s), rest, s);
    var later := LostRaces(Do(db, Flush(s)), now, s, rest);
    var races := [now] + later;
    assert LostRaces(db, read, s, [Flush(s)] + rest) == races;
    assert LastRead(read, races) == LastRead(now, later);
    forall i | 0 <= i < |races| - 1 ensures Legal(races[i].state, to) {
      assert i > 0 ==> races[i] == later[i - 1];
    }
  }

  lemma OwnOther(db: Db, read: View, s: SessionId, step: Step, to: TaskState, tries: nat, rest: seq<Step>)
    requires CanRun(db, [step] + rest) && Calling(db, s, read, to, tries)
    requires step.LockChain? || step.ReadTip? || step.DrawPos?
             || (step.Flush? && db.tasks[read.task].version == read.version)
    requires step.sid == s
    requires CanRun(Do(db, step), rest) && CallAnswered(Do(db, step), read, s, to, tries, rest)
    ensures CallAnswered(db, read, s, to, tries, [step] + rest)
  {
    RunTail(db, step, rest);
    CallGoesOn(db, step, s, read, to, tries);
    CommitsCons(step, rest, s);
  }

  lemma ForeignStep(db: Db, read: View, s: SessionId, step: Step, to: TaskState, tries: nat, rest: seq<Step>)
    requires CanRun(db, [step] + rest) && Calling(db, s, read, to, tries) && (step.CreateTask? || step.sid != s)
    requires CanRun(Do(db, step), rest) && CallAnswered(Do(db, step), read, s, to, tries, rest)
    ensures CallAnswered(db, read, s, to, tries, [step] + rest)
  {
    RunTail(db, step, rest);
    OtherStep(db, step, s);
    CommitsCons(step, rest, s);
  }

  /** A call in progress, over any further run of any sessions: it is refused if and
      only if it loses as many races as it has tries, or one that leaves the task
      where the move is illegal; and every race before was re-read and still legal. */
  lemma {:induction false} CallRun(db: Db, read: View, s: SessionId, to: TaskState, tries: nat, steps: seq<Step>)
    requires CanRun(db, steps) && OneCall(steps, s) && Calling(db, s, read, to, tries)
    ensures CallAnswered(db, read, s, to, tries, steps)
    decreases |steps|
  {
    if steps != [] {
      var step, rest := steps[0], steps[1..];
      assert step in steps && steps == [step] + rest && forall x :: x in rest ==> x in steps;
      RunTail(db, step, rest);
      if step.CreateTask? || step.sid != s {
        OtherStep(db, step, s);
        TasksStay(db, step);
        CallRun(Do(db, step), read, s, to, tries, rest);
        ForeignStep(db, read, s, step, to, tries, rest);
      } else if step.Commit? {
        OwnCommit(db, read, s, step, to, tries, rest);
      } else if step.Flush? && db.tasks[read.task].version != read.version {
        LostFlush(db, s, read, to, tries);
        if tries > 1 && Legal(db.tasks[read.task].state, to) {
          CallRun(Do(db, step), SeenNow(db, read.task), s, to, tries - 1, rest);
          OwnLoss(db, read, s, to, tries, rest);
        } else {
          OwnLastLoss(db, read, s, to, tries, rest);
        }
      } else {
        CallGoesOn(db, step, s, read, to, tries);
        CallRun(Do(db, step), read, s, to, tries, rest);
        OwnOther(db, read, s, step, to, tries, rest);
      }
    }
  }

  lemma CommitsCons(step: Step, rest: seq<Step>, s: SessionId)
    ensures Commits([step] + rest, s) <==> (step.Commit? && step.sid == s) || Commits(rest, s)
  {
    var steps := [step] + rest;
    assert forall i :: 0 <= i < |rest| ==> rest[i] == steps[i + 1];
    if step.Commit? && step.sid == s {
      assert steps[0] == step;
    } else if Commits(rest, s) {
      var i :| 0 <= i < |rest| && rest[i].Commit? && rest[i].sid == s;
      assert steps[i + 1] == rest[i];
    }
  }

  /** A call to move, over any run of any sessions in which its own does not crash:
      with `races` the committed versions found in front of it, it is refused if and
      only if the move was illegal from the last state it read, or it lost as many
      races as it may. Otherwise it moves the task, once, when it commits. */
  lemma MoveCallIff(db: Db, s: SessionId, to: TaskState, tries: nat, read: View, steps: seq<Step>)
    requires s in db.sessions && db.sessions[s] == Session(Some(read), Idle) && read.task in db.tasks && tries > 0
    requires CanRun(db, [CallMove(s, to, tries)] + steps) && OneCall(steps, s)
    ensures var called := Do(db, CallMove(s, to, tries));
            && CanRun(called, steps)
            && var races := LostRaces(called, read, s, steps);
               && |races| <= tries && (forall i :: 0 <= i < |races| - 1 ==> Legal(races[i].state, to))
               && EventsOf(Run(db, [CallMove(s, to, tries)] + steps).log, s) ==
                    EventsOf(db.log, s) + Answer(s, read, races, to, tries, Commits(steps, s))
  {
    var called := Do(db, CallMove(s, to, tries));
    RunTail(db, CallMove(s, to, tries), steps);
    if Legal(read.state, to) {
      CallRun(called, read, s, to, tries, steps);
    } else {
      EventsSnoc(db.log, Refused(s, read.task, to), s);
      IdleRun(called, read, s, steps);
    }
  }

  /** Each of `races` is a newer version of the task than the one read before it. */
  ghost predicate EverNewer(read: View, races: seq<View>) {
    && (forall i :: 0 <= i < |races| ==> races[i].task == read.task && read.version < races[i].version)
    && (forall i, j :: 0 <= i < j < |races| ==> races[i].version < races[j].version)
  }

  lemma NewerCons(read: View, now: View, later: seq<View>)
    requires now.task == read.task && read.version < now.version && EverNewer(now, later)
    ensures EverNewer(read, [now] + later)
  {
    var races := [now] + later;
    assert forall i :: 0 < i < |races| ==> races[i] == later[i - 1];
  }

  /** Each race is lost to a newer version than the one read before it. */
  lemma {:induction false} RacesGetNewer(db: Db, read: View, s: SessionId, steps: seq<Step>)
    requires Inv(db) && CanRun(db, steps)
    requires read.task in db.tasks && read.version <= db.tasks[read.task].version
    ensures EverNewer(read, LostRaces(db, read, s, steps))
    decreases |steps|
  {
    if steps != [] {
      var step, rest := steps[0], steps[1..];
      assert steps == [step] + rest;
      RunTail(db, step, rest);
      StepKeepsInv(db, step);
      VersionsGrow(db, step);
      if step == Flush(s) && db.tasks[read.task].version != read.version {
        var now := SeenNow(db, read.task);
        RacesGetNewer(Do(db, step), now, s, rest);
        NewerCons(read, now, LostRaces(Do(db, step), now, s, rest));
      } else {
        RacesGetNewer(Do(db, step), read, s, rest);
      }
    }
  }

  lemma VersionsGrow(db: Db, step: Step)
    requires Inv(db) && Enabled(db, step)
    ensures forall t :: t in db.tasks ==>
            t in Do(db, step).tasks && db.tasks[t].version <= Do(db, step).tasks[t].version
  {
    if !step.CreateTask? {
      ActorIsReady(db, Actor(step));
      StepTouchesActorOnly(db, step);
    }
  }

  predicate HoldsNothing(db: Db, s: SessionId) {
    db.chainLock != Some(s) && forall t :: t in db.rowLocks ==> db.rowLocks[t] != s
  }

  lemma ReleasesNothing(db: Db, s: SessionId)
    requires HoldsNothing(db, s)
    ensures Released(db, s) == db
  {
  }

  /** After a lost race the task is read again and the move tried on what it is now. */
  lemma RetryStarts(db: Db, s: SessionId, t: TaskId, to: TaskState, tries: nat, read: View)
    requires s in db.sessions && t in db.tasks && read.task == t && HoldsNothing(db, s)
    requires db.sessions[s] == Session(Some(read), Moving(to, tries, false, NoLock)) && tries > 1
    requires t !in db.rowLocks && db.tasks[t].version != read.version && Legal(db.tasks[t].state, to)
    ensures Enabled(db, Flush(s)) && Do(db, Flush(s)) == Starting(db, s, t, to, tries - 1, false)
  {
    ReleasesNothing(db, s);
  }

  /** Whatever version was committed in front of a mover, if it leaves the move
      legal and the mover has a try left, the move lands after all, with one row. */
  lemma RetryLands(db: Db, s: SessionId, t: TaskId, to: TaskState, tries: nat, read: View, id: int)
    requires s in db.sessions && t in db.tasks && read.task == t && HoldsNothing(db, s)
    requires db.sessions[s] == Session(Some(read), Moving(to, tries, false, NoLock)) && tries > 1
    requires db.chainLock == None && t !in db.rowLocks
    requires db.tasks[t].version != read.version && Legal(db.tasks[t].state, to) &&
             FreshId(db.rows, TaskTransitions, id)
    ensures var steps := [Flush(s)] + ([Flush(s)] + ([LockChain(s)] + [ReadTip(s), DrawPos(s), Commit(s, id)]));
            && CanRun(db, steps)
            && Run(db, steps).tasks == db.tasks[t := TaskRow(to, db.tasks[t].version + 1)]
            && Run(db, steps).rows ==
                 db.rows + [Stamped(id, Transition(t, db.tasks[t].state, to, ""), db.nextPos, TipHash(db.rows))]
  {
    var last := [ReadTip(s), DrawPos(s), Commit(s, id)];
    RetryStarts(db, s, t, to, tries, read);
    FlushStarts(db, s, t, to, tries - 1);
    LockStarts(db, s, t, to, tries - 1);
    UncontendedEnd(db, s, t, to, tries - 1, id);
    RunStep(Starting(db, s, t, to, tries - 1, true), LockChain(s), last);
    RunStep(Starting(db, s, t, to, tries - 1, false), Flush(s), [LockChain(s)] + last);
    RunStep(db, Flush(s), [Flush(s)] + ([LockChain(s)] + last));
  }

  /** Another write of the row, which leaves the state alone and bumps the version. */
  lemma TouchBumps(db: Db, c: SessionId, t: TaskId, id: int)
    requires c in db.sessions && t in db.tasks && db.sessions[c] == Session(Some(SeenNow(db, t)), Idle)
    requires HoldsNothing(db, c) && t !in db.rowLocks
    ensures var steps := [CallTouch(c)] + ([Flush(c)] + [Commit(c, id)]);
            var bumped := TaskRow(db.tasks[t].state, db.tasks[t].version + 1);
            && CanRun(db, steps)
            && Run(db, steps) ==
                 db.(tasks := db.tasks[t := bumped],
                     sessions := db.sessions[c := Session(Some(View(t, bumped.state, bumped.version)), Idle)])
  {
    var view := SeenNow(db, t);
    var d1 := WithSession(db, c, Session(Some(view), Touching(false)));
    assert Do(db, CallTouch(c)) == d1;
    var d2 := WithSession(db, c, Session(Some(view), Touching(true))).(rowLocks := db.rowLocks[t := c]);
    assert Do(d1, Flush(c)) == d2;
    TouchCommits(db, c, t, id);
    RunOne(d2, [Commit(c, id)]);
    RunStep(d1, Flush(c), [Commit(c, id)]);
    RunStep(db, CallTouch(c), [Flush(c)] + [Commit(c, id)]);
  }

  lemma TouchCommits(db: Db, c: SessionId, t: TaskId, id: int)
    requires c in db.sessions && t in db.tasks && HoldsNothing(db, c) && t !in db.rowLocks
    ensures var touching := Session(Some(SeenNow(db, t)), Touching(true));
            var d := WithSession(db, c, touching).(rowLocks := db.rowLocks[t := c]);
            var bumped := TaskRow(db.tasks[t].state, db.tasks[t].version + 1);
            && Enabled(d, Commit(c, id))
            && Do(d, Commit(c, id)) ==
                 db.(tasks := db.tasks[t := bumped],
                     sessions := db.sessions[c := Session(Some(View(t, bumped.state, bumped.version)), Idle)])
  {
    var d := WithSession(db, c, Session(Some(SeenNow(db, t)), Touching(true))).(rowLocks := db.rowLocks[t := c]);
    assert Released(d, c).rowLocks == db.rowLocks;
  }

  /** A mover that loses its first race to such a write: the version is two further
      on at the end, and the move is in the trail once. */
  lemma ContendedMoveLands(db: Db, s: SessionId, c: SessionId, t: TaskId, to: TaskState, tries: nat, id: int)
    requires s in db.sessions && c in db.sessions && s != c && t in db.tasks && tries > 1
    requires db.sessions[s] == db.sessions[c] == Session(Some(SeenNow(db, t)), Idle)
    requires HoldsNothing(db, s) && HoldsNothing(db, c) && db.chainLock == None && t !in db.rowLocks
    requires Legal(db.tasks[t].state, to) && FreshId(db.rows, TaskTransitions, id)
    ensures var called := Do(db, CallMove(s, to, tries));
            var touch := [CallTouch(c)] + ([Flush(c)] + [Commit(c, 0)]);
            var move := [Flush(s)] + ([Flush(s)] + ([LockChain(s)] + [ReadTip(s), DrawPos(s), Commit(s, id)]));
            && Enabled(db, CallMove(s, to, tries)) && CanRun(called, touch) && CanRun(Run(called, touch), move)
            && var end := Run(Run(called, touch), move);
               && end.tasks == db.tasks[t := TaskRow(to, db.tasks[t].version + 2)]
               && end.rows ==
                    db.rows + [Stamped(id, Transition(t, db.tasks[t].state, to, ""), db.nextPos, TipHash(db.rows))]
  {
    CallStarts(db, s, t, to, tries);
    var called := Starting(db, s, t, to, tries, false);
    TouchBumps(called, c, t, 0);
    var touched := Run(called, [CallTouch(c)] + ([Flush(c)] + [Commit(c, 0)]));
    RetryLands(touched, s, t, to, tries, SeenNow(db, t), id);
    assert touched.tasks[t := TaskRow(to, db.tasks[t].version + 2)] ==
           db.tasks[t := TaskRow(to, db.tasks[t].version + 2)];
  }
}
