/**
 What a board that honours idempotency keys adds: one native task per job, if the callers agree on the key
 of every job they delegate.  DispatchRaces shows that they must.
 */
module DispatchBoard {
  import opened Common
  import opened Contracts
  import opened LedgerModel
  import opened DispatchModel
  import opened DispatchSystem

  type Board = map<string, KanbanTask>

  // ---- What callers may ask the board for ----

  /** The board may be asked for this work: some call has it, delegates it and can write its handoff. */
  ghost predicate Asks(cfg: Config, work: Work) {
    && work.duty.Delegate? && LimitationsOk(work.env)
    && exists env :: MayCall(cfg, env) && work in Program(env, cfg.stages)
  }

  /** For one job the board is always asked under one key. */
  ghost predicate KeysAgree(cfg: Config) {
    forall a, b {:trigger Asks(cfg, a), Asks(cfg, b)} ::
      Asks(cfg, a) && Asks(cfg, b) && a.env.jobId == b.env.jobId ==> a.env.key == b.env.key
  }

  /** Under one key the board is always asked for one job. */
  ghost predicate KeysApart(cfg: Config) {
    forall a, b {:trigger Asks(cfg, a), Asks(cfg, b)} ::
      Asks(cfg, a) && Asks(cfg, b) && a.env.key == b.env.key ==> a.env.jobId == b.env.jobId
  }

  // ---- The invariant ----

  ghost predicate IsRequest(cfg: Config, work: Work, id: Uuid, key: Key) {
    Asks(cfg, work) && work.env.jobId == id && work.env.key == key
  }

  /** Job and key of a native task are those of some work the board was asked for. */
  ghost predicate Requested(cfg: Config, id: Uuid, key: Key) {
    exists work :: IsRequest(cfg, work, id, key)
  }

  ghost predicate BoardRequested(cfg: Config, native: Board) {
    forall t :: t in native ==> Requested(cfg, native[t].body.jobId, native[t].key)
  }

  ghost predicate BoardUnique(native: Board) {
    forall a, b :: a in native && b in native && native[a].key == native[b].key ==> a == b
  }

  /** The task in a job's row is on the board, under a key the board was asked for on behalf of that job. */
  ghost predicate RowOnBoard(cfg: Config, native: Board, id: Uuid, task: string) {
    task in native && Requested(cfg, id, native[task].key)
  }

  ghost predicate RowsOnBoard(cfg: Config, jobs: map<Uuid, Job>, native: Board) {
    forall id :: id in jobs && jobs[id].task.Some? ==> RowOnBoard(cfg, native, id, jobs[id].task.value)
  }

  ghost predicate TablesOk(cfg: Config, jobs: map<Uuid, Job>, native: Board) {
    BoardRequested(cfg, native) && BoardUnique(native) && RowsOnBoard(cfg, jobs, native)
  }

  ghost predicate FromCall(cfg: Config, works: seq<Work>) {
    exists env :: MayCall(cfg, env) && works == Program(env, cfg.stages)
  }

  ghost predicate ProcOnBoard(cfg: Config, native: Board, p: Proc) {
    && FromCall(cfg, p.works)
    && (!p.Stopped() && (p.pc.Call? || p.pc.Attach?) ==> p.Current().duty.Delegate?)
    && (!p.Stopped() && p.pc.Attach? ==>
          && LimitationsOk(p.Current().env)
          && p.pc.task in native && native[p.pc.task].key == p.Current().env.key)
  }

  ghost predicate ProcsOnBoard(cfg: Config, s: Sys) {
    forall p :: p in s.procs ==> ProcOnBoard(cfg, s.native, s.procs[p])
  }

  ghost predicate BoardOk(cfg: Config, s: Sys) {
    TablesOk(cfg, s.db.jobs, s.native) && ProcsOnBoard(cfg, s)
  }

  // ---- One step ----

  lemma CurrentAsks(cfg: Config, p: Proc)
    requires FromCall(cfg, p.works) && !p.Stopped() && p.Current().duty.Delegate? && LimitationsOk(p.Current().env)
    ensures Asks(cfg, p.Current())
    ensures IsRequest(cfg, p.Current(), p.Current().env.jobId, p.Current().env.key)
    ensures Requested(cfg, p.Current().env.jobId, p.Current().env.key)
  {
    hide Program, LimitationsOk, Accepted;
    var env :| MayCall(cfg, env) && p.works == Program(env, cfg.stages);
    assert p.works[p.at] in p.works;
  }

  /** Rows that have a task had it before. */
  ghost predicate NoNewTasks(a: map<Uuid, Job>, b: map<Uuid, Job>) {
    forall id :: id in b && b[id].task.Some? ==> id in a && a[id].task == b[id].task
  }

  lemma OthersAttachNothing(db: Db, op: Op)
    requires !op.OpAttach?
    ensures NoNewTasks(db.jobs, Apply(db, op).db.jobs)
  {
  }

  lemma NoNewTasksKeepTables(cfg: Config, a: map<Uuid, Job>, b: map<Uuid, Job>, native: Board)
    requires TablesOk(cfg, a, native) && NoNewTasks(a, b)
    ensures TablesOk(cfg, b, native)
  {
    forall id | id in b && b[id].task.Some? ensures RowOnBoard(cfg, native, id, b[id].task.value) {
      assert RowOnBoard(cfg, native, id, a[id].task.value);
    }
  }

  lemma AttachKeepsRows(cfg: Config, db: Db, native: Board, id: Uuid, task: string)
    requires RowsOnBoard(cfg, db.jobs, native) && RowOnBoard(cfg, native, id, task)
    ensures RowsOnBoard(cfg, AttachTask(db, id, task).db.jobs, native)
  {
    hide RowOnBoard;
    var jobs := AttachTask(db, id, task).db.jobs;
    forall x | x in jobs && jobs[x].task.Some? ensures RowOnBoard(cfg, native, x, jobs[x].task.value) {
      assert x != id ==> RowOnBoard(cfg, native, x, db.jobs[x].task.value);
    }
  }

  lemma CallKeepsRows(cfg: Config, jobs: map<Uuid, Job>, native: Board, board: Board)
    requires RowsOnBoard(cfg, jobs, native)
    requires forall t :: t in native ==> t in board && board[t] == native[t]
    ensures RowsOnBoard(cfg, jobs, board)
  {
    forall id | id in jobs && jobs[id].task.Some? ensures RowOnBoard(cfg, board, id, jobs[id].task.value) {
      assert RowOnBoard(cfg, native, id, jobs[id].task.value);
    }
  }

  lemma CallKeepsBoard(cfg: Config, native: Board, request: KanbanTask, task: string)
    requires BoardRequested(cfg, native) && BoardUnique(native) && Requested(cfg, request.body.jobId, request.key)
    requires Honours(native, request.key, Give(task))
    ensures BoardRequested(cfg, Created(native, task, request)) && BoardUnique(Created(native, task, request))
  {
    hide Requested;
  }

  lemma CallKeepsTables(cfg: Config, jobs: map<Uuid, Job>, native: Board, request: KanbanTask, reply: Reply)
    requires TablesOk(cfg, jobs, native) && Honours(native, request.key, reply)
    requires Requested(cfg, request.body.jobId, request.key)
    ensures TablesOk(cfg, jobs, BoardAfter(native, request, reply))
  {
    hide RowsOnBoard, Requested, BoardRequested, BoardUnique;
    CallKeepsRows(cfg, jobs, native, BoardAfter(native, request, reply));
    var made := if reply.Give? then Some(reply.task) else reply.created;
    if made.Some? {
      CallKeepsBoard(cfg, native, request, made.value);
    }
    hide Created;
  }

  lemma AnswerIsOnBoard(native: Board, request: KanbanTask, task: string)
    requires Honours(native, request.key, Give(task))
    ensures var board := BoardAfter(native, request, Give(task)); task in board && board[task].key == request.key
  {
  }

  /** Native tasks stay on the board. */
  lemma BoardGrows(w: World, p: Proc, reply: Reply)
    requires !p.Stopped()
    ensures forall t :: t in w.native ==>
      t in Advance(w, p, reply).world.native && Advance(w, p, reply).world.native[t] == w.native[t]
  {
  }

  lemma {:induction false} MoveKeepsTables(cfg: Config, s: Sys, p: Proc, reply: Reply)
    requires TablesOk(cfg, s.db.jobs, s.native) && ProcOnBoard(cfg, s.native, p) && !p.Stopped()
    requires p.pc.Call? ==> Honours(s.native, p.Current().env.key, reply)
    ensures var turn := Advance(World(s.db, s.native), p, reply); TablesOk(cfg, turn.world.db.jobs, turn.world.native)
  {
    hide BoardRequested, BoardUnique, RowsOnBoard, FromCall, CreateJob, AttachTask, BoardAfter;
    if p.pc.Attach? {
      CurrentAsks(cfg, p);
      AttachKeepsRows(cfg, s.db, s.native, p.Current().env.jobId, p.pc.task);
    } else if p.pc.Call? {
      if LimitationsOk(p.Current().env) {
        CurrentAsks(cfg, p);
        CallKeepsTables(cfg, s.db.jobs, s.native, RequestFor(p), reply);
      }
    } else if p.pc.Create? {
      OthersAttachNothing(s.db, OpCreate(p.Current().env));
      NoNewTasksKeepTables(cfg, s.db.jobs, CreateJob(s.db, p.Current().env).db.jobs, s.native);
    }
  }

  lemma {:induction false} MoveKeepsProc(cfg: Config, w: World, p: Proc, reply: Reply)
    requires ProcOnBoard(cfg, w.native, p) && !p.Stopped()
    requires p.pc.Call? ==> Honours(w.native, p.Current().env.key, reply)
    ensures ProcOnBoard(cfg, Advance(w, p, reply).world.native, Advance(w, p, reply).proc)
  {
    hide FromCall;
    if p.pc.Call? && reply.Give? {
      hide Honours, BoardAfter;
      AnswerIsOnBoard(w.native, RequestFor(p), reply.task);
    }
  }

  lemma OthersStayOnBoard(cfg: Config, s: Sys, next: Sys)
    requires ProcsOnBoard(cfg, s)
    requires forall t :: t in s.native ==> t in next.native && next.native[t] == s.native[t]
    ensures forall p :: p in s.procs ==> ProcOnBoard(cfg, next.native, s.procs[p])
  {
  }

  lemma {:induction false} StepKeepsBoard(cfg: Config, s: Sys, step: Step)
    requires cfg.honours && BoardOk(cfg, s)
    ensures BoardOk(cfg, Do(cfg, s, step))
  {
    hide TablesOk, Accepted;
    var next := Do(cfg, s, step);
    match step
    case Spawn(_, _) =>
    case Move(p, reply) =>
      if next != s {
        MoveKeepsTables(cfg, s, s.procs[p], reply);
        MoveKeepsProc(cfg, World(s.db, s.native), s.procs[p], reply);
        BoardGrows(World(s.db, s.native), s.procs[p], reply);
        OthersStayOnBoard(cfg, s, next);
      }
    case Crash(_) =>
    case Elsewhere(op) =>
      if OthersMay(op) {
        OthersAttachNothing(s.db, op);
        NoNewTasksKeepTables(cfg, s.db.jobs, next.db.jobs, s.native);
      }
  }

  lemma {:induction false} RunKeepsBoard(cfg: Config, steps: seq<Step>)
    requires cfg.honours
    ensures BoardOk(cfg, RunSys(cfg, INIT, steps))
  {
    if steps != [] {
      RunKeepsBoard(cfg, steps[..|steps| - 1]);
      StepKeepsBoard(cfg, RunSys(cfg, INIT, steps[..|steps| - 1]), steps[|steps| - 1]);
    }
  }

  // ---- Theorems ----

  /** After any interleaving, crashes and retries included, no two native tasks were handed the same job. */
  lemma OneNativeTaskPerJob(cfg: Config, steps: seq<Step>, a: string, b: string)
    requires cfg.honours && KeysAgree(cfg)
    requires var native := RunSys(cfg, INIT, steps).native;
      a in native && b in native && native[a].body.jobId == native[b].body.jobId
    ensures a == b
  {
    RunKeepsBoard(cfg, steps);
    var native := RunSys(cfg, INIT, steps).native;
    assert Requested(cfg, native[a].body.jobId, native[a].key) && Requested(cfg, native[b].body.jobId, native[b].key);
  }

  /** The task that a job's row names exists on the board and was requested for that very job. */
  lemma AttachedTaskIsTheJobsTask(cfg: Config, steps: seq<Step>, id: Uuid)
    requires cfg.honours && KeysApart(cfg)
    requires var db := RunSys(cfg, INIT, steps).db; id in db.jobs && db.jobs[id].task.Some?
    ensures var s := RunSys(cfg, INIT, steps);
      s.db.jobs[id].task.value in s.native && s.native[s.db.jobs[id].task.value].body.jobId == id
  {
    RunKeepsBoard(cfg, steps);
    var s := RunSys(cfg, INIT, steps);
    var task := s.db.jobs[id].task.value;
    assert RowOnBoard(cfg, s.native, id, task);
    assert Requested(cfg, s.native[task].body.jobId, s.native[task].key);
  }

  /** A retry after a crash between `create_task` and attach can never meet a different task. */
  lemma {:induction false} AttachNeverConflicts(cfg: Config, steps: seq<Step>, p: nat)
    requires cfg.honours && KeysAgree(cfg)
    requires var s := RunSys(cfg, INIT, steps);
      p in s.procs && !s.procs[p].Stopped() && s.procs[p].pc.Attach? && !Blank(s.procs[p].pc.task)
    ensures var s := RunSys(cfg, INIT, steps);
      AttachTask(s.db, s.procs[p].Current().env.jobId, s.procs[p].pc.task).outcome.Ok?
  {
    RunKeepsBoard(cfg, steps);
    SysKeeps(cfg, INIT, steps);
    var s := RunSys(cfg, INIT, steps);
    var proc := s.procs[p];
    assert ProcOnBoard(cfg, s.native, proc) && ProcOk(s.db, proc);
    CurrentAsks(cfg, proc);
    var row := s.db.jobs[proc.Current().env.jobId];
    if row.task.Some? {
      assert RowOnBoard(cfg, s.native, proc.Current().env.jobId, row.task.value);
    }
  }
}
