/** A coordination builds a chain: every child's native task hangs below the task of the child before it. */
module DispatchChain {
  import opened Common
  import opened Contracts
  import opened LedgerModel
  import opened LedgerHistory
  import opened DispatchFamily
  import opened DispatchModel
  import opened DispatchOutcomes
  import opened DispatchSystem
  import opened DispatchWorkflow

  /** Nobody has asked the board for this job before. */
  ghost predicate Unstarted(w: World, env: Envelope) {
    && (env.jobId in w.db.jobs ==> w.db.jobs[env.jobId].task.None?)
    && (forall t :: t in w.native ==> w.native[t].key != env.key)
  }

  function LastTask(steps: seq<WorkflowStep>, parent: Option<string>): Option<string> {
    if steps == [] then parent else Some(steps[|steps| - 1].task)
  }

  /** The native task of the i-th child was requested with the right handoff below the right parent. */
  ghost predicate ChildLinked(native: map<string, KanbanTask>, p: Proc, parent: Option<string>, i: nat)
    requires i < |p.steps| && i + 1 < |p.works| && p.works[i + 1].duty.Delegate?
  {
    var task := p.steps[i].task;
    task in native &&
    native[task] == TaskFor(p.works[i + 1].env, p.works[i + 1].duty.assignee, LastTask(p.steps[..i], parent))
  }

  ghost predicate PendingLinked(native: map<string, KanbanTask>, p: Proc) {
    p.at < |p.works| && p.pc.Attach? && p.Current().duty.Delegate? ==>
      p.pc.task in native && native[p.pc.task] == TaskFor(p.Current().env, p.Current().duty.assignee, p.parentTask)
  }

  /** The works whose keys the board may have learnt since the start. */
  function Asked(p: Proc): nat {
    if p.pc.Attach? || p.pc.Failed? then p.at + 1 else p.at
  }

  ghost predicate FromWorks(p: Proc, key: Key) {
    exists j :: 0 < j < |p.works| && j < Asked(p) && p.works[j].env.key == key
  }

  ghost predicate BoardFrom(start: World, native: map<string, KanbanTask>, p: Proc) {
    forall t :: t in native && t !in start.native ==> FromWorks(p, native[t].key)
  }

  /** The jobs still ahead got no task in the meantime. */
  ghost predicate AheadUntouched(start: World, db: Db, p: Proc) {
    forall j :: p.at <= j < |p.works| && 0 < j ==>
      var id := p.works[j].env.jobId;
      id in db.jobs && db.jobs[id].task.Some? ==> id in start.db.jobs && start.db.jobs[id].task.Some?
  }

  ghost predicate AllLinked(start: World, parent: Option<string>, native: map<string, KanbanTask>, p: Proc)
    requires Aligned(p)
  {
    forall i :: 0 <= i < |p.steps| && Unstarted(start, p.works[i + 1].env) ==> ChildLinked(native, p, parent, i)
  }

  /** The Kanban task of the coordinating job itself, when the call starts. */
  function ParentTask(start: World, id: Uuid): Option<string> {
    if id in start.db.jobs then start.db.jobs[id].task else None
  }

  ghost predicate ParentKnown(start: World, w: World, p: Proc)
    requires |p.works| > 0
  {
    var id := p.works[0].env.jobId;
    var parent := ParentTask(start, id);
    if p.at == 0 then if id in w.db.jobs then w.db.jobs[id].task == parent else parent == None
    else p.parentTask == LastTask(p.steps, parent)
  }

  ghost predicate Linked(start: World, w: World, p: Proc) {
    && Aligned(p) && DistinctWorks(p.works)
    && ParentKnown(start, w, p)
    && AllLinked(start, ParentTask(start, p.works[0].env.jobId), w.native, p)
    && (p.at < |p.works| && Unstarted(start, p.Current().env) ==> PendingLinked(w.native, p))
    && BoardKept(start.native, w.native) && BoardFrom(start, w.native, p) && AheadUntouched(start, w.db, p)
  }

  // ---- The board ----

  /** A request under a new key creates a new task, and the board records it as requested. */
  lemma HonestAnswer(start: World, native: map<string, KanbanTask>, p: Proc, request: KanbanTask, reply: Reply)
    requires p.at < |p.works| && p.at > 0 && DistinctWorks(p.works) && p.pc.Call?
    requires BoardFrom(start, native, p) && Honours(native, request.key, reply)
    requires request.key == p.works[p.at].env.key
    requires forall t :: t in start.native ==> start.native[t].key != request.key
    requires BoardKept(start.native, native)
    ensures reply.Give? ==> reply.task !in native
  {
  }

  lemma RequestIsFromWorks(start: World, native: map<string, KanbanTask>, p: Proc, request: KanbanTask, reply: Reply,
                           next: Proc)
    requires 0 < p.at < |p.works| && p.pc.Call? && BoardFrom(start, native, p)
    requires request.key == p.works[p.at].env.key
    requires next.works == p.works && next.at == p.at && (next.pc.Attach? || next.pc.Failed?)
    ensures BoardFrom(start, BoardAfter(native, request, reply), next)
  {
    forall t | t in BoardAfter(native, request, reply) && t !in start.native
      ensures FromWorks(next, BoardAfter(native, request, reply)[t].key)
    {
      if t in native {
        assert FromWorks(p, native[t].key);
      } else {
        assert next.works[p.at].env.key == request.key;
      }
    }
  }

  lemma LinksKept(start: World, parent: Option<string>, native: map<string, KanbanTask>,
                  board: map<string, KanbanTask>, p: Proc, next: Proc)
    requires Aligned(p) && Aligned(next) && next.works == p.works && next.steps == p.steps
    requires AllLinked(start, parent, native, p) && BoardKept(native, board)
    ensures AllLinked(start, parent, board, next)
  {
    forall i | 0 <= i < |next.steps| && Unstarted(start, next.works[i + 1].env)
      ensures ChildLinked(board, next, parent, i)
    {
      assert ChildLinked(native, p, parent, i);
    }
  }

  lemma CallLinks(start: World, w: World, p: Proc, request: KanbanTask, reply: Reply, next: Proc)
    requires Linked(start, w, p) && 0 < p.at < |p.works| && p.pc.Call?
    requires request == TaskFor(p.Current().env, p.Current().duty.assignee, p.parentTask)
    requires Honours(w.native, request.key, reply)
    requires next == p.(pc := if reply.Give? then Attach(reply.task) else Failed(AdapterFailure))
    ensures Linked(start, World(w.db, BoardAfter(w.native, request, reply)), next)
  {
    RequestIsFromWorks(start, w.native, p, request, reply, next);
    LinksKept(start, ParentTask(start, p.works[0].env.jobId), w.native, BoardAfter(w.native, request, reply), p, next);
    if Unstarted(start, p.Current().env) {
      HonestAnswer(start, w.native, p, request, reply);
    }
  }

  // ---- The ledger ----

  /** Waiting at the same job, without a request outstanding. */
  lemma WaitingLinks(start: World, w: World, p: Proc, next: Proc)
    requires Linked(start, w, p) && !p.pc.Attach? && !p.Stopped()
    requires next == p.(pc := next.pc) && !next.pc.Attach? && !next.pc.Returned? && (next.pc.Call? ==> p.at > 0)
    ensures Linked(start, w, next)
  {
    LinksKept(start, ParentTask(start, p.works[0].env.jobId), w.native, w.native, p, next);
    forall t | t in w.native && t !in start.native ensures FromWorks(next, w.native[t].key) {
      assert FromWorks(p, w.native[t].key);
    }
  }

  lemma CreateLinks(start: World, w: World, p: Proc, db: Db)
    requires Linked(start, w, p) && !p.Stopped()
    requires db == CreateJob(w.db, p.Current().env).db
    ensures Linked(start, World(db, w.native), p)
  {
    forall j | p.at <= j < |p.works| && 0 < j && p.works[j].env.jobId in db.jobs &&
      db.jobs[p.works[j].env.jobId].task.Some?
      ensures p.works[j].env.jobId in start.db.jobs && start.db.jobs[p.works[j].env.jobId].task.Some?
    {
      assert p.works[j].env.jobId in w.db.jobs;
    }
  }

  /** Moving on from a delegated job whose task is known. */
  lemma SettledLinks(start: World, w: World, db: Db, p: Proc, task: string)
    requires Linked(start, w, p) && 0 < p.at < |p.works| && !p.Stopped()
    requires Unstarted(start, p.Current().env) ==>
      task in w.native && w.native[task] == TaskFor(p.Current().env, p.Current().duty.assignee, p.parentTask)
    requires AheadUntouched(start, db, p.Settled(task))
    ensures Linked(start, World(db, w.native), p.Settled(task))
  {
    var next := p.Settled(task);
    var parent := ParentTask(start, p.works[0].env.jobId);
    SettledKeepsAligned(p, task);
    forall i | 0 <= i < |next.steps| && Unstarted(start, next.works[i + 1].env)
      ensures ChildLinked(w.native, next, parent, i)
    {
      if i < |p.steps| {
        assert ChildLinked(w.native, p, parent, i);
        assert next.steps[..i] == p.steps[..i];
      } else {
        assert next.steps[..i] == p.steps;
      }
    }
    BoardFromStays(start, w.native, p, next);
  }

  lemma BoardFromStays(start: World, native: map<string, KanbanTask>, p: Proc, next: Proc)
    requires BoardFrom(start, native, p) && next.works == p.works && Asked(next) >= Asked(p)
    ensures BoardFrom(start, native, next)
  {
    forall t | t in native && t !in start.native ensures FromWorks(next, native[t].key) {
      assert FromWorks(p, native[t].key);
    }
  }

  lemma EnsuredLinks(start: World, w: World, p: Proc)
    requires Linked(start, w, p) && !p.Stopped() && !p.pc.Attach? && p.Current().env.jobId in w.db.jobs
    ensures Linked(start, w, p.Ensured(w.db.jobs[p.Current().env.jobId]))
  {
    var job := w.db.jobs[p.Current().env.jobId];
    var next := p.Ensured(job);
    EnsuredKeepsAligned(p, job);
    if p.at == 0 {
    } else if job.task.Some? {
      assert AheadUntouched(start, w.db, next);
      SettledLinks(start, w, w.db, p, job.task.value);
    } else {
      WaitingLinks(start, w, p, next);
    }
  }

  lemma AttachLinks(start: World, w: World, p: Proc, db: Db)
    requires Linked(start, w, p) && 0 < p.at < |p.works| && p.pc.Attach?
    requires db == AttachTask(w.db, p.Current().env.jobId, p.pc.task).db
    ensures Linked(start, World(db, w.native), p.Settled(p.pc.task))
  {
    var next := p.Settled(p.pc.task);
    forall j | next.at <= j < |p.works| && p.works[j].env.jobId in db.jobs && db.jobs[p.works[j].env.jobId].task.Some?
      ensures p.works[j].env.jobId in start.db.jobs && start.db.jobs[p.works[j].env.jobId].task.Some?
    {
      assert p.works[j].env.jobId != p.works[p.at].env.jobId;
    }
    assert AheadUntouched(start, db, next);
    SettledLinks(start, w, db, p, p.pc.task);
  }

  lemma FailedLinks(start: World, w: World, p: Proc, next: Proc)
    requires Linked(start, w, p) && !p.Stopped()
    requires next == p.(pc := next.pc) && next.pc.Failed?
    ensures Linked(start, w, next)
  {
    LinksKept(start, ParentTask(start, p.works[0].env.jobId), w.native, w.native, p, next);
    forall t | t in w.native && t !in start.native ensures FromWorks(next, w.native[t].key) {
      assert FromWorks(p, w.native[t].key);
    }
  }

  lemma CreateTurnLinks(start: World, w: World, p: Proc, reply: Reply)
    requires Linked(start, w, p) && RowsOk(w.db.jobs) && !p.Stopped() && p.pc.Create?
    ensures Linked(start, Advance(w, p, reply).world, Advance(w, p, reply).proc)
  {
    hide Linked, RowsOk;
    var turn := Advance(w, p, reply);
    if turn.proc.pc.Failed? && turn.world == w {
      FailedLinks(start, w, p, turn.proc);
    } else if turn.world.db == w.db {
      CreateReturnsTheJob(w.db, p.Current().env);
      EnsuredLinks(start, w, p);
    } else {
      CreateLinks(start, w, p, turn.world.db);
      WaitingLinks(start, turn.world, p, turn.proc);
    }
  }

  lemma {:induction false} ReadTurnLinks(start: World, w: World, p: Proc, reply: Reply)
    requires Linked(start, w, p) && !p.Stopped() && (p.pc.Read? || p.pc.ReRead?)
    ensures Linked(start, Advance(w, p, reply).world, Advance(w, p, reply).proc)
  {
    if p.Current().env.jobId in w.db.jobs {
      EnsuredLinks(start, w, p);
    } else if p.pc.Read? {
      WaitingLinks(start, w, p, p.(pc := Create));
    } else {
      FailedLinks(start, w, p, p.(pc := Failed(LedgerFailure(KeyError))));
    }
  }

  lemma {:induction false} AttachTurnLinks(start: World, w: World, p: Proc, reply: Reply)
    requires Linked(start, w, p) && !p.Stopped() && p.pc.Attach?
    ensures Linked(start, Advance(w, p, reply).world, Advance(w, p, reply).proc)
  {
    var attached := AttachTask(w.db, p.Current().env.jobId, p.pc.task);
    if attached.outcome.Ok? {
      AttachLinks(start, w, p, attached.db);
    } else {
      FailedLinks(start, w, p, p.(pc := Failed(LedgerFailure(attached.outcome.error))));
    }
  }

  lemma {:induction false} LedgerTurnLinks(start: World, w: World, p: Proc, reply: Reply)
    requires Linked(start, w, p) && RowsOk(w.db.jobs) && !p.Stopped() && !p.pc.Call?
    ensures Linked(start, Advance(w, p, reply).world, Advance(w, p, reply).proc)
  {
    hide Advance, Linked, RowsOk;
    if p.pc.Attach? {
      AttachTurnLinks(start, w, p, reply);
    } else if p.pc.Create? {
      CreateTurnLinks(start, w, p, reply);
    } else {
      ReadTurnLinks(start, w, p, reply);
    }
  }

  lemma CallTurnLinks(start: World, w: World, p: Proc, reply: Reply)
    requires Linked(start, w, p) && !p.Stopped() && p.pc.Call? && Honours(w.native, p.Current().env.key, reply)
    ensures Linked(start, Advance(w, p, reply).world, Advance(w, p, reply).proc)
  {
    var turn := Advance(w, p, reply);
    if LimitationsOk(p.Current().env) {
      CallLinks(start, w, p, TaskFor(p.Current().env, p.Current().duty.assignee, p.parentTask), reply, turn.proc);
    } else {
      FailedLinks(start, w, p, turn.proc);
    }
  }

  lemma {:induction false} OneTurnLinks(start: World, w: World, p: Proc, script: seq<Reply>)
      returns (world: World, proc: Proc, rest: seq<Reply>)
    requires !p.Stopped() && Inv(w.db) && Linked(start, w, p) && Honest(w, p, script)
    ensures RunToEnd(w, p, script) == RunToEnd(world, proc, rest) && proc.works == p.works
    ensures proc.at > p.at || (proc.at == p.at && StepsLeft(proc.pc) < StepsLeft(p.pc))
    ensures Inv(world.db) && Linked(start, world, proc) && Honest(world, proc, rest)
  {
    world, proc, rest := OneTurn(w, p, script);
    AdvanceIsATransaction(w, p, FirstReply(script));
    if p.pc.Call? {
      CallTurnLinks(start, w, p, FirstReply(script));
    } else {
      LedgerTurnLinks(start, w, p, FirstReply(script));
    }
  }

  lemma {:induction false} RunLinks(start: World, w: World, p: Proc, script: seq<Reply>)
    requires Inv(w.db) && Linked(start, w, p) && Honest(w, p, script)
    ensures Linked(start, RunToEnd(w, p, script).world, RunToEnd(w, p, script).proc)
    decreases |p.works| - p.at, StepsLeft(p.pc)
  {
    if !p.Stopped() {
      var world, proc, rest := OneTurnLinks(start, w, p, script);
      RunLinks(start, world, proc, rest);
    }
  }

  lemma StartIsAligned(env: Envelope, stages: seq<Stage>)
    requires env.intent.DevelopmentCoordinate?
    ensures Aligned(Start(Program(env, stages)))
  {
    forall i | 0 < i < |Program(env, stages)| ensures Program(env, stages)[i].duty.Delegate? {
      var child := ChildAt(env, stages, i);
    }
  }

  /** The envelope of the i-th child, and the native task it must hang below. */
  ghost predicate ChainStep(w: World, env: Envelope, stages: seq<Stage>, end: End, i: nat)
    requires i < |stages| && i < |end.proc.steps|
  {
    var step := end.proc.steps[i];
    && ChildOf(step.env, env, stages[i].name, stages[i].intent,
               if i == 0 then [] else [end.proc.steps[i - 1].env.jobId])
    && StepSettled(end.world.db, step)
    && (Unstarted(w, step.env) ==>
          && step.task in end.world.native
          && HandsOver(end.world.native[step.task], step.env, stages[i].assignee,
                       if i == 0 then ParentTask(w, env.jobId) else Some(end.proc.steps[i - 1].task)))
  }

  /**
   A coordination over distinct stages builds a chain: each child depends on the job of the child before
   it, its row holds the reported task, and a child nobody had asked the board for gets a native task
   requested with its handoff below the task of the child before it.  When the call finishes, every stage
   is there; when it fails, the chain is there as far as it got.
   */
  lemma CoordinationBuildsAChain(w: World, env: Envelope, stages: seq<Stage>, script: seq<Reply>)
    requires Inv(w.db) && env.intent.DevelopmentCoordinate? && DistinctStages(stages)
    requires Honest(w, Start(Program(env, stages)), script)
    ensures var end := Coordinate(w, env, stages, script);
      && |end.proc.steps| <= |stages|
      && (end.proc.pc.Returned? <==> end.proc.at == |stages| + 1)
      && (end.proc.pc.Returned? ==> |end.proc.steps| == |stages|)
      && forall i :: 0 <= i < |end.proc.steps| ==> ChainStep(w, env, stages, end, i)
  {
    var end := Coordinate(w, env, stages, script);
    StagesGiveDistinctWorks(env, stages);
    StartIsAligned(env, stages);
    CoordinationIsOk(w, env, stages, script);
    RunLinks(w, w, Start(Program(env, stages)), script);
    forall i | 0 <= i < |end.proc.steps| ensures ChainStep(w, env, stages, end, i) {
      ChainStepHolds(w, env, stages, end, i);
    }
  }

  lemma ChainStepHolds(w: World, env: Envelope, stages: seq<Stage>, end: End, i: nat)
    requires env.intent.DevelopmentCoordinate? && end.proc.works == Program(env, stages)
    requires Aligned(end.proc) && ProcOk(end.world.db, end.proc)
    requires AllLinked(w, ParentTask(w, env.jobId), end.world.native, end.proc)
    requires i < |end.proc.steps|
    ensures i < |stages| && ChainStep(w, env, stages, end, i)
  {
    var parent := ParentTask(w, env.jobId);
    var child := end.proc.works[i + 1];
    assert child == ChildWork(env, stages, i);
    assert end.proc.steps[i].env == child.env;
    assert i > 0 ==> end.proc.steps[i - 1].env == end.proc.works[i].env;
    if i > 0 {
      var before := ChildAt(env, stages, i);
    }
    ChildrenAreMeant(env, stages[i], if i == 0 then None else Some(ChildId(env, stages[i - 1].name)));
    TasksAreMeant(child.env, stages[i].assignee, LastTask(end.proc.steps[..i], parent));
    hide HandsOver, ChildOf;
    assert StepSettled(end.world.db, end.proc.steps[i]);
    assert LastTask(end.proc.steps[..i], parent) == if i == 0 then parent else Some(end.proc.steps[i - 1].task);
    assert Unstarted(w, child.env) ==> ChildLinked(end.world.native, end.proc, parent, i);
  }
}
