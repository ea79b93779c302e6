/** Coordinations that interleave, crash and are retried still leave one chain of native tasks. */
module DispatchInterleaved {
  import opened Common
  import opened Contracts
  import opened LedgerModel
  import opened LedgerHistory
  import opened DispatchBoard
  import opened DispatchExact
  import opened DispatchFamily
  import opened DispatchModel
  import opened DispatchRaces
  import opened DispatchSystem

  /** A call that asks the board for its own job. */
  ghost predicate AsksForItself(cfg: Config, e: Envelope) {
    MayCall(cfg, e) && !e.intent.DevelopmentCoordinate? && Asks(cfg, Work(e, DutyOf(e)))
  }

  /** `id` is a child of the coordination, and not its first one. */
  ghost predicate LaterChild(cfg: Config, env: Envelope, id: Uuid) {
    exists i :: 0 < i < |cfg.stages| && id == ChildId(env, cfg.stages[i].name)
  }

  /** For the later children of a coordination the board is only asked by coordinations. */
  ghost predicate OnlyCoordinated(cfg: Config, env: Envelope) {
    forall e :: AsksForItself(cfg, e) ==> !LaterChild(cfg, env, e.jobId)
  }

  /** Under the key of a later child the board is asked for no other job. */
  ghost predicate LaterKeysApart(cfg: Config, env: Envelope) {
    forall a, b {:trigger Asks(cfg, a), Asks(cfg, b)} ::
      Asks(cfg, a) && Asks(cfg, b) && a.env.key == b.env.key && LaterChild(cfg, env, a.env.jobId) ==>
        a.env.jobId == b.env.jobId
  }

  /** A call that is past a delegated job carries the task in that job's row. */
  ghost predicate CarriesTask(db: Db, p: Proc) {
    0 < p.at <= |p.works| && p.works[p.at - 1].duty.Delegate? ==>
      var id := p.works[p.at - 1].env.jobId;
      id in db.jobs && p.parentTask.Some? && db.jobs[id].task == p.parentTask
  }

  ghost predicate AllCarry(s: Sys) {
    forall p :: p in s.procs ==> CarriesTask(s.db, s.procs[p])
  }

  /** The row of a job has the one task below which the native task `task` hangs. */
  ghost predicate Below(jobs: map<Uuid, Job>, task: KanbanTask, id: Uuid) {
    id in jobs && jobs[id].task.Some? && !Blank(jobs[id].task.value) && task.parents == [jobs[id].task.value]
  }

  /** Every native task of a later child hangs below the task in the row of the child before it. */
  ghost predicate TaskChained(cfg: Config, env: Envelope, jobs: map<Uuid, Job>, task: KanbanTask) {
    forall i :: 0 < i < |cfg.stages| && task.body.jobId == ChildId(env, cfg.stages[i].name) ==>
      Below(jobs, task, ChildId(env, cfg.stages[i - 1].name))
  }

  ghost predicate BoardChained(cfg: Config, env: Envelope, jobs: map<Uuid, Job>, native: Board) {
    forall t :: t in native ==> TaskChained(cfg, env, jobs, native[t])
  }

  // ---- What a call carries ----

  lemma CarriesLater(a: Db, b: Db, p: Proc)
    requires CarriesTask(a, p) && Evolves(a, b)
    ensures CarriesTask(b, p)
  {
    if 0 < p.at <= |p.works| && p.works[p.at - 1].duty.Delegate? {
      var id := p.works[p.at - 1].env.jobId;
      assert KeepsRow(a.jobs[id], b.jobs[id]);
    }
  }

  lemma SettledCarries(db: Db, p: Proc, task: string)
    requires p.at < |p.works| && StepSettled(db, WorkflowStep(p.Current().env, task))
    ensures CarriesTask(db, p.Settled(task))
  {
  }

  lemma EnsuredCarries(db: Db, p: Proc)
    requires p.at < |p.works| && p.Current().env.jobId in db.jobs && CarriesTask(db, p)
    ensures CarriesTask(db, p.Ensured(db.jobs[p.Current().env.jobId]))
  {
    var job := db.jobs[p.Current().env.jobId];
    if p.Current().duty.Delegate? && job.task.Some? {
      SettledCarries(db, p, job.task.value);
    }
  }

  lemma {:induction false} MoveCarries(w: World, p: Proc, reply: Reply)
    requires RowsOk(w.db.jobs) && !p.Stopped() && CarriesTask(w.db, p) && Evolves(w.db, Advance(w, p, reply).world.db)
    ensures CarriesTask(Advance(w, p, reply).world.db, Advance(w, p, reply).proc)
  {
    var turn := Advance(w, p, reply);
    CarriesLater(w.db, turn.world.db, p);
    if p.pc.Attach? {
      if AttachTask(w.db, p.Current().env.jobId, p.pc.task).outcome.Ok? {
        AttachedIsSettled(w.db, p.Current().env, p.pc.task);
        SettledCarries(turn.world.db, p, p.pc.task);
      }
    } else if p.pc.Create? {
      CreateCarries(w, p, reply);
    } else if p.Current().env.jobId in w.db.jobs {
      EnsuredCarries(w.db, p);
    }
  }

  lemma {:induction false} CreateCarries(w: World, p: Proc, reply: Reply)
    requires RowsOk(w.db.jobs) && !p.Stopped() && p.pc.Create? && CarriesTask(w.db, p)
    requires CarriesTask(Advance(w, p, reply).world.db, p)
    ensures CarriesTask(Advance(w, p, reply).world.db, Advance(w, p, reply).proc)
  {
    var c := CreateJob(w.db, p.Current().env);
    if c.outcome.Ok? && c.db == w.db {
      CreateReturnsTheJob(w.db, p.Current().env);
      EnsuredCarries(w.db, p);
    }
  }

  // ---- What the board shows ----

  lemma ChainedLater(cfg: Config, env: Envelope, a: Db, b: Db, native: Board)
    requires BoardChained(cfg, env, a.jobs, native) && Evolves(a, b)
    ensures BoardChained(cfg, env, b.jobs, native)
  {
    forall t | t in native ensures TaskChained(cfg, env, b.jobs, native[t]) {
      assert TaskChained(cfg, env, a.jobs, native[t]);
      forall i | 0 < i < |cfg.stages| && native[t].body.jobId == ChildId(env, cfg.stages[i].name)
        ensures Below(b.jobs, native[t], ChildId(env, cfg.stages[i - 1].name))
      {
        var id := ChildId(env, cfg.stages[i - 1].name);
        assert Below(a.jobs, native[t], id);
        assert KeepsRow(a.jobs[id], b.jobs[id]);
      }
    }
  }

  lemma TasksAreNamed(db: Db, id: Uuid)
    requires Inv(db) && id in db.jobs && db.jobs[id].task.Some?
    ensures !Blank(db.jobs[id].task.value)
  {
    assert JobOk(db.jobs[id], db.log);
  }

  lemma SingleWork(env: Envelope, stages: seq<Stage>, at: nat)
    requires !env.intent.DevelopmentCoordinate? && at < |Program(env, stages)|
    ensures at == 0 && Program(env, stages)[at] == Work(env, DutyOf(env))
  {
  }

  /** A work for the job of a child is that child, in a coordination of the same job. */
  lemma ChildInItsCall(cfg: Config, env: Envelope, e: Envelope, at: nat, i: nat)
    requires OnlyCoordinated(cfg, env) && DistinctStages(cfg.stages) && env.intent.DevelopmentCoordinate? &&
      MayCall(cfg, e)
    requires at < |Program(e, cfg.stages)| && Program(e, cfg.stages)[at].duty.Delegate? && 0 < i < |cfg.stages|
    requires LimitationsOk(Program(e, cfg.stages)[at].env)
    requires Program(e, cfg.stages)[at].env.jobId == ChildId(env, cfg.stages[i].name)
    ensures at == i + 1 && Program(e, cfg.stages)[at - 1].duty.Delegate?
    ensures Program(e, cfg.stages)[at - 1].env.jobId == ChildId(env, cfg.stages[i - 1].name)
  {
    hide LimitationsOk, Accepted;
    if !e.intent.DevelopmentCoordinate? {
      SingleWork(e, cfg.stages, at);
      assert Program(e, cfg.stages)[at] in Program(e, cfg.stages);
      assert AsksForItself(cfg, e) && LaterChild(cfg, env, e.jobId);
    }
    var mine := ChildAt(env, cfg.stages, i + 1);
    var theirs := ChildAt(e, cfg.stages, at);
    SameChildSameStage(e, at, env, i + 1, cfg.stages);
    var before := ChildAt(e, cfg.stages, at - 1);
  }

  /** What a call asks for a later child hangs below the task of the child before it. */
  lemma RequestIsChained(cfg: Config, env: Envelope, s: Sys, p: Proc)
    requires OnlyCoordinated(cfg, env) && DistinctStages(cfg.stages) && env.intent.DevelopmentCoordinate?
    requires Inv(s.db) && CarriesTask(s.db, p) && ProcOnBoard(cfg, s.native, p) && !p.Stopped() && p.pc.Call?
    requires LimitationsOk(p.Current().env)
    ensures TaskChained(cfg, env, s.db.jobs, RequestFor(p))
  {
    var e :| MayCall(cfg, e) && p.works == Program(e, cfg.stages);
    hide Program, Inv, OnlyCoordinated, LimitationsOk, Accepted;
    forall i | 0 < i < |cfg.stages| && RequestFor(p).body.jobId == ChildId(env, cfg.stages[i].name)
      ensures Below(s.db.jobs, RequestFor(p), ChildId(env, cfg.stages[i - 1].name))
    {
      ChildInItsCall(cfg, env, e, p.at, i);
      TasksAreNamed(s.db, ChildId(env, cfg.stages[i - 1].name));
    }
  }

  lemma CallChains(cfg: Config, env: Envelope, jobs: map<Uuid, Job>, native: Board, request: KanbanTask, reply: Reply)
    requires BoardChained(cfg, env, jobs, native) && TaskChained(cfg, env, jobs, request)
    ensures BoardChained(cfg, env, jobs, BoardAfter(native, request, reply))
  {
    hide TaskChained;
  }

  // ---- One step, and all of them ----

  ghost predicate Chained(cfg: Config, env: Envelope, s: Sys) {
    Inv(s.db) && ProcsOk(s) && BoardOk(cfg, s) && AllCarry(s) && BoardChained(cfg, env, s.db.jobs, s.native)
  }

  lemma {:induction false} BoardMoves(w: World, p: Proc, reply: Reply)
    requires !p.Stopped()
    ensures var next := Advance(w, p, reply).world;
      if p.pc.Call? && LimitationsOk(p.Current().env) then
        next == w.(native := BoardAfter(w.native, RequestFor(p), reply))
      else next.native == w.native && (p.pc.Call? ==> next == w)
  {
    hide LimitationsOk, CreateJob, AttachTask;
  }

  lemma {:induction false} MoveChains(cfg: Config, env: Envelope, s: Sys, p: Proc, reply: Reply)
    requires OnlyCoordinated(cfg, env) && DistinctStages(cfg.stages) && env.intent.DevelopmentCoordinate?
    requires Inv(s.db) && BoardChained(cfg, env, s.db.jobs, s.native)
    requires CarriesTask(s.db, p) && ProcOnBoard(cfg, s.native, p) && !p.Stopped()
    ensures var turn := Advance(World(s.db, s.native), p, reply);
      BoardChained(cfg, env, turn.world.db.jobs, turn.world.native)
  {
    hide Advance, Inv, BoardChained, OnlyCoordinated, DistinctStages, CarriesTask, ProcOnBoard, LimitationsOk,
      BoardAfter;
    BoardMoves(World(s.db, s.native), p, reply);
    if p.pc.Call? && LimitationsOk(p.Current().env) {
      RequestIsChained(cfg, env, s, p);
      CallChains(cfg, env, s.db.jobs, s.native, RequestFor(p), reply);
    } else {
      AdvanceIsATransaction(World(s.db, s.native), p, reply);
      ChainedLater(cfg, env, s.db, Advance(World(s.db, s.native), p, reply).world.db, s.native);
    }
  }

  lemma OthersCarry(s: Sys, next: Sys)
    requires AllCarry(s) && Evolves(s.db, next.db)
    ensures forall p :: p in s.procs ==> CarriesTask(next.db, s.procs[p])
  {
    forall p | p in s.procs ensures CarriesTask(next.db, s.procs[p]) {
      CarriesLater(s.db, next.db, s.procs[p]);
    }
  }

  lemma {:induction false} StepChains(cfg: Config, env: Envelope, s: Sys, step: Step)
    requires cfg.honours && OnlyCoordinated(cfg, env) && DistinctStages(cfg.stages) && env.intent.DevelopmentCoordinate?
    requires Chained(cfg, env, s)
    ensures Chained(cfg, env, Do(cfg, s, step))
  {
    hide Inv, BoardOk, ProcsOk, CarriesTask, BoardChained, Evolves, Advance, Apply, ReplyAllowed, Program, Accepted;
    var next := Do(cfg, s, step);
    DoKeeps(cfg, s, step);
    StepKeepsBoard(cfg, s, step);
    OthersCarry(s, next);
    match step
    case Spawn(_, e) => NothingCarried(next.db, Program(e, cfg.stages));
    case Crash(_) =>
    case Elsewhere(_) => ChainedLater(cfg, env, s.db, next.db, s.native);
    case Move(p, reply) =>
      if next != s {
        BoardMembers(cfg, s, p);
        InvRows(s.db);
        MoveChains(cfg, env, s, s.procs[p], reply);
        MoveCarries(World(s.db, s.native), s.procs[p], reply);
      }
  }

  lemma NothingCarried(db: Db, works: seq<Work>)
    ensures CarriesTask(db, Start(works))
  {
  }

  lemma BoardMembers(cfg: Config, s: Sys, p: nat)
    requires BoardOk(cfg, s) && p in s.procs
    ensures ProcOnBoard(cfg, s.native, s.procs[p])
  {
  }

  lemma InvRows(db: Db)
    requires Inv(db)
    ensures RowsOk(db.jobs)
  {
  }

  lemma {:induction false} RunChains(cfg: Config, env: Envelope, steps: seq<Step>)
    requires cfg.honours && OnlyCoordinated(cfg, env) && DistinctStages(cfg.stages) && env.intent.DevelopmentCoordinate?
    ensures Chained(cfg, env, RunSys(cfg, INIT, steps))
  {
    if steps != [] {
      RunChains(cfg, env, steps[..|steps| - 1]);
      StepChains(cfg, env, RunSys(cfg, INIT, steps[..|steps| - 1]), steps[|steps| - 1]);
    }
  }

  /** The row of the child names a task requested for it, which hangs below the task in the row before it. */
  ghost predicate ChildChained(s: Sys, child: Uuid, before: Uuid) {
    child in s.db.jobs && s.db.jobs[child].task.Some? ==>
      var task := s.db.jobs[child].task.value;
      && task in s.native && s.native[task].body.jobId == child
      && before in s.db.jobs && s.db.jobs[before].task.Some?
      && s.native[task].parents == [s.db.jobs[before].task.value]
  }

  lemma LaterTaskIsItsOwn(cfg: Config, env: Envelope, s: Sys, id: Uuid)
    requires BoardOk(cfg, s) && LaterKeysApart(cfg, env) && LaterChild(cfg, env, id)
    requires id in s.db.jobs && s.db.jobs[id].task.Some?
    ensures s.db.jobs[id].task.value in s.native && s.native[s.db.jobs[id].task.value].body.jobId == id
  {
    hide Asks, LaterChild;
    var task := s.db.jobs[id].task.value;
    assert RowOnBoard(cfg, s.native, id, task);
    assert Requested(cfg, s.native[task].body.jobId, s.native[task].key);
  }

  /**
   However many coordinations of a job run at once, crash and are retried: whenever the row of a later child
   has a task, that task was requested for the child and hangs below exactly the task in the row of the child
   before it.
   */
  lemma {:induction false} InterleavedCoordinationsChain(cfg: Config, env: Envelope, steps: seq<Step>, i: nat)
    requires cfg.honours && LaterKeysApart(cfg, env) && OnlyCoordinated(cfg, env)
    requires env.intent.DevelopmentCoordinate? && DistinctStages(cfg.stages) && 0 < i < |cfg.stages|
    ensures ChildChained(RunSys(cfg, INIT, steps), ChildId(env, cfg.stages[i].name),
                         ChildId(env, cfg.stages[i - 1].name))
  {
    RunChains(cfg, env, steps);
    var s := RunSys(cfg, INIT, steps);
    var child, before := ChildId(env, cfg.stages[i].name), ChildId(env, cfg.stages[i - 1].name);
    if child in s.db.jobs && s.db.jobs[child].task.Some? {
      assert LaterChild(cfg, env, child);
      LaterTaskIsItsOwn(cfg, env, s, child);
      assert TaskChained(cfg, env, s.db.jobs, s.native[s.db.jobs[child].task.value]);
      assert Below(s.db.jobs, s.native[s.db.jobs[child].task.value], before);
    }
  }

  // ---- The conditions are needed ----

  ghost predicate AlwaysChained(cfg: Config, env: Envelope) {
    forall steps, i :: 0 < i < |cfg.stages| ==> ChainedIn(cfg, env, steps, i)
  }

  ghost predicate ChainedIn(cfg: Config, env: Envelope, steps: seq<Step>, i: nat)
    requires 0 < i < |cfg.stages|
  {
    ChildChained(RunSys(cfg, INIT, steps), ChildId(env, cfg.stages[i].name), ChildId(env, cfg.stages[i - 1].name))
  }

  /** A later child whose row names a task of another job, or one that hangs below nothing, breaks the chain. */
  lemma Unchained(cfg: Config, env: Envelope, s: Sys, id: Uuid)
    requires Leads(cfg, INIT, s) && LaterChild(cfg, env, id) && id in s.db.jobs && s.db.jobs[id].task.Some?
    requires var task := s.db.jobs[id].task.value;
      task in s.native ==> s.native[task].body.jobId != id || s.native[task].parents == []
    ensures !AlwaysChained(cfg, env)
  {
    var steps :| RunSys(cfg, INIT, steps) == s;
    var i :| 0 < i < |cfg.stages| && id == ChildId(env, cfg.stages[i].name);
    assert !ChainedIn(cfg, env, steps, i);
  }

  /** A new call that asks for its own job stands before the board without a task to hang the new one below. */
  lemma AsksAlone(cfg: Config, s: Sys, e: Envelope) returns (next: Sys)
    requires AsksForItself(cfg, e) && s.procs == map[] && s.native == map[]
    requires e.jobId in s.db.jobs && s.db.jobs[e.jobId].task.None?
    ensures Leads(cfg, s, next) && next.db == s.db && next.native == map[]
    ensures Asking(next, 0, [Work(e, DutyOf(e))], 0) && next.procs[0].parentTask.None?
  {
    hide LimitationsOk, Accepted, Leads;
    var spawned := Do(cfg, s, Spawn(0, e));
    OneStepLeads(cfg, s, Spawn(0, e));
    next := Do(cfg, spawned, Move(0, Fail(None)));
    OneStepLeads(cfg, spawned, Move(0, Fail(None)));
    LeadsOn(cfg, s, spawned, next);
  }

  /** The board answers, and the task is attached: it hangs below nothing. */
  lemma AttachesAlone(cfg: Config, s: Sys, works: seq<Work>) returns (next: Sys)
    requires s.native == map[] && Asking(s, 0, works, 0) && s.procs[0].parentTask.None?
    ensures Leads(cfg, s, next)
    ensures var id := works[0].env.jobId;
      && id in next.db.jobs && next.db.jobs[id].task == Some("task")
      && "task" in next.native && next.native["task"].parents == []
  {
    hide LimitationsOk, Leads;
    var holding := Do(cfg, s, Move(0, Give("task")));
    OneStepLeads(cfg, s, Move(0, Give("task")));
    assert "task"[0] == 't';
    next := Attaches(cfg, holding, 0, works, 0, "task");
    LeadsOn(cfg, s, holding, next);
  }

  lemma DirectCallUnchains(cfg: Config, env: Envelope, e: Envelope)
    requires AsksForItself(cfg, e) && LaterChild(cfg, env, e.jobId)
    ensures !AlwaysChained(cfg, env)
  {
    hide AsksForItself, LaterChild, AlwaysChained, Leads;
    var start := CreatedByOthers(cfg, [e.jobId]);
    assert [e.jobId][0] in start.db.jobs;
    var asking := AsksAlone(cfg, start, e);
    var s := AttachesAlone(cfg, asking, [Work(e, DutyOf(e))]);
    LeadsOn(cfg, INIT, start, asking);
    LeadsOn(cfg, INIT, asking, s);
    Unchained(cfg, env, s, e.jobId);
  }

  lemma WrongTaskUnchains(cfg: Config, env: Envelope, first: Envelope, i: nat, second: Envelope, j: nat)
    requires Contest(cfg, first, i, second, j) && LaterChild(cfg, env, Contested(cfg, second, j).env.jobId)
    requires var x, y := Contested(cfg, first, i), Contested(cfg, second, j);
      x.env.jobId != y.env.jobId && x.env.key == y.env.key && y.env.jobId !in IdsBefore(Program(first, cfg.stages), i)
    ensures !AlwaysChained(cfg, env)
  {
    hide Contest, LaterChild, AlwaysChained, Leads;
    var s, id := WrongTaskArises(cfg, first, i, second, j);
    Unchained(cfg, env, s, id);
  }

  /** A coordination that passes a later child of `env` on its way to a child gets to a later child of `env`. */
  lemma PassingLeadsLater(cfg: Config, env: Envelope, first: Envelope, at: nat, id: Uuid)
    requires 0 < at <= |cfg.stages| && first.intent.DevelopmentCoordinate? && DistinctStages(cfg.stages)
    requires |Program(first, cfg.stages)| == |cfg.stages| + 1
    requires LaterChild(cfg, env, id) && id in IdsBefore(Program(first, cfg.stages), at)
    ensures LaterChild(cfg, env, Program(first, cfg.stages)[at].env.jobId)
  {
    var works := Program(first, cfg.stages);
    var here := ChildAt(first, cfg.stages, at);
    var k :| 0 <= k < at && works[k].duty.Delegate? && works[k].env.jobId == id;
    var passed := ChildAt(first, cfg.stages, k);
    assert here.env.jobId == ChildId(env, cfg.stages[at - 1].name);
  }

  lemma SharedKeyUnchains(cfg: Config, env: Envelope, a: Work, b: Work)
    requires Asks(cfg, a) && Asks(cfg, b) && a.env.jobId != b.env.jobId && a.env.key == b.env.key
    requires LaterChild(cfg, env, a.env.jobId) && DistinctStages(cfg.stages)
    ensures !AlwaysChained(cfg, env)
  {
    hide AlwaysChained, Asks, Program, Contender, LimitationsOk, LaterChild, Accepted;
    var first, i := Located(cfg, b);
    var second, j := Located(cfg, a);
    ContenderInRange(Program(first, cfg.stages), i);
    ContenderInRange(Program(second, cfg.stages), j);
    if Contested(cfg, second, j).env.jobId !in IdsBefore(Program(first, cfg.stages), i) {
      WrongTaskUnchains(cfg, env, first, i, second, j);
    } else {
      var child := ChildAt(first, cfg.stages, i);
      PassingLeadsLater(cfg, env, first, i, Contested(cfg, second, j).env.jobId);
      if j > 0 && Contested(cfg, first, i).env.jobId in IdsBefore(Program(second, cfg.stages), j) {
        PassedMeansEarlier(cfg, first, i, second, j);
        PassedMeansEarlier(cfg, second, j, first, i);
        assert false;
      }
      WrongTaskUnchains(cfg, env, second, j, first, i);
    }
  }

  /**
   On a board that honours keys every later child of a coordination hangs below the one before it, in every
   run, if and only if no call asks for such a child by itself and none shares its key with another job.
   */
  lemma ChainsExactly(cfg: Config, env: Envelope)
    requires cfg.honours && env.intent.DevelopmentCoordinate? && DistinctStages(cfg.stages)
    ensures AlwaysChained(cfg, env) <==> LaterKeysApart(cfg, env) && OnlyCoordinated(cfg, env)
  {
    hide LaterChild, AsksForItself, Asks;
    if LaterKeysApart(cfg, env) && OnlyCoordinated(cfg, env) {
      forall steps, i: nat | 0 < i < |cfg.stages| ensures ChainedIn(cfg, env, steps, i) {
        InterleavedCoordinationsChain(cfg, env, steps, i);
      }
    } else if !OnlyCoordinated(cfg, env) {
      var e :| AsksForItself(cfg, e) && LaterChild(cfg, env, e.jobId);
      DirectCallUnchains(cfg, env, e);
    } else {
      var a, b :| Asks(cfg, a) && Asks(cfg, b) && a.env.key == b.env.key && LaterChild(cfg, env, a.env.jobId)
        && a.env.jobId != b.env.jobId;
      SharedKeyUnchains(cfg, env, a, b);
    }
  }
}
