/**
 Any number of dispatchers on one ledger and one board, interleaved step by step, with crashes, retries
 and an adapter that may lose answers.  A step that is not enabled changes nothing, so every sequence
 of steps is a run and every theorem below holds after every one of them.
 */
module DispatchSystem {
  import opened Common
  import opened Contracts
  import opened LedgerModel
  import opened LedgerHistory
  import opened DispatchModel

  datatype Sys = Sys(db: Db, native: map<string, KanbanTask>, procs: map<nat, Proc>)

  const INIT := Sys(EMPTY, map[], map[])

  /** `calls` are the envelopes that callers pass to `dispatch`; `honours` restricts the board. */
  datatype Config = Config(stages: seq<Stage>, honours: bool, calls: iset<Envelope>)

  datatype Step =
    | Spawn(p: nat, env: Envelope)
    | Move(p: nat, reply: Reply)
    | Crash(p: nat)
    | Elsewhere(op: Op)

  /** A caller can only pass an envelope that could be built. */
  ghost predicate MayCall(cfg: Config, env: Envelope) {
    env in cfg.calls && Accepted(env)
  }

  /** The other users of the ledger create, move and cancel jobs; attaching tasks is the dispatchers' part. */
  predicate OthersMay(op: Op) {
    !op.OpAttach? && (op.OpCreate? ==> Accepted(op.env))
  }

  ghost predicate ReplyAllowed(cfg: Config, s: Sys, p: Proc, reply: Reply)
    requires !p.Stopped()
  {
    cfg.honours && p.pc.Call? ==> Honours(s.native, p.Current().env.key, reply)
  }

  ghost function Do(cfg: Config, s: Sys, step: Step): Sys {
    match step
    case Spawn(p, env) =>
      if p !in s.procs && MayCall(cfg, env) then s.(procs := s.procs[p := Start(Program(env, cfg.stages))]) else s
    case Move(p, reply) =>
      if p in s.procs && !s.procs[p].Stopped() && ReplyAllowed(cfg, s, s.procs[p], reply) then
        var turn := Advance(World(s.db, s.native), s.procs[p], reply);
        Sys(turn.world.db, turn.world.native, s.procs[p := turn.proc])
      else s
    case Crash(p) => s.(procs := s.procs - {p})
    case Elsewhere(op) =>
      if OthersMay(op) then s.(db := Apply(s.db, op).db) else s
  }

  ghost function RunSys(cfg: Config, s: Sys, steps: seq<Step>): Sys {
    if steps == [] then s else Do(cfg, RunSys(cfg, s, steps[..|steps| - 1]), steps[|steps| - 1])
  }

  lemma {:induction false} RunSysAppend(cfg: Config, s: Sys, a: seq<Step>, b: seq<Step>)
    ensures RunSys(cfg, s, a + b) == RunSys(cfg, RunSys(cfg, s, a), b)
  {
    if b == [] {
      assert a + b == a;
    } else {
      assert (a + b)[..|a + b| - 1] == a + b[..|b| - 1];
      RunSysAppend(cfg, s, a, b[..|b| - 1]);
    }
  }

  /** A run leads from one state to another. */
  ghost predicate Leads(cfg: Config, s: Sys, end: Sys) {
    exists steps :: RunSys(cfg, s, steps) == end
  }

  lemma NoStepLeads(cfg: Config, s: Sys)
    ensures Leads(cfg, s, s)
  {
    assert RunSys(cfg, s, []) == s;
  }

  lemma OneStepLeads(cfg: Config, s: Sys, step: Step)
    ensures Leads(cfg, s, Do(cfg, s, step))
  {
    assert [step][..0] == [];
    assert RunSys(cfg, s, []) == s;
    assert RunSys(cfg, s, [step]) == Do(cfg, s, step);
  }

  lemma LeadsOn(cfg: Config, a: Sys, b: Sys, c: Sys)
    requires Leads(cfg, a, b) && Leads(cfg, b, c)
    ensures Leads(cfg, a, c)
  {
    var x :| RunSys(cfg, a, x) == b;
    var y :| RunSys(cfg, b, y) == c;
    RunSysAppend(cfg, a, x, y);
  }

  // ---- What holds for every adapter and every caller ----

  ghost predicate StepSettled(db: Db, step: WorkflowStep) {
    step.env.jobId in db.jobs && db.jobs[step.env.jobId].task == Some(step.task)
  }

  ghost predicate ProcOk(db: Db, p: Proc) {
    && (forall i :: 0 <= i < |p.steps| ==> StepSettled(db, p.steps[i]))
    && (!p.Stopped() && (p.pc.ReRead? || p.pc.Call? || p.pc.Attach?) ==> p.Current().env.jobId in db.jobs)
  }

  ghost predicate ProcsOk(s: Sys) {
    forall p :: p in s.procs ==> ProcOk(s.db, s.procs[p])
  }

  lemma ProcOkLater(a: Db, b: Db, p: Proc)
    requires ProcOk(a, p) && Evolves(a, b)
    ensures ProcOk(b, p)
  {
    forall i | 0 <= i < |p.steps| ensures StepSettled(b, p.steps[i]) {
      assert StepSettled(a, p.steps[i]);
      assert KeepsRow(a.jobs[p.steps[i].env.jobId], b.jobs[p.steps[i].env.jobId]);
    }
  }

  /** The one ledger transaction that a step of a call may commit. */
  function LedgerOp(p: Proc): Option<Op>
    requires !p.Stopped()
  {
    match p.pc
    case Create => Some(OpCreate(p.Current().env))
    case Attach(task) => Some(OpAttach(p.Current().env.jobId, task))
    case _ => None
  }

  lemma AdvanceCommits(w: World, p: Proc, reply: Reply)
    requires !p.Stopped()
    ensures Advance(w, p, reply).world.db == match LedgerOp(p) case None => w.db case Some(op) => Apply(w.db, op).db
  {
  }

  /** One step of a call changes the ledger by at most one of its transactions. */
  lemma {:induction false} AdvanceIsATransaction(w: World, p: Proc, reply: Reply)
    requires Inv(w.db) && !p.Stopped()
    ensures Inv(Advance(w, p, reply).world.db)
    ensures Evolves(w.db, Advance(w, p, reply).world.db)
  {
    AdvanceCommits(w, p, reply);
    if LedgerOp(p).Some? {
      ApplyKeeps(w.db, LedgerOp(p).value);
      ApplyEvolves(w.db, LedgerOp(p).value);
    }
  }

  /** A successful create leaves the job in the ledger, and the row it returns is the row of that job. */
  lemma CreateReturnsTheJob(db: Db, env: Envelope)
    requires RowsOk(db.jobs) && CreateJob(db, env).outcome.Ok?
    ensures var c := CreateJob(db, env);
      env.jobId in c.db.jobs && c.outcome.value == c.db.jobs[env.jobId] && c.outcome.value.digest == DigestOf(env)
  {
  }

  lemma EnsuredKeepsProcOk(db: Db, p: Proc)
    requires ProcOk(db, p) && p.at < |p.works| && p.Current().env.jobId in db.jobs
    ensures ProcOk(db, p.Ensured(db.jobs[p.Current().env.jobId]))
  {
    var job := db.jobs[p.Current().env.jobId];
    if p.Current().duty.Delegate? && job.task.Some? {
      assert StepSettled(db, WorkflowStep(p.Current().env, job.task.value));
    }
  }

  lemma AttachedIsSettled(db: Db, env: Envelope, task: string)
    requires AttachTask(db, env.jobId, task).outcome.Ok?
    ensures StepSettled(AttachTask(db, env.jobId, task).db, WorkflowStep(env, task))
  {
  }

  /** What a step does to a call, given that its ledger only evolved. */
  lemma {:induction false} AdvanceKeepsProcOk(w: World, p: Proc, reply: Reply)
    requires RowsOk(w.db.jobs) && !p.Stopped() && ProcOk(w.db, p)
    requires Evolves(w.db, Advance(w, p, reply).world.db)
    ensures ProcOk(Advance(w, p, reply).world.db, Advance(w, p, reply).proc)
  {
    hide RowsOk, Evolves, CreateJob, AttachTask;
    var env := p.Current().env;
    ProcOkLater(w.db, Advance(w, p, reply).world.db, p);
    match p.pc
    case Read =>
      if env.jobId in w.db.jobs {
        EnsuredKeepsProcOk(w.db, p);
      }
    case Create =>
      if CreateJob(w.db, env).outcome.Ok? {
        CreateReturnsTheJob(w.db, env);
        if CreateJob(w.db, env).db == w.db {
          EnsuredKeepsProcOk(w.db, p);
        }
      }
    case ReRead =>
      EnsuredKeepsProcOk(w.db, p);
    case Call =>
    case Attach(task) =>
      if AttachTask(w.db, env.jobId, task).outcome.Ok? {
        AttachedIsSettled(w.db, env, task);
      }
  }

  lemma {:induction false} MoveKeeps(s: Sys, p: nat, reply: Reply)
    requires Inv(s.db) && p in s.procs && ProcOk(s.db, s.procs[p]) && !s.procs[p].Stopped()
    ensures var turn := Advance(World(s.db, s.native), s.procs[p], reply);
      Inv(turn.world.db) && Evolves(s.db, turn.world.db) && ProcOk(turn.world.db, turn.proc)
  {
    AdvanceIsATransaction(World(s.db, s.native), s.procs[p], reply);
    AdvanceKeepsProcOk(World(s.db, s.native), s.procs[p], reply);
  }

  lemma StartKeeps(db: Db, works: seq<Work>)
    ensures ProcOk(db, Start(works))
  {
  }

  lemma {:induction false} DoKeeps(cfg: Config, s: Sys, step: Step)
    requires Inv(s.db) && ProcsOk(s)
    ensures Inv(Do(cfg, s, step).db) && Evolves(s.db, Do(cfg, s, step).db) && ProcsOk(Do(cfg, s, step))
  {
    hide Inv, Evolves, ProcOk, Advance, Apply, Start, Program, ReplyAllowed, Accepted;
    var next := Do(cfg, s, step);
    match step
    case Spawn(_, env) =>
      StartKeeps(s.db, Program(env, cfg.stages));
      SameEvolves(s.db);
    case Move(p, reply) =>
      if next != s {
        MoveKeeps(s, p, reply);
        OthersKeep(s, next);
      } else {
        SameEvolves(s.db);
      }
    case Crash(_) =>
      SameEvolves(s.db);
    case Elsewhere(op) =>
      SameEvolves(s.db);
      if OthersMay(op) {
        ApplyKeeps(s.db, op);
        ApplyEvolves(s.db, op);
        OthersKeep(s, next);
      }
  }

  /** Calls that took no step stay good while the ledger evolves. */
  lemma OthersKeep(s: Sys, next: Sys)
    requires ProcsOk(s) && Evolves(s.db, next.db)
    ensures forall p :: p in s.procs && p in next.procs && next.procs[p] == s.procs[p] ==>
      ProcOk(next.db, next.procs[p])
  {
    forall p | p in s.procs && p in next.procs && next.procs[p] == s.procs[p] ensures ProcOk(next.db, next.procs[p]) {
      ProcOkLater(s.db, next.db, s.procs[p]);
    }
  }

  lemma {:induction false} SysKeeps(cfg: Config, s: Sys, steps: seq<Step>)
    requires Inv(s.db) && ProcsOk(s)
    ensures var end := RunSys(cfg, s, steps); Inv(end.db) && Evolves(s.db, end.db) && ProcsOk(end)
  {
    if steps != [] {
      var before := RunSys(cfg, s, steps[..|steps| - 1]);
      SysKeeps(cfg, s, steps[..|steps| - 1]);
      DoKeeps(cfg, before, steps[|steps| - 1]);
      EvolvesTransitive(s.db, before.db, RunSys(cfg, s, steps).db);
    }
  }

  /**
   Whatever the adapter answers, whoever crashes and however the calls interleave: once a job has a
   Kanban id it keeps that id for ever, and exactly one kanban_attached event records it.
   */
  lemma KanbanIdIsWrittenOnce(cfg: Config, steps: seq<Step>, more: seq<Step>, id: Uuid)
    requires var db := RunSys(cfg, INIT, steps).db; id in db.jobs && db.jobs[id].task.Some?
    ensures var task := RunSys(cfg, INIT, steps).db.jobs[id].task;
      var later := RunSys(cfg, INIT, steps + more).db;
      id in later.jobs && later.jobs[id].task == task && Attachments(later.log, id) == [KanbanTaskId(task.value)]
  {
    var now := RunSys(cfg, INIT, steps);
    SysKeeps(cfg, INIT, steps);
    SysKeeps(cfg, now, more);
    RunSysAppend(cfg, INIT, steps, more);
    var later := RunSys(cfg, INIT, steps + more);
    assert KeepsRow(now.db.jobs[id], later.db.jobs[id]);
    assert JobOk(later.db.jobs[id], later.db.log);
  }

  /** Every task id that a call reports, finished or not, is the one its job's row holds. */
  lemma ReportedTaskIsStored(cfg: Config, steps: seq<Step>, p: nat, i: nat)
    requires var s := RunSys(cfg, INIT, steps); p in s.procs && i < |s.procs[p].steps|
    ensures var s := RunSys(cfg, INIT, steps);
      var report := s.procs[p].steps[i];
      report.env.jobId in s.db.jobs && s.db.jobs[report.env.jobId].task == Some(report.task)
  {
    SysKeeps(cfg, INIT, steps);
    var s := RunSys(cfg, INIT, steps);
    assert ProcOk(s.db, s.procs[p]);
    assert StepSettled(s.db, s.procs[p].steps[i]);
  }
}
