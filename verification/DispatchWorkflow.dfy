/** What one uninterrupted call of `dispatch` or `coordinate_development` builds, and what a repeated call does. */
module DispatchWorkflow {
  import opened Common
  import opened Contracts
  import opened LedgerModel
  import opened LedgerHistory
  import opened DispatchModel
  import opened DispatchSystem
  import DispatchBoard

  // ---- One step at a time ----

  /** A step appends to the reported steps or leaves them alone. */
  lemma AdvanceKeepsSteps(w: World, p: Proc, reply: Reply)
    requires !p.Stopped()
    ensures var turn := Advance(w, p, reply);
      turn.proc.works == p.works && p.steps <= turn.proc.steps && p.at <= turn.proc.at <= p.at + 1
  {
  }

  /** The first step of a call that has not stopped, by its effects only. */
  lemma AdvanceGoesOn(w: World, p: Proc, reply: Reply)
    requires !p.Stopped()
    ensures var proc := Advance(w, p, reply).proc;
      && proc.works == p.works
      && (proc.at > p.at || (proc.at == p.at && StepsLeft(proc.pc) < StepsLeft(p.pc)))
  {
    hide CreateJob, AttachTask, BoardAfter;
  }

  lemma OneTurn(w: World, p: Proc, script: seq<Reply>) returns (world: World, proc: Proc, rest: seq<Reply>)
    requires !p.Stopped()
    ensures proc == Advance(w, p, FirstReply(script)).proc && world == Advance(w, p, FirstReply(script)).world
    ensures rest == RestOf(p, script)
    ensures RunToEnd(w, p, script) == RunToEnd(world, proc, rest)
    ensures proc.works == p.works
    ensures proc.at > p.at || (proc.at == p.at && StepsLeft(proc.pc) < StepsLeft(p.pc))
  {
    var turn := Advance(w, p, FirstReply(script));
    world, proc, rest := turn.world, turn.proc, RestOf(p, script);
    hide Advance, RestOf, FirstReply, StepsLeft;
    AdvanceGoesOn(w, p, FirstReply(script));
  }

  // ---- A sequential call is one of the interleaved runs ----

  /** The board honoured the key in every answer that the call used. */
  ghost predicate Honest(w: World, p: Proc, script: seq<Reply>)
    decreases |p.works| - p.at, StepsLeft(p.pc)
  {
    p.Stopped() ||
    var turn := Advance(w, p, FirstReply(script));
    && (p.pc.Call? ==> Honours(w.native, p.Current().env.key, FirstReply(script)))
    && Honest(turn.world, turn.proc, RestOf(p, script))
  }

  /** The system after call `n` has run to its end and nobody else has moved. */
  ghost function RunAlone(s: Sys, n: nat, script: seq<Reply>): Sys
    requires n in s.procs
  {
    var end := RunToEnd(World(s.db, s.native), s.procs[n], script);
    Sys(end.world.db, end.world.native, s.procs[n := end.proc])
  }

  lemma {:induction false} MoveAlone(cfg: Config, s: Sys, n: nat, script: seq<Reply>)
      returns (next: Sys, rest: seq<Reply>)
    requires n in s.procs && !s.procs[n].Stopped()
    requires cfg.honours ==> Honest(World(s.db, s.native), s.procs[n], script)
    ensures Leads(cfg, s, next) && n in next.procs && next.procs[n].works == s.procs[n].works
    ensures next.procs[n].at > s.procs[n].at ||
      (next.procs[n].at == s.procs[n].at && StepsLeft(next.procs[n].pc) < StepsLeft(s.procs[n].pc))
    ensures cfg.honours ==> Honest(World(next.db, next.native), next.procs[n], rest)
    ensures RunAlone(s, n, script) == RunAlone(next, n, rest)
  {
    var step := Move(n, FirstReply(script));
    var world, proc, more := OneTurn(World(s.db, s.native), s.procs[n], script);
    hide Advance, RunToEnd, Leads;
    next, rest := Do(cfg, s, step), more;
    OneStepLeads(cfg, s, step);
    assert next == Sys(world.db, world.native, s.procs[n := proc]);
  }

  /**
   A call run alone takes steps that the interleaved system can take, from any state of the system and under any
   configuration: if boards honour keys, the adapter has to do so in the answers that the call uses.
   */
  lemma {:induction false} SequentialCallIsARun(cfg: Config, s: Sys, n: nat, script: seq<Reply>)
    requires n in s.procs && (cfg.honours ==> Honest(World(s.db, s.native), s.procs[n], script))
    ensures Leads(cfg, s, RunAlone(s, n, script))
    decreases |s.procs[n].works| - s.procs[n].at, StepsLeft(s.procs[n].pc)
  {
    if s.procs[n].Stopped() {
      NoStepLeads(cfg, s);
      assert s.procs[n := s.procs[n]] == s.procs;
    } else {
      var next, rest := MoveAlone(cfg, s, n, script);
      SequentialCallIsARun(cfg, next, n, rest);
      LeadsOn(cfg, s, next, RunAlone(next, n, rest));
    }
  }

  /** So whatever holds of every run holds after a whole call on any ledger and board that a run can leave. */
  lemma WholeCallIsReachable(cfg: Config, s: Sys, n: nat, env: Envelope, script: seq<Reply>)
    requires Leads(cfg, INIT, s) && n !in s.procs && MayCall(cfg, env)
    requires cfg.honours ==> Honest(World(s.db, s.native), Start(Program(env, cfg.stages)), script)
    ensures var end := RunToEnd(World(s.db, s.native), Start(Program(env, cfg.stages)), script);
      Leads(cfg, INIT, Sys(end.world.db, end.world.native, s.procs[n := end.proc]))
  {
    hide Leads, Accepted, Program, Honest, RunToEnd;
    var spawned := Do(cfg, s, Spawn(n, env));
    OneStepLeads(cfg, s, Spawn(n, env));
    SequentialCallIsARun(cfg, spawned, n, script);
    var end := RunToEnd(World(s.db, s.native), Start(Program(env, cfg.stages)), script);
    assert spawned.procs[n := end.proc] == s.procs[n := end.proc];
    LeadsOn(cfg, INIT, s, spawned);
    LeadsOn(cfg, INIT, spawned, RunAlone(spawned, n, script));
  }

  // ---- What a call keeps ----

  ghost predicate BoardKept(a: map<string, KanbanTask>, b: map<string, KanbanTask>) {
    forall t :: t in a ==> t in b && b[t] == a[t]
  }

  /** What is kept from the start of a stretch of steps to its end. */
  ghost predicate Kept(w: World, p: Proc, world: World, proc: Proc) {
    && Evolves(w.db, world.db) && BoardKept(w.native, world.native)
    && proc.works == p.works && p.steps <= proc.steps
  }

  lemma {:induction false} OneTurnKeeps(w: World, p: Proc, script: seq<Reply>)
      returns (world: World, proc: Proc, rest: seq<Reply>)
    requires Inv(w.db) && !p.Stopped()
    ensures RunToEnd(w, p, script) == RunToEnd(world, proc, rest)
    ensures proc.at > p.at || (proc.at == p.at && StepsLeft(proc.pc) < StepsLeft(p.pc))
    ensures Inv(world.db) && Kept(w, p, world, proc)
  {
    world, proc, rest := OneTurn(w, p, script);
    AdvanceIsATransaction(w, p, FirstReply(script));
    DispatchBoard.BoardGrows(w, p, FirstReply(script));
    AdvanceKeepsSteps(w, p, FirstReply(script));
  }

  lemma KeptOn(w: World, p: Proc, world: World, proc: Proc, end: End)
    requires Kept(w, p, world, proc) && Kept(world, proc, end.world, end.proc)
    ensures Kept(w, p, end.world, end.proc)
  {
    EvolvesTransitive(w.db, world.db, end.world.db);
  }

  /** A whole call only adds to the ledger, to the board and to what it reports. */
  lemma {:induction false} RunKeepsAll(w: World, p: Proc, script: seq<Reply>)
    requires Inv(w.db)
    ensures Inv(RunToEnd(w, p, script).world.db)
    ensures Kept(w, p, RunToEnd(w, p, script).world, RunToEnd(w, p, script).proc)
    decreases |p.works| - p.at, StepsLeft(p.pc)
  {
    if !p.Stopped() {
      var world, proc, rest := OneTurnKeeps(w, p, script);
      RunKeepsAll(world, proc, rest);
      KeptOn(w, p, world, proc, RunToEnd(world, proc, rest));
    }
  }

  // ---- Repeating a call ----

  /** The next `|steps|` jobs of a call all have their tasks already. */
  ghost predicate Done(db: Db, p: Proc, steps: seq<WorkflowStep>) {
    && p.pc.Read? && p.at + |steps| <= |p.works|
    && forall i :: 0 <= i < |steps| ==> DoneAt(db, p.works[p.at + i], steps[i])
  }

  ghost predicate DoneAt(db: Db, work: Work, step: WorkflowStep) {
    work.duty.Delegate? && work.env == step.env && StepSettled(db, step)
  }

  function Skip(p: Proc, steps: seq<WorkflowStep>): Proc {
    if steps == [] then p
    else
      p.(at := p.at + |steps|,
         pc := if p.at + |steps| < |p.works| then Read else Returned,
         steps := p.steps + steps,
         parentTask := Some(steps[|steps| - 1].task))
  }

  lemma SkipOne(w: World, p: Proc, steps: seq<WorkflowStep>, script: seq<Reply>)
    requires steps != [] && Done(w.db, p, steps)
    ensures RunToEnd(w, p, script) == RunToEnd(w, p.Settled(steps[0].task), script)
  {
    assert StepSettled(w.db, steps[0]);
    assert p.works[p.at + 0].env == steps[0].env;
    assert Advance(w, p, FirstReply(script)) == Turn(w, p.Settled(steps[0].task));
  }

  lemma OneIsSkipped(p: Proc, steps: seq<WorkflowStep>)
    requires p.at < |p.works| && |steps| == 1 && p.Current().env == steps[0].env
    ensures p.Settled(steps[0].task) == Skip(p, steps)
  {
    assert steps == [WorkflowStep(p.Current().env, steps[0].task)];
  }

  lemma RestIsDone(db: Db, p: Proc, next: Proc, steps: seq<WorkflowStep>, rest: seq<WorkflowStep>)
    requires Done(db, p, steps) && |steps| > 1 && rest == steps[1..]
    requires next.works == p.works && next.at == p.at + 1 && next.pc.Read?
    ensures Done(db, next, rest)
  {
    forall i | 0 <= i < |rest| ensures DoneAt(db, next.works[next.at + i], rest[i]) {
      assert DoneAt(db, p.works[p.at + (i + 1)], steps[i + 1]);
    }
  }

  /** A call passes over jobs that have their tasks without touching the ledger, the board or the adapter. */
  lemma {:induction false} DoneJobsAreSkipped(w: World, p: Proc, steps: seq<WorkflowStep>, script: seq<Reply>)
    requires Done(w.db, p, steps)
    ensures RunToEnd(w, p, script) == RunToEnd(w, Skip(p, steps), script)
    decreases |steps|
  {
    hide RunToEnd;
    if steps != [] {
      var next := p.Settled(steps[0].task);
      SkipOne(w, p, steps, script);
      assert p.works[p.at + 0].env == steps[0].env;
      if |steps| == 1 {
        OneIsSkipped(p, steps);
      } else {
        var rest := steps[1..];
        RestIsDone(w.db, p, next, steps, rest);
        DoneJobsAreSkipped(w, next, rest, script);
        assert p.steps + steps == next.steps + rest;
        assert Skip(next, rest) == Skip(p, steps);
      }
    }
  }

  /** A coordination reports its children in order, one for each job it has left behind. */
  ghost predicate Aligned(p: Proc) {
    && |p.works| > 0 && p.works[0].duty.EnsureOnly?
    && (forall i :: 0 < i < |p.works| ==> p.works[i].duty.Delegate?)
    && p.at <= |p.works|
    && |p.steps| == (if p.at == 0 then 0 else p.at - 1)
    && (forall i :: 0 <= i < |p.steps| ==> p.steps[i].env == p.works[i + 1].env)
    && (p.at < |p.works| <==> !p.pc.Returned?)
    && (p.at == 0 ==> !p.pc.Call? && !p.pc.Attach?)
  }

  lemma EnsuredKeepsAligned(p: Proc, job: Job)
    requires !p.Stopped() && Aligned(p)
    ensures Aligned(p.Ensured(job))
  {
  }

  lemma SettledKeepsAligned(p: Proc, task: string)
    requires !p.Stopped() && Aligned(p) && p.at > 0
    ensures Aligned(p.Settled(task))
  {
  }

  lemma AdvanceKeepsAligned(w: World, p: Proc, reply: Reply)
    requires !p.Stopped() && Aligned(p)
    ensures Aligned(Advance(w, p, reply).proc)
  {
    if p.pc.Attach? {
      SettledKeepsAligned(p, p.pc.task);
    } else if !p.pc.Call? {
      forall job ensures Aligned(p.Ensured(job)) {
        EnsuredKeepsAligned(p, job);
      }
    }
  }

  /** Whoever moves on from a job has it in the ledger. */
  lemma LeftJobsAreStored(w: World, p: Proc, reply: Reply)
    requires !p.Stopped() && RowsOk(w.db.jobs) && Advance(w, p, reply).proc.at > p.at
    ensures p.Current().env.jobId in Advance(w, p, reply).world.db.jobs
  {
    if p.pc.Create? {
      CreateReturnsTheJob(w.db, p.Current().env);
    }
  }

  /** What holds of a coordination and of the ledger it leaves. */
  ghost predicate CoordOk(w: World, p: Proc) {
    Inv(w.db) && Aligned(p) && ProcOk(w.db, p) && (p.at > 0 ==> p.works[0].env.jobId in w.db.jobs)
  }

  lemma {:induction false} OneTurnKeepsCoord(w: World, p: Proc, script: seq<Reply>)
      returns (world: World, proc: Proc, rest: seq<Reply>)
    requires !p.Stopped() && CoordOk(w, p)
    ensures RunToEnd(w, p, script) == RunToEnd(world, proc, rest) && proc.works == p.works
    ensures proc.at > p.at || (proc.at == p.at && StepsLeft(proc.pc) < StepsLeft(p.pc))
    ensures CoordOk(world, proc)
  {
    world, proc, rest := OneTurn(w, p, script);
    AdvanceIsATransaction(w, p, FirstReply(script));
    AdvanceKeepsProcOk(w, p, FirstReply(script));
    AdvanceKeepsAligned(w, p, FirstReply(script));
    if p.at == 0 && proc.at > 0 {
      LeftJobsAreStored(w, p, FirstReply(script));
    }
  }

  lemma {:induction false} RunKeepsCoord(w: World, p: Proc, script: seq<Reply>)
    requires CoordOk(w, p)
    ensures var end := RunToEnd(w, p, script); CoordOk(end.world, end.proc) && end.proc.works == p.works
    ensures RunToEnd(w, p, script).proc.pc.Returned? || RunToEnd(w, p, script).proc.pc.Failed?
    decreases |p.works| - p.at, StepsLeft(p.pc)
  {
    if !p.Stopped() {
      var world, proc, rest := OneTurnKeepsCoord(w, p, script);
      RunKeepsCoord(world, proc, rest);
    }
  }

  /** One sequential call of coordinate_development. */
  ghost function Coordinate(w: World, env: Envelope, stages: seq<Stage>, script: seq<Reply>): End {
    RunToEnd(w, Start(Program(env, stages)), script)
  }

  lemma CoordinationIsOk(w: World, env: Envelope, stages: seq<Stage>, script: seq<Reply>)
    requires Inv(w.db) && env.intent.DevelopmentCoordinate?
    ensures var end := Coordinate(w, env, stages, script);
      CoordOk(end.world, end.proc) && end.proc.works == Program(env, stages) &&
        (end.proc.pc.Returned? || end.proc.pc.Failed?)
  {
    var works := Program(env, stages);
    assert forall i :: 0 < i < |works| ==> works[i] == ChildWork(env, stages, i - 1);
    RunKeepsCoord(w, Start(works), script);
  }

  lemma ParentIsSkipped(w: World, works: seq<Work>, script: seq<Reply>) returns (p: Proc)
    requires |works| > 0 && works[0].duty.EnsureOnly? && works[0].env.jobId in w.db.jobs
    ensures RunToEnd(w, Start(works), script) == RunToEnd(w, p, script)
    ensures p == Start(works).Ensured(w.db.jobs[works[0].env.jobId])
    ensures p.works == works && p.at == 1 && p.steps == [] && p.pc == if |works| > 1 then Read else Returned
  {
    p := Start(works).Ensured(w.db.jobs[works[0].env.jobId]);
  }

  lemma StepsAreDone(earlier: World, done: Proc, later: World, p: Proc)
    requires CoordOk(earlier, done) && Evolves(earlier.db, later.db)
    requires p.works == done.works && p.at == 1 && |done.steps| > 0 && p.pc.Read?
    ensures Done(later.db, p, done.steps)
  {
    ProcOkLater(earlier.db, later.db, done);
    forall i | 0 <= i < |done.steps|
      ensures p.works[p.at + i].duty.Delegate? && p.works[p.at + i].env == done.steps[i].env &&
        StepSettled(later.db, done.steps[i])
    {
      assert p.works[p.at + i] == done.works[i + 1];
    }
  }

  /**
   Retrying a coordination at any later time, in any ledger that evolved from the one it left and with
   any board and adapter: the retry reports the same first jobs and tasks and extends them.  If the first
   call had finished, the retry touches neither ledger nor board nor adapter and reports the same steps.
   */
  lemma RetryExtends(w: World, env: Envelope, stages: seq<Stage>, script: seq<Reply>, later: World, again: seq<Reply>)
    requires Inv(w.db) && env.intent.DevelopmentCoordinate?
    requires Inv(later.db) && Evolves(Coordinate(w, env, stages, script).world.db, later.db)
    ensures var first := Coordinate(w, env, stages, script);
      var second := Coordinate(later, env, stages, again);
      && first.proc.steps <= second.proc.steps
      && (first.proc.pc.Returned? ==>
            && second.world == later && second.script == again
            && second.proc.pc.Returned? && second.proc.steps == first.proc.steps)
  {
    var first := Coordinate(w, env, stages, script);
    CoordinationIsOk(w, env, stages, script);
    hide RunToEnd, Inv, Evolves, CoordOk, Restarted;
    if first.proc.at > 0 {
      RestartSkips(first.world, first.proc, later, again);
      RunKeepsAll(later, Restarted(first.proc, later), again);
    }
  }

  /** Where a restarted coordination stands once it has passed over what the earlier one reported. */
  ghost function Restarted(done: Proc, later: World): Proc
    requires |done.works| > 0 && done.works[0].env.jobId in later.db.jobs
  {
    Skip(Start(done.works).Ensured(later.db.jobs[done.works[0].env.jobId]), done.steps)
  }

  lemma ParentIsStored(earlier: World, done: Proc, later: World)
    requires CoordOk(earlier, done) && done.at > 0 && Evolves(earlier.db, later.db)
    ensures |done.works| > 0 && done.works[0].duty.EnsureOnly? && done.works[0].env.jobId in later.db.jobs
    ensures done.steps != [] ==> |done.works| > 1
    ensures done.steps == [] && done.pc.Returned? ==> |done.works| == 1
    ensures done.steps != [] && done.pc.Returned? ==> 1 + |done.steps| == |done.works|
  {
  }

  lemma SkippedReport(p: Proc, steps: seq<WorkflowStep>)
    requires p.steps == []
    ensures Skip(p, steps).steps == steps
    ensures steps != [] ==> Skip(p, steps).pc == if p.at + |steps| < |p.works| then Read else Returned
    ensures steps == [] ==> Skip(p, steps) == p
  {
    assert p.steps + steps == steps;
  }

  lemma RestartSkips(earlier: World, done: Proc, later: World, again: seq<Reply>)
    requires CoordOk(earlier, done) && done.at > 0 && Evolves(earlier.db, later.db)
    ensures done.works[0].env.jobId in later.db.jobs
    ensures RunToEnd(later, Start(done.works), again) == RunToEnd(later, Restarted(done, later), again)
    ensures done.steps <= Restarted(done, later).steps
    ensures done.pc.Returned? ==> Restarted(done, later).pc.Returned? && Restarted(done, later).steps == done.steps
  {
    ParentIsStored(earlier, done, later);
    hide RunToEnd, Evolves, CoordOk, Done, Skip, Start;
    var p := ParentIsSkipped(later, done.works, again);
    assert Restarted(done, later) == Skip(p, done.steps);
    SkippedReport(p, done.steps);
    hide Restarted;
    if done.steps != [] {
      StepsAreDone(earlier, done, later, p);
      DoneJobsAreSkipped(later, p, done.steps, again);
    }
  }
}
