/** A coordination that meets no obstacle gets through, at the first attempt or at a later one. */
module DispatchProgress {
  import opened Common
  import opened Contracts
  import opened LedgerModel
  import opened LedgerHistory
  import opened DispatchFamily
  import opened DispatchModel
  import opened DispatchSystem
  import opened DispatchWorkflow

  /** Neither the job id nor the key is in use. */
  ghost predicate Fresh(db: Db, env: Envelope) {
    env.jobId !in db.jobs && forall id :: id in db.jobs ==> db.jobs[id].key != env.key
  }

  /** The job is stored already, with or without a task, or nothing of it is. */
  ghost predicate Available(db: Db, env: Envelope) {
    env.jobId in db.jobs || Fresh(db, env)
  }

  ghost predicate AllAvailable(db: Db, works: seq<Work>, from: nat) {
    forall j :: from <= j < |works| && 0 < j ==> Available(db, works[j].env)
  }

  ghost predicate InFamily(works: seq<Work>, j: nat)
    requires 0 < j < |works|
  {
    && works[j].env.jobId != works[0].env.jobId
    && works[j].env.parentJobId == Some(works[0].env.jobId) && LimitationsOk(works[j].env)
  }

  /** The works form one family: ids and keys of the children differ, and they refer to the first work. */
  ghost predicate Family(works: seq<Work>) {
    DistinctWorks(works) && |works| > 0 && forall j :: 0 < j < |works| ==> InFamily(works, j)
  }

  /** The coordinating job is stored, or can be stored under a key that none of its children needs. */
  ghost predicate ParentReady(db: Db, works: seq<Work>)
    requires |works| > 0
  {
    || works[0].env.jobId in db.jobs
    || (&& Fresh(db, works[0].env) && ParentPresent(db.jobs, works[0].env)
        && forall j :: 0 < j < |works| ==> works[j].env.key != works[0].env.key)
  }

  /** The ledger puts nothing in the way of a coordination. */
  ghost predicate Startable(db: Db, works: seq<Work>) {
    |works| > 0 && ParentReady(db, works) && AllAvailable(db, works, 0)
  }

  // ---- Creating the jobs of a family ----

  lemma ChildLeavesOthersAvailable(db: Db, works: seq<Work>, at: nat)
    requires Family(works) && 0 < at < |works| && AllAvailable(db, works, 0)
    ensures AllAvailable(CreateJob(db, works[at].env).db, works, 0)
  {
    var next := CreateJob(db, works[at].env).db;
    forall j | 0 < j < |works| ensures Available(next, works[j].env) {
      assert Available(db, works[j].env);
      assert j != at ==> WorksDiffer(works[j], works[at]);
    }
  }

  lemma ParentLeavesChildrenAvailable(db: Db, works: seq<Work>)
    requires Family(works) && Startable(db, works) && works[0].env.jobId !in db.jobs
    ensures AllAvailable(CreateJob(db, works[0].env).db, works, 0)
  {
    var next := CreateJob(db, works[0].env).db;
    forall j | 0 < j < |works| ensures Available(next, works[j].env) {
      assert Available(db, works[j].env) && InFamily(works, j);
    }
  }

  /** A fresh job whose parent is stored, if it has one, is created. */
  lemma FreshJobIsCreated(db: Db, env: Envelope)
    requires Fresh(db, env) && ParentPresent(db.jobs, env)
    ensures CreateJob(db, env).outcome.Ok? && CreateJob(db, env).db != db
    ensures env.jobId in CreateJob(db, env).db.jobs && CreateJob(db, env).db.jobs[env.jobId].task.None?
  {
    assert Owner(db.jobs, env.key).None?;
    assert |CreateJob(db, env).db.log| == |db.log| + 1;
  }

  // ---- A call keeps the ledger startable, however it ends ----

  lemma AttachKeepsStartable(db: Db, works: seq<Work>, id: Uuid, task: string)
    requires Startable(db, works)
    ensures Startable(AttachTask(db, id, task).db, works)
  {
    var next := AttachTask(db, id, task).db;
    assert forall x :: x in db.jobs <==> x in next.jobs;
    assert forall x :: x in db.jobs ==> next.jobs[x].key == db.jobs[x].key;
    forall j | 0 < j < |works| ensures Available(next, works[j].env) {
      assert Available(db, works[j].env);
    }
  }

  lemma CreateKeepsStartable(db: Db, works: seq<Work>, at: nat)
    requires Family(works) && at < |works| && Startable(db, works)
    requires at > 0 ==> works[0].env.jobId in db.jobs
    ensures Startable(CreateJob(db, works[at].env).db, works)
  {
    if at > 0 {
      ChildLeavesOthersAvailable(db, works, at);
    } else if works[0].env.jobId !in db.jobs {
      ParentLeavesChildrenAvailable(db, works);
      FreshJobIsCreated(db, works[0].env);
    }
  }

  /** The coordination has its own job in the ledger once it has left it. */
  ghost predicate Underway(db: Db, p: Proc) {
    && Aligned(p) && Family(p.works) && Startable(db, p.works)
    && (p.at > 0 ==> p.works[0].env.jobId in db.jobs)
  }

  lemma {:induction false} OneTurnUnderway(w: World, p: Proc, script: seq<Reply>)
      returns (world: World, proc: Proc, rest: seq<Reply>)
    requires Inv(w.db) && Underway(w.db, p) && !p.Stopped()
    ensures RunToEnd(w, p, script) == RunToEnd(world, proc, rest)
    ensures proc.works == p.works && (proc.at > p.at || (proc.at == p.at && StepsLeft(proc.pc) < StepsLeft(p.pc)))
    ensures Inv(world.db) && Underway(world.db, proc)
  {
    world, proc, rest := OneTurn(w, p, script);
    AdvanceIsATransaction(w, p, FirstReply(script));
    AdvanceKeepsAligned(w, p, FirstReply(script));
    if p.at == 0 && proc.at > 0 {
      LeftJobsAreStored(w, p, FirstReply(script));
    }
    LedgerStaysStartable(w, p, FirstReply(script));
  }

  lemma {:induction false} LedgerStaysStartable(w: World, p: Proc, reply: Reply)
    requires Inv(w.db) && Underway(w.db, p) && !p.Stopped()
    ensures Startable(Advance(w, p, reply).world.db, p.works)
  {
    AdvanceCommits(w, p, reply);
    hide Startable, Advance, Inv;
    if p.pc.Create? {
      CreateKeepsStartable(w.db, p.works, p.at);
    } else if p.pc.Attach? {
      AttachKeepsStartable(w.db, p.works, p.Current().env.jobId, p.pc.task);
    }
  }

  lemma {:induction false} RunStaysStartable(w: World, p: Proc, script: seq<Reply>)
    requires Inv(w.db) && Underway(w.db, p)
    ensures Inv(RunToEnd(w, p, script).world.db) && Startable(RunToEnd(w, p, script).world.db, p.works)
    decreases |p.works| - p.at, StepsLeft(p.pc)
  {
    if !p.Stopped() {
      var world, proc, rest := OneTurnUnderway(w, p, script);
      RunStaysStartable(world, proc, rest);
    }
  }

  // ---- With a willing adapter a call gets through ----

  /** Where the current job stands. */
  ghost predicate CurrentReady(db: Db, p: Proc) {
    p.at < |p.works| ==>
      var env := p.works[p.at].env;
      match p.pc
      case Read => true
      case Create => env.jobId !in db.jobs
      case ReRead => env.jobId in db.jobs
      case Call => env.jobId in db.jobs && db.jobs[env.jobId].task.None?
      case Attach(task) => env.jobId in db.jobs && db.jobs[env.jobId].task.None? && !Blank(task)
      case _ => false
  }

  function CallsLeft(p: Proc): int {
    |p.works| - p.at - (if p.at == 0 || p.pc.Attach? then 1 else 0)
  }

  /** The adapter answers at least so many requests, each with a task id. */
  ghost predicate Willing(script: seq<Reply>, calls: int) {
    |script| >= calls && forall i :: 0 <= i < |script| ==> script[i].Give? && !Blank(script[i].task)
  }

  ghost predicate OnTrack(db: Db, p: Proc, script: seq<Reply>) {
    Underway(db, p) && CurrentReady(db, p) && Willing(script, CallsLeft(p))
  }

  lemma CreatedOnTrack(w: World, p: Proc, script: seq<Reply>)
    requires OnTrack(w.db, p, script) && !p.Stopped() && p.pc.Create?
    ensures var turn := Advance(w, p, FirstReply(script));
      CurrentReady(turn.world.db, turn.proc) && turn.proc.pc.ReRead?
  {
    var env := p.Current().env;
    if p.at > 0 {
      assert Available(w.db, p.works[p.at].env) && InFamily(p.works, p.at);
    }
    FreshJobIsCreated(w.db, env);
  }

  lemma OtherOnTrack(w: World, p: Proc, script: seq<Reply>)
    requires OnTrack(w.db, p, script) && !p.Stopped() && !p.pc.Create?
    ensures var turn := Advance(w, p, FirstReply(script)); CurrentReady(turn.world.db, turn.proc)
  {
    hide Startable, BoardAfter;
    if p.at > 0 {
      assert InFamily(p.works, p.at);
    }
    assert p.pc.Call? ==> FirstReply(script) == script[0] && script[0].Give? && !Blank(script[0].task);
  }

  lemma StillWilling(w: World, p: Proc, script: seq<Reply>)
    requires OnTrack(w.db, p, script) && !p.Stopped()
    requires CurrentReady(Advance(w, p, FirstReply(script)).world.db, Advance(w, p, FirstReply(script)).proc)
    ensures Willing(RestOf(p, script), CallsLeft(Advance(w, p, FirstReply(script)).proc))
  {
    hide Startable, Family, CreateJob, AttachTask, BoardAfter;
  }

  lemma {:induction false} OneTurnOnTrack(w: World, p: Proc, script: seq<Reply>)
      returns (world: World, proc: Proc, rest: seq<Reply>)
    requires Inv(w.db) && OnTrack(w.db, p, script) && !p.Stopped()
    ensures RunToEnd(w, p, script) == RunToEnd(world, proc, rest)
    ensures proc.works == p.works && (proc.at > p.at || (proc.at == p.at && StepsLeft(proc.pc) < StepsLeft(p.pc)))
    ensures Inv(world.db) && OnTrack(world.db, proc, rest)
  {
    world, proc, rest := OneTurn(w, p, script);
    AdvanceIsATransaction(w, p, FirstReply(script));
    AdvanceKeepsAligned(w, p, FirstReply(script));
    if p.at == 0 && proc.at > 0 {
      LeftJobsAreStored(w, p, FirstReply(script));
    }
    LedgerStaysStartable(w, p, FirstReply(script));
    if p.pc.Create? {
      CreatedOnTrack(w, p, script);
    } else {
      OtherOnTrack(w, p, script);
    }
    StillWilling(w, p, script);
  }

  lemma {:induction false} OnTrackReturns(w: World, p: Proc, script: seq<Reply>)
    requires Inv(w.db) && OnTrack(w.db, p, script)
    ensures RunToEnd(w, p, script).proc.pc.Returned?
    decreases |p.works| - p.at, StepsLeft(p.pc)
  {
    if !p.Stopped() {
      var world, proc, rest := OneTurnOnTrack(w, p, script);
      OnTrackReturns(world, proc, rest);
    }
  }

  // ---- Theorems ----

  lemma StagesAreAFamily(env: Envelope, stages: seq<Stage>)
    requires env.intent.DevelopmentCoordinate? && DistinctStages(stages) && LimitationsOk(env)
    ensures Family(Program(env, stages)) && Aligned(Start(Program(env, stages)))
  {
    var works := Program(env, stages);
    StagesGiveDistinctWorks(env, stages);
    forall j | 0 < j < |works| ensures InFamily(works, j) && works[j].duty.Delegate? {
      var child := ChildAt(env, stages, j);
      ChildIsNotParent(env, stages[j - 1].name);
    }
  }

  /**
   With distinct stages, valid limitations and a ledger in which every job of the coordination is stored
   already or can be stored, an adapter that answers each request with a task id is all it takes for a
   coordination to return with every stage.
   */
  lemma CoordinationFinishes(w: World, env: Envelope, stages: seq<Stage>, script: seq<Reply>)
    requires Inv(w.db) && env.intent.DevelopmentCoordinate? && DistinctStages(stages) && LimitationsOk(env)
    requires Startable(w.db, Program(env, stages)) && Willing(script, |stages|)
    ensures var end := Coordinate(w, env, stages, script); end.proc.pc.Returned? && |end.proc.steps| == |stages|
  {
    StagesAreAFamily(env, stages);
    OnTrackReturns(w, Start(Program(env, stages)), script);
    CoordinationIsOk(w, env, stages, script);
  }

  /**
   However a first attempt ended, with whatever adapter, and whatever others did since: if the ledger puts
   nothing in the way, a retry with a willing adapter returns every stage, and it keeps the jobs and tasks
   that the first attempt reported.
   */
  lemma RetryFinishes(w: World, env: Envelope, stages: seq<Stage>, script: seq<Reply>, later: World, again: seq<Reply>)
    requires Inv(w.db) && env.intent.DevelopmentCoordinate? && DistinctStages(stages) && LimitationsOk(env)
    requires Inv(later.db) && Evolves(Coordinate(w, env, stages, script).world.db, later.db)
    requires Startable(later.db, Program(env, stages)) && Willing(again, |stages|)
    ensures var first, second := Coordinate(w, env, stages, script), Coordinate(later, env, stages, again);
      second.proc.pc.Returned? && |second.proc.steps| == |stages| && first.proc.steps <= second.proc.steps
  {
    CoordinationFinishes(later, env, stages, again);
    RetryExtends(w, env, stages, script, later, again);
  }

  /** An attempt puts nothing in the way of a retry itself: a retry at once finishes wherever a first attempt could. */
  lemma RetryAtOnceFinishes(w: World, env: Envelope, stages: seq<Stage>, script: seq<Reply>, again: seq<Reply>)
    requires Inv(w.db) && env.intent.DevelopmentCoordinate? && DistinctStages(stages) && LimitationsOk(env)
    requires Startable(w.db, Program(env, stages)) && Willing(again, |stages|)
    ensures var first := Coordinate(w, env, stages, script);
      var second := Coordinate(first.world, env, stages, again);
      second.proc.pc.Returned? && |second.proc.steps| == |stages| && first.proc.steps <= second.proc.steps
  {
    StagesAreAFamily(env, stages);
    RunStaysStartable(w, Start(Program(env, stages)), script);
    var first := Coordinate(w, env, stages, script);
    SameEvolves(first.world.db);
    RetryFinishes(w, env, stages, script, first.world, again);
  }
}
