/** Where a call goes in long strides, and what `dispatch` answers, in the fields of the envelope and the ledger. */
module DispatchOutcomes {
  import opened Common
  import opened Json
  import opened Contracts
  import opened LedgerModel
  import opened LedgerHistory
  import opened DispatchFamily
  import opened DispatchModel
  import opened DispatchSystem
  import opened DispatchWorkflow

  // ---- Stretches of a call ----

  ghost function EnsureCommit(db: Db, env: Envelope): Commit {
    if env.jobId in db.jobs then Commit(db, Ok(db.jobs[env.jobId])) else CreateJob(db, env)
  }

  lemma StoppedIsTheEnd(w: World, p: Proc, script: seq<Reply>)
    ensures p.Stopped() ==> RunToEnd(w, p, script) == End(w, p, script)
  {
  }

  /** What one try at creating the job leads to. */
  lemma CreateTurn(w: World, p: Proc, script: seq<Reply>)
    requires Inv(w.db) && !p.Stopped() && p.pc.Create?
    ensures RestOf(p, script) == script
    ensures var c, turn := CreateJob(w.db, p.Current().env), Advance(w, p, FirstReply(script));
      if c.outcome.Err? then turn == Turn(w, p.(pc := Failed(LedgerFailure(c.outcome.error))))
      else
        && p.Current().env.jobId in c.db.jobs && c.outcome.value == c.db.jobs[p.Current().env.jobId]
        && (turn == Turn(w.(db := c.db), p.Ensured(c.outcome.value)) || turn == Turn(w.(db := c.db), p.(pc := ReRead)))
  {
    if CreateJob(w.db, p.Current().env).outcome.Ok? {
      CreateReturnsTheJob(w.db, p.Current().env);
    }
    hide Inv, CreateJob;
  }

  lemma TurnLeadsTo(w: World, p: Proc, script: seq<Reply>, turn: Turn)
    requires !p.Stopped() && turn == Advance(w, p, FirstReply(script)) && RestOf(p, script) == script
    ensures RunToEnd(w, p, script) == RunToEnd(turn.world, turn.proc, script)
  {
    hide *;
    var world, proc, rest := OneTurn(w, p, script);
  }

  lemma ReReadPath(w: World, p: Proc, script: seq<Reply>)
    requires !p.Stopped() && p.pc.ReRead? && p.Current().env.jobId in w.db.jobs
    ensures RunToEnd(w, p, script) == RunToEnd(w, p.Ensured(w.db.jobs[p.Current().env.jobId]), script)
  {
    hide RunToEnd;
    var world, proc, rest := OneTurn(w, p, script);
  }

  lemma FailedPath(w: World, p: Proc, script: seq<Reply>, failure: Failure)
    requires !p.Stopped() && RestOf(p, script) == script
    requires Advance(w, p, FirstReply(script)) == Turn(w, p.(pc := Failed(failure)))
    ensures RunToEnd(w, p, script) == End(w, p.(pc := Failed(failure)), script)
  {
    hide Advance, RestOf, FirstReply;
    TurnLeadsTo(w, p, script, Turn(w, p.(pc := Failed(failure))));
    hide RunToEnd;
    StoppedIsTheEnd(w, p.(pc := Failed(failure)), script);
  }

  lemma ReadBackPath(w: World, p: Proc, script: seq<Reply>, next: World)
    requires !p.Stopped() && RestOf(p, script) == script && p.Current().env.jobId in next.db.jobs
    requires Advance(w, p, FirstReply(script)) == Turn(next, p.(pc := ReRead))
    ensures RunToEnd(w, p, script) == RunToEnd(next, p.Ensured(next.db.jobs[p.Current().env.jobId]), script)
  {
    hide Advance, RestOf, FirstReply, RunToEnd;
    TurnLeadsTo(w, p, script, Turn(next, p.(pc := ReRead)));
    ReReadPath(next, p.(pc := ReRead), script);
  }

  lemma CreatePath(w: World, p: Proc, script: seq<Reply>)
    requires Inv(w.db) && !p.Stopped() && p.pc.Create?
    ensures var c := CreateJob(w.db, p.Current().env);
      RunToEnd(w, p, script) ==
        if c.outcome.Err? then End(w, p.(pc := Failed(LedgerFailure(c.outcome.error))), script)
        else RunToEnd(w.(db := c.db), p.Ensured(c.outcome.value), script)
  {
    var c, turn := CreateJob(w.db, p.Current().env), Advance(w, p, FirstReply(script));
    CreateTurn(w, p, script);
    hide *;
    if c.outcome.Err? {
      FailedPath(w, p, script, LedgerFailure(c.outcome.error));
    } else if turn.proc == p.(pc := ReRead) {
      ReadBackPath(w, p, script, w.(db := c.db));
    } else {
      TurnLeadsTo(w, p, script, turn);
    }
  }

  /** Reading, creating and reading back is what `_ensure_job` does. */
  lemma EnsurePath(w: World, p: Proc, script: seq<Reply>)
    requires Inv(w.db) && !p.Stopped() && p.pc.Read?
    ensures var c := EnsureCommit(w.db, p.Current().env);
      RunToEnd(w, p, script) ==
        if c.outcome.Err? then End(w, p.(pc := Failed(LedgerFailure(c.outcome.error))), script)
        else RunToEnd(w.(db := c.db), p.Ensured(c.outcome.value), script)
  {
    hide RunToEnd;
    var world, proc, rest := OneTurn(w, p, script);
    StoppedIsTheEnd(world, proc, rest);
    if proc.pc.Create? && p.Current().env.jobId !in w.db.jobs {
      CreatePath(world, proc, rest);
    }
  }

  lemma AttachPath(w: World, p: Proc, script: seq<Reply>)
    requires !p.Stopped() && p.pc.Attach?
    ensures var c := AttachTask(w.db, p.Current().env.jobId, p.pc.task);
      (c.outcome.Err? ==> c.db == w.db) &&
      RunToEnd(w, p, script) ==
        if c.outcome.Err? then End(w, p.(pc := Failed(LedgerFailure(c.outcome.error))), script)
        else RunToEnd(w.(db := c.db), p.Settled(p.pc.task), script)
  {
    hide RunToEnd;
    var world, proc, rest := OneTurn(w, p, script);
    StoppedIsTheEnd(world, proc, rest);
  }

  lemma CallPath(w: World, p: Proc, script: seq<Reply>)
    requires !p.Stopped() && p.pc.Call? && p.Current().duty.Delegate?
    ensures RunToEnd(w, p, script) ==
      if !LimitationsOk(p.Current().env) then End(w, p.(pc := Failed(BadHandoff)), script)
      else
        var reply := FirstReply(script);
        var world := w.(native := BoardAfter(w.native, RequestFor(p), reply));
        var rest := if script == [] then [] else script[1..];
        if reply.Fail? then End(world, p.(pc := Failed(AdapterFailure)), rest)
        else RunToEnd(world, p.(pc := Attach(reply.task)), rest)
  {
    hide RunToEnd;
    var world, proc, rest := OneTurn(w, p, script);
    StoppedIsTheEnd(world, proc, rest);
  }

  // ---- Which intents have a specialist ----

  /** The first word of an intent's value, as in `browser.research`. */
  datatype Area = Calendar | Pi | Browser | Travel | Technical | Development | Code | Docs | General

  function AreaOf(i: Intent): Area {
    match i
    case CalendarCreateVtodo => Calendar
    case CalendarCreateEvent => Calendar
    case CalendarUpdate => Calendar
    case CalendarDelete => Calendar
    case CalendarList => Calendar
    case PiHealthRead => Pi
    case PiJobsList => Pi
    case PiJobsCancel => Pi
    case BrowserResearch => Browser
    case BrowserOrderPrepare => Browser
    case BrowserFormPrepare => Browser
    case BrowserAuthRequired => Browser
    case TravelPlan => Travel
    case TravelSearchFlights => Travel
    case TravelSearchStays => Travel
    case TechnicalResearch => Technical
    case TechnicalPlan => Technical
    case TechnicalChange => Technical
    case TechnicalReview => Technical
    case DevelopmentCoordinate => Development
    case CodePlan => Code
    case CodeChange => Code
    case CodeReview => Code
    case DocsReconcile => Docs
    case DocsQuery => Docs
    case GeneralAnswer => General
    case GeneralClarify => General
  }

  /** The specialist goes by the area of an intent, but technical work has two; no intent is left without a place. */
  lemma SpecialistsByArea(i: Intent)
    ensures ProfileByIntent(i) == Some("browser-operator") <==> AreaOf(i).Browser?
    ensures ProfileByIntent(i) == Some("travel-planner") <==> AreaOf(i).Travel?
    ensures ProfileByIntent(i) == Some("documentator") <==> AreaOf(i).Docs?
    ensures ProfileByIntent(i) == Some("researcher") <==> i in {TechnicalResearch, TechnicalPlan}
    ensures ProfileByIntent(i) == Some("engineer") <==> AreaOf(i).Code? || i in {TechnicalChange, TechnicalReview}
    ensures DirectIntent(i) <==> AreaOf(i).Calendar? || AreaOf(i).Pi? || AreaOf(i).General?
    ensures ProfileByIntent(i).None? <==> DirectIntent(i) || AreaOf(i).Development?
  {
    assert "browser-operator"[0] == 'b' && "travel-planner"[0] == 't' && "documentator"[0] == 'd';
    assert "researcher"[0] == 'r' && "engineer"[0] == 'e';
  }

  // ---- The handoff ----

  /** `limitations` is absent or a list of texts that are not blank. */
  ghost predicate HandoffOk(env: Envelope) {
    match env.parameters.Get("limitations")
    case None => true
    case Some(Arr(items)) => forall i :: 0 <= i < |items| ==> items[i].Str? && !Blank(items[i].s)
    case _ => false
  }

  lemma LimitationsAreMeant(env: Envelope)
    ensures LimitationsOk(env) <==> HandoffOk(env)
  {
  }

  /** The task hands over exactly this job to `assignee`, below `parent`. */
  ghost predicate HandsOver(task: KanbanTask, env: Envelope, assignee: string, parent: Option<string>) {
    && task.title == env.intent && task.assignee == assignee && task.key == env.key
    && task.model == env.modelPolicy.model && task.provider == env.modelPolicy.provider
    && (forall p :: task.parents == [p] <==> parent == Some(p) && p != "") && |task.parents| <= 1
    && task.body.assignee == assignee && task.body.phase == env.intent && task.body.summary == env.sourceText
    && task.body.jobId == env.jobId && task.body.parentJobId == env.parentJobId && task.body.key == env.key
    && task.body.originProfile == env.originProfile && task.body.originSession == env.originSession
    && task.body.deliveryTarget == env.deliveryTarget && task.body.schemaVersion == env.schemaVersion
    && match env.parameters.Get("limitations")
       case None => task.body.limitations == Arr([])
       case Some(limitations) => task.body.limitations == limitations
  }

  lemma TasksAreMeant(env: Envelope, assignee: string, parent: Option<string>)
    ensures HandsOver(TaskFor(env, assignee, parent), env, assignee, parent)
  {
  }

  // ---- What `dispatch` answers ----

  /** Nobody asks for a delegation. */
  predicate Unasked(env: Envelope) {
    env.parameters.Get("delegation_profile") == None || env.parameters.Get("delegation_profile") == Some(Null)
  }

  predicate AskedFor(env: Envelope, profile: string) {
    env.parameters.Get("delegation_profile") == Some(Str(profile))
  }

  /** The job stays with the default profile or a direct tool. */
  predicate Keeps(env: Envelope) {
    if ProfileByIntent(env.intent).Some? then Unasked(env) else DirectIntent(env.intent)
  }

  /** The specialist of the intent is asked for by name. */
  predicate Delegates(env: Envelope) {
    ProfileByIntent(env.intent).Some? && AskedFor(env, ProfileByIntent(env.intent).value)
  }

  /** Nothing but the ledger has changed, to `db`. */
  ghost predicate OnlyLedger(before: World, script: seq<Reply>, db: Db, after: World, rest: seq<Reply>) {
    after == World(db, before.native) && rest == script
  }

  /** The board was asked for the job's task; an answer that is a task id is attached to the job. */
  ghost predicate Delegated(env: Envelope, profile: string, db: Db, job: Job, before: World, script: seq<Reply>,
                            after: World, rest: seq<Reply>, r: Outcome<DispatchResult, Failure>)
  {
    && rest == (if script == [] then [] else script[1..])
    && (exists task :: HandsOver(task, env, profile, None)
                       && after.native == BoardAfter(before.native, task, FirstReply(script)))
    && match FirstReply(script)
       case Fail(_) => r == Err(AdapterFailure) && after.db == db
       case Give(id) =>
         if Blank(id) then r == Err(LedgerFailure(ValueError)) && after.db == db
         else
           && r == Ok(DispatchResult(env.jobId, Some(id), false, []))
           && after.db.jobs == db.jobs[env.jobId := job.(task := Some(id))]
           && after.db.log == db.log + [Event(env.jobId, KanbanAttached, None, KanbanTaskId(id))]
  }

  /** What a call of `dispatch` with any other intent than `development.coordinate` does and answers. */
  ghost predicate Answered(env: Envelope, before: World, script: seq<Reply>, after: World, rest: seq<Reply>,
                           r: Outcome<DispatchResult, Failure>)
  {
    var c :=
      if env.jobId in before.db.jobs then Commit(before.db, Ok(before.db.jobs[env.jobId]))
      else CreateJob(before.db, env);
    if c.outcome.Err? then
      r == Err(LedgerFailure(c.outcome.error)) && OnlyLedger(before, script, before.db, after, rest)
    else if Keeps(env) then
      r == Ok(DispatchResult(env.jobId, None, true, [])) && OnlyLedger(before, script, c.db, after, rest)
    else if !Delegates(env) then
      r == Err(NoRoute) && OnlyLedger(before, script, c.db, after, rest)
    else if c.outcome.value.task.Some? then
      && r == Ok(DispatchResult(env.jobId, c.outcome.value.task, false, []))
      && OnlyLedger(before, script, c.db, after, rest)
    else if !HandoffOk(env) then
      r == Err(BadHandoff) && OnlyLedger(before, script, c.db, after, rest)
    else
      Delegated(env, ProfileByIntent(env.intent).value, c.db, c.outcome.value, before, script, after, rest, r)
  }

  lemma DutiesAreMeant(env: Envelope)
    ensures DutyOf(env).EnsureOnly? <==> Keeps(env)
    ensures DutyOf(env).Delegate? <==> Delegates(env)
    ensures Delegates(env) ==> DutyOf(env) == Delegate(ProfileByIntent(env.intent).value)
  {
  }

  /** A ledger that has the job, or has just got it. */
  lemma EnsuredJob(db: Db, env: Envelope)
    requires Inv(db)
    ensures var c := EnsureCommit(db, env);
      if c.outcome.Err? then c.db == db
      else env.jobId in c.db.jobs && c.db.jobs[env.jobId] == c.outcome.value
  {
    if env.jobId !in db.jobs && CreateJob(db, env).outcome.Ok? {
      CreateReturnsTheJob(db, env);
    }
  }

  ghost function AttachedWorld(w: World, id: Uuid, task: string): World {
    w.(db := AttachTask(w.db, id, task).db)
  }

  /** A call that stands before the board with its job asks for a task, unless the handoff is bad. */
  lemma DelegationAnswers(before: World, db: Db, env: Envelope, profile: string, script: seq<Reply>)
    requires env.jobId in db.jobs && db.jobs[env.jobId].task.None? && !env.intent.DevelopmentCoordinate?
    ensures var p := Start([Work(env, Delegate(profile))]).(pc := Call);
      var end := RunToEnd(before.(db := db), p, script);
      if HandoffOk(env) then
        Delegated(env, profile, db, db.jobs[env.jobId], before, script, end.world, end.script, ResultOf(env, end.proc))
      else end == End(before.(db := db), p.(pc := Failed(BadHandoff)), script)
  {
    var w, p := before.(db := db), Start([Work(env, Delegate(profile))]).(pc := Call);
    LimitationsAreMeant(env);
    TasksAreMeant(env, profile, None);
    hide LimitationsOk, HandoffOk, RunToEnd, HandsOver;
    CallPath(w, p, script);
    var reply := FirstReply(script);
    if reply.Give? {
      var world := w.(native := BoardAfter(w.native, RequestFor(p), reply));
      var rest := if script == [] then [] else script[1..];
      AttachPath(world, p.(pc := Attach(reply.task)), rest);
      StoppedIsTheEnd(AttachedWorld(world, env.jobId, reply.task), p.Settled(reply.task), rest);
    }
  }

  /** Where a call with one job stands once the job is in the ledger, and what it answers if it ends there. */
  lemma AfterEnsuring(w: World, env: Envelope, duty: Duty, job: Job, script: seq<Reply>)
    requires !env.intent.DevelopmentCoordinate?
    ensures var next := Start([Work(env, duty)]).Ensured(job);
      if duty.Delegate? && job.task.None? then next == Start([Work(env, duty)]).(pc := Call)
      else
        && RunToEnd(w, next, script) == End(w, next, script)
        && ResultOf(env, next) ==
             if duty.EnsureOnly? then Ok(DispatchResult(env.jobId, None, true, []))
             else if duty.Refuse? then Err(NoRoute)
             else Ok(DispatchResult(env.jobId, job.task, false, []))
  {
    hide RunToEnd;
    StoppedIsTheEnd(w, Start([Work(env, duty)]).Ensured(job), script);
  }

  lemma SingleJobAnswers(w: World, env: Envelope, script: seq<Reply>)
    requires Inv(w.db) && !env.intent.DevelopmentCoordinate?
    ensures var end := RunToEnd(w, Start([Work(env, DutyOf(env))]), script);
      Answered(env, w, script, end.world, end.script, ResultOf(env, end.proc))
  {
    var p, c := Start([Work(env, DutyOf(env))]), EnsureCommit(w.db, env);
    EnsuredJob(w.db, env);
    DutiesAreMeant(env);
    hide RunToEnd, Inv, EnsureCommit, DutyOf, Keeps, Delegates, HandoffOk, Delegated, ProfileByIntent;
    EnsurePath(w, p, script);
    if c.outcome.Ok? {
      AfterEnsuring(w.(db := c.db), env, DutyOf(env), c.outcome.value, script);
      if DutyOf(env).Delegate? && c.outcome.value.task.None? {
        DelegationAnswers(w, c.db, env, DutyOf(env).assignee, script);
      }
    }
  }

  /** Every call of `dispatch` with one job answers as described. */
  lemma DispatchAnswers(w: World, env: Envelope, stages: seq<Stage>, script: seq<Reply>)
    requires Inv(w.db) && !env.intent.DevelopmentCoordinate?
    ensures var end := RunToEnd(w, Start(Program(env, stages)), script);
      Answered(env, w, script, end.world, end.script, ResultOf(env, end.proc))
  {
    assert Program(env, stages) == [Work(env, DutyOf(env))];
    hide *;
    SingleJobAnswers(w, env, script);
  }

  /** Some event past the first `from` records an attachment. */
  ghost predicate AttachedSince(log: seq<Event>, from: nat) {
    exists i :: from <= i < |log| && log[i].kind == KanbanAttached
  }

  /**
   The adapter is called, the board changed or a task attached only if the parameters name, under
   `delegation_profile`, the specialist of the intent; and then the job has no task yet.
   */
  lemma OnlyDelegationsReachTheBoard(env: Envelope, before: World, script: seq<Reply>, after: World, rest: seq<Reply>,
                                     r: Outcome<DispatchResult, Failure>)
    requires Answered(env, before, script, after, rest, r)
    requires after.native != before.native || rest != script || AttachedSince(after.db.log, |before.db.log|)
    ensures exists profile ::
      ProfileByIntent(env.intent) == Some(profile) && env.parameters.Get("delegation_profile") == Some(Str(profile))
    ensures env.jobId in before.db.jobs ==> before.db.jobs[env.jobId].task.None?
  {
    var c := EnsureCommit(before.db, env);
    assert !AttachedSince(c.db.log, |before.db.log|);
    assert !AttachedSince(before.db.log, |before.db.log|);
  }

  // ---- What a coordination answers ----

  /** The child of a stage: its own id, key, intent and dependency, and everything else as its parent has it. */
  ghost predicate ChildOf(child: Envelope, env: Envelope, stage: string, intent: Intent, dependencies: seq<Uuid>) {
    && child.jobId == Uuid5(env.jobId, "development-coordinate:" + stage) && child.parentJobId == Some(env.jobId)
    && child.intent == intent && child.dependencies == dependencies
    && (env.key.Length() + 1 + |stage| <= 256 ==> child.key == env.key.Append(":" + stage))
    && (env.key.Length() + 1 + |stage| > 256 ==>
          child.key == UuidThen(Uuid5(env.jobId, "development-coordinate:" + stage + ":idempotency"), ""))
    && child.(jobId := env.jobId, parentJobId := env.parentJobId, intent := env.intent, key := env.key,
              dependencies := env.dependencies) == env
  }

  lemma ChildrenAreMeant(env: Envelope, stage: Stage, dependency: Option<Uuid>)
    ensures ChildOf(ChildEnvelope(env, stage, dependency), env, stage.name, stage.intent,
                    if dependency.Some? then [dependency.value] else [])
  {
  }

  /** What a call of `dispatch` with `development.coordinate` answers if it succeeds: research, and then the change. */
  ghost predicate Coordinated(env: Envelope, after: World, r: Outcome<DispatchResult, Failure>) {
    r.Ok? ==>
      && r.value.jobId == env.jobId && r.value.task.None? && !r.value.direct && |r.value.children| == 2
      && var research, change := r.value.children[0], r.value.children[1];
         && ChildOf(research.env, env, "research", TechnicalResearch, [])
         && ChildOf(change.env, env, "change", TechnicalChange, [research.env.jobId])
         && StepSettled(after.db, research) && StepSettled(after.db, change)
  }

  lemma ShippedChildren(env: Envelope)
    requires env.intent.DevelopmentCoordinate?
    ensures var works := Program(env, DEVELOPMENT_WORKFLOW);
      && |works| == 3
      && ChildOf(works[1].env, env, "research", TechnicalResearch, [])
      && ChildOf(works[2].env, env, "change", TechnicalChange, [works[1].env.jobId])
  {
    var research := ChildAt(env, DEVELOPMENT_WORKFLOW, 1);
    var change := ChildAt(env, DEVELOPMENT_WORKFLOW, 2);
    hide Program;
    ChildrenAreMeant(env, DEVELOPMENT_WORKFLOW[0], None);
    ChildrenAreMeant(env, DEVELOPMENT_WORKFLOW[1], Some(ChildId(env, "research")));
    hide ChildOf, ChildEnvelope;
  }

  lemma CoordinationAnswers(w: World, env: Envelope, script: seq<Reply>)
    requires Inv(w.db) && env.intent.DevelopmentCoordinate?
    ensures var end := RunToEnd(w, Start(Program(env, DEVELOPMENT_WORKFLOW)), script);
      Coordinated(env, end.world, ResultOf(env, end.proc))
  {
    var end := Coordinate(w, env, DEVELOPMENT_WORKFLOW, script);
    CoordinationIsOk(w, env, DEVELOPMENT_WORKFLOW, script);
    ShippedChildren(env);
    hide RunToEnd, Inv, Program, ChildOf, StepSettled;
    if end.proc.pc.Returned? {
      assert StepSettled(end.world.db, end.proc.steps[0]) && StepSettled(end.world.db, end.proc.steps[1]);
    }
  }
}
