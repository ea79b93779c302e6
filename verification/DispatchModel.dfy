/**
 The dispatcher on values (src/hermes_harness/dispatcher.py).  A call to `dispatch` or
 `coordinate_development` is a process that works through a list of jobs in single steps: one ledger
 transaction or one call of the Kanban adapter each.  Between two steps anything may happen.
 */
module DispatchModel {
  import opened Common
  import opened Json
  import opened Contracts
  import opened LedgerModel

  // ---- Routing of an intent ----

  predicate DirectIntent(i: Intent) {
    || i.CalendarCreateVtodo? || i.CalendarCreateEvent? || i.CalendarUpdate? || i.CalendarDelete?
    || i.CalendarList? || i.PiHealthRead? || i.PiJobsList? || i.PiJobsCancel?
    || i.GeneralAnswer? || i.GeneralClarify?
  }

  function ProfileByIntent(i: Intent): Option<string> {
    match i
    case BrowserResearch => Some("browser-operator")
    case BrowserOrderPrepare => Some("browser-operator")
    case BrowserFormPrepare => Some("browser-operator")
    case BrowserAuthRequired => Some("browser-operator")
    case TravelPlan => Some("travel-planner")
    case TravelSearchFlights => Some("travel-planner")
    case TravelSearchStays => Some("travel-planner")
    case TechnicalResearch => Some("researcher")
    case TechnicalPlan => Some("researcher")
    case TechnicalChange => Some("engineer")
    case TechnicalReview => Some("engineer")
    case CodePlan => Some("engineer")
    case CodeChange => Some("engineer")
    case CodeReview => Some("engineer")
    case DocsReconcile => Some("documentator")
    case DocsQuery => Some("documentator")
    case _ => None
  }

  // ---- The work of a call ----

  /** What a call owes a job besides having it in the ledger. */
  datatype Duty = EnsureOnly | Refuse | Delegate(assignee: string)

  datatype Work = Work(env: Envelope, duty: Duty)

  datatype Stage = Stage(name: string, intent: Intent, assignee: string)

  const DEVELOPMENT_WORKFLOW := [
    Stage("research", TechnicalResearch, "researcher"),
    Stage("change", TechnicalChange, "engineer")]

  function DutyOf(env: Envelope): Duty {
    match ProfileByIntent(env.intent)
    case None => if DirectIntent(env.intent) then EnsureOnly else Refuse
    case Some(profile) =>
      match env.parameters.GetOr("delegation_profile", Null)
      case Null => EnsureOnly
      case Str(requested) => if requested == profile then Delegate(profile) else Refuse
      case _ => Refuse
  }

  function ChildId(parent: Envelope, stage: string): Uuid {
    Uuid5(parent.jobId, "development-coordinate:" + stage)
  }

  function ChildKey(parent: Envelope, stage: string): Key {
    var key := parent.key.Append(":" + stage);
    if key.Length() <= 256 then key
    else UuidThen(Uuid5(parent.jobId, "development-coordinate:" + stage + ":idempotency"), "")
  }

  function ChildEnvelope(parent: Envelope, stage: Stage, dependency: Option<Uuid>): Envelope {
    parent.(
      jobId := ChildId(parent, stage.name),
      parentJobId := Some(parent.jobId),
      intent := stage.intent,
      key := ChildKey(parent, stage.name),
      dependencies := if dependency.Some? then [dependency.value] else [])
  }

  /** The i-th child of a coordination depends on the child before it. */
  function ChildWork(parent: Envelope, stages: seq<Stage>, i: nat): Work
    requires i < |stages|
  {
    var dependency := if i == 0 then None else Some(ChildId(parent, stages[i - 1].name));
    Work(ChildEnvelope(parent, stages[i], dependency), Delegate(stages[i].assignee))
  }

  function Children(parent: Envelope, stages: seq<Stage>): (r: seq<Work>)
    ensures |r| == |stages|
    ensures forall i :: 0 <= i < |r| ==> r[i] == ChildWork(parent, stages, i)
  {
    seq(|stages|, i requires 0 <= i < |stages| => ChildWork(parent, stages, i))
  }

  function Program(env: Envelope, stages: seq<Stage>): (r: seq<Work>)
    ensures |r| > 0
  {
    if env.intent.DevelopmentCoordinate? then [Work(env, EnsureOnly)] + Children(env, stages)
    else [Work(env, DutyOf(env))]
  }

  // ---- The native Kanban board ----

  datatype Handoff = Handoff(
    assignee: string, deliveryTarget: string, key: Key, jobId: Uuid, limitations: Json,
    originProfile: string, originSession: string, parentJobId: Option<Uuid>, phase: Intent,
    schemaVersion: string, summary: string)

  datatype KanbanTask = KanbanTask(
    title: Intent, body: Handoff, assignee: string, key: Key, parents: seq<string>,
    model: string, provider: string)

  predicate LimitationsOk(env: Envelope) {
    match env.parameters.GetOr("limitations", Arr([]))
    case Arr(items) => forall i :: 0 <= i < |items| ==> items[i].Str? && !Blank(items[i].s)
    case _ => false
  }

  function TaskFor(env: Envelope, assignee: string, parentTask: Option<string>): KanbanTask {
    KanbanTask(
      env.intent,
      Handoff(assignee, env.deliveryTarget, env.key, env.jobId,
              env.parameters.GetOr("limitations", Arr([])), env.originProfile, env.originSession,
              env.parentJobId, env.intent, env.schemaVersion, env.sourceText),
      assignee,
      env.key,
      if parentTask.Some? && parentTask.value != "" then [parentTask.value] else [],
      env.modelPolicy.model,
      env.modelPolicy.provider)
  }

  /** What the adapter does with one `create_task`: it may also fail after the task was created. */
  datatype Reply = Give(task: string) | Fail(created: Option<string>)

  function Created(native: map<string, KanbanTask>, task: string, request: KanbanTask): map<string, KanbanTask> {
    if task in native then native else native[task := request]
  }

  function BoardAfter(native: map<string, KanbanTask>, request: KanbanTask, reply: Reply): map<string, KanbanTask> {
    match reply
    case Give(task) => Created(native, task, request)
    case Fail(Some(task)) => Created(native, task, request)
    case Fail(None) => native
  }

  /** A board that honours the idempotency key: a used key gets its task back, a new key a new task. */
  ghost predicate Honours(native: map<string, KanbanTask>, key: Key, reply: Reply) {
    var task := if reply.Give? then Some(reply.task) else reply.created;
    task.Some? ==>
      if task.value in native then native[task.value].key == key
      else forall t :: t in native ==> native[t].key != key
  }

  // ---- A call as a process ----

  datatype Failure = LedgerFailure(error: Error) | AdapterFailure | BadHandoff | NoRoute | WrongIntent

  datatype Pc = Read | Create | ReRead | Call | Attach(task: string) | Returned | Failed(failure: Failure)

  datatype WorkflowStep = WorkflowStep(env: Envelope, task: string)

  datatype Proc = Proc(works: seq<Work>, at: nat, pc: Pc, parentTask: Option<string>, steps: seq<WorkflowStep>)
  {
    predicate Stopped() {
      pc.Returned? || pc.Failed? || at >= |works|
    }

    function Current(): Work
      requires at < |works|
    {
      works[at]
    }

    function Next(): Proc {
      this.(at := at + 1, pc := if at + 1 < |works| then Read else Returned)
    }

    /** The current job is in the ledger; `job` is what the call read of it. */
    function Ensured(job: Job): Proc
      requires at < |works|
    {
      match Current().duty
      case EnsureOnly => this.(parentTask := job.task).Next()
      case Refuse => this.(pc := Failed(NoRoute))
      case Delegate(_) => if job.task.Some? then Settled(job.task.value) else this.(pc := Call)
    }

    /** The current job has its Kanban task. */
    function Settled(task: string): Proc
      requires at < |works|
    {
      this.(steps := steps + [WorkflowStep(Current().env, task)], parentTask := Some(task)).Next()
    }
  }

  function Start(works: seq<Work>): Proc {
    Proc(works, 0, Read, None, [])
  }

  /** What the call asks the board for. */
  function RequestFor(p: Proc): KanbanTask
    requires p.at < |p.works|
  {
    TaskFor(p.Current().env, if p.Current().duty.Delegate? then p.Current().duty.assignee else "", p.parentTask)
  }

  datatype World = World(db: Db, native: map<string, KanbanTask>)

  datatype Turn = Turn(world: World, proc: Proc)

  /** One step of one call. */
  ghost function Advance(w: World, p: Proc, reply: Reply): Turn
    requires !p.Stopped()
  {
    var env := p.Current().env;
    match p.pc
    case Read =>
      if env.jobId in w.db.jobs then Turn(w, p.Ensured(w.db.jobs[env.jobId]))
      else Turn(w, p.(pc := Create))
    case Create =>
      var c := CreateJob(w.db, env);
      if c.outcome.Err? then Turn(w, p.(pc := Failed(LedgerFailure(c.outcome.error))))
      else if c.db == w.db then Turn(w, p.Ensured(c.outcome.value))
      else Turn(w.(db := c.db), p.(pc := ReRead))
    case ReRead =>
      if env.jobId in w.db.jobs then Turn(w, p.Ensured(w.db.jobs[env.jobId]))
      else Turn(w, p.(pc := Failed(LedgerFailure(KeyError))))
    case Call =>
      if !LimitationsOk(env) then Turn(w, p.(pc := Failed(BadHandoff)))
      else
        Turn(
          w.(native := BoardAfter(w.native, RequestFor(p), reply)),
          p.(pc := if reply.Give? then Attach(reply.task) else Failed(AdapterFailure)))
    case Attach(task) =>
      var c := AttachTask(w.db, env.jobId, task);
      if c.outcome.Err? then Turn(w, p.(pc := Failed(LedgerFailure(c.outcome.error))))
      else Turn(w.(db := c.db), p.Settled(task))
  }

  // ---- A call that nothing interrupts ----

  datatype End = End(world: World, proc: Proc, script: seq<Reply>)

  function StepsLeft(pc: Pc): nat {
    match pc
    case Read => 5
    case Create => 4
    case ReRead => 3
    case Call => 2
    case Attach(_) => 1
    case _ => 0
  }

  function FirstReply(script: seq<Reply>): Reply {
    if script == [] then Fail(None) else script[0]
  }

  function RestOf(p: Proc, script: seq<Reply>): seq<Reply> {
    if !p.Stopped() && p.pc.Call? && LimitationsOk(p.Current().env) && script != [] then script[1..] else script
  }

  /** A call run to its end; `script` holds the adapter's replies in the order they are asked for. */
  ghost function RunToEnd(w: World, p: Proc, script: seq<Reply>): End
    decreases |p.works| - p.at, StepsLeft(p.pc)
  {
    if p.Stopped() then End(w, p, script)
    else
      var turn := Advance(w, p, FirstReply(script));
      RunToEnd(turn.world, turn.proc, RestOf(p, script))
  }

  datatype DispatchResult =
    DispatchResult(jobId: Uuid, task: Option<string>, direct: bool, children: seq<WorkflowStep>)

  /** What the caller of `dispatch` gets from a finished process. */
  function ResultOf(env: Envelope, p: Proc): Outcome<DispatchResult, Failure> {
    if p.pc.Failed? then Err(p.pc.failure)
    else if env.intent.DevelopmentCoordinate? then Ok(DispatchResult(env.jobId, None, false, p.steps))
    else if p.steps == [] then Ok(DispatchResult(env.jobId, None, true, []))
    else Ok(DispatchResult(env.jobId, Some(p.steps[0].task), false, []))
  }
}
