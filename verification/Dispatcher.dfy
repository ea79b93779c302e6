/** The dispatcher as the object the program uses, proved to run the calls of DispatchModel to their end. */
module DispatcherService {
  import opened Common
  import opened Json
  import opened Contracts
  import opened LedgerModel
  import opened LedgerHistory
  import opened LedgerStore
  import opened DispatchModel
  import opened DispatchOutcomes
  import opened DispatchWorkflow

  /** The board behind the adapter; `script` are the answers the adapter is going to give. */
  class Kanban {
    var tasks: map<string, KanbanTask>
    var script: seq<Reply>

    constructor (replies: seq<Reply>)
      ensures tasks == map[] && script == replies
    {
      tasks, script := map[], replies;
    }

    method CreateTask(request: KanbanTask) returns (r: Outcome<string, Failure>)
      modifies this
      ensures tasks == BoardAfter(old(tasks), request, FirstReply(old(script)))
      ensures script == if old(script) == [] then [] else old(script)[1..]
      ensures r == var reply := FirstReply(old(script)); if reply.Give? then Ok(reply.task) else Err(AdapterFailure)
      ensures forall t :: t in old(tasks) ==> t in tasks && tasks[t] == old(tasks)[t]
      ensures forall t :: t in tasks && t !in old(tasks) ==>
        old(script) != [] && old(script)[0] in {Give(t), Fail(Some(t))} && tasks[t] == request
      ensures r.Ok? ==> old(script) != [] && old(script)[0] == Give(r.value) && r.value in tasks
    {
      var reply := FirstReply(script);
      script := if script == [] then [] else script[1..];
      var made := if reply.Give? then Some(reply.task) else reply.created;
      if made.Some? && made.value !in tasks {
        tasks := tasks[made.value := request];
      }
      return if reply.Give? then Ok(reply.task) else Err(AdapterFailure);
    }
  }

  lemma NextChild(env: Envelope, workflow: seq<Stage>, i: nat, dependency: Option<Uuid>)
    requires env.intent.DevelopmentCoordinate? && i < |workflow|
    requires dependency == if i == 0 then None else Some(ChildId(env, workflow[i - 1].name))
    ensures |Program(env, workflow)| == |workflow| + 1
    ensures Program(env, workflow)[i + 1] ==
      Work(ChildEnvelope(env, workflow[i], dependency), Delegate(workflow[i].assignee))
  {
    assert Program(env, workflow)[i + 1] == ChildWork(env, workflow, i);
  }

  class Dispatcher {
    const ledger: Ledger
    const kanban: Kanban

    constructor (ledger: Ledger, kanban: Kanban)
      ensures this.ledger == ledger && this.kanban == kanban
    {
      this.ledger := ledger;
      this.kanban := kanban;
    }

    ghost function Around(): World
      reads ledger, kanban
    {
      World(ledger.Contents(), kanban.tasks)
    }

    /** The job of the call's current work, created if it is missing; `p` is the call so far. */
    method EnsureJob(env: Envelope, ghost p: Proc) returns (r: Outcome<Job, Error>)
      requires ledger.Valid()
      requires !p.Stopped() && p.pc.Read? && p.Current().env == env
      modifies ledger
      ensures ledger.Valid()
      ensures RunToEnd(old(Around()), p, kanban.script) ==
        if r.Err? then End(Around(), p.(pc := Failed(LedgerFailure(r.error))), kanban.script)
        else RunToEnd(Around(), p.Ensured(r.value), kanban.script)
    {
      hide RunToEnd;
      EnsurePath(Around(), p, kanban.script);
      r := ledger.GetJob(env.jobId);
      if r.Err? {
        r := ledger.CreateJob(env);
      }
    }

    /** Asks the board for the current job's task and attaches it; `p` is the call so far. */
    method CreateAndAttach(env: Envelope, assignee: string, parentTask: Option<string>, ghost p: Proc)
        returns (r: Outcome<string, Failure>)
      requires ledger.Valid()
      requires !p.Stopped() && p.pc.Call? && p.Current() == Work(env, Delegate(assignee))
      requires p.parentTask == parentTask
      modifies ledger, kanban
      ensures ledger.Valid()
      ensures RunToEnd(old(Around()), p, old(kanban.script)) ==
        if r.Err? then End(Around(), p.(pc := Failed(r.error)), kanban.script)
        else RunToEnd(Around(), p.Settled(r.value), kanban.script)
    {
      hide RunToEnd, LimitationsOk, TaskFor, BoardAfter, AttachTask, Blank, Inv;
      CallPath(Around(), p, kanban.script);
      if !LimitationsOk(env) {
        return Err(BadHandoff);
      }
      r := kanban.CreateTask(TaskFor(env, assignee, parentTask));
      if r.Err? {
        return;
      }
      AttachPath(Around(), p.(pc := Attach(r.value)), kanban.script);
      var attached := ledger.AttachKanbanTask(env.jobId, r.value);
      if attached.Err? {
        return Err(LedgerFailure(attached.error));
      }
    }

    /** One round of the loop of `coordinate_development`: the child's job and its task. */
    method CoordinateStage(child: Envelope, assignee: string, parentTask: Option<string>, ghost p: Proc)
        returns (r: Outcome<string, Failure>)
      requires ledger.Valid()
      requires !p.Stopped() && p.pc.Read? && p.Current() == Work(child, Delegate(assignee))
      requires p.parentTask == parentTask
      modifies ledger, kanban
      ensures ledger.Valid()
      ensures r.Err? ==>
        var end := RunToEnd(old(Around()), p, old(kanban.script));
        end.proc.pc == Failed(r.error) && end.world == Around() && end.script == kanban.script
      ensures r.Ok? ==>
        RunToEnd(old(Around()), p, old(kanban.script)) == RunToEnd(Around(), p.Settled(r.value), kanban.script)
    {
      hide RunToEnd;
      var job := EnsureJob(child, p);
      if job.Err? {
        return Err(LedgerFailure(job.error));
      }
      if job.value.task.Some? {
        return Ok(job.value.task.value);
      }
      r := CreateAndAttach(child, assignee, parentTask, p.Ensured(job.value));
    }

    method Dispatch(env: Envelope) returns (r: Outcome<DispatchResult, Failure>)
      requires ledger.Valid()
      modifies ledger, kanban
      ensures ledger.Valid()
      ensures var end := RunToEnd(old(Around()), Start(Program(env, DEVELOPMENT_WORKFLOW)), old(kanban.script));
        Around() == end.world && kanban.script == end.script && r == ResultOf(env, end.proc)
      ensures !env.intent.DevelopmentCoordinate? ==>
        Answered(env, old(Around()), old(kanban.script), Around(), kanban.script, r)
      ensures env.intent.DevelopmentCoordinate? ==> Coordinated(env, Around(), r)
    {
      if env.intent.DevelopmentCoordinate? {
        CoordinationAnswers(Around(), env, kanban.script);
      } else {
        DispatchAnswers(Around(), env, DEVELOPMENT_WORKFLOW, kanban.script);
      }
      hide Answered, Coordinated, EnsureCommit, CreateJob, Inv, AttachTask;
      if env.intent.DevelopmentCoordinate? {
        var steps := CoordinateDevelopment(env, DEVELOPMENT_WORKFLOW);
        if steps.Err? {
          return Err(steps.error);
        }
        return Ok(DispatchResult(env.jobId, None, false, steps.value));
      }
      ghost var p := Start(Program(env, DEVELOPMENT_WORKFLOW));
      var job := EnsureJob(env, p);
      if job.Err? {
        return Err(LedgerFailure(job.error));
      }
      var profile := ProfileByIntent(env.intent);
      if profile.None? {
        if !DirectIntent(env.intent) {
          return Err(NoRoute);
        }
        return Ok(DispatchResult(env.jobId, None, true, []));
      }
      var requested := env.parameters.GetOr("delegation_profile", Null);
      if requested == Null {
        return Ok(DispatchResult(env.jobId, None, true, []));
      }
      if !requested.Str? || requested.s != profile.value {
        return Err(NoRoute);
      }
      if job.value.task.Some? {
        return Ok(DispatchResult(env.jobId, job.value.task, false, []));
      }
      var task := CreateAndAttach(env, profile.value, None, p.Ensured(job.value));
      if task.Err? {
        return Err(task.error);
      }
      return Ok(DispatchResult(env.jobId, Some(task.value), false, []));
    }

    method CoordinateDevelopment(env: Envelope, workflow: seq<Stage>) returns (r: Outcome<seq<WorkflowStep>, Failure>)
      requires ledger.Valid()
      modifies ledger, kanban
      ensures ledger.Valid()
      ensures !env.intent.DevelopmentCoordinate? ==>
        r == Err(WrongIntent) && Around() == old(Around()) && kanban.script == old(kanban.script)
      ensures env.intent.DevelopmentCoordinate? ==>
        var end := Coordinate(old(Around()), env, workflow, old(kanban.script));
        && Around() == end.world && kanban.script == end.script
        && r == if end.proc.pc.Failed? then Err(end.proc.pc.failure) else Ok(end.proc.steps)
    {
      if !env.intent.DevelopmentCoordinate? {
        return Err(WrongIntent);
      }
      ghost var p := Start(Program(env, workflow));
      ghost var end := RunToEnd(Around(), p, kanban.script);
      var parent := EnsureJob(env, p);
      if parent.Err? {
        return Err(LedgerFailure(parent.error));
      }
      p := p.Ensured(parent.value);
      var parentTask := parent.value.task;
      var dependency: Option<Uuid> := None;
      var steps: seq<WorkflowStep> := [];
      for i := 0 to |workflow|
        invariant ledger.Valid()
        invariant p.works == Program(env, workflow) && p.at == i + 1
        invariant p.pc == if i < |workflow| then Read else Returned
        invariant p.steps == steps && p.parentTask == parentTask
        invariant dependency == if i == 0 then None else Some(ChildId(env, workflow[i - 1].name))
        invariant RunToEnd(Around(), p, kanban.script) == end
      {
        var stage := workflow[i];
        var child := ChildEnvelope(env, stage, dependency);
        NextChild(env, workflow, i, dependency);
        var task := CoordinateStage(child, stage.assignee, parentTask, p);
        if task.Err? {
          return Err(task.error);
        }
        p := p.Settled(task.value);
        steps := steps + [WorkflowStep(child, task.value)];
        dependency := Some(ChildId(env, stage.name));
        parentTask := Some(task.value);
      }
      return Ok(steps);
    }
  }
}
