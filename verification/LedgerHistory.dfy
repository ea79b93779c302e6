/** What every reachable ledger satisfies: the jobs table is a projection of its event log. */
module LedgerHistory {
  import opened Common
  import opened Json
  import opened Contracts
  import opened LedgerModel

  // ---- The invariant ----

  /** Each row is stored under its own id and agrees with the envelope its digest was taken of. */
  ghost predicate RowsOk(jobs: map<Uuid, Job>) {
    forall id :: id in jobs ==>
      && jobs[id].jobId == id
      && jobs[id].digest.rest.jobId == id
      && jobs[id].digest.rest.key == jobs[id].key
  }

  ghost predicate KeysUnique(jobs: map<Uuid, Job>) {
    forall a, b :: a in jobs && b in jobs && jobs[a].key == jobs[b].key ==> a == b
  }

  /** A parent is the job itself or an older row. */
  ghost predicate ParentOlder(jobs: map<Uuid, Job>, id: Uuid)
    requires id in jobs
  {
    && jobs[id].rowid < |jobs|
    && (jobs[id].parent.Some? ==>
          var p := jobs[id].parent.value;
          p == id || (p in jobs && jobs[p].rowid < jobs[id].rowid))
  }

  ghost predicate ParentsOlder(jobs: map<Uuid, Job>) {
    forall id {:trigger ParentOlder(jobs, id)} :: id in jobs ==> ParentOlder(jobs, id)
  }

  /** The recorded states of a job explain its row. */
  ghost predicate Explains(states: seq<JobState>, job: Job) {
    && |states| > 0
    && states[0] == Queued
    && states[|states| - 1] == job.state
    && LegalPath(states)
    && (!job.cancelRequested ==> PlainPath(states))
    && (job.state == Cancelled ==> job.cancelRequested)
  }

  /** A job's kanban_attached events are exactly the one attachment it carries. */
  ghost predicate AttachedOnce(attachments: seq<Payload>, job: Job) {
    match job.task
    case None => attachments == []
    case Some(t) => attachments == [KanbanTaskId(t)] && !Blank(t)
  }

  ghost predicate HistoryOk(jobs: map<Uuid, Job>, log: seq<Event>) {
    forall id :: id in jobs ==> JobOk(jobs[id], log)
  }

  ghost predicate JobOk(job: Job, log: seq<Event>) {
    Explains(States(log, job.jobId), job) && AttachedOnce(Attachments(log, job.jobId), job)
  }

  /** An event belongs to a job, carries a state exactly when it records one, and a read-back precedes CANCELLED. */
  ghost predicate EntryOk(jobs: map<Uuid, Job>, log: seq<Event>, i: nat)
    requires i < |log|
  {
    && log[i].jobId in jobs
    && (log[i].state.Some? <==> log[i].kind == StateChanged)
    && (log[i].kind == Verification ==>
          i + 1 < |log| && log[i + 1] == StateEvent(log[i].jobId, Cancelled))
  }

  ghost predicate LogOk(jobs: map<Uuid, Job>, log: seq<Event>) {
    forall i: nat {:trigger EntryOk(jobs, log, i)} :: i < |log| ==> EntryOk(jobs, log, i)
  }

  ghost predicate TableOk(jobs: map<Uuid, Job>) {
    RowsOk(jobs) && KeysUnique(jobs) && ParentsOlder(jobs)
  }

  ghost predicate Inv(db: Db) {
    TableOk(db.jobs) && HistoryOk(db.jobs, db.log) && LogOk(db.jobs, db.log)
  }

  /** What one database keeps of an earlier one. */
  ghost predicate Evolves(earlier: Db, later: Db) {
    && earlier.log <= later.log
    && (forall id :: id in earlier.jobs ==>
          && id in later.jobs
          && KeepsRow(earlier.jobs[id], later.jobs[id]))
  }

  /** Identity never changes, the flag is never cleared, a task is never replaced, terminal states absorb. */
  ghost predicate KeepsRow(a: Job, b: Job) {
    && b == a.(state := b.state, task := b.task, cancelRequested := b.cancelRequested)
    && (a.cancelRequested ==> b.cancelRequested)
    && (a.task.Some? ==> b.task == a.task)
    && (Terminal(a.state) ==> b.state == a.state)
  }

  // ---- Every transaction keeps the invariant ----

  lemma UpdateKeepsRows(jobs: map<Uuid, Job>, row: Job)
    requires RowsOk(jobs) && KeysUnique(jobs)
    requires row.jobId in jobs && KeepsRow(jobs[row.jobId], row)
    ensures RowsOk(jobs[row.jobId := row]) && KeysUnique(jobs[row.jobId := row])
  {
  }

  lemma UpdateKeepsParents(jobs: map<Uuid, Job>, row: Job)
    requires ParentsOlder(jobs)
    requires row.jobId in jobs && KeepsRow(jobs[row.jobId], row)
    ensures ParentsOlder(jobs[row.jobId := row])
  {
    var next := jobs[row.jobId := row];
    assert next.Keys == jobs.Keys;
    assert |next| == |next.Keys| == |jobs.Keys| == |jobs|;
    forall id | id in next ensures ParentOlder(next, id) {
      assert ParentOlder(jobs, id);
    }
  }

  /** Rewriting the mutable columns of one row keeps the table well formed. */
  lemma UpdateKeepsTable(jobs: map<Uuid, Job>, row: Job)
    requires TableOk(jobs)
    requires row.jobId in jobs && KeepsRow(jobs[row.jobId], row)
    ensures TableOk(jobs[row.jobId := row])
  {
    UpdateKeepsRows(jobs, row);
    UpdateKeepsParents(jobs, row);
  }

  lemma InsertKeepsParents(jobs: map<Uuid, Job>, env: Envelope)
    requires ParentsOlder(jobs)
    requires env.jobId !in jobs && ParentPresent(jobs, env)
    ensures ParentsOlder(jobs[env.jobId := NewRow(env, |jobs|)])
  {
    var next := jobs[env.jobId := NewRow(env, |jobs|)];
    assert next.Keys == jobs.Keys + {env.jobId};
    assert |next| == |next.Keys| == |jobs| + 1;
    forall id | id in next ensures ParentOlder(next, id) {
      assert id in jobs ==> ParentOlder(jobs, id);
      if id == env.jobId && env.parentJobId.Some? && env.parentJobId.value != id {
        assert ParentOlder(jobs, env.parentJobId.value);
      }
    }
  }

  lemma InsertKeepsTable(jobs: map<Uuid, Job>, env: Envelope)
    requires TableOk(jobs)
    requires env.jobId !in jobs && ParentPresent(jobs, env)
    requires forall id :: id in jobs ==> jobs[id].key != env.key
    ensures TableOk(jobs[env.jobId := NewRow(env, |jobs|)])
  {
    InsertKeepsParents(jobs, env);
  }

  lemma NoEventsYet(log: seq<Event>, id: Uuid)
    requires forall i :: 0 <= i < |log| ==> log[i].jobId != id
    ensures States(log, id) == [] && Attachments(log, id) == []
  {
    if log != [] {
      NoEventsYet(log[..|log| - 1], id);
    }
  }

  lemma StateAppended(states: seq<JobState>, job: Job, s: JobState)
    requires Explains(states, job)
    requires s in Allowed(job.state) || (job.cancelRequested && CancelEdge(job.state, s))
    ensures Explains(states + [s], job.(state := s))
  {
  }

  /** An event of another job leaves a job's history alone. */
  lemma OtherJobKeeps(job: Job, log: seq<Event>, e: Event)
    requires JobOk(job, log) && e.jobId != job.jobId
    ensures JobOk(job, log + [e])
  {
    AppendEvent(log, e, job.jobId);
  }

  lemma SetStateKeepsJob(job: Job, log: seq<Event>, s: JobState)
    requires JobOk(job, log)
    requires s in Allowed(job.state) || (job.cancelRequested && CancelEdge(job.state, s))
    ensures JobOk(job.(state := s), log + [StateEvent(job.jobId, s)])
  {
    AppendEvent(log, StateEvent(job.jobId, s), job.jobId);
    StateAppended(States(log, job.jobId), job, s);
  }

  /** Replacing one row and appending one event of its job: what remains to be shown is that job's history. */
  lemma RowAndEventKeep(jobs: map<Uuid, Job>, log: seq<Event>, row: Job, e: Event)
    requires TableOk(jobs) && HistoryOk(jobs, log)
    requires e.jobId == row.jobId && JobOk(row, log + [e])
    ensures HistoryOk(jobs[row.jobId := row], log + [e])
  {
    forall id | id in jobs && id != row.jobId ensures JobOk(jobs[id], log + [e]) {
      OtherJobKeeps(jobs[id], log, e);
    }
  }

  lemma AppendKeepsLog(jobs: map<Uuid, Job>, next: map<Uuid, Job>, log: seq<Event>, e: Event)
    requires LogOk(jobs, log) && jobs.Keys <= next.Keys && e.jobId in next
    requires e.kind != Verification && (e.state.Some? <==> e.kind == StateChanged)
    ensures LogOk(next, log + [e])
  {
    forall i: nat | i < |log + [e]| ensures EntryOk(next, log + [e], i) {
      assert i < |log| ==> EntryOk(jobs, log, i);
    }
  }

  /** `SetState` along an allowed edge, or along a cancellation edge once the flag is up. */
  lemma {:induction false} SetStateKeeps(db: Db, id: Uuid, s: JobState)
    requires TableOk(db.jobs) && HistoryOk(db.jobs, db.log) && id in db.jobs
    requires s in Allowed(db.jobs[id].state) || (db.jobs[id].cancelRequested && CancelEdge(db.jobs[id].state, s))
    ensures var next := SetState(db, id, s); TableOk(next.jobs) && HistoryOk(next.jobs, next.log)
  {
    var row := db.jobs[id].(state := s);
    UpdateKeepsTable(db.jobs, row);
    SetStateKeepsJob(db.jobs[id], db.log, s);
    RowAndEventKeep(db.jobs, db.log, row, StateEvent(id, s));
  }

  lemma {:induction false} CreateKeeps(db: Db, env: Envelope)
    requires Inv(db)
    ensures Inv(CreateJob(db, env).db)
  {
    if Owner(db.jobs, env.key).None? && env.jobId !in db.jobs && ParentPresent(db.jobs, env) {
      var row := NewRow(env, |db.jobs|);
      var e := StateEvent(env.jobId, Queued);
      InsertKeepsTable(db.jobs, env);
      forall i: nat | i < |db.log| ensures db.log[i].jobId != env.jobId {
        assert EntryOk(db.jobs, db.log, i);
      }
      NoEventsYet(db.log, env.jobId);
      AppendEvent(db.log, e, env.jobId);
      assert JobOk(row, db.log + [e]);
      RowAndEventKeep(db.jobs, db.log, row, e);
      AppendKeepsLog(db.jobs, db.jobs[env.jobId := row], db.log, e);
    }
  }

  lemma {:induction false} TransitionKeeps(db: Db, id: Uuid, s: JobState)
    requires Inv(db)
    ensures Inv(Transition(db, id, s).db)
  {
    if id in db.jobs && s in Allowed(db.jobs[id].state) {
      SetStateKeeps(db, id, s);
      AppendKeepsLog(db.jobs, SetState(db, id, s).jobs, db.log, StateEvent(id, s));
    }
  }

  lemma RaiseFlagKeepsHistory(jobs: map<Uuid, Job>, log: seq<Event>, id: Uuid)
    requires HistoryOk(jobs, log) && id in jobs && jobs[id].jobId == id
    ensures HistoryOk(jobs[id := jobs[id].(cancelRequested := true)], log)
  {
    assert JobOk(jobs[id], log);
    assert JobOk(jobs[id].(cancelRequested := true), log);
  }

  lemma RaiseFlagKeeps(db: Db, id: Uuid)
    requires Inv(db) && id in db.jobs
    ensures Inv(RaiseFlag(db, id))
  {
    UpdateKeepsTable(db.jobs, db.jobs[id].(cancelRequested := true));
    RaiseFlagKeepsHistory(db.jobs, db.log, id);
    forall i: nat | i < |db.log| ensures EntryOk(RaiseFlag(db, id).jobs, db.log, i) {
      assert EntryOk(db.jobs, db.log, i);
    }
  }

  lemma {:induction false} CancelKeeps(db: Db, id: Uuid, atomicSection: bool)
    requires Inv(db)
    ensures Inv(RequestCancel(db, id, atomicSection).db)
  {
    if id in db.jobs && !Terminal(db.jobs[id].state) {
      RaiseFlagKeeps(db, id);
      var flagged := RaiseFlag(db, id);
      if !atomicSection || db.jobs[id].state != Verifying {
        var s := if atomicSection then Verifying else Cancelled;
        SetStateKeeps(flagged, id, s);
        AppendKeepsLog(flagged.jobs, SetState(flagged, id, s).jobs, flagged.log, StateEvent(id, s));
      }
    }
  }

  lemma AttachKeepsJob(job: Job, log: seq<Event>, task: string)
    requires JobOk(job, log) && job.task.None? && !Blank(task)
    ensures JobOk(job.(task := Some(task)), log + [Event(job.jobId, KanbanAttached, None, KanbanTaskId(task))])
  {
    AppendEvent(log, Event(job.jobId, KanbanAttached, None, KanbanTaskId(task)), job.jobId);
  }

  lemma {:induction false} AttachKeeps(db: Db, id: Uuid, task: string)
    requires Inv(db)
    ensures Inv(AttachTask(db, id, task).db)
  {
    if id in db.jobs && !Blank(task) && db.jobs[id].task.None? {
      var row := db.jobs[id].(task := Some(task));
      var e := Event(id, KanbanAttached, None, KanbanTaskId(task));
      UpdateKeepsTable(db.jobs, row);
      AttachKeepsJob(db.jobs[id], db.log, task);
      RowAndEventKeep(db.jobs, db.log, row, e);
      AppendKeepsLog(db.jobs, db.jobs[id := row], db.log, e);
    }
  }

  /** A read-back event records no state and no attachment. */
  lemma ReadBackKeepsHistory(jobs: map<Uuid, Job>, log: seq<Event>, e: Event)
    requires HistoryOk(jobs, log) && e.kind == Verification && e.state.None?
    ensures HistoryOk(jobs, log + [e])
  {
    forall id | id in jobs ensures JobOk(jobs[id], log + [e]) {
      assert JobOk(jobs[id], log);
      AppendEvent(log, e, jobs[id].jobId);
    }
  }

  lemma FinishKeepsLog(jobs: map<Uuid, Job>, next: map<Uuid, Job>, log: seq<Event>, e: Event, id: Uuid)
    requires LogOk(jobs, log) && jobs.Keys <= next.Keys && id in next
    requires e.jobId == id && e.kind == Verification && e.state.None?
    ensures LogOk(next, log + [e] + [StateEvent(id, Cancelled)])
  {
    var longer := log + [e] + [StateEvent(id, Cancelled)];
    forall i: nat | i < |longer| ensures EntryOk(next, longer, i) {
      assert i < |log| ==> EntryOk(jobs, log, i);
    }
  }

  lemma FinishKeeps(db: Db, id: Uuid, readBack: Json)
    requires Inv(db)
    ensures Inv(FinishAtomic(db, id, readBack).db)
  {
    if id in db.jobs && db.jobs[id].state == Verifying && db.jobs[id].cancelRequested {
      var e := Event(id, Verification, None, ReadBack(readBack));
      var verified := db.(log := db.log + [e]);
      ReadBackKeepsHistory(db.jobs, db.log, e);
      SetStateKeeps(verified, id, Cancelled);
      FinishKeepsLog(db.jobs, SetState(verified, id, Cancelled).jobs, db.log, e, id);
    }
  }

  lemma {:induction false} ApplyKeeps(db: Db, op: Op)
    requires Inv(db)
    ensures Inv(Apply(db, op).db)
  {
    match op
    case OpCreate(env) => CreateKeeps(db, env);
    case OpTransition(id, s) => TransitionKeeps(db, id, s);
    case OpCancel(id, atomicSection) => CancelKeeps(db, id, atomicSection);
    case OpAttach(id, task) => AttachKeeps(db, id, task);
    case OpFinish(id, readBack) => FinishKeeps(db, id, readBack);
  }

  lemma SameEvolves(db: Db)
    ensures Evolves(db, db)
  {
  }

  lemma CreateEvolves(db: Db, env: Envelope)
    ensures Evolves(db, CreateJob(db, env).db)
  {
  }

  lemma TransitionEvolves(db: Db, id: Uuid, s: JobState)
    ensures Evolves(db, Transition(db, id, s).db)
  {
  }

  lemma CancelEvolves(db: Db, id: Uuid, atomicSection: bool)
    ensures Evolves(db, RequestCancel(db, id, atomicSection).db)
  {
  }

  lemma AttachEvolves(db: Db, id: Uuid, task: string)
    ensures Evolves(db, AttachTask(db, id, task).db)
  {
  }

  lemma FinishEvolves(db: Db, id: Uuid, readBack: Json)
    ensures Evolves(db, FinishAtomic(db, id, readBack).db)
  {
  }

  /** No transaction loses an event, a job, a flag, a task or a final state. */
  lemma ApplyEvolves(db: Db, op: Op)
    ensures Evolves(db, Apply(db, op).db)
  {
    hide Evolves;
    match op
    case OpCreate(env) => CreateEvolves(db, env);
    case OpTransition(id, s) => TransitionEvolves(db, id, s);
    case OpCancel(id, atomicSection) => CancelEvolves(db, id, atomicSection);
    case OpAttach(id, task) => AttachEvolves(db, id, task);
    case OpFinish(id, readBack) => FinishEvolves(db, id, readBack);
  }

  lemma EvolvesTransitive(a: Db, b: Db, c: Db)
    requires Evolves(a, b) && Evolves(b, c)
    ensures Evolves(a, c)
  {
    forall id | id in a.jobs ensures id in c.jobs && KeepsRow(a.jobs[id], c.jobs[id]) {
      assert KeepsRow(a.jobs[id], b.jobs[id]) && KeepsRow(b.jobs[id], c.jobs[id]);
    }
  }

  /** Every run from a good ledger stays good, and keeps everything it had. */
  lemma {:induction false} RunKeeps(db: Db, ops: seq<Op>)
    requires Inv(db)
    ensures Inv(Run(db, ops)) && Evolves(db, Run(db, ops))
  {
    if ops != [] {
      var before := Run(db, ops[..|ops| - 1]);
      RunKeeps(db, ops[..|ops| - 1]);
      ApplyKeeps(before, ops[|ops| - 1]);
      ApplyEvolves(before, ops[|ops| - 1]);
      EvolvesTransitive(db, before, Run(db, ops));
    }
  }
}
