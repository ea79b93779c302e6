/**
 The durable ledger on values: one function per transaction of
 src/hermes_harness/control_plane/ledger.py. Every method runs under BEGIN IMMEDIATE, so each
 function either commits a new database or returns the old one with an error.
 */
module LedgerModel {
  import opened Common
  import opened Json
  import opened Contracts

  datatype JobState =
    | Queued | Admitted | Running | WaitingInput | WaitingConfirmation | Verifying | Blocked
    | Succeeded | FailedRetryable | FailedFinal | RolledBack | Cancelled

  predicate Terminal(s: JobState) {
    s in {Succeeded, FailedFinal, RolledBack, Cancelled}
  }

  function Allowed(s: JobState): set<JobState> {
    match s
    case Queued => {Admitted}
    case Admitted => {Running}
    case Running => {WaitingInput, WaitingConfirmation, Verifying, Blocked}
    case WaitingInput => {Running}
    case WaitingConfirmation => {Running, Verifying}
    case Blocked => {Running, FailedFinal}
    case Verifying => {Succeeded, FailedRetryable, FailedFinal, RolledBack}
    case FailedRetryable => {Queued, FailedFinal}
    case _ => {}
  }

  /** The moves that only a cancellation makes. */
  predicate CancelEdge(a: JobState, b: JobState) {
    !Terminal(a) && (b == Cancelled || (b == Verifying && a != Verifying))
  }

  /** SHA-256 over the canonical JSON of an envelope, taken to be injective; only the parameters have keys to sort. */
  datatype Digest = Sha256(rest: Envelope, parameters: Canon)

  function DigestOf(env: Envelope): Digest {
    Sha256(env.(parameters := Null), Canonical(env.parameters))
  }

  datatype Job = Job(
    jobId: Uuid,
    parent: Option<Uuid>,
    traceId: Uuid,
    key: Key,
    digest: Digest,
    state: JobState,
    profile: string,
    session: string,
    target: string,
    intent: Intent,
    task: Option<string>,
    cancelRequested: bool,
    rowid: nat)

  datatype EventKind = StateChanged | KanbanAttached | Verification

  datatype Payload = Empty | KanbanTaskId(task: string) | ReadBack(document: Json)

  datatype Event = Event(jobId: Uuid, kind: EventKind, state: Option<JobState>, payload: Payload)

  /** The jobs table (with SQLite's implicit rowid) and the append-only events table. */
  datatype Db = Db(jobs: map<Uuid, Job>, log: seq<Event>)

  const EMPTY := Db(map[], [])

  datatype Error = KeyError | IdempotencyConflict | InvalidTransition | ValueError | IntegrityError

  datatype Commit = Commit(db: Db, outcome: Outcome<Job, Error>)

  function NewRow(env: Envelope, rowid: nat): Job {
    Job(env.jobId, env.parentJobId, env.traceId, env.key, DigestOf(env), Queued, env.originProfile,
        env.originSession, env.deliveryTarget, env.intent, None, false, rowid)
  }

  function StateEvent(id: Uuid, s: JobState): Event {
    Event(id, StateChanged, Some(s), Empty)
  }

  /** The job that uses an idempotency key: SELECT * FROM jobs WHERE idempotency_key=?. */
  ghost function Owner(jobs: map<Uuid, Job>, key: Key): (r: Option<Uuid>)
    ensures r.Some? ==> r.value in jobs && jobs[r.value].key == key
    ensures r.None? ==> forall id :: id in jobs ==> jobs[id].key != key
  {
    if exists id :: id in jobs && jobs[id].key == key then
      var id :| id in jobs && jobs[id].key == key; Some(id)
    else
      None
  }

  /** The foreign key of parent_job_id; a row may refer to itself. */
  predicate ParentPresent(jobs: map<Uuid, Job>, env: Envelope) {
    env.parentJobId.Some? ==> env.parentJobId.value == env.jobId || env.parentJobId.value in jobs
  }

  ghost function CreateJob(db: Db, env: Envelope): Commit {
    match Owner(db.jobs, env.key)
    case Some(id) =>
      if db.jobs[id].digest != DigestOf(env) then Commit(db, Err(IdempotencyConflict))
      else Commit(db, Ok(db.jobs[id]))
    case None =>
      if env.jobId in db.jobs || !ParentPresent(db.jobs, env) then Commit(db, Err(IntegrityError))
      else
        var row := NewRow(env, |db.jobs|);
        Commit(Db(db.jobs[env.jobId := row], db.log + [StateEvent(env.jobId, Queued)]), Ok(row))
  }

  function SetState(db: Db, id: Uuid, s: JobState): Db
    requires id in db.jobs
  {
    Db(db.jobs[id := db.jobs[id].(state := s)], db.log + [StateEvent(id, s)])
  }

  function Transition(db: Db, id: Uuid, s: JobState): Commit {
    if id !in db.jobs then Commit(db, Err(KeyError))
    else if s !in Allowed(db.jobs[id].state) then Commit(db, Err(InvalidTransition))
    else
      var next := SetState(db, id, s);
      Commit(next, Ok(next.jobs[id]))
  }

  function RaiseFlag(db: Db, id: Uuid): Db
    requires id in db.jobs
  {
    db.(jobs := db.jobs[id := db.jobs[id].(cancelRequested := true)])
  }

  function RequestCancel(db: Db, id: Uuid, atomicSection: bool): Commit {
    if id !in db.jobs then Commit(db, Err(KeyError))
    else if Terminal(db.jobs[id].state) then Commit(db, Err(InvalidTransition))
    else
      var flagged := RaiseFlag(db, id);
      var next :=
        if !atomicSection then SetState(flagged, id, Cancelled)
        else if db.jobs[id].state != Verifying then SetState(flagged, id, Verifying)
        else flagged;
      Commit(next, Ok(next.jobs[id]))
  }

  /** The characters that Python's str.strip() removes. */
  predicate Whitespace(c: char) {
    var n := c as int;
    || 0x9 <= n <= 0xD || 0x1C <= n <= 0x20 || n == 0x85 || n == 0xA0 || n == 0x1680
    || 0x2000 <= n <= 0x200A || n == 0x2028 || n == 0x2029 || n == 0x202F || n == 0x205F || n == 0x3000
  }

  predicate Blank(s: string) {
    forall i :: 0 <= i < |s| ==> Whitespace(s[i])
  }

  function AttachTask(db: Db, id: Uuid, task: string): Commit {
    if Blank(task) then Commit(db, Err(ValueError))
    else if id !in db.jobs then Commit(db, Err(KeyError))
    else if db.jobs[id].task == Some(task) then Commit(db, Ok(db.jobs[id]))
    else if db.jobs[id].task.Some? then Commit(db, Err(ValueError))
    else
      var row := db.jobs[id].(task := Some(task));
      Commit(Db(db.jobs[id := row], db.log + [Event(id, KanbanAttached, None, KanbanTaskId(task))]), Ok(row))
  }

  function FinishAtomic(db: Db, id: Uuid, readBack: Json): Commit {
    if id !in db.jobs then Commit(db, Err(KeyError))
    else if db.jobs[id].state != Verifying || !db.jobs[id].cancelRequested then
      Commit(db, Err(InvalidTransition))
    else
      var verified := db.(log := db.log + [Event(id, Verification, None, ReadBack(readBack))]);
      var next := SetState(verified, id, Cancelled);
      Commit(next, Ok(next.jobs[id]))
  }

  datatype Op =
    | OpCreate(env: Envelope)
    | OpTransition(id: Uuid, state: JobState)
    | OpCancel(id: Uuid, atomicSection: bool)
    | OpAttach(id: Uuid, task: string)
    | OpFinish(id: Uuid, readBack: Json)

  ghost function Apply(db: Db, op: Op): Commit {
    match op
    case OpCreate(env) => CreateJob(db, env)
    case OpTransition(id, s) => Transition(db, id, s)
    case OpCancel(id, atomicSection) => RequestCancel(db, id, atomicSection)
    case OpAttach(id, task) => AttachTask(db, id, task)
    case OpFinish(id, readBack) => FinishAtomic(db, id, readBack)
  }

  /** The database after a run of transactions, in commit order. */
  ghost function Run(db: Db, ops: seq<Op>): Db {
    if ops == [] then db else Apply(Run(db, ops[..|ops| - 1]), ops[|ops| - 1]).db
  }

  // ---- What the event log says about one job ----

  function StateOf(id: Uuid): Event -> Option<JobState> {
    (e: Event) => if e.jobId == id then e.state else None
  }

  function AttachmentOf(id: Uuid): Event -> Option<Payload> {
    (e: Event) => if e.jobId == id && e.kind == KanbanAttached then Some(e.payload) else None
  }

  /** The non-null states that the log records for a job, oldest first. */
  function States(log: seq<Event>, id: Uuid): seq<JobState> {
    Collect(log, StateOf(id))
  }

  /** The payloads of a job's kanban_attached events, oldest first. */
  function Attachments(log: seq<Event>, id: Uuid): seq<Payload> {
    Collect(log, AttachmentOf(id))
  }

  lemma AppendEvent(log: seq<Event>, e: Event, id: Uuid)
    ensures States(log + [e], id)
         == States(log, id) + (if e.jobId == id && e.state.Some? then [e.state.value] else [])
    ensures Attachments(log + [e], id)
         == Attachments(log, id) + (if e.jobId == id && e.kind == KanbanAttached then [e.payload] else [])
  {
    assert (log + [e])[..|log + [e]| - 1] == log;
    assert (log + [e])[|log + [e]| - 1] == e;
  }

  predicate LegalEdge(a: JobState, b: JobState) {
    b in Allowed(a) || CancelEdge(a, b)
  }

  /** Every adjacent pair of recorded states is an allowed transition or a cancellation. */
  ghost predicate LegalPath(states: seq<JobState>) {
    forall k :: 0 < k < |states| ==> LegalEdge(states[k - 1], states[k])
  }

  /** Every adjacent pair of recorded states is an allowed transition. */
  ghost predicate PlainPath(states: seq<JobState>) {
    forall k :: 0 < k < |states| ==> states[k] in Allowed(states[k - 1])
  }
}
