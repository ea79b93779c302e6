/** The promises of the ledger, over every run of its transactions. */
module LedgerTheorems {
  import opened Common
  import opened Json
  import opened Contracts
  import opened LedgerModel
  import opened LedgerEffects
  import opened LedgerHistory

  // ---- The log and its projection ----

  /** In every reachable ledger the state column is the last state the log records, along legal edges. */
  lemma ProjectionRefinesLog(ops: seq<Op>, id: Uuid)
    requires id in Run(EMPTY, ops).jobs
    ensures var db := Run(EMPTY, ops);
      var states := States(db.log, id);
      && |states| > 0
      && states[0] == Queued
      && states[|states| - 1] == db.jobs[id].state
      && LegalPath(states)
  {
    RunKeeps(EMPTY, ops);
    assert JobOk(Run(EMPTY, ops).jobs[id], Run(EMPTY, ops).log);
  }

  lemma {:induction false} RunAppend(db: Db, a: seq<Op>, b: seq<Op>)
    ensures Run(db, a + b) == Run(Run(db, a), b)
  {
    if b == [] {
      assert a + b == a;
    } else {
      assert (a + b)[..|a + b| - 1] == a + b[..|b| - 1];
      RunAppend(db, a, b[..|b| - 1]);
    }
  }

  /**
   Between any two moments of a run: the log only grows, jobs stay, identity columns stay, the cancel
   flag is never cleared, an attached task is never replaced, and terminal states absorb.
   */
  lemma LaterLedgerEvolves(earlier: seq<Op>, more: seq<Op>)
    ensures Evolves(Run(EMPTY, earlier), Run(EMPTY, earlier + more))
  {
    RunKeeps(EMPTY, earlier);
    RunKeeps(Run(EMPTY, earlier), more);
    RunAppend(EMPTY, earlier, more);
  }

  /** A cancelled job carries the flag. */
  lemma {:induction false} CancelledJobsCarryTheFlag(ops: seq<Op>, id: Uuid)
    requires id in Run(EMPTY, ops).jobs && Run(EMPTY, ops).jobs[id].state == Cancelled
    ensures Run(EMPTY, ops).jobs[id].cancelRequested
  {
    RunKeeps(EMPTY, ops);
    assert JobOk(Run(EMPTY, ops).jobs[id], Run(EMPTY, ops).log);
  }

  /** Every verification read-back is followed at once by CANCELLED of the same job. */
  lemma {:induction false} ReadBackPrecedesCancelled(ops: seq<Op>, i: nat)
    requires i < |Run(EMPTY, ops).log| && Run(EMPTY, ops).log[i].kind == Verification
    ensures var log := Run(EMPTY, ops).log;
      i + 1 < |log| && log[i + 1] == StateEvent(log[i].jobId, Cancelled)
  {
    RunKeeps(EMPTY, ops);
    assert EntryOk(Run(EMPTY, ops).jobs, Run(EMPTY, ops).log, i);
  }

  /** The kanban_attached events of a job are exactly the attachment in its row: none or one. */
  lemma AttachmentIsRecordedOnce(ops: seq<Op>, id: Uuid)
    requires id in Run(EMPTY, ops).jobs
    ensures var db := Run(EMPTY, ops);
      Attachments(db.log, id) == match db.jobs[id].task case None => [] case Some(t) => [KanbanTaskId(t)]
  {
    RunKeeps(EMPTY, ops);
    assert JobOk(Run(EMPTY, ops).jobs[id], Run(EMPTY, ops).log);
  }

  /**
   The cancel flag alone does not stop a job: an atomic cancellation takes every job that is not in a
   terminal state to VERIFYING, and from there all its transitions are open, SUCCEEDED and the way back to
   QUEUED included; only another cancellation ever cancels it.
   */
  lemma PendingCancelDoesNotBlock(db: Db, id: Uuid, s: JobState)
    requires id in db.jobs && !Terminal(db.jobs[id].state)
    ensures var asked := RequestCancel(db, id, true).db.jobs[id]; asked.state == Verifying && asked.cancelRequested
    ensures Transition(RequestCancel(db, id, true).db, id, s).outcome.Ok? <==> s in Allowed(Verifying)
    ensures s in Allowed(Verifying) ==>
      var next := Transition(RequestCancel(db, id, true).db, id, s).db;
      next.jobs[id].cancelRequested && next.jobs[id].state == s && s != Cancelled
  {
  }

  /**
   An ordinary cancellation of a job that has not ended is final: whatever happens later, the job stays
   CANCELLED, its history ends there, and no transition and no other cancellation of it is accepted.
   */
  lemma OrdinaryCancelIsFinal(ops: seq<Op>, id: Uuid, later: seq<Op>, s: JobState, atomicSection: bool)
    requires var db := Run(EMPTY, ops);
      id in db.jobs && db.jobs[id].state !in {Succeeded, FailedFinal, RolledBack, Cancelled}
    ensures var db := Run(EMPTY, ops);
      var row := db.jobs[id].(state := Cancelled, cancelRequested := true);
      Apply(db, OpCancel(id, false)) ==
        Commit(Db(db.jobs[id := row], db.log + [Event(id, StateChanged, Some(Cancelled), Empty)]), Ok(row))
    ensures var end := Run(EMPTY, ops + [OpCancel(id, false)] + later);
      && id in end.jobs && end.jobs[id].state == Cancelled && end.jobs[id].cancelRequested
      && States(end.log, id) == States(Run(EMPTY, ops).log, id) + [Cancelled]
      && Transition(end, id, s).outcome == Err(InvalidTransition)
      && RequestCancel(end, id, atomicSection).outcome == Err(InvalidTransition)
  {
    var db := Run(EMPTY, ops);
    var more := ops + [OpCancel(id, false)];
    assert more[..|more| - 1] == ops;
    CancelExactly(db, id, false);
    AppendEvent(db.log, StateEvent(id, Cancelled), id);
    hide RequestCancel, Transition;
    CancelledStays(more, id, later, s, atomicSection);
  }

  lemma HistoryOf(ops: seq<Op>, id: Uuid)
    requires id in Run(EMPTY, ops).jobs
    ensures Explains(States(Run(EMPTY, ops).log, id), Run(EMPTY, ops).jobs[id])
  {
    RunKeeps(EMPTY, ops);
    assert JobOk(Run(EMPTY, ops).jobs[id], Run(EMPTY, ops).log);
  }

  lemma CancelledStays(ops: seq<Op>, id: Uuid, later: seq<Op>, s: JobState, atomicSection: bool)
    requires id in Run(EMPTY, ops).jobs && Run(EMPTY, ops).jobs[id].state == Cancelled
    ensures var end := Run(EMPTY, ops + later);
      && id in end.jobs && end.jobs[id].state == Cancelled && end.jobs[id].cancelRequested
      && States(end.log, id) == States(Run(EMPTY, ops).log, id)
      && Transition(end, id, s).outcome == Err(InvalidTransition)
      && RequestCancel(end, id, atomicSection).outcome == Err(InvalidTransition)
  {
    var now, end := Run(EMPTY, ops), Run(EMPTY, ops + later);
    LaterLedgerEvolves(ops, later);
    assert KeepsRow(now.jobs[id], end.jobs[id]) && now.log <= end.log;
    hide Run, Evolves, States, LegalPath, PlainPath;
    HistoryOf(ops, id);
    HistoryOf(ops + later, id);
    StatesGrow(now.log, end.log, id);
    CancelledIsLast(States(now.log, id), States(end.log, id));
  }

  lemma {:induction false} StatesGrow(a: seq<Event>, b: seq<Event>, id: Uuid)
    requires a <= b
    ensures States(a, id) <= States(b, id)
    decreases |b|
  {
    if a == b {
    } else {
      assert b == b[..|b| - 1] + [b[|b| - 1]];
      StatesGrow(a, b[..|b| - 1], id);
      AppendEvent(b[..|b| - 1], b[|b| - 1], id);
    }
  }

  lemma CancelledIsLast(a: seq<JobState>, b: seq<JobState>)
    requires a <= b && |a| > 0 && a[|a| - 1] == Cancelled && LegalPath(b)
    ensures a == b
  {
    assert |a| < |b| ==> LegalEdge(b[|a| - 1], b[|a|]);
  }

  // ---- The transition table ----

  /** The table of allowed transitions, edge by edge. */
  lemma TransitionsAre(a: JobState, b: JobState)
    ensures b in Allowed(a) <==> (a, b) in {
      (Queued, Admitted), (Admitted, Running),
      (Running, WaitingInput), (Running, WaitingConfirmation), (Running, Verifying), (Running, Blocked),
      (WaitingInput, Running), (WaitingConfirmation, Running), (WaitingConfirmation, Verifying),
      (Blocked, Running), (Blocked, FailedFinal),
      (Verifying, Succeeded), (Verifying, FailedRetryable), (Verifying, FailedFinal), (Verifying, RolledBack),
      (FailedRetryable, Queued), (FailedRetryable, FailedFinal)}
  {
  }

  /** A way along the table that ends in a given state. */
  ghost predicate Way(path: seq<JobState>, a: JobState, b: JobState) {
    |path| > 0 && path[0] == a && path[|path| - 1] == b && PlainPath(path)
  }

  /** A way to VERIFYING, from where every end but CANCELLED is one step away. */
  function ToVerifying(a: JobState): seq<JobState> {
    match a
    case Queued => [Queued, Admitted, Running, Verifying]
    case Admitted => [Admitted, Running, Verifying]
    case Running => [Running, Verifying]
    case WaitingInput => [WaitingInput, Running, Verifying]
    case WaitingConfirmation => [WaitingConfirmation, Verifying]
    case Blocked => [Blocked, Running, Verifying]
    case FailedRetryable => [FailedRetryable, Queued, Admitted, Running, Verifying]
    case _ => [a]
  }

  /** No state is a trap: a job that has not ended can still reach every end but CANCELLED, and an ended one nothing. */
  lemma NoStateIsATrap(a: JobState, b: JobState)
    requires b in {Succeeded, FailedFinal, RolledBack}
    ensures a !in {Succeeded, FailedFinal, RolledBack, Cancelled} ==> exists path :: Way(path, a, b)
    ensures a in {Succeeded, FailedFinal, RolledBack, Cancelled} ==> Allowed(a) == {} && Terminal(a)
  {
    if a !in {Succeeded, FailedFinal, RolledBack, Cancelled} {
      assert Way(ToVerifying(a) + [b], a, b);
    }
  }

  // ---- What makes two payloads the same ----

  /** Envelopes have one digest exactly if they agree in everything but the order of keys in their parameters. */
  lemma DigestsAgreeExactly(a: Envelope, b: Envelope)
    ensures DigestOf(a) == DigestOf(b) <==>
      a.(parameters := b.parameters) == b && Same(a.parameters, b.parameters)
  {
    CanonicalIsExact(a.parameters, b.parameters);
  }

  /** `str.strip()` leaves nothing of a text exactly if it leaves nothing of its parts; the ASCII ones are these. */
  lemma BlankInParts(a: string, b: string, c: char)
    ensures Blank(a + b) <==> Blank(a) && Blank(b)
    ensures c as int < 0x80 ==> (Blank([c]) <==>
      c in {'\t', '\n', '\r', ' ', '\U{000B}', '\U{000C}', '\U{001C}', '\U{001D}', '\U{001E}', '\U{001F}'})
  {
    if Blank(a + b) {
      assert forall i :: 0 <= i < |a| ==> (a + b)[i] == a[i];
      assert forall i :: 0 <= i < |b| ==> (a + b)[|a| + i] == b[i];
    }
    assert Blank([c]) <==> Whitespace([c][0]);
  }

  // ---- The path to SUCCEEDED ----

  const HAPPY_PATH := [Queued, Admitted, Running, Verifying, Succeeded]

  /** `p` occurs in `s` in order: `at` gives strictly increasing positions. */
  ghost predicate SubsequenceAt<T>(p: seq<T>, s: seq<T>, at: seq<nat>) {
    && |at| == |p|
    && (forall i :: 0 <= i < |p| ==> at[i] < |s| && s[at[i]] == p[i])
    && (forall i, j :: 0 <= i < j < |at| ==> at[i] < at[j])
  }

  ghost predicate Subsequence<T(!new)>(p: seq<T>, s: seq<T>) {
    exists at :: SubsequenceAt(p, s, at)
  }

  /** How far along the happy path a job in state `s` must have come. */
  function Level(s: JobState): nat {
    match s
    case Queued => 1
    case Admitted => 2
    case Running => 3
    case WaitingInput => 3
    case WaitingConfirmation => 3
    case Blocked => 3
    case Verifying => 4
    case FailedRetryable => 4
    case Succeeded => 5
    case _ => 3
  }

  /** A legal history without cancellation edges contains the happy path up to the level of its last state. */
  lemma {:induction false} PathContainsLevels(states: seq<JobState>) returns (at: seq<nat>)
    requires |states| > 0 && states[0] == Queued && PlainPath(states)
    ensures |at| <= 5 && SubsequenceAt(HAPPY_PATH[..|at|], states, at)
    ensures |at| >= Level(states[|states| - 1])
  {
    if |states| == 1 {
      at := [0];
    } else {
      var init := states[..|states| - 1];
      at := PathContainsLevels(init);
      var last := states[|states| - 1];
      assert last in Allowed(init[|init| - 1]);
      if |at| < Level(last) {
        assert |at| + 1 == Level(last) && last == HAPPY_PATH[|at|];
        at := at + [|states| - 1];
      }
    }
  }

  /** A SUCCEEDED job that nobody asked to cancel went through the whole happy path, in order. */
  lemma SuccessWentThroughEveryStage(ops: seq<Op>, id: Uuid)
    requires var db := Run(EMPTY, ops);
      id in db.jobs && db.jobs[id].state == Succeeded && !db.jobs[id].cancelRequested
    ensures Subsequence(HAPPY_PATH, States(Run(EMPTY, ops).log, id))
  {
    var db := Run(EMPTY, ops);
    RunKeeps(EMPTY, ops);
    assert JobOk(db.jobs[id], db.log);
    hide Run, States;
    var at := PathContainsLevels(States(db.log, id));
    assert HAPPY_PATH[..|at|] == HAPPY_PATH;
    assert SubsequenceAt(HAPPY_PATH, States(db.log, id), at);
  }

  // ---- Attempts ----

  function Count(states: seq<JobState>, s: JobState): nat {
    if states == [] then 0
    else Count(states[..|states| - 1], s) + if states[|states| - 1] == s then 1 else 0
  }

  lemma {:induction false} LegalPathCounts(states: seq<JobState>)
    requires |states| > 0 && states[0] == Queued && LegalPath(states)
    ensures var last := states[|states| - 1];
      && Count(states, Queued) + (if last == FailedRetryable then 1 else 0) <= 1 + Count(states, FailedRetryable)
      && Count(states, Admitted) + (if last == Queued then 1 else 0) <= Count(states, Queued)
  {
    if |states| == 1 {
      assert states[..0] == [];
    } else {
      var init := states[..|states| - 1];
      LegalPathCounts(init);
      assert LegalEdge(init[|init| - 1], states[|states| - 1]);
    }
  }

  /** A job is queued once plus once per retryable failure, and admitted no more often than queued. */
  lemma AttemptsAreBounded(ops: seq<Op>, id: Uuid)
    requires id in Run(EMPTY, ops).jobs
    ensures var states := States(Run(EMPTY, ops).log, id);
      && Count(states, Queued) <= 1 + Count(states, FailedRetryable)
      && Count(states, Admitted) <= Count(states, Queued)
  {
    ProjectionRefinesLog(ops, id);
    LegalPathCounts(States(Run(EMPTY, ops).log, id));
  }

  // ---- Creation ----

  /** Job ids and idempotency keys are unique, and a row agrees with the envelope it was created from. */
  lemma {:induction false} IdentitiesAreUnique(ops: seq<Op>)
    ensures var jobs := Run(EMPTY, ops).jobs;
      && (forall id :: id in jobs ==> jobs[id].jobId == id && jobs[id].digest.rest.jobId == id)
      && (forall a, b :: a in jobs && b in jobs && jobs[a].key == jobs[b].key ==> a == b)
  {
    RunKeeps(EMPTY, ops);
  }

  /**
   Creating with a used idempotency key: a payload with the same canonical form returns the row as it is
   now, a different one is a conflict, and neither changes anything.  It does not matter how much happened
   in between, nor in which order the parameters list their keys.
   */
  lemma CreationIsIdempotent(ops: seq<Op>, first: Envelope, later: seq<Op>, again: Envelope)
    requires CreateJob(Run(EMPTY, ops), first).outcome.Ok? && again.key == first.key
    ensures var db := Run(EMPTY, ops + [OpCreate(first)] + later);
      && first.jobId in db.jobs
      && var same := DigestOf(again) == DigestOf(first);
         CreateJob(db, again) == Commit(db, if same then Ok(db.jobs[first.jobId]) else Err(IdempotencyConflict))
  {
    var one := ops + [OpCreate(first)];
    assert one[..|one| - 1] == ops;
    RunKeeps(EMPTY, ops);
    CreatedRowIsStored(Run(EMPTY, ops), first);
    LaterLedgerEvolves(one, later);
    RunKeeps(EMPTY, one + later);
    assert KeepsRow(Run(EMPTY, one).jobs[first.jobId], Run(EMPTY, one + later).jobs[first.jobId]);
    RepeatedCreate(Run(EMPTY, one + later), first, again);
  }

  /** Listing the parameters in another order does not make another payload. */
  lemma ReorderedParametersAreTheSamePayload(env: Envelope, a: seq<(string, Json)>, b: seq<(string, Json)>)
    requires env.parameters == Obj(a) && DistinctKeys(a) && DistinctKeys(b) && forall e :: e in a <==> e in b
    ensures DigestOf(env.(parameters := Obj(b))) == DigestOf(env)
  {
    KeyOrderIsIrrelevant(a, b);
  }

  lemma CreatedRowIsStored(db: Db, env: Envelope)
    requires RowsOk(db.jobs) && CreateJob(db, env).outcome.Ok?
    ensures var jobs := CreateJob(db, env).db.jobs;
      env.jobId in jobs && jobs[env.jobId].digest == DigestOf(env) && jobs[env.jobId].key == env.key
  {
  }

  lemma RepeatedCreate(db: Db, first: Envelope, again: Envelope)
    requires KeysUnique(db.jobs) && first.jobId in db.jobs && again.key == first.key
    requires db.jobs[first.jobId].digest == DigestOf(first) && db.jobs[first.jobId].key == first.key
    ensures var same := DigestOf(again) == DigestOf(first);
      CreateJob(db, again) == Commit(db, if same then Ok(db.jobs[first.jobId]) else Err(IdempotencyConflict))
  {
  }

  /** A failed transaction commits nothing. */
  lemma FailureChangesNothing(db: Db, op: Op)
    ensures Apply(db, op).outcome.Err? ==> Apply(db, op).db == db
  {
  }

  // ---- Parents ----

  /** The chain of parent_job_id from a job, up to a job without one or with itself as parent. */
  ghost function Lineage(jobs: map<Uuid, Job>, id: Uuid): (r: seq<Uuid>)
    requires ParentsOlder(jobs) && id in jobs
    ensures |r| > 0 && r[0] == id
    ensures forall i :: 0 <= i < |r| ==> r[i] in jobs
    ensures forall i :: 0 < i < |r| ==> jobs[r[i - 1]].parent == Some(r[i]) && jobs[r[i]].rowid < jobs[r[i - 1]].rowid
    ensures var root := r[|r| - 1]; jobs[root].parent == None || jobs[root].parent == Some(root)
    decreases jobs[id].rowid
  {
    assert ParentOlder(jobs, id);
    if jobs[id].parent.None? || jobs[id].parent.value == id then [id]
    else [id] + Lineage(jobs, jobs[id].parent.value)
  }

  /** Following parent_job_id in any reachable ledger ends, after at most as many steps as there are older rows. */
  lemma {:induction false} ParentChainsEnd(ops: seq<Op>, id: Uuid)
    requires id in Run(EMPTY, ops).jobs
    ensures var jobs := Run(EMPTY, ops).jobs;
      && ParentsOlder(jobs)
      && var chain := Lineage(jobs, id);
         && |chain| <= jobs[id].rowid + 1
         && (forall i, j :: 0 <= i < j < |chain| ==> chain[i] != chain[j])
  {
    RunKeeps(EMPTY, ops);
    LineageIsShort(Run(EMPTY, ops).jobs, id);
  }

  lemma {:induction false} LineageIsShort(jobs: map<Uuid, Job>, id: Uuid)
    requires ParentsOlder(jobs) && id in jobs
    ensures |Lineage(jobs, id)| <= jobs[id].rowid + 1
    ensures var chain := Lineage(jobs, id);
      forall i, j :: 0 <= i < j < |chain| ==> jobs[chain[j]].rowid < jobs[chain[i]].rowid
    decreases jobs[id].rowid
  {
    assert ParentOlder(jobs, id);
    if jobs[id].parent.Some? && jobs[id].parent.value != id {
      LineageIsShort(jobs, jobs[id].parent.value);
    }
  }
}
