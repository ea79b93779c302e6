/** The ledger as the object the program uses; every method is one transaction of LedgerModel. */
module LedgerStore {
  import opened Common
  import opened Json
  import opened Contracts
  import opened LedgerModel
  import opened LedgerEffects
  import opened LedgerHistory

  class Ledger {
    var jobs: map<Uuid, Job>
    var log: seq<Event>

    ghost function Contents(): Db
      reads this
    {
      Db(jobs, log)
    }

    ghost predicate Valid()
      reads this
    {
      Inv(Contents())
    }

    constructor ()
      ensures Valid() && Contents() == EMPTY
    {
      jobs, log := map[], [];
    }

    method GetJob(jobId: Uuid) returns (r: Outcome<Job, Error>)
      ensures r == if jobId in jobs then Ok(jobs[jobId]) else Err(KeyError)
    {
      if jobId !in jobs {
        return Err(KeyError);
      }
      return Ok(jobs[jobId]);
    }

    /** `r` are the entries of the log at `at`, from front to back, and `at` are exactly the places of the job. */
    ghost predicate EventsAt(jobId: Uuid, r: seq<Event>, at: seq<nat>, end: nat)
      requires end <= |log|
      reads this
    {
      && |at| == |r| && (forall k :: 0 <= k < |r| ==> at[k] < end && r[k] == log[at[k]] && r[k].jobId == jobId)
      && (forall i, j :: 0 <= i < j < |at| ==> at[i] < at[j])
      && (forall i :: 0 <= i < end && log[i].jobId == jobId ==> i in at)
    }

    /** The events of one job: only its own, all of them, and in the order of the log. */
    method Events(jobId: Uuid) returns (r: seq<Event>)
      ensures exists at :: EventsAt(jobId, r, at, |log|)
    {
      r := [];
      ghost var at: seq<nat> := [];
      for i := 0 to |log|
        invariant EventsAt(jobId, r, at, i)
      {
        if log[i].jobId == jobId {
          r, at := r + [log[i]], at + [i];
          assert at[|at| - 1] == i;
        }
      }
    }

    /** A new job is queued under its own id and key; a known key gives the stored job or a conflict. */
    method CreateJob(env: Envelope) returns (r: Outcome<Job, Error>)
      requires Valid()
      modifies this
      ensures Valid() && Commit(Contents(), r) == LedgerModel.CreateJob(old(Contents()), env)
      ensures forall id :: id in old(jobs) && old(jobs)[id].key == env.key ==>
        && jobs == old(jobs) && log == old(log)
        && r == if old(jobs)[id].digest == DigestOf(env) then Ok(old(jobs)[id]) else Err(IdempotencyConflict)
      ensures (forall id :: id in old(jobs) ==> old(jobs)[id].key != env.key) ==>
        if env.jobId in old(jobs) || (env.parentJobId.Some? && env.parentJobId.value !in old(jobs).Keys + {env.jobId})
        then r == Err(IntegrityError) && jobs == old(jobs) && log == old(log)
        else
          && r == Ok(Job(env.jobId, env.parentJobId, env.traceId, env.key, DigestOf(env), Queued, env.originProfile,
                         env.originSession, env.deliveryTarget, env.intent, None, false, |old(jobs)|))
          && jobs == old(jobs)[env.jobId := r.value]
          && log == old(log) + [Event(env.jobId, StateChanged, Some(Queued), Empty)]
    {
      CreateKeeps(Contents(), env);
      if id :| id in jobs && jobs[id].key == env.key {
        if jobs[id].digest != DigestOf(env) {
          return Err(IdempotencyConflict);
        }
        return Ok(jobs[id]);
      }
      if env.jobId in jobs || !ParentPresent(jobs, env) {
        return Err(IntegrityError);
      }
      jobs := jobs[env.jobId := NewRow(env, |jobs|)];
      AppendEvent(StateEvent(env.jobId, Queued));
      return Ok(jobs[env.jobId]);
    }

    method Transition(jobId: Uuid, newState: JobState) returns (r: Outcome<Job, Error>)
      requires Valid()
      modifies this
      ensures Valid() && Commit(Contents(), r) == LedgerModel.Transition(old(Contents()), jobId, newState)
      ensures jobId !in old(jobs) ==> r == Err(KeyError)
      ensures jobId in old(jobs) && newState !in Allowed(old(jobs)[jobId].state) ==> r == Err(InvalidTransition)
      ensures jobId in old(jobs) && newState in Allowed(old(jobs)[jobId].state) ==>
        && r == Ok(old(jobs)[jobId].(state := newState)) && jobs == old(jobs)[jobId := r.value]
        && log == old(log) + [Event(jobId, StateChanged, Some(newState), Empty)]
      ensures r.Err? ==> jobs == old(jobs) && log == old(log)
    {
      TransitionKeeps(Contents(), jobId, newState);
      if jobId !in jobs {
        return Err(KeyError);
      }
      var current := jobs[jobId].state;
      if newState !in Allowed(current) {
        return Err(InvalidTransition);
      }
      SetState(jobId, newState);
      return Ok(jobs[jobId]);
    }

    /** Cancels a job that has not ended; inside an atomic section it only raises the flag and asks for verification. */
    method RequestCancel(jobId: Uuid, atomicSection: bool) returns (r: Outcome<Job, Error>)
      requires Valid()
      modifies this
      ensures Valid() && Commit(Contents(), r) == LedgerModel.RequestCancel(old(Contents()), jobId, atomicSection)
      ensures r == Err(KeyError) <==> jobId !in old(jobs)
      ensures r == Err(InvalidTransition) <==>
        jobId in old(jobs) && old(jobs)[jobId].state in {Succeeded, FailedFinal, RolledBack, Cancelled}
      ensures r.Err? ==> r.error in {KeyError, InvalidTransition} && jobs == old(jobs) && log == old(log)
      ensures r.Ok? ==>
        var state := if atomicSection then Verifying else Cancelled;
        && r.value == old(jobs)[jobId].(state := state, cancelRequested := true)
        && jobs == old(jobs)[jobId := r.value]
        && log == old(log) + (if atomicSection && old(jobs)[jobId].state == Verifying then []
                              else [Event(jobId, StateChanged, Some(state), Empty)])
    {
      CancelKeeps(Contents(), jobId, atomicSection);
      CancelExactly(Contents(), jobId, atomicSection);
      hide Inv;
      if jobId !in jobs {
        return Err(KeyError);
      }
      var current := jobs[jobId].state;
      if Terminal(current) {
        return Err(InvalidTransition);
      }
      jobs := jobs[jobId := jobs[jobId].(cancelRequested := true)];
      if atomicSection {
        if current != Verifying {
          SetState(jobId, Verifying);
        }
      } else {
        SetState(jobId, Cancelled);
      }
      return Ok(jobs[jobId]);
    }

    method AttachKanbanTask(jobId: Uuid, taskId: string) returns (r: Outcome<Job, Error>)
      requires Valid()
      modifies this
      ensures Valid() && Commit(Contents(), r) == LedgerModel.AttachTask(old(Contents()), jobId, taskId)
      ensures r == Err(KeyError) <==> !Blank(taskId) && jobId !in old(jobs)
      ensures r == Err(ValueError) <==>
        Blank(taskId) || (jobId in old(jobs) && old(jobs)[jobId].task.Some? && old(jobs)[jobId].task.value != taskId)
      ensures r.Ok? ==>
        && r.value == old(jobs)[jobId].(task := Some(taskId)) && jobs == old(jobs)[jobId := r.value]
        && log == old(log) + (if old(jobs)[jobId].task.Some? then []
                              else [Event(jobId, KanbanAttached, None, KanbanTaskId(taskId))])
      ensures r.Err? ==> r.error in {KeyError, ValueError} && jobs == old(jobs) && log == old(log)
    {
      AttachKeeps(Contents(), jobId, taskId);
      if Blank(taskId) {
        return Err(ValueError);
      }
      if jobId !in jobs {
        return Err(KeyError);
      }
      var existing := jobs[jobId].task;
      if existing.Some? && existing.value != taskId {
        return Err(ValueError);
      }
      if existing.None? {
        jobs := jobs[jobId := jobs[jobId].(task := Some(taskId))];
        AppendEvent(Event(jobId, KanbanAttached, None, KanbanTaskId(taskId)));
      }
      return Ok(jobs[jobId]);
    }

    method FinishAtomicAndCancel(jobId: Uuid, readBack: Json) returns (r: Outcome<Job, Error>)
      requires Valid()
      modifies this
      ensures Valid() && Commit(Contents(), r) == LedgerModel.FinishAtomic(old(Contents()), jobId, readBack)
      ensures r == Err(KeyError) <==> jobId !in old(jobs)
      ensures r == Err(InvalidTransition) <==>
        jobId in old(jobs) && !(old(jobs)[jobId].state == Verifying && old(jobs)[jobId].cancelRequested)
      ensures r.Ok? ==>
        && r.value == old(jobs)[jobId].(state := Cancelled) && jobs == old(jobs)[jobId := r.value]
        && log == old(log) + [Event(jobId, Verification, None, ReadBack(readBack)),
                              Event(jobId, StateChanged, Some(Cancelled), Empty)]
      ensures r.Err? ==> r.error in {KeyError, InvalidTransition} && jobs == old(jobs) && log == old(log)
    {
      FinishKeeps(Contents(), jobId, readBack);
      FinishExactly(Contents(), jobId, readBack);
      hide Inv;
      if jobId !in jobs {
        return Err(KeyError);
      }
      if jobs[jobId].state != Verifying || !jobs[jobId].cancelRequested {
        return Err(InvalidTransition);
      }
      AppendEvent(Event(jobId, Verification, None, ReadBack(readBack)));
      SetState(jobId, Cancelled);
      return Ok(jobs[jobId]);
    }

    method AppendEvent(e: Event)
      modifies this`log
      ensures log == old(log) + [e]
    {
      log := log + [e];
    }

    method SetState(jobId: Uuid, s: JobState)
      requires jobId in jobs
      modifies this
      ensures Contents() == LedgerModel.SetState(old(Contents()), jobId, s)
    {
      jobs := jobs[jobId := jobs[jobId].(state := s)];
      AppendEvent(StateEvent(jobId, s));
    }
  }
}
