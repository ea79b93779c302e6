/** What each transaction of the ledger does, said in rows and events alone. */
module LedgerEffects {
  import opened Common
  import opened Json
  import opened Contracts
  import opened LedgerModel

  /**
   An ordinary cancellation cancels every job that has not ended; one that meets an atomic section sends the
   job to verification.  Either raises the flag, records the new state if it is one, and touches no other job.
   */
  lemma CancelExactly(db: Db, id: Uuid, atomicSection: bool)
    ensures var c := RequestCancel(db, id, atomicSection);
      && (c.outcome == Err(KeyError) <==> id !in db.jobs)
      && (c.outcome == Err(InvalidTransition) <==>
            id in db.jobs && db.jobs[id].state in {Succeeded, FailedFinal, RolledBack, Cancelled})
      && (c.outcome.Err? ==> c.outcome.error in {KeyError, InvalidTransition} && c.db == db)
    ensures var c := RequestCancel(db, id, atomicSection);
      var state := if atomicSection then Verifying else Cancelled;
      c.outcome.Ok? ==>
        && c.outcome.value == db.jobs[id].(state := state, cancelRequested := true)
        && c.db.jobs == db.jobs[id := c.outcome.value]
        && c.db.log == db.log + (if atomicSection && db.jobs[id].state == Verifying then []
                                 else [Event(id, StateChanged, Some(state), Empty)])
  {
    if id in db.jobs && !Terminal(db.jobs[id].state) {
      var state := if atomicSection then Verifying else Cancelled;
      var flagged := db.jobs[id].(cancelRequested := true);
      assert db.jobs[id := flagged][id := flagged.(state := state)] == db.jobs[id := flagged.(state := state)];
      assert flagged.state == state ==> db.jobs[id := flagged] == db.jobs[id := flagged.(state := state)];
    }
  }

  /** The end of an atomic cancellation: a read-back, and at once CANCELLED. */
  lemma FinishExactly(db: Db, id: Uuid, readBack: Json)
    ensures var c := FinishAtomic(db, id, readBack);
      && (c.outcome == Err(KeyError) <==> id !in db.jobs)
      && (c.outcome == Err(InvalidTransition) <==>
            id in db.jobs && !(db.jobs[id].state == Verifying && db.jobs[id].cancelRequested))
      && (c.outcome.Err? ==> c.outcome.error in {KeyError, InvalidTransition} && c.db == db)
    ensures var c := FinishAtomic(db, id, readBack);
      c.outcome.Ok? ==>
        && c.outcome.value == db.jobs[id].(state := Cancelled)
        && c.db.jobs == db.jobs[id := c.outcome.value]
        && c.db.log == db.log + [Event(id, Verification, None, ReadBack(readBack)),
                                 Event(id, StateChanged, Some(Cancelled), Empty)]
  {
    var e := Event(id, Verification, None, ReadBack(readBack));
    assert db.log + [e] + [StateEvent(id, Cancelled)] == db.log + [e, StateEvent(id, Cancelled)];
  }
}
