/** The confirmation manager on its table (src/hermes_harness/control_plane/confirmations.py). */
module ConfirmationService {
  import opened Common
  import opened ConfirmationModel

  /** What the preview of an operation must name. */
  const FIELDS := {"operation", "target", "amount", "options", "destination", "external_state_version"}

  class ConfirmationManager {
    var table: Table

    constructor (table: Table)
      ensures this.table == table
    {
      this.table := table;
    }

    method Issue(id: nat, jobId: JobId, operation: Operation, now: Moment) returns (r: Outcome<Preview, Error>)
      modifies this
      ensures ConfirmationModel.Issue(old(table), id, jobId, operation, now) == (table, r)
      ensures r.Ok? <==> now.aware && operation.Keys == FIELDS && id !in old(table) && jobId.isUuid
      ensures r.Ok? ==> r.value == Preview(id, jobId, Sha256(operation), now.at + 1_800_000_000)
      ensures r == Err(NaiveTime) <==> !now.aware
      ensures r == Err(FieldsMismatch) <==> now.aware && operation.Keys != FIELDS
      ensures r == Err(JobIdIsNoUuid) <==>
        now.aware && operation.Keys == FIELDS && id !in old(table) && !jobId.isUuid
      ensures if r.Ok? || r == Err(JobIdIsNoUuid) then
          table == old(table)[id := Grant(jobId, Sha256(operation), operation, now.at, now.at + 1_800_000_000, None)]
        else table == old(table)
    {
      if !now.aware {
        return Err(NaiveTime);
      }
      var digest := DigestOf(operation);
      if digest.Err? {
        return Err(digest.error);
      }
      var expiresAt := now.at + LIFETIME;
      if id in table {
        return Err(IdTaken);
      }
      table := table[id := Grant(jobId, digest.value, operation, now.at, expiresAt, None)];
      if !jobId.isUuid {
        return Err(JobIdIsNoUuid);
      }
      return Ok(Preview(id, jobId, digest.value, expiresAt));
    }

    method Consume(id: nat, expected: Digest, current: Operation, now: Moment) returns (r: Outcome<bool, Error>)
      modifies this
      ensures ConfirmationModel.Consume(old(table), id, expected, current, now) == (table, r)
      ensures r == Err(NaiveTime) <==> !now.aware
      ensures r == Err(FieldsMismatch) <==> now.aware && current.Keys != FIELDS
      ensures r == Err(UnknownConfirmation) <==> now.aware && current.Keys == FIELDS && id !in old(table)
      ensures now.aware && current.Keys == FIELDS && id in old(table) ==>
        var g := old(table)[id];
        && (r == Err(AlreadyUsed) <==> g.usedAt.Some?)
        && (r == Err(Expired) <==> g.usedAt.None? && g.expiresAt <= now.at)
        && (r == Err(DigestMismatch) <==>
              g.usedAt.None? && now.at < g.expiresAt && !(g.digest == expected == Sha256(current)))
        && (r.Ok? <==> g.usedAt.None? && now.at < g.expiresAt && g.digest == expected == Sha256(current))
      ensures if r.Ok? then table == old(table)[id := old(table)[id].(usedAt := Some(now.at))] else table == old(table)
    {
      if !now.aware {
        return Err(NaiveTime);
      }
      var digest := DigestOf(current);
      if digest.Err? {
        return Err(digest.error);
      }
      if id !in table {
        return Err(UnknownConfirmation);
      }
      var row := table[id];
      if row.usedAt.Some? {
        return Err(AlreadyUsed);
      }
      if now.at >= row.expiresAt {
        return Err(Expired);
      }
      if row.digest != expected || row.digest != digest.value {
        return Err(DigestMismatch);
      }
      table := table[id := row.(usedAt := Some(now.at))];
      return Ok(true);
    }
  }
}
