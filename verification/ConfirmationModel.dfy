/** Single-use confirmation grants as steps on one shared table (src/hermes_harness/control_plane/confirmations.py). */
module ConfirmationModel {
  import opened Common

  /** An operation: each field with the canonical JSON of its value. */
  type Operation = map<string, string>

  /** SHA-256 of an operation's canonical form, taken to be injective; a caller may pass any other text. */
  datatype Digest = Sha256(operation: Operation) | OtherText(text: string)

  /** A `datetime`: microseconds, and whether it has a time zone. */
  datatype Moment = Moment(at: int, aware: bool)

  /** A job id is the text of a UUID or some other text. */
  datatype JobId = JobId(text: string, isUuid: bool)

  datatype Grant = Grant(
    jobId: JobId, digest: Digest, operation: Operation, issuedAt: int, expiresAt: int, usedAt: Option<int>)

  datatype Preview = Preview(id: nat, jobId: JobId, digest: Digest, expiresAt: int)

  datatype Error =
    | NaiveTime | FieldsMismatch | IdTaken | JobIdIsNoUuid
    | UnknownConfirmation | AlreadyUsed | Expired | DigestMismatch

  type Table = map<nat, Grant>

  const REQUIRED_FIELDS := {"operation", "target", "amount", "options", "destination", "external_state_version"}

  /** Thirty minutes. */
  const LIFETIME := 30 * 60 * 1000000

  function DigestOf(operation: Operation): Outcome<Digest, Error> {
    if operation.Keys != REQUIRED_FIELDS then Err(FieldsMismatch) else Ok(Sha256(operation))
  }

  /** `id` is what `uuid4` gave.  A job id that is no UUID raises only after the row is committed. */
  function Issue(t: Table, id: nat, jobId: JobId, operation: Operation, now: Moment): (Table, Outcome<Preview, Error>) {
    var digest := DigestOf(operation);
    if !now.aware then (t, Err(NaiveTime))
    else if digest.Err? then (t, Err(digest.error))
    else if id in t then (t, Err(IdTaken))
    else
      var next := t[id := Grant(jobId, digest.value, operation, now.at, now.at + LIFETIME, None)];
      if !jobId.isUuid then (next, Err(JobIdIsNoUuid))
      else (next, Ok(Preview(id, jobId, digest.value, now.at + LIFETIME)))
  }

  function Consume(t: Table, id: nat, expected: Digest, current: Operation, now: Moment)
    : (Table, Outcome<bool, Error>)
  {
    var digest := DigestOf(current);
    if !now.aware then (t, Err(NaiveTime))
    else if digest.Err? then (t, Err(digest.error))
    else if id !in t then (t, Err(UnknownConfirmation))
    else if t[id].usedAt.Some? then (t, Err(AlreadyUsed))
    else if now.at >= t[id].expiresAt then (t, Err(Expired))
    else if t[id].digest != expected || t[id].digest != digest.value then (t, Err(DigestMismatch))
    else (t[id := t[id].(usedAt := Some(now.at))], Ok(true))
  }

  /** One call of some manager; its transaction is a single step. */
  datatype Op =
    | IssueOp(id: nat, jobId: JobId, operation: Operation, now: Moment)
    | ConsumeOp(id: nat, expected: Digest, current: Operation, now: Moment)

  function Do(t: Table, op: Op): (Table, bool) {
    match op
    case IssueOp(id, jobId, operation, now) => var (next, r) := Issue(t, id, jobId, operation, now); (next, r.Ok?)
    case ConsumeOp(id, expected, current, now) => var (next, r) := Consume(t, id, expected, current, now); (next, r.Ok?)
  }

  /** The table after any interleaving of the calls of any number of managers. */
  function Run(ops: seq<Op>): Table {
    if ops == [] then map[] else Do(Run(ops[..|ops| - 1]), ops[|ops| - 1]).0
  }

  /** The i-th call of the run succeeded. */
  predicate Succeeds(ops: seq<Op>, i: nat)
    requires i < |ops|
  {
    Do(Run(ops[..i]), ops[i]).1
  }

  /** The i-th call of the run consumed the grant `id`. */
  predicate Consumes(ops: seq<Op>, i: nat, id: nat) {
    i < |ops| && ops[i].ConsumeOp? && ops[i].id == id && Succeeds(ops, i)
  }

  /** The i-th call of the run put the grant `id` into the table. */
  predicate Issues(ops: seq<Op>, i: nat, id: nat) {
    i < |ops| && ops[i].IssueOp? && ops[i].id == id && id !in Run(ops[..i]) && id in Run(ops[..i + 1])
  }

  // ---- One step ----

  /** Rows stay; a used one stays as it is, and an unused one changes at most by being used. */
  ghost predicate Evolves(a: Table, b: Table) {
    forall id {:trigger KeepsAt(a, b, id)} :: KeepsAt(a, b, id)
  }

  predicate KeepsAt(a: Table, b: Table, id: nat) {
    id in a ==> id in b && KeepsGrant(a[id], b[id])
  }

  predicate KeepsGrant(a: Grant, b: Grant) {
    b == a || (a.usedAt.None? && b == a.(usedAt := b.usedAt))
  }

  ghost predicate Sound(t: Table) {
    forall id {:trigger SoundAt(t, id)} :: SoundAt(t, id)
  }

  predicate SoundAt(t: Table, id: nat) {
    id in t ==> SoundGrant(t[id])
  }

  predicate SoundGrant(g: Grant) {
    && g.expiresAt == g.issuedAt + LIFETIME && g.digest == Sha256(g.operation) && g.operation.Keys == REQUIRED_FIELDS
    && (g.usedAt.Some? ==> g.usedAt.value < g.expiresAt)
  }

  lemma DoKeeps(t: Table, op: Op)
    requires Sound(t)
    ensures Sound(Do(t, op).0) && Evolves(t, Do(t, op).0)
  {
    var next := Do(t, op).0;
    forall id ensures SoundAt(next, id) && KeepsAt(t, next, id) {
      assert SoundAt(t, id);
    }
  }

  /**
   A consume succeeds if and only if the time is aware, the grant is in the table, unused and not expired,
   the expected digest is its own, and the current operation is the one it was issued for.
   */
  lemma ConsumeSucceedsExactly(t: Table, id: nat, expected: Digest, current: Operation, now: Moment)
    requires Sound(t)
    ensures Consume(t, id, expected, current, now).1.Ok? <==>
      && now.aware && id in t && t[id].usedAt.None? && now.at < t[id].issuedAt + LIFETIME
      && expected == Sha256(t[id].operation) && current == t[id].operation
    ensures Consume(t, id, expected, current, now).1.Err? ==> Consume(t, id, expected, current, now).0 == t
  {
    assert SoundAt(t, id);
  }

  /** A failed issue leaves the table alone, except when all that is wrong is a job id that is no UUID. */
  lemma {:induction false} IssueFailsCleanlyExactly(t: Table, id: nat, jobId: JobId, operation: Operation, now: Moment)
    ensures Issue(t, id, jobId, operation, now).0 == t <==> !now.aware || operation.Keys != REQUIRED_FIELDS || id in t
    ensures Issue(t, id, jobId, operation, now).1.Ok? <==>
      now.aware && operation.Keys == REQUIRED_FIELDS && id !in t && jobId.isUuid
  {
    var next := Issue(t, id, jobId, operation, now).0;
    if next != t {
      assert id in next;
    }
    if now.aware && operation.Keys == REQUIRED_FIELDS && id !in t {
      assert id in next;
    }
  }

  // ---- Runs ----

  lemma {:induction false} RunSound(ops: seq<Op>)
    ensures Sound(Run(ops))
  {
    if ops != [] {
      RunSound(ops[..|ops| - 1]);
      DoKeeps(Run(ops[..|ops| - 1]), ops[|ops| - 1]);
    }
  }

  lemma RunStep(ops: seq<Op>, i: nat)
    requires i < |ops|
    ensures Run(ops[..i + 1]) == Do(Run(ops[..i]), ops[i]).0
    ensures Sound(Run(ops[..i])) && Evolves(Run(ops[..i]), Run(ops[..i + 1]))
  {
    assert ops[..i + 1][..i] == ops[..i];
    RunSound(ops[..i]);
    DoKeeps(Run(ops[..i]), ops[i]);
  }

  lemma StepEvolves(ops: seq<Op>, i: nat)
    requires i < |ops|
    ensures Evolves(Run(ops[..i]), Run(ops[..i + 1]))
  {
    RunStep(ops, i);
  }

  /** Between any two moments of a run, no row is lost and no used grant changes. */
  lemma {:induction false} GrantsEvolve(ops: seq<Op>, i: nat, j: nat)
    requires i <= j <= |ops|
    ensures Evolves(Run(ops[..i]), Run(ops[..j]))
    decreases j
  {
    hide Run;
    if i == j {
      forall id ensures KeepsAt(Run(ops[..i]), Run(ops[..j]), id) {
      }
    } else {
      GrantsEvolve(ops, i, j - 1);
      StepEvolves(ops, j - 1);
      EvolvesTransitive(Run(ops[..i]), Run(ops[..j - 1]), Run(ops[..j]));
    }
  }

  lemma EvolvesTransitive(a: Table, b: Table, c: Table)
    requires Evolves(a, b) && Evolves(b, c)
    ensures Evolves(a, c)
  {
    forall id ensures KeepsAt(a, c, id) {
      assert KeepsAt(a, b, id) && KeepsAt(b, c, id);
    }
  }

  /** Before a call consumes a grant it is unused; afterwards it is used at the time of that call. */
  lemma ConsumeMarks(ops: seq<Op>, i: nat, id: nat)
    requires Consumes(ops, i, id)
    ensures id in Run(ops[..i]) && Run(ops[..i])[id].usedAt.None?
    ensures id in Run(ops[..i + 1]) && Run(ops[..i + 1])[id] == Run(ops[..i])[id].(usedAt := Some(ops[i].now.at))
  {
    RunStep(ops, i);
  }

  /** No grant is ever consumed twice, by whatever managers. */
  lemma ConsumedAtMostOnce(ops: seq<Op>, i: nat, j: nat, id: nat)
    requires Consumes(ops, i, id) && Consumes(ops, j, id)
    ensures i == j
  {
    if i < j {
      StaysUsed(ops, i, j, id);
      ConsumeMarks(ops, j, id);
      assert false;
    } else if j < i {
      StaysUsed(ops, j, i, id);
      ConsumeMarks(ops, i, id);
      assert false;
    }
  }

  lemma StaysUsed(ops: seq<Op>, i: nat, j: nat, id: nat)
    requires i < j <= |ops| && Consumes(ops, i, id)
    ensures id in Run(ops[..j]) && Run(ops[..j])[id].usedAt.Some?
  {
    ConsumeMarks(ops, i, id);
    GrantsEvolve(ops, i + 1, j);
    assert KeepsAt(Run(ops[..i + 1]), Run(ops[..j]), id);
  }

  /** A grant is marked used exactly by the call that consumed it, with that call's time. */
  lemma {:induction false} UsedExactlyIfConsumed(ops: seq<Op>, n: nat, id: nat, t: int)
    requires n <= |ops|
    ensures id in Run(ops[..n]) && Run(ops[..n])[id].usedAt == Some(t) <==>
      exists i: nat :: i < n && Consumes(ops, i, id) && ops[i].now.at == t
    decreases n
  {
    if n == 0 {
    } else {
      UsedExactlyIfConsumed(ops, n - 1, id, t);
      RunStep(ops, n - 1);
      if Consumes(ops, n - 1, id) {
        ConsumeMarks(ops, n - 1, id);
        forall i: nat | Consumes(ops, i, id) ensures i == n - 1 {
          ConsumedAtMostOnce(ops, i, n - 1, id);
        }
      } else {
        UntouchedUnlessConsumed(ops, n - 1, id);
      }
    }
  }

  lemma UntouchedUnlessConsumed(ops: seq<Op>, i: nat, id: nat)
    requires i < |ops| && !Consumes(ops, i, id)
    ensures id in Run(ops[..i]) ==> id in Run(ops[..i + 1]) && Run(ops[..i + 1])[id] == Run(ops[..i])[id]
    ensures id !in Run(ops[..i]) && id in Run(ops[..i + 1]) ==> Run(ops[..i + 1])[id].usedAt.None?
  {
    RunStep(ops, i);
  }

  lemma NewRowWasIssued(ops: seq<Op>, n: nat, id: nat)
    requires n < |ops| && id !in Run(ops[..n]) && id in Run(ops[..n + 1])
    ensures Issues(ops, n, id)
    ensures var g := Run(ops[..n + 1])[id];
      g.operation == ops[n].operation && g.issuedAt == ops[n].now.at && g.jobId == ops[n].jobId
  {
    RunStep(ops, n);
    hide Run;
  }

  lemma RowStays(ops: seq<Op>, n: nat, id: nat)
    requires n < |ops| && id in Run(ops[..n])
    ensures id in Run(ops[..n + 1]) && KeepsGrant(Run(ops[..n])[id], Run(ops[..n + 1])[id])
  {
    RunStep(ops, n);
    assert KeepsAt(Run(ops[..n]), Run(ops[..n + 1]), id);
  }

  /** Every row was put there by one issue call, and still says what that call said. */
  lemma {:induction false} RowsWereIssued(ops: seq<Op>, n: nat, id: nat) returns (i: nat)
    requires n <= |ops| && id in Run(ops[..n])
    ensures i < n && Issues(ops, i, id)
    ensures var g := Run(ops[..n])[id];
      g.operation == ops[i].operation && g.issuedAt == ops[i].now.at && g.jobId == ops[i].jobId
    decreases n
  {
    assert n > 0;
    hide Run, Issues;
    if id in Run(ops[..n - 1]) {
      i := RowsWereIssued(ops, n - 1, id);
      RowStays(ops, n - 1, id);
    } else {
      i := n - 1;
      NewRowWasIssued(ops, n - 1, id);
    }
  }

  /**
   A successful consume comes after exactly the issue call of that grant, within thirty minutes of its time,
   and the current operation is the one that was issued.
   */
  lemma ConsumedIsWhatWasIssued(ops: seq<Op>, j: nat, id: nat) returns (i: nat)
    requires Consumes(ops, j, id)
    ensures i < j && Issues(ops, i, id) && (forall k: nat :: Issues(ops, k, id) ==> k == i)
    ensures ops[j].current == ops[i].operation && ops[j].expected == Sha256(ops[i].operation)
    ensures ops[j].now.at < ops[i].now.at + LIFETIME
  {
    ConsumeMarks(ops, j, id);
    RunSound(ops[..j]);
    assert SoundAt(Run(ops[..j]), id);
    ConsumeSucceedsExactly(Run(ops[..j]), id, ops[j].expected, ops[j].current, ops[j].now);
    i := RowsWereIssued(ops, j, id);
    forall k: nat | Issues(ops, k, id) ensures k == i {
      IssuedOnce(ops, i, k, id);
    }
  }

  lemma IssuedOnce(ops: seq<Op>, i: nat, k: nat, id: nat)
    requires Issues(ops, i, id) && Issues(ops, k, id)
    ensures i == k
  {
    if i < k {
      StaysPresent(ops, i, k, id);
    } else if k < i {
      StaysPresent(ops, k, i, id);
    }
  }

  lemma StaysPresent(ops: seq<Op>, i: nat, k: nat, id: nat)
    requires i < k <= |ops| && Issues(ops, i, id)
    ensures id in Run(ops[..k])
  {
    GrantsEvolve(ops, i + 1, k);
    assert KeepsAt(Run(ops[..i + 1]), Run(ops[..k]), id);
  }

  /** In every table a run can reach, a used grant was used before its expiry thirty minutes after issue. */
  lemma UsedBeforeExpiry(ops: seq<Op>, id: nat)
    requires id in Run(ops) && Run(ops)[id].usedAt.Some?
    ensures Run(ops)[id].usedAt.value < Run(ops)[id].expiresAt == Run(ops)[id].issuedAt + LIFETIME
  {
    RunSound(ops);
    assert SoundAt(Run(ops), id);
  }
}
