/**
 Callers must agree on keys: whenever two works that may be asked for disagree, some run of the system shows
 it, although the board honours every key.  With DispatchBoard this makes both conditions exact.
 */
module DispatchRaces {
  import opened Common
  import opened Json
  import opened Contracts
  import opened LedgerModel
  import opened DispatchBoard
  import opened DispatchModel
  import opened DispatchSystem

  // ---- Names nobody uses ----

  lemma LongestName(names: set<string>) returns (bound: nat)
    ensures forall x :: x in names ==> |x| <= bound
  {
    if names == {} {
      bound := 0;
    } else {
      var x :| x in names;
      bound := LongestName(names - {x});
      bound := if |x| > bound then |x| else bound;
    }
  }

  lemma NewName(names: set<string>) returns (name: string)
    ensures name !in names && !Blank(name)
  {
    var bound := LongestName(names);
    name := seq(bound + 1, _ => 'x');
    assert name[0] == 'x' && !Whitespace('x');
  }

  // ---- Others create rows ----

  /** An envelope for a job under a key that no other job has: the text of its own id. */
  function PlainEnvelope(id: Uuid): Envelope {
    Envelope("1.0.0", id, None, id, "others", "others", "others", GeneralAnswer, UuidThen(id, ""), LowRisk,
             ModelPolicy("openai-codex", "any", Low, None), [], Obj([]), "any", [])
  }

  lemma PlainIsAccepted(id: Uuid)
    ensures Accepted(PlainEnvelope(id))
  {
    var s := "1.0.0";
    assert s[..4] == "1.0." && s[4] == '0';
  }

  /** Nobody has a task yet, and every job has its own id as its key. */
  ghost predicate Bare(db: Db) {
    forall id :: id in db.jobs ==> db.jobs[id].task.None? && db.jobs[id].key == UuidThen(id, "")
  }

  lemma {:induction false} CreatedByOthers(cfg: Config, ids: seq<Uuid>) returns (s: Sys)
    ensures Leads(cfg, INIT, s) && s.procs == map[] && s.native == map[] && Bare(s.db)
    ensures forall i :: 0 <= i < |ids| ==> ids[i] in s.db.jobs
  {
    if ids == [] {
      NoStepLeads(cfg, INIT);
      s := INIT;
    } else {
      var n := |ids| - 1;
      var before := CreatedByOthers(cfg, ids[..n]);
      var step := Elsewhere(OpCreate(PlainEnvelope(ids[n])));
      s := Do(cfg, before, step);
      PlainIsAccepted(ids[n]);
      OneMoreRow(before.db, ids[n]);
      OneStepLeads(cfg, before, step);
      LeadsOn(cfg, INIT, before, s);
      forall i | 0 <= i < |ids| ensures ids[i] in s.db.jobs {
        if i < n {
          assert ids[..n][i] in before.db.jobs;
        }
      }
    }
  }

  lemma OneMoreRow(db: Db, id: Uuid)
    requires Bare(db)
    ensures var next := CreateJob(db, PlainEnvelope(id)).db;
      Bare(next) && id in next.jobs && forall x :: x in db.jobs ==> x in next.jobs
  {
    if id !in db.jobs {
      assert Owner(db.jobs, PlainEnvelope(id).key).None?;
    }
  }

  // ---- One call goes on by itself ----

  /** What a stretch of steps of one call leaves alone: the other calls, the jobs outside `ids`, and old tasks. */
  ghost predicate Around(a: Sys, b: Sys, p: nat, ids: set<Uuid>, keys: set<Key>) {
    && (forall q :: q != p ==> (q in b.procs <==> q in a.procs) && (q in a.procs ==> b.procs[q] == a.procs[q]))
    && (forall id :: id in a.db.jobs ==> id in b.db.jobs)
    && (forall id :: id in a.db.jobs && id !in ids ==> b.db.jobs[id].task == a.db.jobs[id].task)
    && (forall t :: t in a.native ==> t in b.native && b.native[t] == a.native[t])
    && (forall t :: t in b.native && t !in a.native ==> b.native[t].key in keys)
  }

  lemma AroundOn(a: Sys, b: Sys, c: Sys, p: nat, ids: set<Uuid>, keys: set<Key>)
    requires Around(a, b, p, ids, keys) && Around(b, c, p, ids, keys)
    ensures Around(a, c, p, ids, keys)
  {
  }

  lemma AroundMore(a: Sys, b: Sys, p: nat, ids: set<Uuid>, keys: set<Key>, moreIds: set<Uuid>, moreKeys: set<Key>)
    requires Around(a, b, p, ids, keys) && ids <= moreIds && keys <= moreKeys
    ensures Around(a, b, p, moreIds, moreKeys)
  {
  }

  lemma ThreeStretches(cfg: Config, a: Sys, b: Sys, c: Sys, d: Sys, p: nat, ids: set<Uuid>, keys: set<Key>)
    requires Leads(cfg, a, b) && Leads(cfg, b, c) && Leads(cfg, c, d)
    requires Around(a, b, p, ids, keys) && Around(b, c, p, ids, keys) && Around(c, d, p, ids, keys)
    ensures Leads(cfg, a, d) && Around(a, d, p, ids, keys)
  {
    hide Around, Leads;
    LeadsOn(cfg, a, b, c);
    LeadsOn(cfg, a, c, d);
    AroundOn(a, b, c, p, ids, keys);
    AroundOn(a, c, d, p, ids, keys);
  }

  /** The jobs of the works up to `at` are in the ledger. */
  ghost predicate Stored(db: Db, works: seq<Work>, at: nat)
    requires at < |works|
  {
    forall k :: 0 <= k <= at ==> works[k].env.jobId in db.jobs
  }

  /** The call `p` is about to read the work at `at`, which it will delegate or only ensure. */
  ghost predicate Reading(s: Sys, p: nat, works: seq<Work>, at: nat) {
    && p in s.procs && s.procs[p].works == works && s.procs[p].at == at < |works| && s.procs[p].pc.Read?
    && works[at].env.jobId in s.db.jobs
  }

  ghost predicate NamedBoard(native: Board) {
    forall t :: t in native ==> !Blank(t)
  }

  /** The call stands before the board with the work at `at`. */
  ghost predicate Asking(s: Sys, p: nat, works: seq<Work>, at: nat) {
    && p in s.procs && s.procs[p].works == works && s.procs[p].at == at < |works| && s.procs[p].pc.Call?
    && works[at].duty.Delegate? && LimitationsOk(works[at].env)
    && works[at].env.jobId in s.db.jobs && s.db.jobs[works[at].env.jobId].task.None?
  }

  ghost predicate Holding(s: Sys, p: nat, works: seq<Work>, at: nat, task: string) {
    && p in s.procs && s.procs[p].works == works && s.procs[p].at == at < |works| && s.procs[p].pc == Attach(task)
    && works[at].env.jobId in s.db.jobs && !Blank(task)
  }

  /** The call is past the work at `at`. */
  ghost predicate Past(s: Sys, p: nat, works: seq<Work>, at: nat) {
    && p in s.procs && s.procs[p].works == works && s.procs[p].at == at + 1 <= |works|
    && s.procs[p].pc == (if at + 1 < |works| then Read else Returned)
  }

  lemma ReadsOn(cfg: Config, s: Sys, p: nat, works: seq<Work>, at: nat) returns (next: Sys)
    requires Reading(s, p, works, at) && (works[at].duty.EnsureOnly? || s.db.jobs[works[at].env.jobId].task.Some?)
    requires !works[at].duty.Refuse?
    ensures Leads(cfg, s, next) && Around(s, next, p, {}, {}) && Past(next, p, works, at) && next.native == s.native &&
      next.db == s.db
  {
    OneStepLeads(cfg, s, Move(p, Fail(None)));
    next := Do(cfg, s, Move(p, Fail(None)));
  }

  lemma ReadsAndAsks(cfg: Config, s: Sys, p: nat, works: seq<Work>, at: nat) returns (next: Sys)
    requires Reading(s, p, works, at) && works[at].duty.Delegate? && LimitationsOk(works[at].env)
    requires s.db.jobs[works[at].env.jobId].task.None?
    ensures Leads(cfg, s, next) && Around(s, next, p, {}, {}) && Asking(next, p, works, at) &&
      next.native == s.native && next.db == s.db
  {
    hide LimitationsOk;
    OneStepLeads(cfg, s, Move(p, Fail(None)));
    next := Do(cfg, s, Move(p, Fail(None)));
  }

  /** A board that honours keys can always answer: with the task it has under the key, or else with a new one. */
  lemma AnswerFor(native: Board, key: Key) returns (task: string)
    requires NamedBoard(native)
    ensures Honours(native, key, Give(task)) && !Blank(task)
    ensures task in native <==> exists t :: t in native && native[t].key == key
    ensures task in native ==> native[task].key == key
  {
    if t :| t in native && native[t].key == key {
      task := t;
    } else {
      task := NewName(native.Keys);
    }
  }

  lemma BoardAnswers(cfg: Config, s: Sys, p: nat, works: seq<Work>, at: nat) returns (next: Sys, task: string)
    requires Asking(s, p, works, at) && NamedBoard(s.native)
    ensures Leads(cfg, s, next) && Around(s, next, p, {}, {works[at].env.key}) && Holding(next, p, works, at, task)
    ensures next.db == s.db && NamedBoard(next.native) && task in next.native &&
      next.native[task].key == works[at].env.key
    ensures forall t :: t in next.native && t !in s.native ==>
      t == task && next.native[t].body.jobId == works[at].env.jobId
    ensures task in s.native <==> exists t :: t in s.native && s.native[t].key == works[at].env.key
  {
    hide LimitationsOk, Blank, Accepted, CreateJob, AttachTask, Apply;
    task := AnswerFor(s.native, works[at].env.key);
    next := Do(cfg, s, Move(p, Give(task)));
    OneStepLeads(cfg, s, Move(p, Give(task)));
  }

  lemma Attaches(cfg: Config, s: Sys, p: nat, works: seq<Work>, at: nat, task: string) returns (next: Sys)
    requires Holding(s, p, works, at, task) && s.db.jobs[works[at].env.jobId].task.None?
    ensures Leads(cfg, s, next) && Around(s, next, p, {works[at].env.jobId}, {}) && Past(next, p, works, at)
    ensures next.native == s.native && StepSettled(next.db, WorkflowStep(works[at].env, task))
  {
    OneStepLeads(cfg, s, Move(p, Fail(None)));
    next := Do(cfg, s, Move(p, Fail(None)));
  }

  // ---- A call gets to any of its works ----

  /** A call can get past the first `at` works: it delegates them or only ensures them. */
  predicate Passable(works: seq<Work>, at: nat)
    requires at <= |works|
  {
    forall k :: 0 <= k < at ==> !works[k].duty.Refuse? && (works[k].duty.Delegate? ==> LimitationsOk(works[k].env))
  }

  function IdsBefore(works: seq<Work>, at: nat): set<Uuid>
    requires at <= |works|
  {
    set k | 0 <= k < at && works[k].duty.Delegate? :: works[k].env.jobId
  }

  function KeysBefore(works: seq<Work>, at: nat): set<Key>
    requires at <= |works|
  {
    set k | 0 <= k < at && works[k].duty.Delegate? :: works[k].env.key
  }

  lemma PassesOne(cfg: Config, s: Sys, p: nat, works: seq<Work>, at: nat) returns (next: Sys)
    requires Reading(s, p, works, at) && NamedBoard(s.native)
    requires !works[at].duty.Refuse? && (works[at].duty.Delegate? ==> LimitationsOk(works[at].env))
    ensures Leads(cfg, s, next) && Past(next, p, works, at) && NamedBoard(next.native)
    ensures works[at].duty.Delegate? ==> Around(s, next, p, {works[at].env.jobId}, {works[at].env.key})
    ensures !works[at].duty.Delegate? ==> Around(s, next, p, {}, {})
  {
    hide LimitationsOk, Leads;
    if works[at].duty.EnsureOnly? || s.db.jobs[works[at].env.jobId].task.Some? {
      next := ReadsOn(cfg, s, p, works, at);
    } else {
      next := AsksAndAttaches(cfg, s, p, works, at);
    }
  }

  lemma AsksAndAttaches(cfg: Config, s: Sys, p: nat, works: seq<Work>, at: nat) returns (next: Sys)
    requires Reading(s, p, works, at) && NamedBoard(s.native)
    requires works[at].duty.Delegate? && LimitationsOk(works[at].env) && s.db.jobs[works[at].env.jobId].task.None?
    ensures Leads(cfg, s, next) && Past(next, p, works, at) && NamedBoard(next.native)
    ensures Around(s, next, p, {works[at].env.jobId}, {works[at].env.key})
  {
    var id, key := works[at].env.jobId, works[at].env.key;
    var asking := ReadsAndAsks(cfg, s, p, works, at);
    var holding, task := BoardAnswers(cfg, asking, p, works, at);
    next := Attaches(cfg, holding, p, works, at, task);
    hide Around, Leads, NamedBoard, Holding, Asking, Past, Reading, LimitationsOk;
    AroundMore(s, asking, p, {}, {}, {id}, {key});
    AroundMore(asking, holding, p, {}, {key}, {id}, {key});
    AroundMore(holding, next, p, {id}, {}, {id}, {key});
    ThreeStretches(cfg, s, asking, holding, next, p, {id}, {key});
  }

  lemma {:induction false} PassesTo(cfg: Config, s: Sys, p: nat, works: seq<Work>, at: nat) returns (next: Sys)
    requires at < |works| && Reading(s, p, works, 0) && NamedBoard(s.native) && Passable(works, at)
    requires Stored(s.db, works, at)
    ensures Leads(cfg, s, next) && Reading(next, p, works, at) && NamedBoard(next.native)
    ensures Around(s, next, p, IdsBefore(works, at), KeysBefore(works, at))
  {
    if at == 0 {
      NoStepLeads(cfg, s);
      next := s;
    } else {
      var before := PassesTo(cfg, s, p, works, at - 1);
      var work := works[at - 1];
      next := PassesOne(cfg, before, p, works, at - 1);
      assert next.db.jobs.Keys >= before.db.jobs.Keys >= s.db.jobs.Keys;
      assert Reading(next, p, works, at);
      assert work.duty.Delegate? ==> work.env.jobId in IdsBefore(works, at) && work.env.key in KeysBefore(works, at);
      hide Around, Leads, NamedBoard, Past, Reading, LimitationsOk;
      LeadsOn(cfg, s, before, next);
      AroundMore(s, before, p, IdsBefore(works, at - 1), KeysBefore(works, at - 1), IdsBefore(works, at),
        KeysBefore(works, at));
      if work.duty.Delegate? {
        AroundMore(before, next, p, {work.env.jobId}, {work.env.key}, IdsBefore(works, at), KeysBefore(works, at));
      } else {
        AroundMore(before, next, p, {}, {}, IdsBefore(works, at), KeysBefore(works, at));
      }
      AroundOn(s, before, next, p, IdsBefore(works, at), KeysBefore(works, at));
    }
  }

  /** A new call gets to its work at `at` and stands before the board with it. */
  lemma Arrives(cfg: Config, s: Sys, p: nat, env: Envelope, at: nat) returns (next: Sys)
    requires p !in s.procs && MayCall(cfg, env) && NamedBoard(s.native) && Contender(Program(env, cfg.stages), at)
    requires var works := Program(env, cfg.stages); Stored(s.db, works, at) && s.db.jobs[works[at].env.jobId].task.None?
    ensures var works := Program(env, cfg.stages);
      && Leads(cfg, s, next) && Asking(next, p, works, at) && NamedBoard(next.native)
      && Around(s, next, p, IdsBefore(works, at), KeysBefore(works, at))
  {
    var works := Program(env, cfg.stages);
    var ids, keys := IdsBefore(works, at), KeysBefore(works, at);
    hide Program, LimitationsOk, Leads, Asking, KeysBefore;
    var spawned := Spawns(cfg, s, p, env);
    var there := PassesTo(cfg, spawned, p, works, at);
    assert there.db.jobs[works[at].env.jobId].task.None?;
    next := ReadsAndAsks(cfg, there, p, works, at);
    hide Around, Reading, NamedBoard, IdsBefore, Contender;
    AroundMore(s, spawned, p, {}, {}, ids, keys);
    AroundMore(there, next, p, {}, {}, ids, keys);
    ThreeStretches(cfg, s, spawned, there, next, p, ids, keys);
  }

  lemma Spawns(cfg: Config, s: Sys, p: nat, env: Envelope) returns (next: Sys)
    requires p !in s.procs && MayCall(cfg, env) && Program(env, cfg.stages)[0].env.jobId in s.db.jobs
    ensures Leads(cfg, s, next) && Reading(next, p, Program(env, cfg.stages), 0) && Around(s, next, p, {}, {})
    ensures next.db == s.db && next.native == s.native
  {
    hide Program;
    OneStepLeads(cfg, s, Spawn(p, env));
    next := Do(cfg, s, Spawn(p, env));
  }

  /** The work at `at` can be asked for, and no work before it has its job or its key. */
  predicate Contender(works: seq<Work>, at: nat) {
    && at < |works| && works[at].duty.Delegate? && LimitationsOk(works[at].env) && Passable(works, at)
    && works[at].env.jobId !in IdsBefore(works, at) && works[at].env.key !in KeysBefore(works, at)
  }

  // ---- Two calls ----

  /** The ids of the works up to `at`. */
  function IdsUpTo(works: seq<Work>, at: nat): (ids: seq<Uuid>)
    requires at < |works|
    ensures |ids| == at + 1 && forall k :: 0 <= k <= at ==> ids[k] == works[k].env.jobId
  {
    seq(at + 1, k requires 0 <= k <= at => works[k].env.jobId)
  }

  /** Others have created all jobs that the two calls need, and nobody has a task. */
  lemma StageIsSet(cfg: Config, a: seq<Work>, i: nat, b: seq<Work>, j: nat) returns (s: Sys)
    requires i < |a| && j < |b|
    ensures Leads(cfg, INIT, s) && s.procs == map[] && s.native == map[]
    ensures forall id :: id in s.db.jobs ==> s.db.jobs[id].task.None?
    ensures Stored(s.db, a, i) && Stored(s.db, b, j)
  {
    var ids := IdsUpTo(a, i) + IdsUpTo(b, j);
    s := CreatedByOthers(cfg, ids);
    forall k | 0 <= k <= i ensures a[k].env.jobId in s.db.jobs {
      assert ids[k] in s.db.jobs;
    }
    forall k | 0 <= k <= j ensures b[k].env.jobId in s.db.jobs {
      assert ids[i + 1 + k] in s.db.jobs;
    }
  }

  /** Two different calls, and the works they race for. */
  ghost predicate Contest(cfg: Config, first: Envelope, i: nat, second: Envelope, j: nat) {
    && MayCall(cfg, first) && MayCall(cfg, second)
    && Contender(Program(first, cfg.stages), i) && Contender(Program(second, cfg.stages), j)
  }

  function Contested(cfg: Config, env: Envelope, at: nat): Work
    requires at < |Program(env, cfg.stages)|
  {
    Program(env, cfg.stages)[at]
  }

  /** The first call holds a task it has not attached yet; the board has nothing else under its keys. */
  ghost predicate FirstHolds(cfg: Config, s: Sys, first: Envelope, i: nat, task: string)
    requires i < |Program(first, cfg.stages)|
  {
    var works := Program(first, cfg.stages);
    && Holding(s, 0, works, i, task) && NamedBoard(s.native) && 1 !in s.procs
    && task in s.native && s.native[task].key == works[i].env.key && s.native[task].body.jobId == works[i].env.jobId
    && forall t :: t in s.native && t != task ==> s.native[t].key in KeysBefore(works, i)
  }

  lemma FirstGetsATask(cfg: Config, s: Sys, first: Envelope, i: nat) returns (next: Sys, task: string)
    requires s.procs == map[] && s.native == map[] && (forall id :: id in s.db.jobs ==> s.db.jobs[id].task.None?)
    requires MayCall(cfg, first) && Contender(Program(first, cfg.stages), i)
    requires Stored(s.db, Program(first, cfg.stages), i)
    ensures Leads(cfg, s, next) && FirstHolds(cfg, next, first, i, task)
    ensures forall id :: id in s.db.jobs ==> id in next.db.jobs
    ensures forall id :: id in s.db.jobs && id !in IdsBefore(Program(first, cfg.stages), i) ==>
      next.db.jobs[id].task.None?
  {
    var works := Program(first, cfg.stages);
    hide Program, LimitationsOk, Leads, Accepted, MayCall;
    var asking := Arrives(cfg, s, 0, first, i);
    next, task := BoardAnswers(cfg, asking, 0, works, i);
    LeadsOn(cfg, s, asking, next);
    assert forall t :: t in asking.native ==> asking.native[t].key in KeysBefore(works, i);
    assert task !in asking.native;
  }

  /** The second call stands before the board while the first one holds its task. */
  ghost predicate SecondAsks(cfg: Config, s: Sys, first: Envelope, i: nat, second: Envelope, j: nat, task: string)
    requires i < |Program(first, cfg.stages)| && j < |Program(second, cfg.stages)|
  {
    var a, b := Program(first, cfg.stages), Program(second, cfg.stages);
    && Holding(s, 0, a, i, task) && Asking(s, 1, b, j) && NamedBoard(s.native)
    && task in s.native && s.native[task].key == a[i].env.key && s.native[task].body.jobId == a[i].env.jobId
    && forall t :: t in s.native && t != task ==> s.native[t].key in KeysBefore(a, i) + KeysBefore(b, j)
  }

  lemma SecondArrives(cfg: Config, s: Sys, first: Envelope, i: nat, second: Envelope, j: nat, task: string)
      returns (next: Sys)
    requires Contest(cfg, first, i, second, j) && FirstHolds(cfg, s, first, i, task)
    requires Stored(s.db, Program(second, cfg.stages), j)
    requires s.db.jobs[Contested(cfg, second, j).env.jobId].task.None?
    ensures Leads(cfg, s, next) && SecondAsks(cfg, next, first, i, second, j, task)
  {
    hide Program, LimitationsOk, Leads;
    next := Arrives(cfg, s, 1, second, j);
  }

  lemma BothAsk(cfg: Config, first: Envelope, i: nat, second: Envelope, j: nat) returns (s: Sys, task: string)
    requires Contest(cfg, first, i, second, j)
    requires Contested(cfg, second, j).env.jobId !in IdsBefore(Program(first, cfg.stages), i)
    ensures Leads(cfg, INIT, s) && SecondAsks(cfg, s, first, i, second, j, task)
  {
    hide Program, LimitationsOk, Leads, SecondAsks, FirstHolds;
    var start := StageIsSet(cfg, Program(first, cfg.stages), i, Program(second, cfg.stages), j);
    var held;
    held, task := FirstGetsATask(cfg, start, first, i);
    s := SecondArrives(cfg, held, first, i, second, j, task);
    LeadsOn(cfg, INIT, start, held);
    LeadsOn(cfg, INIT, held, s);
  }

  /** Two works for one job under two keys: the board creates two tasks for it, and one of them cannot be attached. */
  lemma DuplicateArises(cfg: Config, first: Envelope, i: nat, second: Envelope, j: nat)
    returns (s: Sys, a: string, b: string, stuck: Sys)
    requires Contest(cfg, first, i, second, j)
    requires var x, y := Contested(cfg, first, i), Contested(cfg, second, j);
      x.env.jobId == y.env.jobId && x.env.key != y.env.key && y.env.key !in KeysBefore(Program(first, cfg.stages), i)
    ensures Leads(cfg, INIT, s) && a in s.native && b in s.native && a != b &&
      s.native[a].body.jobId == s.native[b].body.jobId
    ensures Leads(cfg, INIT, stuck) && 1 in stuck.procs && !stuck.procs[1].Stopped() &&
      stuck.procs[1].pc == Attach(b) && !Blank(b)
    ensures AttachTask(stuck.db, stuck.procs[1].Current().env.jobId, b).outcome.Err?
  {
    var works, others := Program(first, cfg.stages), Program(second, cfg.stages);
    hide Program, LimitationsOk, Leads;
    var asking;
    asking, a := BothAsk(cfg, first, i, second, j);
    s, b := BoardAnswers(cfg, asking, 1, others, j);
    LeadsOn(cfg, INIT, asking, s);
    assert b !in asking.native;
    stuck := Attaches(cfg, s, 0, works, i, a);
    LeadsOn(cfg, INIT, s, stuck);
  }

  /** Two jobs under one key: the second one's row ends up with the task that was requested for the first. */
  lemma WrongTaskArises(cfg: Config, first: Envelope, i: nat, second: Envelope, j: nat) returns (s: Sys, id: Uuid)
    requires Contest(cfg, first, i, second, j)
    requires var x, y := Contested(cfg, first, i), Contested(cfg, second, j);
      x.env.jobId != y.env.jobId && x.env.key == y.env.key && y.env.jobId !in IdsBefore(Program(first, cfg.stages), i)
    ensures id == Contested(cfg, second, j).env.jobId
    ensures Leads(cfg, INIT, s) && id in s.db.jobs && s.db.jobs[id].task.Some?
    ensures var task := s.db.jobs[id].task.value; task in s.native && s.native[task].body.jobId != id
  {
    var others := Program(second, cfg.stages);
    hide Program, LimitationsOk, Leads;
    id := others[j].env.jobId;
    var asking, a := BothAsk(cfg, first, i, second, j);
    var holding, b := BoardAnswers(cfg, asking, 1, others, j);
    assert b == a;
    s := Attaches(cfg, holding, 1, others, j, b);
    LeadsOn(cfg, INIT, asking, holding);
    LeadsOn(cfg, INIT, holding, s);
  }
}
