/** When a board that honours keys keeps jobs and tasks together: exactly if the callers' keys and jobs correspond. */
module DispatchExact {
  import opened Contracts
  import opened LedgerModel
  import opened DispatchBoard
  import opened DispatchFamily
  import opened DispatchModel
  import opened DispatchRaces
  import opened DispatchSystem

  /** In no run two native tasks are for the same job. */
  ghost predicate OneTaskEach(cfg: Config) {
    forall steps, a, b :: NoDuplicate(RunSys(cfg, INIT, steps).native, a, b)
  }

  ghost predicate NoDuplicate(native: Board, a: string, b: string) {
    a in native && b in native && native[a].body.jobId == native[b].body.jobId ==> a == b
  }

  /** In no run a call fails to attach the task the board gave it. */
  ghost predicate AttachesSucceed(cfg: Config) {
    forall steps, p :: AttachSucceeds(RunSys(cfg, INIT, steps), p)
  }

  ghost predicate AttachSucceeds(s: Sys, p: nat) {
    p in s.procs && !s.procs[p].Stopped() && s.procs[p].pc.Attach? && !Blank(s.procs[p].pc.task) ==>
      AttachTask(s.db, s.procs[p].Current().env.jobId, s.procs[p].pc.task).outcome.Ok?
  }

  /** In every run the task a row names was requested for that job. */
  ghost predicate TasksAreTheJobs(cfg: Config) {
    forall steps, id :: TaskIsTheJobs(RunSys(cfg, INIT, steps), id)
  }

  ghost predicate TaskIsTheJobs(s: Sys, id: Uuid) {
    id in s.db.jobs && s.db.jobs[id].task.Some? ==>
      s.db.jobs[id].task.value in s.native && s.native[s.db.jobs[id].task.value].body.jobId == id
  }

  // ---- Where a work stands in the call that has it ----

  lemma {:induction false} FirstNamed(stages: seq<Stage>, i: nat) returns (k: nat)
    requires i < |stages|
    ensures k <= i && stages[k].name == stages[i].name
    ensures forall m :: 0 <= m < k ==> stages[m].name != stages[i].name
  {
    if m :| 0 <= m < i && stages[m].name == stages[i].name {
      k := FirstNamed(stages, m);
    } else {
      k := i;
    }
  }

  /** The children of a call all can be asked for if one of them can: they have the parameters of the call. */
  lemma ChildrenArePassable(env: Envelope, stages: seq<Stage>, at: nat)
    requires env.intent.DevelopmentCoordinate? && 0 < at <= |stages| && LimitationsOk(env)
    ensures |Program(env, stages)| == |stages| + 1 && Passable(Program(env, stages), at)
    ensures Program(env, stages)[at].duty.Delegate? && LimitationsOk(Program(env, stages)[at].env)
  {
    var here := ChildAt(env, stages, at);
    forall k | 0 <= k < at
      ensures var w := Program(env, stages)[k]; !w.duty.Refuse? && (w.duty.Delegate? ==> LimitationsOk(w.env))
    {
      if k > 0 {
        var child := ChildAt(env, stages, k);
      }
    }
  }

  /** A stage that differs in name from those before it has its job and its key to itself. */
  lemma NewNameContends(env: Envelope, stages: seq<Stage>, at: nat)
    requires env.intent.DevelopmentCoordinate? && 0 < at <= |stages| && LimitationsOk(env)
    requires forall m :: 0 <= m < at - 1 ==> stages[m].name != stages[at - 1].name
    ensures |Program(env, stages)| == |stages| + 1 && Contender(Program(env, stages), at)
  {
    var works := Program(env, stages);
    ChildrenArePassable(env, stages, at);
    var child := ChildAt(env, stages, at);
    hide Program, LimitationsOk;
    forall k | 0 <= k < at && works[k].duty.Delegate? ensures WorksDiffer(works[k], works[at]) {
      TwoChildrenDiffer(env, stages, k, at);
    }
  }

  lemma LocatedChild(env: Envelope, stages: seq<Stage>, i: nat) returns (at: nat)
    requires env.intent.DevelopmentCoordinate? && 0 < i <= |stages| && LimitationsOk(env)
    ensures 0 < at <= |stages| && |Program(env, stages)| == |stages| + 1 && Contender(Program(env, stages), at)
    ensures var works := Program(env, stages);
      works[at].env.jobId == works[i].env.jobId && works[at].env.key == works[i].env.key
    ensures forall m :: 0 <= m < at - 1 ==> stages[m].name != stages[at - 1].name
  {
    var child := ChildAt(env, stages, i);
    var k := FirstNamed(stages, i - 1);
    at := k + 1;
    var first := ChildAt(env, stages, at);
    hide Program, ChildWork, Contender, LimitationsOk;
    NewNameContends(env, stages, at);
  }

  /** The place of a work in its call: a child of a coordination, or the only work of a call. */
  lemma PlaceOf(env: Envelope, stages: seq<Stage>, work: Work) returns (i: nat)
    requires work in Program(env, stages) && work.duty.Delegate? && LimitationsOk(work.env)
    ensures i < |Program(env, stages)| && Program(env, stages)[i] == work && LimitationsOk(env)
    ensures if env.intent.DevelopmentCoordinate? then 0 < i <= |stages| else i == 0
  {
    var works := Program(env, stages);
    i :| 0 <= i < |works| && works[i] == work;
    if env.intent.DevelopmentCoordinate? && i > 0 {
      var child := ChildAt(env, stages, i);
    }
  }

  /** Whatever may be asked for is contended for by some call, at the first stage of its name. */
  lemma Located(cfg: Config, work: Work) returns (env: Envelope, at: nat)
    requires Asks(cfg, work)
    ensures MayCall(cfg, env) && Contender(Program(env, cfg.stages), at)
    ensures var w := Contested(cfg, env, at); w.env.jobId == work.env.jobId && w.env.key == work.env.key
    ensures env.intent.DevelopmentCoordinate? <==> at > 0
    ensures at > 0 ==>
      && at <= |cfg.stages| && LimitationsOk(env)
      && forall m :: 0 <= m < at - 1 ==> cfg.stages[m].name != cfg.stages[at - 1].name
  {
    hide Program, LimitationsOk;
    env :| MayCall(cfg, env) && work in Program(env, cfg.stages);
    var i := PlaceOf(env, cfg.stages, work);
    if env.intent.DevelopmentCoordinate? {
      hide Contender;
      at := LocatedChild(env, cfg.stages, i);
    } else {
      at := 0;
    }
  }

  /** Children with the same id are children of the same job, of the same stage. */
  lemma SameChildSameStage(a: Envelope, i: nat, b: Envelope, j: nat, stages: seq<Stage>)
    requires a.intent.DevelopmentCoordinate? && b.intent.DevelopmentCoordinate? && 0 < i <= |stages| &&
      0 < j <= |stages|
    requires Program(a, stages)[i].env.jobId == Program(b, stages)[j].env.jobId
    ensures a.jobId == b.jobId && stages[i - 1].name == stages[j - 1].name
  {
    var x := ChildAt(a, stages, i);
    var y := ChildAt(b, stages, j);
    hide Program, ChildWork;
    if stages[i - 1].name != stages[j - 1].name && a.jobId == b.jobId {
      DifferentStagesDifferentJobs(a, stages[i - 1].name, stages[j - 1].name);
    }
  }

  // ---- Duplicates ----

  lemma DuplicateShows(cfg: Config, first: Envelope, i: nat, second: Envelope, j: nat)
    requires Contest(cfg, first, i, second, j)
    requires var x, y := Contested(cfg, first, i), Contested(cfg, second, j);
      x.env.jobId == y.env.jobId && x.env.key != y.env.key && y.env.key !in KeysBefore(Program(first, cfg.stages), i)
    ensures !OneTaskEach(cfg) && !AttachesSucceed(cfg)
  {
    hide Contest;
    var s, a, b, stuck := DuplicateArises(cfg, first, i, second, j);
    var steps :| RunSys(cfg, INIT, steps) == s;
    assert !NoDuplicate(RunSys(cfg, INIT, steps).native, a, b);
    var more :| RunSys(cfg, INIT, more) == stuck;
    assert !AttachSucceeds(RunSys(cfg, INIT, more), 1);
  }

  /** Two coordinations of one job that disagree on the key of a stage: they race for the first such stage. */
  lemma {:induction false} CoordinationsRace(cfg: Config, a: Envelope, b: Envelope, at: nat)
    requires MayCall(cfg, a) && MayCall(cfg, b) && a.intent.DevelopmentCoordinate? && b.intent.DevelopmentCoordinate?
    requires a.jobId == b.jobId && LimitationsOk(a) && LimitationsOk(b) && 0 < at <= |cfg.stages|
    requires ChildKey(a, cfg.stages[at - 1].name) != ChildKey(b, cfg.stages[at - 1].name)
    ensures !OneTaskEach(cfg) && !AttachesSucceed(cfg)
    decreases at
  {
    if m :| 0 <= m < at - 1 && ChildKey(a, cfg.stages[m].name) != ChildKey(b, cfg.stages[m].name) {
      CoordinationsRace(cfg, a, b, m + 1);
    } else {
      NewNameContends(a, cfg.stages, at);
      NewNameContends(b, cfg.stages, at);
      var x := ChildAt(a, cfg.stages, at);
      var y := ChildAt(b, cfg.stages, at);
      SameKeysBefore(a, b, cfg.stages, at);
      hide Program, Contender, OneTaskEach, AttachesSucceed, ChildKey;
      DuplicateShows(cfg, a, at, b, at);
    }
  }

  lemma SameKeysBefore(a: Envelope, b: Envelope, stages: seq<Stage>, at: nat)
    requires a.intent.DevelopmentCoordinate? && b.intent.DevelopmentCoordinate? && 0 < at <= |stages|
    requires forall m :: 0 <= m < at - 1 ==> ChildKey(a, stages[m].name) == ChildKey(b, stages[m].name)
    requires Contender(Program(b, stages), at)
    ensures |Program(a, stages)| == |stages| + 1
    ensures Contested(Config(stages, true, iset{}), b, at).env.key !in KeysBefore(Program(a, stages), at)
  {
    var here := ChildAt(a, stages, at);
    var there := ChildAt(b, stages, at);
    var works, others := Program(a, stages), Program(b, stages);
    assert works[0] == Work(a, EnsureOnly);
    hide Program, ChildKey;
    forall k | 0 <= k < at && works[k].duty.Delegate? ensures works[k].env.key != others[at].env.key {
      var x := ChildAt(a, stages, k);
      var y := ChildAt(b, stages, k);
      assert others[k].env.key in KeysBefore(others, at);
    }
  }

  lemma DisagreementShows(cfg: Config, a: Work, b: Work)
    requires Asks(cfg, a) && Asks(cfg, b) && a.env.jobId == b.env.jobId && a.env.key != b.env.key
    ensures !OneTaskEach(cfg) && !AttachesSucceed(cfg)
  {
    hide OneTaskEach, AttachesSucceed, Asks, Program, Contender, LimitationsOk;
    var first, i := Located(cfg, a);
    var second, j := Located(cfg, b);
    if i == 0 {
      DuplicateShows(cfg, first, i, second, j);
    } else if j == 0 {
      DuplicateShows(cfg, second, j, first, i);
    } else {
      SameChildSameStage(first, i, second, j, cfg.stages);
      assert i == j;
      var x := ChildAt(first, cfg.stages, i);
      var y := ChildAt(second, cfg.stages, i);
      CoordinationsRace(cfg, first, second, i);
    }
  }

  // ---- Wrong tasks ----

  lemma WrongTaskShows(cfg: Config, first: Envelope, i: nat, second: Envelope, j: nat)
    requires Contest(cfg, first, i, second, j)
    requires var x, y := Contested(cfg, first, i), Contested(cfg, second, j);
      x.env.jobId != y.env.jobId && x.env.key == y.env.key && y.env.jobId !in IdsBefore(Program(first, cfg.stages), i)
    ensures !TasksAreTheJobs(cfg)
  {
    hide Contest;
    var s, id := WrongTaskArises(cfg, first, i, second, j);
    var steps :| RunSys(cfg, INIT, steps) == s;
    assert !TaskIsTheJobs(RunSys(cfg, INIT, steps), id);
  }

  /** A child that another coordination passes on its way stands there at an earlier stage. */
  lemma PassedMeansEarlier(cfg: Config, first: Envelope, i: nat, second: Envelope, j: nat)
    requires first.intent.DevelopmentCoordinate? && second.intent.DevelopmentCoordinate?
    requires 0 < i <= |cfg.stages| && 0 < j <= |cfg.stages| && i < |Program(first, cfg.stages)| &&
      j < |Program(second, cfg.stages)|
    requires forall m :: 0 <= m < j - 1 ==> cfg.stages[m].name != cfg.stages[j - 1].name
    requires Contested(cfg, second, j).env.jobId in IdsBefore(Program(first, cfg.stages), i)
    ensures j < i
  {
    var works := Program(first, cfg.stages);
    var x := ChildAt(first, cfg.stages, i);
    var k :| 0 <= k < i && works[k].duty.Delegate? && works[k].env.jobId == Contested(cfg, second, j).env.jobId;
    SameChildSameStage(first, k, second, j, cfg.stages);
  }

  lemma SharedKeyShows(cfg: Config, a: Work, b: Work)
    requires Asks(cfg, a) && Asks(cfg, b) && a.env.jobId != b.env.jobId && a.env.key == b.env.key
    ensures !TasksAreTheJobs(cfg)
  {
    hide TasksAreTheJobs, Asks, Program, Contender, LimitationsOk;
    var first, i := Located(cfg, a);
    var second, j := Located(cfg, b);
    ContenderInRange(Program(first, cfg.stages), i);
    ContenderInRange(Program(second, cfg.stages), j);
    if Contested(cfg, second, j).env.jobId !in IdsBefore(Program(first, cfg.stages), i) {
      WrongTaskShows(cfg, first, i, second, j);
    } else {
      if j > 0 && Contested(cfg, first, i).env.jobId in IdsBefore(Program(second, cfg.stages), j) {
        PassedMeansEarlier(cfg, first, i, second, j);
        PassedMeansEarlier(cfg, second, j, first, i);
        assert false;
      }
      WrongTaskShows(cfg, second, j, first, i);
    }
  }

  lemma ContenderInRange(works: seq<Work>, at: nat)
    requires Contender(works, at)
    ensures at < |works|
  {
  }

  // ---- Theorems ----

  /**
   On a board that honours keys, under any interleaving, crash and retry: no job gets two native tasks if and
   only if the calls that callers may make never disagree on the key of a job they delegate.
   */
  lemma OneTaskEachExactly(cfg: Config)
    requires cfg.honours
    ensures OneTaskEach(cfg) <==> KeysAgree(cfg)
  {
    if KeysAgree(cfg) {
      forall steps, a, b ensures NoDuplicate(RunSys(cfg, INIT, steps).native, a, b) {
        var native := RunSys(cfg, INIT, steps).native;
        if a in native && b in native && native[a].body.jobId == native[b].body.jobId {
          OneNativeTaskPerJob(cfg, steps, a, b);
        }
      }
    } else {
      var a, b :| Asks(cfg, a) && Asks(cfg, b) && a.env.jobId == b.env.jobId && a.env.key != b.env.key;
      DisagreementShows(cfg, a, b);
    }
  }

  /** The same condition decides whether a call can always attach the task that the board gave it. */
  lemma AttachesSucceedExactly(cfg: Config)
    requires cfg.honours
    ensures AttachesSucceed(cfg) <==> KeysAgree(cfg)
  {
    if KeysAgree(cfg) {
      forall steps, p ensures AttachSucceeds(RunSys(cfg, INIT, steps), p) {
        var s := RunSys(cfg, INIT, steps);
        if p in s.procs && !s.procs[p].Stopped() && s.procs[p].pc.Attach? && !Blank(s.procs[p].pc.task) {
          AttachNeverConflicts(cfg, steps, p);
        }
      }
    } else {
      var a, b :| Asks(cfg, a) && Asks(cfg, b) && a.env.jobId == b.env.jobId && a.env.key != b.env.key;
      DisagreementShows(cfg, a, b);
    }
  }

  /** The task a row names was requested for that very job, in every run, if and only if no two jobs share a key. */
  lemma TasksAreTheJobsExactly(cfg: Config)
    requires cfg.honours
    ensures TasksAreTheJobs(cfg) <==> KeysApart(cfg)
  {
    if KeysApart(cfg) {
      forall steps, id ensures TaskIsTheJobs(RunSys(cfg, INIT, steps), id) {
        var db := RunSys(cfg, INIT, steps).db;
        if id in db.jobs && db.jobs[id].task.Some? {
          AttachedTaskIsTheJobsTask(cfg, steps, id);
        }
      }
    } else {
      var a, b :| Asks(cfg, a) && Asks(cfg, b) && a.env.key == b.env.key && a.env.jobId != b.env.jobId;
      SharedKeyShows(cfg, a, b);
    }
  }
}
