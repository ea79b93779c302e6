/** Whole plans and runs of plans: what is admitted, rejected, paused and resumed. */
module SchedulerPlans {
  import opened Common
  import opened SchedulerModel

  datatype Decision = Decision(
    admitted: seq<JobSpec>, paused: seq<string>, resumed: seq<string>, rejected: map<string, Reason>)

  function AtLeastZero(n: int): nat {
    if n < 0 then 0 else n
  }

  function RoomOf(cfg: Config, s: Snapshot): Room {
    var known := if s.activeCapacity.Some? then s.activeCapacity.value else s.active;
    var activeCapacity := if s.browserActive && s.activeCapacity.None? then known + 3 else known;
    var activeJobs := s.active + if s.browserActive then 1 else 0;
    Room(AtLeastZero(cfg.maxJobs - activeJobs),
         AtLeastZero(cfg.capacityUnits - cfg.reserveUnits - activeCapacity),
         s.browserActive)
  }

  predicate Pressure(cfg: Config, s: Snapshot) {
    s.MemoryRatio() >= cfg.pauseMemoryRatio || s.loadOne > cfg.pauseLoad
  }

  predicate CanResume(cfg: Config, s: Snapshot) {
    s.MemoryRatio() <= cfg.resumeMemoryRatio && s.loadOne <= cfg.resumeLoad
  }

  function Ids(jobs: seq<JobSpec>): (r: seq<string>)
    ensures |r| == |jobs| && forall i :: 0 <= i < |r| ==> r[i] == jobs[i].jobId
  {
    seq(|jobs|, i requires 0 <= i < |jobs| => jobs[i].jobId)
  }

  /** The paused dictionary, in insertion order, after pausing what is not critical and not paused yet. */
  function PauseAll(paused: seq<JobSpec>, taken: seq<JobSpec>): (r: seq<JobSpec>)
    ensures paused <= r
  {
    if taken == [] then paused
    else
      var before := PauseAll(paused, taken[..|taken| - 1]);
      var job := taken[|taken| - 1];
      if !job.critical && job.jobId !in Ids(before) then before + [job] else before
  }

  function Criticals(jobs: seq<JobSpec>): seq<JobSpec> {
    Collect(jobs, (job: JobSpec) => if job.critical then Some(job) else None)
  }

  datatype Planned = Planned(decision: Decision, paused: seq<JobSpec>)

  function PlanOf(cfg: Config, paused: seq<JobSpec>, jobs: seq<JobSpec>, s: Snapshot): Planned {
    var ordered := SortJobs(jobs);
    var room := RoomOf(cfg, s);
    var taken := Taken(room, ordered);
    var held := if Pressure(cfg, s) then PauseAll(paused, taken) else paused;
    Planned(
      Decision(
        if Pressure(cfg, s) then Criticals(taken) else taken,
        Ids(held),
        if CanResume(cfg, s) then Ids(held) else [],
        Rejections(room, ordered)),
      if CanResume(cfg, s) then [] else held)
  }

  // ---- One plan ----

  lemma {:induction false} RejectedAreListed(room: Room, jobs: seq<JobSpec>, id: string)
    requires id in Rejections(room, jobs)
    ensures exists k :: 0 <= k < |jobs| && jobs[k].jobId == id
  {
    var n := |jobs| - 1;
    if id in Rejections(room, jobs[..n]) {
      RejectedAreListed(room, jobs[..n], id);
      var k :| 0 <= k < n && jobs[..n][k].jobId == id;
      assert jobs[k].jobId == id;
    } else {
      assert jobs[n].jobId == id;
    }
  }

  lemma LastIsNew(room: Room, jobs: seq<JobSpec>)
    requires DistinctJobs(jobs) && jobs != []
    ensures DistinctJobs(jobs[..|jobs| - 1])
    ensures jobs[|jobs| - 1].jobId !in Rejections(room, jobs[..|jobs| - 1])
  {
    var n := |jobs| - 1;
    if jobs[n].jobId in Rejections(room, jobs[..n]) {
      RejectedAreListed(room, jobs[..n], jobs[n].jobId);
      assert false;
    }
  }

  /** A job is rejected exactly if it is not taken, and for the limit it violates next to the jobs taken before it. */
  lemma {:induction false} RejectionsAreJustified(room: Room, jobs: seq<JobSpec>, k: nat)
    requires DistinctJobs(jobs) && k < |jobs|
    ensures jobs[k].jobId in Rejections(room, jobs) <==> !Greedy(room, jobs)[k]
    ensures !Greedy(room, jobs)[k] ==>
      Verdict(room, Taken(room, jobs[..k]), jobs[k]) == Some(Rejections(room, jobs)[jobs[k].jobId])
    decreases |jobs|
  {
    var n := |jobs| - 1;
    LastIsNew(room, jobs);
    if k < n {
      assert jobs[k].jobId != jobs[n].jobId;
      assert jobs[..n][..k] == jobs[..k];
      RejectionsAreJustified(room, jobs[..n], k);
    }
  }

  /** Nothing is lost: every job is taken or rejected. */
  lemma {:induction false} TakenAndRejectedAddUp(room: Room, jobs: seq<JobSpec>)
    requires DistinctJobs(jobs)
    ensures |Taken(room, jobs)| + |Rejections(room, jobs)| == |jobs|
  {
    if jobs != [] {
      var n := |jobs| - 1;
      LastIsNew(room, jobs);
      TakenAndRejectedAddUp(room, jobs[..n]);
      assert Greedy(room, jobs)[..n] == Greedy(room, jobs[..n]);
    }
  }

  // ---- The order of the input does not matter ----

  lemma TwiceIsCounted<T>(s: seq<T>, i: nat, j: nat)
    requires i < j < |s| && s[i] == s[j]
    ensures multiset(s)[s[i]] >= 2
  {
    assert s == s[..j] + ([s[j]] + s[j + 1..]);
    assert s[..j][i] == s[j];
    assert s[j] in multiset(s[..j]);
  }

  lemma CountedIsTwice<T>(s: seq<T>, x: T) returns (i: nat, j: nat)
    requires multiset(s)[x] >= 2
    ensures i < j < |s| && s[i] == s[j] == x
  {
    assert x in multiset(s);
    var k :| 0 <= k < |s| && s[k] == x;
    assert s == s[..k] + ([s[k]] + s[k + 1..]);
    assert x in multiset(s[..k]) || x in multiset(s[k + 1..]);
    if x in s[..k] {
      i :| 0 <= i < k && s[..k][i] == x;
      j := k;
    } else {
      var m :| 0 <= m < |s| - k - 1 && s[k + 1..][m] == x;
      i, j := k, k + 1 + m;
    }
  }

  lemma DistinctWhenPermuted(a: seq<JobSpec>, b: seq<JobSpec>)
    requires DistinctJobs(a) && multiset(a) == multiset(b)
    ensures DistinctJobs(b)
  {
    forall i, j | 0 <= i < j < |b| ensures b[i].jobId != b[j].jobId {
      if b[i] == b[j] {
        TwiceIsCounted(b, i, j);
        var p, q := CountedIsTwice(a, b[i]);
        assert false;
      } else {
        assert b[i] in multiset(a) && b[j] in multiset(a);
        var p :| 0 <= p < |a| && a[p] == b[i];
        var q :| 0 <= q < |a| && a[q] == b[j];
        assert p < q ==> a[p].jobId != a[q].jobId;
        assert q < p ==> a[q].jobId != a[p].jobId;
      }
    }
  }

  ghost predicate StrictlyInOrder(jobs: seq<JobSpec>) {
    forall i, j :: 0 <= i < j < |jobs| ==> Before(jobs[i], jobs[j])
  }

  lemma DistinctSortsStrictly(jobs: seq<JobSpec>)
    requires DistinctJobs(jobs)
    ensures StrictlyInOrder(SortJobs(jobs))
  {
    SortIsInOrder(jobs);
    var sorted := SortJobs(jobs);
    DistinctWhenPermuted(jobs, sorted);
    forall i, j | 0 <= i < j < |sorted| ensures Before(sorted[i], sorted[j]) {
      BeforeIsAnOrder(sorted[i], sorted[j], sorted[i]);
    }
  }

  lemma FirstsAgree(a: seq<JobSpec>, b: seq<JobSpec>)
    requires StrictlyInOrder(a) && StrictlyInOrder(b) && multiset(a) == multiset(b) && a != []
    ensures b != [] && a[0] == b[0]
  {
    assert a[0] in multiset(b);
    var j :| 0 <= j < |b| && b[j] == a[0];
    assert b[0] in multiset(a);
    var i :| 0 <= i < |a| && a[i] == b[0];
    BeforeIsAnOrder(a[0], b[0], a[0]);
  }

  lemma {:induction false} OrderedListsAgree(a: seq<JobSpec>, b: seq<JobSpec>)
    requires StrictlyInOrder(a) && StrictlyInOrder(b) && multiset(a) == multiset(b)
    ensures a == b
  {
    if a == [] {
      assert |multiset(b)| == |b|;
    } else {
      FirstsAgree(a, b);
      assert a == [a[0]] + a[1..] && b == [b[0]] + b[1..];
      assert multiset(a[1..]) == multiset(a) - multiset{a[0]};
      assert multiset(b[1..]) == multiset(b) - multiset{b[0]};
      assert StrictlyInOrder(a[1..]) && StrictlyInOrder(b[1..]);
      OrderedListsAgree(a[1..], b[1..]);
    }
  }

  /** Plans for the same distinct jobs, listed in any order, are equal. */
  lemma {:induction false} InputOrderIsIrrelevant(cfg: Config, paused: seq<JobSpec>, a: seq<JobSpec>, b: seq<JobSpec>,
                                                  s: Snapshot)
    requires DistinctJobs(a) && multiset(a) == multiset(b)
    ensures PlanOf(cfg, paused, a, s) == PlanOf(cfg, paused, b, s)
  {
    DistinctWhenPermuted(a, b);
    DistinctSortsStrictly(a);
    DistinctSortsStrictly(b);
    OrderedListsAgree(SortJobs(a), SortJobs(b));
  }

  /** The jobs the loop takes are the lexicographically greatest feasible selection of the sorted input. */
  lemma {:induction false} PlanTakesTheGreatest(cfg: Config, jobs: seq<JobSpec>, s: Snapshot, other: seq<bool>)
    requires NoNegativeUnits(jobs)
    ensures var room, ordered := RoomOf(cfg, s), SortJobs(jobs);
      && InOrder(ordered) && multiset(ordered) == multiset(jobs)
      && Feasible(room, ordered, Greedy(room, ordered))
      && (Feasible(room, ordered, other) ==> LexAtLeast(Greedy(room, ordered), other))
  {
    var ordered := SortJobs(jobs);
    SortIsInOrder(jobs);
    forall i | 0 <= i < |ordered| ensures ordered[i].Capacity() >= 0 {
      assert ordered[i] in multiset(jobs);
    }
    GreedyIsLexGreatest(RoomOf(cfg, s), ordered, other);
  }

  // ---- Pausing and resuming ----

  ghost predicate ThresholdsApart(cfg: Config) {
    cfg.resumeMemoryRatio < cfg.pauseMemoryRatio && cfg.resumeLoad <= cfg.pauseLoad
  }

  /** The ids a plan pauses in addition to those already paused. */
  function NewlyPaused(paused: seq<JobSpec>, d: Decision): seq<string> {
    if |paused| <= |d.paused| then d.paused[|paused|..] else []
  }

  /** No plan both pauses and resumes, and between the thresholds the paused jobs stay as they are. */
  lemma {:induction false} PauseAndResumeExclude(cfg: Config, paused: seq<JobSpec>, jobs: seq<JobSpec>, s: Snapshot)
    requires ThresholdsApart(cfg)
    ensures var plan := PlanOf(cfg, paused, jobs, s);
      && (NewlyPaused(paused, plan.decision) != [] ==> plan.decision.resumed == [])
      && (!Pressure(cfg, s) && !CanResume(cfg, s) ==>
            plan.paused == paused && plan.decision.resumed == [] && NewlyPaused(paused, plan.decision) == [])
      && !(Pressure(cfg, s) && CanResume(cfg, s))
  {
  }

  lemma {:induction false} PauseAllHolds(paused: seq<JobSpec>, taken: seq<JobSpec>, job: JobSpec)
    requires job in taken && !job.critical
    ensures job.jobId in Ids(PauseAll(paused, taken))
  {
    var n := |taken| - 1;
    var before := PauseAll(paused, taken[..n]);
    if job in taken[..n] {
      PauseAllHolds(paused, taken[..n], job);
      var k :| 0 <= k < |before| && Ids(before)[k] == job.jobId;
      assert Ids(PauseAll(paused, taken))[k] == job.jobId;
    } else {
      assert job == taken[n];
      var after := PauseAll(paused, taken);
      if job.jobId in Ids(before) {
        assert after == before;
      } else {
        assert Ids(after)[|before|] == job.jobId;
      }
    }
  }

  lemma {:induction false} CriticalsKeep(jobs: seq<JobSpec>, job: JobSpec)
    ensures job in Criticals(jobs) <==> job in jobs && job.critical
  {
    if jobs != [] {
      CriticalsKeep(jobs[..|jobs| - 1], job);
      assert jobs == jobs[..|jobs| - 1] + [jobs[|jobs| - 1]];
    }
  }

  /** Under pressure every job the loop took is either admitted, being critical, or paused from then on. */
  lemma {:induction false} PressureKeepsTrack(cfg: Config, paused: seq<JobSpec>, jobs: seq<JobSpec>, s: Snapshot,
                                              job: JobSpec)
    requires ThresholdsApart(cfg) && Pressure(cfg, s)
    requires job in Taken(RoomOf(cfg, s), SortJobs(jobs))
    ensures var plan := PlanOf(cfg, paused, jobs, s);
      && (job.critical <==> job in plan.decision.admitted)
      && (!job.critical ==> job.jobId in plan.decision.paused && job.jobId in Ids(plan.paused))
  {
    var taken := Taken(RoomOf(cfg, s), SortJobs(jobs));
    CriticalsKeep(taken, job);
    if !job.critical {
      PauseAllHolds(paused, taken, job);
    }
  }

  // ---- Runs of plans ----

  datatype Call = Call(jobs: seq<JobSpec>, snapshot: Snapshot)

  /** The paused jobs after a run, and everything the run paused and resumed, in order. */
  datatype History = History(paused: seq<JobSpec>, pauses: seq<string>, resumes: seq<string>)

  function RunPlans(cfg: Config, calls: seq<Call>): History {
    if calls == [] then History([], [], [])
    else
      var before := RunPlans(cfg, calls[..|calls| - 1]);
      var last := calls[|calls| - 1];
      var plan := PlanOf(cfg, before.paused, last.jobs, last.snapshot);
      History(plan.paused, before.pauses + NewlyPaused(before.paused, plan.decision),
              before.resumes + plan.decision.resumed)
  }

  /** The jobs that are paused within a plan, before any is resumed. */
  lemma HeldJobs(cfg: Config, paused: seq<JobSpec>, jobs: seq<JobSpec>, s: Snapshot) returns (held: seq<JobSpec>)
    ensures var plan := PlanOf(cfg, paused, jobs, s);
      && paused <= held && plan.decision.paused == Ids(held)
      && ((plan.decision.resumed == [] && plan.paused == held) ||
        (plan.decision.resumed == Ids(held) && plan.paused == []))
  {
    held := if Pressure(cfg, s) then PauseAll(paused, Taken(RoomOf(cfg, s), SortJobs(jobs))) else paused;
  }

  lemma IdsOfPrefix(a: seq<JobSpec>, b: seq<JobSpec>)
    requires a <= b
    ensures Ids(a) + Ids(b)[|a|..] == Ids(b)
  {
  }

  lemma PlanConserves(paused: seq<JobSpec>, d: Decision, held: seq<JobSpec>, after: seq<JobSpec>)
    requires paused <= held && d.paused == Ids(held)
    requires (d.resumed == [] && after == held) || (d.resumed == Ids(held) && after == [])
    ensures Ids(paused) + NewlyPaused(paused, d) == d.resumed + Ids(after)
  {
    IdsOfPrefix(paused, held);
  }

  lemma QueueMovesOn(resumes: seq<string>, paused: seq<string>, added: seq<string>, resumed: seq<string>,
                     after: seq<string>)
    requires paused + added == resumed + after
    ensures resumes + paused + added == resumes + resumed + after
  {
    assert resumes + paused + added == resumes + (paused + added);
    assert resumes + resumed + after == resumes + (resumed + after);
  }

  /**
   First in, first out: what a run has paused, in order, is what it has resumed, in order, followed by
   what is paused still.
   */
  lemma {:induction false} PausesAreResumedInOrder(cfg: Config, calls: seq<Call>)
    ensures var h := RunPlans(cfg, calls); h.pauses == h.resumes + Ids(h.paused)
  {
    if calls != [] {
      var before := RunPlans(cfg, calls[..|calls| - 1]);
      var last := calls[|calls| - 1];
      PausesAreResumedInOrder(cfg, calls[..|calls| - 1]);
      PlanKeepsOrder(cfg, before, last);
    }
  }

  lemma {:induction false} PlanKeepsOrder(cfg: Config, before: History, last: Call)
    requires before.pauses == before.resumes + Ids(before.paused)
    ensures var plan := PlanOf(cfg, before.paused, last.jobs, last.snapshot);
      before.pauses + NewlyPaused(before.paused, plan.decision)
        == before.resumes + plan.decision.resumed + Ids(plan.paused)
  {
    var plan := PlanOf(cfg, before.paused, last.jobs, last.snapshot);
    var held := HeldJobs(cfg, before.paused, last.jobs, last.snapshot);
    PlanConserves(before.paused, plan.decision, held, plan.paused);
    QueueMovesOn(before.resumes, Ids(before.paused), NewlyPaused(before.paused, plan.decision), plan.decision.resumed,
      Ids(plan.paused));
  }

  lemma {:induction false} PauseAllKeepsDistinct(paused: seq<JobSpec>, taken: seq<JobSpec>)
    requires DistinctJobs(paused)
    ensures DistinctJobs(PauseAll(paused, taken))
  {
    if taken != [] {
      var before := PauseAll(paused, taken[..|taken| - 1]);
      PauseAllKeepsDistinct(paused, taken[..|taken| - 1]);
      forall i | 0 <= i < |before| ensures before[i].jobId == Ids(before)[i] {
      }
    }
  }

  lemma {:induction false} PausedStayDistinct(cfg: Config, calls: seq<Call>)
    ensures DistinctJobs(RunPlans(cfg, calls).paused)
  {
    if calls != [] {
      var before := RunPlans(cfg, calls[..|calls| - 1]);
      var last := calls[|calls| - 1];
      PausedStayDistinct(cfg, calls[..|calls| - 1]);
      PauseAllKeepsDistinct(before.paused, Taken(RoomOf(cfg, last.snapshot), SortJobs(last.jobs)));
    }
  }

  /** For every job id: it was newly paused as often as it was resumed, plus once if it is paused still. */
  lemma {:induction false} PausesBalance(cfg: Config, calls: seq<Call>, id: string)
    ensures var h := RunPlans(cfg, calls);
      multiset(h.pauses)[id] == multiset(h.resumes)[id] + (if id in Ids(h.paused) then 1 else 0)
  {
    var h := RunPlans(cfg, calls);
    PausesAreResumedInOrder(cfg, calls);
    PausedStayDistinct(cfg, calls);
    if multiset(Ids(h.paused))[id] >= 2 {
      var i, j := CountedIsTwice(Ids(h.paused), id);
      assert false;
    }
    assert id in Ids(h.paused) <==> id in multiset(Ids(h.paused));
  }
}
