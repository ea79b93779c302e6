/** What a plan does, in terms of the configuration, the snapshot and the jobs alone. */
module SchedulerLimits {
  import opened Common
  import opened SchedulerExact
  import opened SchedulerModel
  import opened SchedulerPlans

  // ---- The order ----

  /** `a` ends first, as a first part of `b`, or has the smaller character where they differ first. */
  ghost predicate DiffersAt(a: string, b: string, k: nat) {
    && k <= |a| && k < |b| && a[..k] == b[..k]
    && (k == |a| || a[k] < b[k])
  }

  lemma {:induction false} TextLessIsMeant(a: string, b: string)
    ensures TextLess(a, b) <==> exists k: nat :: DiffersAt(a, b, k)
  {
    if a == "" || b == "" || a[0] != b[0] {
      if b != "" {
        assert DiffersAt(a, b, 0) <==> a == "" || a[0] < b[0];
      }
      assert forall k: nat :: DiffersAt(a, b, k) && k > 0 ==> a[..k][0] == b[..k][0];
    } else {
      TextLessIsMeant(a[1..], b[1..]);
      if k: nat :| DiffersAt(a[1..], b[1..], k) {
        assert a[..k + 1] == [a[0]] + a[1..][..k] && b[..k + 1] == [b[0]] + b[1..][..k];
        assert DiffersAt(a, b, k + 1);
      }
      if k: nat :| DiffersAt(a, b, k) {
        assert k > 0;
        assert a[1..][..k - 1] == a[..k][1..] && b[1..][..k - 1] == b[..k][1..];
        assert DiffersAt(a[1..], b[1..], k - 1);
      }
    }
  }

  /** Higher priorities come first, and within one priority smaller ids. */
  ghost predicate ByPriority(jobs: seq<JobSpec>) {
    forall i, j :: 0 <= i < j < |jobs| ==>
      && jobs[i].priority >= jobs[j].priority
      && (jobs[i].priority == jobs[j].priority ==> !TextLess(jobs[j].jobId, jobs[i].jobId))
  }

  lemma OrderIsMeant(jobs: seq<JobSpec>)
    ensures InOrder(jobs) <==> ByPriority(jobs)
  {
  }

  // ---- The limits ----

  /** The units in use: as reported, or else one for each worker and three for an active browser. */
  function ActiveUnits(s: Snapshot): int {
    match s.activeCapacity
    case Some(units) => units
    case None => if s.browserActive then s.active + 3 else s.active
  }

  function ActiveJobs(s: Snapshot): int {
    if s.browserActive then s.active + 1 else s.active
  }

  ghost predicate HasBrowser(jobs: seq<JobSpec>) {
    exists i :: 0 <= i < |jobs| && jobs[i].kind == "browser"
  }

  /** What was taken fits beside what is active: within the units less the reserve, the jobs, and one browser. */
  ghost predicate WithinLimits(cfg: Config, s: Snapshot, taken: seq<JobSpec>) {
    && (UnitsOf(taken) > 0 ==> UnitsOf(taken) + ActiveUnits(s) + cfg.reserveUnits <= cfg.capacityUnits)
    && (taken != [] ==> |taken| + ActiveJobs(s) <= cfg.maxJobs)
    && (s.browserActive ==> !HasBrowser(taken))
    && forall i, j :: 0 <= i < j < |taken| ==> !(taken[i].kind == "browser" && taken[j].kind == "browser")
  }

  /** The job together with those before it would break exactly this limit first. */
  ghost predicate Breaks(cfg: Config, s: Snapshot, before: seq<JobSpec>, job: JobSpec, reason: Reason) {
    var crowded := |before| + 1 + ActiveJobs(s) > cfg.maxJobs;
    var second := job.kind == "browser" && (s.browserActive || HasBrowser(before));
    var units := UnitsOf(before) + job.Capacity();
    match reason
    case MaxJobs => crowded
    case BrowserSingleton => !crowded && second
    case CapacityExceeded =>
      !crowded && !second && units > 0 && units + ActiveUnits(s) + cfg.reserveUnits > cfg.capacityUnits
  }

  /** `before` is the part of the taken jobs that was considered before `job`. */
  ghost predicate ConsideredBefore(taken: seq<JobSpec>, before: seq<JobSpec>, job: JobSpec) {
    && before <= taken
    && (forall i :: 0 <= i < |before| ==> ByPriority([taken[i], job]))
    && (forall i :: |before| <= i < |taken| ==> ByPriority([job, taken[i]]))
  }

  ghost predicate Refused(cfg: Config, s: Snapshot, taken: seq<JobSpec>, job: JobSpec, reason: Reason) {
    exists before :: ConsideredBefore(taken, before, job) && Breaks(cfg, s, before, job, reason)
  }

  /** A job is taken, or refused for the limit it would break. */
  ghost predicate Sorted(cfg: Config, s: Snapshot, jobs: seq<JobSpec>, taken: seq<JobSpec>,
                         rejected: map<string, Reason>)
  {
    && (forall job :: job in jobs ==> (job in taken <==> job.jobId !in rejected))
    && (forall job :: job in jobs && job.jobId in rejected ==> Refused(cfg, s, taken, job, rejected[job.jobId]))
    && (forall id :: id in rejected ==> exists k :: 0 <= k < |jobs| && jobs[k].jobId == id)
  }

  /** What a job takes that names no units: a browser as much as an active one counts. */
  lemma DefaultUnits(job: JobSpec, s: Snapshot)
    ensures job.units.Some? ==> job.Capacity() == job.units.value
    ensures job.units.None? ==> job.Capacity() in {1, 2, 3}
    ensures job.units.None? ==> (job.Capacity() == 3 <==> job.kind == "browser")
    ensures job.units.None? ==> (job.Capacity() == 2 <==> job.kind == "engineer")
    ensures job.units.None? && job.kind == "browser" && s.activeCapacity.None? && !s.browserActive ==>
      ActiveUnits(s.(browserActive := true)) == ActiveUnits(s) + job.Capacity()
  {
  }

  lemma {:induction false} BrowsersCount(jobs: seq<JobSpec>)
    ensures Browsers(jobs) > 0 <==> HasBrowser(jobs)
    ensures Browsers(jobs) <= 1 ==>
      forall i, j :: 0 <= i < j < |jobs| ==> !(jobs[i].kind == "browser" && jobs[j].kind == "browser")
  {
    if jobs != [] {
      var front := jobs[..|jobs| - 1];
      BrowsersCount(front);
      assert forall i :: 0 <= i < |front| ==> front[i] == jobs[i];
      assert HasBrowser(front) ==> HasBrowser(jobs);
      if Browsers(jobs) <= 1 && jobs[|jobs| - 1].kind == "browser" {
        assert !HasBrowser(front);
      }
    }
  }

  lemma TakenIsWithinLimits(cfg: Config, s: Snapshot, ordered: seq<JobSpec>)
    ensures WithinLimits(cfg, s, Taken(RoomOf(cfg, s), ordered))
  {
    var taken := Taken(RoomOf(cfg, s), ordered);
    GreedyIsFeasible(RoomOf(cfg, s), ordered);
    BrowsersCount(taken);
  }

  lemma VerdictBreaks(cfg: Config, s: Snapshot, before: seq<JobSpec>, job: JobSpec, reason: Reason)
    requires Verdict(RoomOf(cfg, s), before, job) == Some(reason)
    ensures Breaks(cfg, s, before, job, reason)
  {
    BrowsersCount(before);
  }

  lemma {:induction false} ChosenFrom(jobs: seq<JobSpec>, mask: seq<bool>, job: JobSpec) returns (i: nat)
    requires |jobs| == |mask| && job in Chosen(jobs, mask)
    ensures i < |jobs| && mask[i] && jobs[i] == job
  {
    var n := |jobs| - 1;
    if mask[n] && jobs[n] == job {
      i := n;
    } else {
      i := ChosenFrom(jobs[..n], mask[..n], job);
    }
  }

  lemma {:induction false} ChosenHas(jobs: seq<JobSpec>, mask: seq<bool>, i: nat)
    requires |jobs| == |mask| && i < |jobs| && mask[i]
    ensures jobs[i] in Chosen(jobs, mask)
    decreases |jobs|
  {
    var n := |jobs| - 1;
    if i < n {
      ChosenHas(jobs[..n], mask[..n], i);
    }
  }

  lemma {:induction false} ChosenAreCounted(jobs: seq<JobSpec>, mask: seq<bool>)
    requires |jobs| == |mask|
    ensures multiset(Chosen(jobs, mask)) <= multiset(jobs)
  {
    if jobs != [] {
      var n := |jobs| - 1;
      ChosenAreCounted(jobs[..n], mask[..n]);
      assert jobs == jobs[..n] + [jobs[n]];
    }
  }

  lemma {:induction false} ChosenInOrder(jobs: seq<JobSpec>, mask: seq<bool>)
    requires |jobs| == |mask| && InOrder(jobs)
    ensures InOrder(Chosen(jobs, mask))
  {
    if jobs != [] {
      var n := |jobs| - 1;
      ChosenInOrder(jobs[..n], mask[..n]);
      var front := Chosen(jobs[..n], mask[..n]);
      forall c | c in front ensures !Before(jobs[n], c) {
        var i := ChosenFrom(jobs[..n], mask[..n], c);
      }
    }
  }

  /** The jobs taken before the k-th one are a first part of all that are taken. */
  lemma TakenBefore(room: Room, jobs: seq<JobSpec>, k: nat)
    requires InOrder(jobs) && k < |jobs|
    ensures ConsideredBefore(Taken(room, jobs), Taken(room, jobs[..k]), jobs[k])
  {
    var mask := Greedy(room, jobs);
    GreedyPrefix(room, jobs, k);
    ChosenInParts(jobs, mask, k);
    var before, after := Chosen(jobs[..k], mask[..k]), Chosen(jobs[k..], mask[k..]);
    forall c | c in before ensures !Before(jobs[k], c) {
      var i := ChosenFrom(jobs[..k], mask[..k], c);
    }
    forall c | c in after ensures !Before(c, jobs[k]) {
      var i := ChosenFrom(jobs[k..], mask[k..], c);
      BeforeIsAnOrder(c, c, c);
    }
    var taken := before + after;
    forall i | 0 <= i < |before| ensures ByPriority([taken[i], jobs[k]]) {
      OrderIsMeant([taken[i], jobs[k]]);
    }
    forall i | |before| <= i < |taken| ensures ByPriority([jobs[k], taken[i]]) {
      assert taken[i] == after[i - |before|];
      OrderIsMeant([jobs[k], taken[i]]);
    }
  }

  lemma RefusalsAreExact(cfg: Config, s: Snapshot, ordered: seq<JobSpec>)
    requires DistinctJobs(ordered) && InOrder(ordered)
    ensures Sorted(cfg, s, ordered, Taken(RoomOf(cfg, s), ordered), Rejections(RoomOf(cfg, s), ordered))
  {
    var room := RoomOf(cfg, s);
    var taken, rejected := Taken(room, ordered), Rejections(room, ordered);
    forall job | job in ordered
      ensures job in taken <==> job.jobId !in rejected
      ensures job.jobId in rejected ==> Refused(cfg, s, taken, job, rejected[job.jobId])
    {
      var k :| 0 <= k < |ordered| && ordered[k] == job;
      RejectionsAreJustified(room, ordered, k);
      TakenAtItsPlace(room, ordered, k);
      if job.jobId in rejected {
        TakenBefore(room, ordered, k);
        VerdictBreaks(cfg, s, Taken(room, ordered[..k]), job, rejected[job.jobId]);
      }
    }
    forall id | id in rejected ensures exists k :: 0 <= k < |ordered| && ordered[k].jobId == id {
      RejectedAreListed(room, ordered, id);
    }
  }

  lemma AdmissionKeepsTheRules(cfg: Config, s: Snapshot, ordered: seq<JobSpec>)
    ensures WithinLimits(cfg, s, Taken(RoomOf(cfg, s), ordered))
    ensures DistinctJobs(ordered) && InOrder(ordered) ==>
      Sorted(cfg, s, ordered, Taken(RoomOf(cfg, s), ordered), Rejections(RoomOf(cfg, s), ordered))
  {
    TakenIsWithinLimits(cfg, s, ordered);
    if DistinctJobs(ordered) && InOrder(ordered) {
      RefusalsAreExact(cfg, s, ordered);
    }
  }

  lemma TakenAtItsPlace(room: Room, jobs: seq<JobSpec>, k: nat)
    requires DistinctJobs(jobs) && k < |jobs|
    ensures jobs[k] in Taken(room, jobs) <==> Greedy(room, jobs)[k]
  {
    if jobs[k] in Taken(room, jobs) {
      var i := ChosenFrom(jobs, Greedy(room, jobs), jobs[k]);
    }
    if Greedy(room, jobs)[k] {
      ChosenHas(jobs, Greedy(room, jobs), k);
    }
  }

  // ---- Pausing and resuming ----

  /** At least this part of the memory is in use; without a known maximum all of it counts as in use. */
  predicate MemoryAtLeast(s: Snapshot, ratio: real) {
    if s.maxBytes > 0 then s.currentBytes as real >= ratio * s.maxBytes as real
    else if s.maxBytes < 0 then s.currentBytes as real <= ratio * s.maxBytes as real
    else 1.0 >= ratio
  }

  predicate MemoryAtMost(s: Snapshot, ratio: real) {
    if s.maxBytes > 0 then s.currentBytes as real <= ratio * s.maxBytes as real
    else if s.maxBytes < 0 then s.currentBytes as real >= ratio * s.maxBytes as real
    else 1.0 <= ratio
  }

  predicate Strained(cfg: Config, s: Snapshot) {
    MemoryAtLeast(s, cfg.pauseMemoryRatio) || s.loadOne > cfg.pauseLoad
  }

  predicate Relaxed(cfg: Config, s: Snapshot) {
    MemoryAtMost(s, cfg.resumeMemoryRatio) && s.loadOne <= cfg.resumeLoad
  }

  lemma RatioMeans(a: real, b: real, r: real)
    requires b != 0.0
    ensures b > 0.0 ==> (a / b >= r <==> a >= r * b) && (a / b <= r <==> a <= r * b)
    ensures b < 0.0 ==> (a / b >= r <==> a <= r * b) && (a / b <= r <==> a >= r * b)
  {
    var q := a / b;
    assert q * b == a;
    assert b > 0.0 && q > r ==> q * b > r * b;
    assert b > 0.0 && q < r ==> q * b < r * b;
    assert b < 0.0 && q > r ==> q * b < r * b;
    assert b < 0.0 && q < r ==> q * b > r * b;
  }

  lemma ThresholdsAreMeant(cfg: Config, s: Snapshot)
    ensures Pressure(cfg, s) <==> Strained(cfg, s)
    ensures CanResume(cfg, s) <==> Relaxed(cfg, s)
  {
    if s.maxBytes != 0 {
      RatioMeans(s.currentBytes as real, s.maxBytes as real, cfg.pauseMemoryRatio);
      RatioMeans(s.currentBytes as real, s.maxBytes as real, cfg.resumeMemoryRatio);
    }
  }

  /** What a plan admits of the jobs it took, and which ids are paused, in the order of their pausing. */
  ghost predicate Pauses(cfg: Config, s: Snapshot, was: seq<JobSpec>, taken: seq<JobSpec>, d: Decision) {
    if Strained(cfg, s) then
      && (forall job :: job in d.admitted <==> job in taken && job.critical) && ByPriority(d.admitted)
      && Ids(was) <= d.paused && (forall job :: job in taken && !job.critical ==> job.jobId in d.paused)
      && forall id :: id in d.paused ==>
        id in Ids(was) || exists i :: 0 <= i < |taken| && taken[i].jobId == id && !taken[i].critical
    else
      d.admitted == taken && d.paused == Ids(was)
  }

  /** Resuming takes every paused job, or none. */
  ghost predicate Resumes(cfg: Config, s: Snapshot, d: Decision, now: seq<JobSpec>) {
    if Relaxed(cfg, s) then d.resumed == d.paused && now == []
    else d.resumed == [] && Ids(now) == d.paused
  }

  lemma {:induction false} PausedAreListed(paused: seq<JobSpec>, taken: seq<JobSpec>)
    ensures Ids(paused) <= Ids(PauseAll(paused, taken))
    ensures forall id :: id in Ids(PauseAll(paused, taken)) ==>
      id in Ids(paused) || exists i :: 0 <= i < |taken| && taken[i].jobId == id && !taken[i].critical
  {
    if taken != [] {
      var n := |taken| - 1;
      var before, after := PauseAll(paused, taken[..n]), PauseAll(paused, taken);
      PausedAreListed(paused, taken[..n]);
      assert after == before || after == before + [taken[n]];
      forall id | id in Ids(after) && id !in Ids(paused)
        ensures exists i :: 0 <= i < |taken| && taken[i].jobId == id && !taken[i].critical
      {
        if id in Ids(before) {
          var i :| 0 <= i < n && taken[..n][i].jobId == id && !taken[..n][i].critical;
          assert taken[i].jobId == id && !taken[i].critical;
        } else {
          assert forall k :: 0 <= k < |before| ==> Ids(before)[k] == after[k].jobId;
          assert taken[n].jobId == id && !taken[n].critical;
        }
      }
    }
  }

  lemma {:induction false} CriticalsInOrder(jobs: seq<JobSpec>)
    requires InOrder(jobs)
    ensures InOrder(Criticals(jobs))
  {
    if jobs != [] {
      var n := |jobs| - 1;
      CriticalsInOrder(jobs[..n]);
      forall c | c in Criticals(jobs[..n]) ensures !Before(jobs[n], c) {
        CriticalsKeep(jobs[..n], c);
      }
    }
  }

  lemma PausingIsMeant(cfg: Config, was: seq<JobSpec>, jobs: seq<JobSpec>, s: Snapshot, taken: seq<JobSpec>)
    requires taken == Taken(RoomOf(cfg, s), SortJobs(jobs)) && InOrder(taken)
    ensures var plan := PlanOf(cfg, was, jobs, s);
      Pauses(cfg, s, was, taken, plan.decision) && Resumes(cfg, s, plan.decision, plan.paused)
  {
    ThresholdsAreMeant(cfg, s);
    PausedAreListed(was, taken);
    CriticalsInOrder(taken);
    OrderIsMeant(Criticals(taken));
    forall job ensures job in Criticals(taken) <==> job in taken && job.critical {
      CriticalsKeep(taken, job);
    }
    forall job | job in taken && !job.critical ensures job.jobId in Ids(PauseAll(was, taken)) {
      PauseAllHolds(was, taken, job);
    }
  }

  // ---- A whole plan ----

  /** `taken` are the jobs that a plan takes; what it decides follows from them. */
  ghost predicate PlannedFrom(cfg: Config, was: seq<JobSpec>, jobs: seq<JobSpec>, s: Snapshot, taken: seq<JobSpec>,
                              d: Decision, now: seq<JobSpec>)
  {
    && multiset(taken) <= multiset(jobs) && ByPriority(taken) && WithinLimits(cfg, s, taken)
    && (DistinctJobs(jobs) ==> Sorted(cfg, s, jobs, taken, d.rejected))
    && Pauses(cfg, s, was, taken, d) && Resumes(cfg, s, d, now)
  }

  /**
   A plan takes jobs within the limits of the configuration beside what is active, refuses each other job for
   the first limit it would break, pauses under strain what is not critical, and resumes everything when relaxed.
   */
  lemma PlanKeepsTheRules(cfg: Config, was: seq<JobSpec>, jobs: seq<JobSpec>, s: Snapshot) returns (taken: seq<JobSpec>)
    ensures var plan := PlanOf(cfg, was, jobs, s);
      PlannedFrom(cfg, was, jobs, s, taken, plan.decision, plan.paused)
  {
    var ordered := SortJobs(jobs);
    taken := Taken(RoomOf(cfg, s), ordered);
    SortIsInOrder(jobs);
    ChosenAreCounted(ordered, Greedy(RoomOf(cfg, s), ordered));
    ChosenInOrder(ordered, Greedy(RoomOf(cfg, s), ordered));
    AdmissionKeepsTheRules(cfg, s, ordered);
    PausingIsMeant(cfg, was, jobs, s, taken);
    OrderIsMeant(taken);
    if DistinctJobs(jobs) {
      DistinctWhenPermuted(jobs, ordered);
      SameJobsSorted(cfg, s, ordered, jobs, taken, Rejections(RoomOf(cfg, s), ordered));
    }
  }

  lemma SameJobsSorted(cfg: Config, s: Snapshot, a: seq<JobSpec>, b: seq<JobSpec>, taken: seq<JobSpec>,
                       rejected: map<string, Reason>)
    requires multiset(a) == multiset(b) && Sorted(cfg, s, a, taken, rejected)
    ensures Sorted(cfg, s, b, taken, rejected)
  {
    assert forall job :: job in a <==> job in multiset(a);
    assert forall job :: job in b <==> job in multiset(b);
    forall id | id in rejected ensures exists k :: 0 <= k < |b| && b[k].jobId == id {
      var k :| 0 <= k < |a| && a[k].jobId == id;
      assert a[k] in b;
    }
  }
}
