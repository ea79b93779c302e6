/** The scheduler as the object the program uses; its loops compute the plans of SchedulerPlans. */
module SchedulerService {
  import opened SchedulerLimits
  import opened SchedulerModel
  import opened SchedulerPlans

  lemma PrefixStep<T>(s: seq<T>, i: nat)
    requires i < |s|
    ensures s[..i + 1][..|s[..i + 1]| - 1] == s[..i] && s[..i + 1][|s[..i + 1]| - 1] == s[i] &&
      s[..i + 1] == s[..i] + [s[i]]
  {
  }

  lemma TakenStep(room: Room, jobs: seq<JobSpec>, i: nat)
    requires i < |jobs|
    ensures var taken, verdict := Taken(room, jobs[..i]), Verdict(room, Taken(room, jobs[..i]), jobs[i]);
      && Taken(room, jobs[..i + 1]) == (if verdict.None? then taken + [jobs[i]] else taken)
      && Rejections(room, jobs[..i + 1]) ==
           (if verdict.None? then Rejections(room, jobs[..i])
            else Rejections(room, jobs[..i])[jobs[i].jobId := verdict.value])
  {
    PrefixStep(jobs, i);
    var mask := Greedy(room, jobs[..i + 1]);
    assert mask[..i] == Greedy(room, jobs[..i]);
    assert Taken(room, jobs[..i]) + [] == Taken(room, jobs[..i]);
  }

  class AdaptiveScheduler {
    const cfg: Config
    var paused: seq<JobSpec>

    constructor (cfg: Config)
      ensures this.cfg == cfg && paused == []
    {
      this.cfg := cfg;
      paused := [];
    }

    method Plan(jobs: seq<JobSpec>, snapshot: Snapshot) returns (d: Decision)
      modifies this
      ensures Planned(d, paused) == PlanOf(cfg, old(paused), jobs, snapshot)
      ensures exists taken :: PlannedFrom(cfg, old(paused), jobs, snapshot, taken, d, paused)
    {
      ghost var kept := PlanKeepsTheRules(cfg, paused, jobs, snapshot);
      hide PlannedFrom;
      var ordered := SortJobs(jobs);
      var pressure := snapshot.MemoryRatio() >= cfg.pauseMemoryRatio || snapshot.loadOne > cfg.pauseLoad;
      var admitted, rejected := Admit(ordered, snapshot);
      if pressure {
        Pause(admitted);
        admitted := Criticals(admitted);
      }
      var held := Ids(paused);
      var canResume := snapshot.MemoryRatio() <= cfg.resumeMemoryRatio && snapshot.loadOne <= cfg.resumeLoad;
      var resumed: seq<string> := [];
      if canResume {
        resumed := Resume();
      }
      d := Decision(admitted, held, resumed, rejected);
    }

    /** The admission loop over the sorted jobs. */
    method Admit(ordered: seq<JobSpec>, snapshot: Snapshot)
        returns (admitted: seq<JobSpec>, rejected: map<string, Reason>)
      ensures admitted == Taken(RoomOf(cfg, snapshot), ordered)
      ensures rejected == Rejections(RoomOf(cfg, snapshot), ordered)
      ensures WithinLimits(cfg, snapshot, admitted)
      ensures DistinctJobs(ordered) && InOrder(ordered) ==> Sorted(cfg, snapshot, ordered, admitted, rejected)
    {
      hide WithinLimits, Sorted, DistinctJobs, InOrder;
      var activeCapacity := if snapshot.activeCapacity.Some? then snapshot.activeCapacity.value else snapshot.active;
      if snapshot.browserActive && snapshot.activeCapacity.None? {
        activeCapacity := activeCapacity + 3;
      }
      var activeJobs := snapshot.active + if snapshot.browserActive then 1 else 0;
      var available: int := AtLeastZero(cfg.capacityUnits - cfg.reserveUnits - activeCapacity);
      var jobSlots := AtLeastZero(cfg.maxJobs - activeJobs);
      var browserTaken := snapshot.browserActive;
      admitted, rejected := [], map[];
      ghost var room := RoomOf(cfg, snapshot);
      for i := 0 to |ordered|
        invariant admitted == Taken(room, ordered[..i]) && rejected == Rejections(room, ordered[..i])
        invariant available == room.units - UnitsOf(admitted)
        invariant browserTaken == (room.browserTaken || Browsers(admitted) > 0)
      {
        var job := ordered[i];
        TakenStep(room, ordered, i);
        if |admitted| >= jobSlots {
          rejected := rejected[job.jobId := MaxJobs];
        } else if job.kind == "browser" && browserTaken {
          rejected := rejected[job.jobId := BrowserSingleton];
        } else if job.Capacity() > available {
          rejected := rejected[job.jobId := CapacityExceeded];
        } else {
          OneMore(admitted, job);
          admitted := admitted + [job];
          available := available - job.Capacity();
          browserTaken := browserTaken || job.kind == "browser";
        }
      }
      assert ordered[..|ordered|] == ordered;
      AdmissionKeepsTheRules(cfg, snapshot, ordered);
    }

    method Pause(taken: seq<JobSpec>)
      modifies this
      ensures paused == PauseAll(old(paused), taken)
    {
      for i := 0 to |taken|
        invariant paused == PauseAll(old(paused), taken[..i])
      {
        PrefixStep(taken, i);
        var job := taken[i];
        if !job.critical && job.jobId !in Ids(paused) {
          paused := paused + [job];
        }
      }
      assert taken[..|taken|] == taken;
    }

    /** Pops every paused job, oldest first. */
    method Resume() returns (resumed: seq<string>)
      modifies this
      ensures paused == [] && resumed == Ids(old(paused))
    {
      resumed := [];
      while paused != []
        invariant |paused| <= |old(paused)| && paused == old(paused)[|old(paused)| - |paused|..]
        invariant resumed == Ids(old(paused))[..|old(paused)| - |paused|]
        decreases |paused|
      {
        resumed := resumed + [paused[0].jobId];
        paused := paused[1..];
      }
    }
  }
}
