/** The admission and pausing decisions of src/hermes_harness/scheduler.py on values. */
module SchedulerModel {
  import opened Common

  datatype JobSpec = JobSpec(jobId: string, kind: string, priority: int, critical: bool, units: Option<int>)
  {
    function Capacity(): int {
      if units.Some? then units.value
      else if kind == "engineer" then 2
      else if kind == "browser" then 3
      else 1
    }
  }

  datatype Snapshot = Snapshot(
    currentBytes: int, maxBytes: int, loadOne: real,
    active: int, activeCapacity: Option<int>, browserActive: bool)
  {
    function MemoryRatio(): real {
      if maxBytes != 0 then currentBytes as real / maxBytes as real else 1.0
    }
  }

  datatype Config = Config(
    capacityUnits: int, maxJobs: int, reserveUnits: int,
    pauseMemoryRatio: real, pauseLoad: real, resumeMemoryRatio: real, resumeLoad: real)

  datatype Reason = MaxJobs | BrowserSingleton | CapacityExceeded

  // ---- The order in which jobs are considered ----

  /** Python's order on strings: by code point. */
  predicate TextLess(a: string, b: string) {
    if b == "" then false
    else if a == "" then true
    else a[0] < b[0] || (a[0] == b[0] && TextLess(a[1..], b[1..]))
  }

  /** `a` comes before `b` under the key (-priority, job_id). */
  predicate Before(a: JobSpec, b: JobSpec) {
    a.priority > b.priority || (a.priority == b.priority && TextLess(a.jobId, b.jobId))
  }

  lemma {:induction false} TextLessIsAnOrder(a: string, b: string, c: string)
    ensures !TextLess(a, a)
    ensures TextLess(a, b) && TextLess(b, c) ==> TextLess(a, c)
    ensures TextLess(a, b) || a == b || TextLess(b, a)
  {
    if a != "" {
      if b != "" {
        TextLessIsAnOrder(a[1..], b[1..], if c == "" then c else c[1..]);
        assert a == [a[0]] + a[1..] && b == [b[0]] + b[1..];
      } else {
        TextLessIsAnOrder(a[1..], b, c);
      }
    }
  }

  lemma BeforeIsAnOrder(a: JobSpec, b: JobSpec, c: JobSpec)
    ensures !Before(a, a)
    ensures Before(a, b) && Before(b, c) ==> Before(a, c)
    ensures Before(a, b) || Before(b, a) || a.jobId == b.jobId
  {
    TextLessIsAnOrder(a.jobId, b.jobId, c.jobId);
  }

  /** Inserts a job behind everything that does not come after it, as a stable sort does. */
  function Insert(sorted: seq<JobSpec>, job: JobSpec): (r: seq<JobSpec>)
    ensures multiset(r) == multiset(sorted) + multiset{job}
  {
    if sorted == [] || !Before(job, sorted[|sorted| - 1]) then sorted + [job]
    else
      assert sorted == sorted[..|sorted| - 1] + [sorted[|sorted| - 1]];
      Insert(sorted[..|sorted| - 1], job) + [sorted[|sorted| - 1]]
  }

  /** sorted(jobs, key=lambda job: (-job.priority, job.job_id)). */
  function SortJobs(jobs: seq<JobSpec>): (r: seq<JobSpec>)
    ensures multiset(r) == multiset(jobs)
  {
    if jobs == [] then []
    else
      assert jobs == jobs[..|jobs| - 1] + [jobs[|jobs| - 1]];
      Insert(SortJobs(jobs[..|jobs| - 1]), jobs[|jobs| - 1])
  }

  ghost predicate InOrder(jobs: seq<JobSpec>) {
    forall i, j :: 0 <= i < j < |jobs| ==> !Before(jobs[j], jobs[i])
  }

  lemma {:induction false} InsertKeepsOrder(sorted: seq<JobSpec>, job: JobSpec)
    requires InOrder(sorted)
    ensures InOrder(Insert(sorted, job))
  {
    var n := |sorted|;
    if n == 0 || !Before(job, sorted[n - 1]) {
      forall i | 0 <= i < n ensures !Before(job, sorted[i]) {
        NotAfterLast(sorted, job, i);
      }
    } else {
      var init := sorted[..n - 1];
      var r := Insert(init, job);
      InsertKeepsOrder(init, job);
      forall i | 0 <= i < |r| ensures !Before(sorted[n - 1], r[i]) {
        assert r[i] in multiset(r);
        assert r[i] == job || r[i] in multiset(init);
        BeforeIsAnOrder(sorted[n - 1], job, sorted[n - 1]);
      }
    }
  }

  lemma NotAfterLast(sorted: seq<JobSpec>, job: JobSpec, i: nat)
    requires InOrder(sorted) && i < |sorted| && !Before(job, sorted[|sorted| - 1])
    ensures !Before(job, sorted[i])
  {
    if Before(job, sorted[i]) && i < |sorted| - 1 {
      SameRank(job, sorted[i], sorted[|sorted| - 1]);
    }
  }

  /** If `b` is not after `c` in the order and `a` is before `b`, then `a` is before `c`. */
  lemma SameRank(a: JobSpec, b: JobSpec, c: JobSpec)
    requires Before(a, b) && !Before(c, b)
    ensures Before(a, c)
  {
    BeforeIsAnOrder(a, b, c);
    BeforeIsAnOrder(b, c, a);
    TextLessIsAnOrder(b.jobId, c.jobId, a.jobId);
    TextLessIsAnOrder(a.jobId, b.jobId, c.jobId);
  }

  lemma {:induction false} SortIsInOrder(jobs: seq<JobSpec>)
    ensures InOrder(SortJobs(jobs))
  {
    if jobs != [] {
      SortIsInOrder(jobs[..|jobs| - 1]);
      InsertKeepsOrder(SortJobs(jobs[..|jobs| - 1]), jobs[|jobs| - 1]);
    }
  }

  ghost predicate DistinctJobs(jobs: seq<JobSpec>) {
    forall i, j :: 0 <= i < j < |jobs| ==> jobs[i].jobId != jobs[j].jobId
  }

  // ---- Admission ----

  /** What is left to give out. */
  datatype Room = Room(slots: int, units: int, browserTaken: bool)

  function UnitsOf(jobs: seq<JobSpec>): int {
    if jobs == [] then 0 else UnitsOf(jobs[..|jobs| - 1]) + jobs[|jobs| - 1].Capacity()
  }

  function Browsers(jobs: seq<JobSpec>): nat {
    if jobs == [] then 0 else Browsers(jobs[..|jobs| - 1]) + if jobs[|jobs| - 1].kind == "browser" then 1 else 0
  }

  /** The first limit that keeps a job out when `taken` has been taken already. */
  function Verdict(room: Room, taken: seq<JobSpec>, job: JobSpec): Option<Reason> {
    if |taken| >= room.slots then Some(MaxJobs)
    else if job.kind == "browser" && (room.browserTaken || Browsers(taken) > 0) then Some(BrowserSingleton)
    else if job.Capacity() > room.units - UnitsOf(taken) then Some(CapacityExceeded)
    else None
  }

  /** One bit per job: whether the admission loop takes it. */
  function Greedy(room: Room, jobs: seq<JobSpec>): (mask: seq<bool>)
    ensures |mask| == |jobs|
  {
    if jobs == [] then []
    else
      var init := jobs[..|jobs| - 1];
      var mask := Greedy(room, init);
      mask + [Verdict(room, Chosen(init, mask), jobs[|jobs| - 1]).None?]
  }

  /** The jobs selected by a mask, in order. */
  function Chosen(jobs: seq<JobSpec>, mask: seq<bool>): seq<JobSpec>
    requires |jobs| == |mask|
  {
    if jobs == [] then []
    else
      Chosen(jobs[..|jobs| - 1], mask[..|jobs| - 1]) + if mask[|jobs| - 1] then [jobs[|jobs| - 1]] else []
  }

  function Taken(room: Room, jobs: seq<JobSpec>): seq<JobSpec> {
    Chosen(jobs, Greedy(room, jobs))
  }

  /** The reasons by job id; with a repeated id the last one stands, as in a dictionary. */
  function Rejections(room: Room, jobs: seq<JobSpec>): map<string, Reason> {
    if jobs == [] then map[]
    else
      var init := jobs[..|jobs| - 1];
      var verdict := Verdict(room, Taken(room, init), jobs[|jobs| - 1]);
      if verdict.None? then Rejections(room, init)
      else Rejections(room, init)[jobs[|jobs| - 1].jobId := verdict.value]
  }

  /** A selection that keeps all three limits. */
  ghost predicate Feasible(room: Room, jobs: seq<JobSpec>, mask: seq<bool>) {
    |mask| == |jobs| &&
    var chosen := Chosen(jobs, mask);
    && |chosen| <= room.slots
    && UnitsOf(chosen) <= room.units
    && Browsers(chosen) <= (if room.browserTaken then 0 else 1)
  }

  /** `a` is `b`, or selects the first job on which they differ. */
  ghost predicate LexAtLeast(a: seq<bool>, b: seq<bool>) {
    |a| == |b| && (a == b || exists k :: 0 <= k < |a| && a[..k] == b[..k] && a[k] && !b[k])
  }

  ghost predicate NoNegativeUnits(jobs: seq<JobSpec>) {
    forall i :: 0 <= i < |jobs| ==> jobs[i].Capacity() >= 0
  }

  ghost predicate RoomOk(room: Room) {
    room.slots >= 0 && room.units >= 0
  }

  lemma OneMore(taken: seq<JobSpec>, job: JobSpec)
    ensures UnitsOf(taken + [job]) == UnitsOf(taken) + job.Capacity()
    ensures Browsers(taken + [job]) == Browsers(taken) + if job.kind == "browser" then 1 else 0
  {
    assert (taken + [job])[..|taken + [job]| - 1] == taken;
  }

  lemma {:induction false} GreedyIsFeasible(room: Room, jobs: seq<JobSpec>)
    requires RoomOk(room)
    ensures Feasible(room, jobs, Greedy(room, jobs))
  {
    if jobs != [] {
      var init := jobs[..|jobs| - 1];
      GreedyIsFeasible(room, init);
      var mask := Greedy(room, jobs);
      var taken := Chosen(init, Greedy(room, init));
      assert mask[..|init|] == Greedy(room, init);
      OneMore(taken, jobs[|init|]);
      assert taken + [] == taken;
    }
  }

  /** With non-negative units, leaving jobs out keeps a selection feasible. */
  lemma {:induction false} FeasiblePrefix(room: Room, jobs: seq<JobSpec>, mask: seq<bool>, k: nat)
    requires NoNegativeUnits(jobs) && Feasible(room, jobs, mask) && k <= |jobs|
    ensures Feasible(room, jobs[..k], mask[..k])
    decreases |jobs|
  {
    if k == |jobs| {
      assert jobs[..k] == jobs && mask[..k] == mask;
    } else {
      var n := |jobs| - 1;
      var shorter := Chosen(jobs[..n], mask[..n]);
      OneMore(shorter, jobs[n]);
      assert shorter + [] == shorter;
      assert jobs[n].Capacity() >= 0;
      FeasiblePrefix(room, jobs[..n], mask[..n], k);
      assert jobs[..n][..k] == jobs[..k] && mask[..n][..k] == mask[..k];
    }
  }

  /** A feasible selection that agrees with the greedy one before job k takes job k only if the greedy one does. */
  lemma FeasibleTakesNoMore(room: Room, jobs: seq<JobSpec>, mask: seq<bool>, k: nat)
    requires NoNegativeUnits(jobs) && Feasible(room, jobs, mask) && k < |jobs|
    requires mask[..k] == Greedy(room, jobs[..k]) && mask[k]
    ensures Greedy(room, jobs[..k + 1])[k]
  {
    FeasiblePrefix(room, jobs, mask, k + 1);
    assert jobs[..k + 1][..k] == jobs[..k] && mask[..k + 1][..k] == mask[..k];
    var taken := Chosen(jobs[..k], mask[..k]);
    OneMore(taken, jobs[k]);
  }

  lemma {:induction false} GreedyPrefix(room: Room, jobs: seq<JobSpec>, k: nat)
    requires k <= |jobs|
    ensures Greedy(room, jobs)[..k] == Greedy(room, jobs[..k])
    decreases |jobs|
  {
    if k == |jobs| {
      assert jobs[..k] == jobs;
    } else {
      var n := |jobs| - 1;
      GreedyPrefix(room, jobs[..n], k);
      assert jobs[..n][..k] == jobs[..k];
    }
  }

  lemma {:induction false} FirstDifference(a: seq<bool>, b: seq<bool>) returns (k: nat)
    requires |a| == |b| && a != b
    ensures k < |a| && a[..k] == b[..k] && a[k] != b[k]
  {
    if a[0] != b[0] {
      k := 0;
    } else {
      var j := FirstDifference(a[1..], b[1..]);
      k := j + 1;
      assert a[..k] == [a[0]] + a[1..][..j] && b[..k] == [b[0]] + b[1..][..j];
    }
  }

  /**
   The selection of the admission loop is feasible, and in the order of consideration no feasible
   selection is lexicographically greater.
   */
  lemma GreedyIsLexGreatest(room: Room, jobs: seq<JobSpec>, other: seq<bool>)
    requires RoomOk(room) && NoNegativeUnits(jobs)
    ensures Feasible(room, jobs, Greedy(room, jobs))
    ensures Feasible(room, jobs, other) ==> LexAtLeast(Greedy(room, jobs), other)
  {
    GreedyIsFeasible(room, jobs);
    var mask := Greedy(room, jobs);
    if Feasible(room, jobs, other) && mask != other {
      var k := FirstDifference(mask, other);
      GreedyPrefix(room, jobs, k);
      GreedyPrefix(room, jobs, k + 1);
      if other[k] {
        assert mask[..k + 1][k] == mask[k];
        FeasibleTakesNoMore(room, jobs, other, k);
      }
    }
  }

  /** No rejected job could have been added. */
  lemma {:induction false} NothingCanBeAdded(room: Room, jobs: seq<JobSpec>, k: nat)
    requires RoomOk(room) && NoNegativeUnits(jobs) && k < |jobs| && !Greedy(room, jobs)[k]
    ensures !Feasible(room, jobs, Greedy(room, jobs)[k := true])
  {
    var mask := Greedy(room, jobs);
    var more := mask[k := true];
    GreedyIsLexGreatest(room, jobs, more);
    assert mask[k] != more[k];
    assert forall j :: 0 <= j < |mask| && mask[j] ==> more[j];
  }
}
