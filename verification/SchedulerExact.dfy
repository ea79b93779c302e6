/** When the greedy admission loop finds the greatest feasible selection: exactly if no units come back too late. */
module SchedulerExact {
  import opened Common
  import opened SchedulerModel

  /** No feasible selection is lexicographically greater than the one the loop makes. */
  ghost predicate GreedyIsGreatest(room: Room, jobs: seq<JobSpec>) {
    forall other :: Feasible(room, jobs, other) ==> LexAtLeast(Greedy(room, jobs), other)
  }

  function StillFree(job: JobSpec, browserFree: bool): bool {
    browserFree && job.kind != "browser"
  }

  /** The most units that some of the jobs can give back together, `slots` of them at most. */
  function Returnable(jobs: seq<JobSpec>, slots: int, browserFree: bool): nat
    decreases |jobs|, 1
  {
    if jobs == [] || slots <= 0 then 0
    else
      var without, with := Returnable(jobs[1..], slots, browserFree), ReturnableWith(jobs, slots, browserFree);
      if jobs[0].kind == "browser" && !browserFree then without
      else if with > without then with else without
  }

  /** The same with the first job among them. */
  function ReturnableWith(jobs: seq<JobSpec>, slots: int, browserFree: bool): int
    requires jobs != []
    decreases |jobs|, 0
  {
    Returnable(jobs[1..], slots - 1, StillFree(jobs[0], browserFree)) - jobs[0].Capacity()
  }

  function BrowserFree(room: Room, taken: seq<JobSpec>): bool {
    !room.browserTaken && Browsers(taken) == 0
  }

  /** Job k is refused for capacity, and the jobs behind it could give back enough for it. */
  predicate ComesTooLate(room: Room, jobs: seq<JobSpec>, k: nat)
    requires k < |jobs|
  {
    var taken := Taken(room, jobs[..k]);
    && Verdict(room, taken, jobs[k]) == Some(CapacityExceeded)
    && var more := taken + [jobs[k]];
       UnitsOf(more) - Returnable(jobs[k + 1..], room.slots - |taken| - 1, BrowserFree(room, more)) <= room.units
  }

  // ---- Selections in parts ----

  lemma {:induction false} ChosenInParts(jobs: seq<JobSpec>, mask: seq<bool>, k: nat)
    requires |jobs| == |mask| && k <= |jobs|
    ensures Chosen(jobs, mask) == Chosen(jobs[..k], mask[..k]) + Chosen(jobs[k..], mask[k..])
    decreases |jobs|
  {
    var n := |jobs| - 1;
    if k == |jobs| {
      assert jobs[..k] == jobs && mask[..k] == mask;
      assert Chosen(jobs, mask) + [] == Chosen(jobs, mask);
    } else {
      ChosenInParts(jobs[..n], mask[..n], k);
      assert jobs[..n][..k] == jobs[..k] && mask[..n][..k] == mask[..k];
      assert jobs[..n][k..] == jobs[k..][..n - k] && mask[..n][k..] == mask[k..][..n - k];
      var last := if mask[n] then [jobs[n]] else [];
      Regroup(Chosen(jobs[..k], mask[..k]), Chosen(jobs[..n][k..], mask[..n][k..]), last);
    }
  }

  lemma {:induction false} TotalsOfParts(a: seq<JobSpec>, b: seq<JobSpec>)
    ensures UnitsOf(a + b) == UnitsOf(a) + UnitsOf(b) && Browsers(a + b) == Browsers(a) + Browsers(b)
    decreases |b|
  {
    if b == [] {
      assert a + b == a;
    } else {
      var n := |b| - 1;
      assert a + b == a + b[..n] + [b[n]];
      TotalsOfParts(a, b[..n]);
      OneMore(a + b[..n], b[n]);
    }
  }

  lemma ChosenFront(jobs: seq<JobSpec>, mask: seq<bool>)
    requires |jobs| == |mask| && jobs != []
    ensures Chosen(jobs, mask) == (if mask[0] then [jobs[0]] else []) + Chosen(jobs[1..], mask[1..])
  {
    ChosenInParts(jobs, mask, 1);
    assert jobs[..1] == [jobs[0]] && mask[..1] == [mask[0]];
    assert jobs[..1][..0] == [] && mask[..1][..0] == [];
    assert Chosen(jobs[..1], mask[..1]) == if mask[0] then [jobs[0]] else [];
  }

  lemma TotalsOfOne(job: JobSpec, rest: seq<JobSpec>)
    ensures UnitsOf([job] + rest) == job.Capacity() + UnitsOf(rest)
    ensures Browsers([job] + rest) == (if job.kind == "browser" then 1 else 0) + Browsers(rest)
  {
    TotalsOfParts([job], rest);
    assert [job][..0] == [];
  }

  // ---- What can be given back ----

  ghost predicate Fits(chosen: seq<JobSpec>, slots: int, browserFree: bool) {
    |chosen| <= slots && Browsers(chosen) <= if browserFree then 1 else 0
  }

  /** No selection within the limits gives back more. */
  lemma {:induction false} NothingReturnsMore(jobs: seq<JobSpec>, mask: seq<bool>, slots: int, browserFree: bool)
    requires |mask| == |jobs| && Fits(Chosen(jobs, mask), slots, browserFree)
    ensures UnitsOf(Chosen(jobs, mask)) + Returnable(jobs, slots, browserFree) >= 0
    decreases |jobs|
  {
    if jobs != [] {
      var rest := Chosen(jobs[1..], mask[1..]);
      ChosenFront(jobs, mask);
      if mask[0] {
        TotalsOfOne(jobs[0], rest);
        hide Chosen, UnitsOf, Browsers;
        NothingReturnsMore(jobs[1..], mask[1..], slots - 1, StillFree(jobs[0], browserFree));
      } else {
        assert [] + rest == rest;
        hide Chosen, UnitsOf, Browsers;
        NothingReturnsMore(jobs[1..], mask[1..], slots, browserFree);
      }
    }
  }

  /** The selection fits and gives back that much. */
  ghost predicate Returns(jobs: seq<JobSpec>, mask: seq<bool>, slots: int, browserFree: bool, units: int) {
    |mask| == |jobs| && Fits(Chosen(jobs, mask), slots, browserFree) && UnitsOf(Chosen(jobs, mask)) + units == 0
  }

  lemma FirstIsTaken(jobs: seq<JobSpec>, tail: seq<bool>, slots: int, browserFree: bool, units: int)
    requires jobs != [] && (browserFree || jobs[0].kind != "browser")
    requires Returns(jobs[1..], tail, slots - 1, StillFree(jobs[0], browserFree), units)
    ensures Returns(jobs, [true] + tail, slots, browserFree, units - jobs[0].Capacity())
  {
    assert ([true] + tail)[1..] == tail;
    ChosenFront(jobs, [true] + tail);
    TotalsOfOne(jobs[0], Chosen(jobs[1..], tail));
  }

  lemma FirstIsLeft(jobs: seq<JobSpec>, tail: seq<bool>, slots: int, browserFree: bool, units: int)
    requires jobs != [] && Returns(jobs[1..], tail, slots, browserFree, units)
    ensures Returns(jobs, [false] + tail, slots, browserFree, units)
  {
    assert ([false] + tail)[1..] == tail;
    ChosenFront(jobs, [false] + tail);
    assert [] + Chosen(jobs[1..], tail) == Chosen(jobs[1..], tail);
  }

  /** And some selection within the limits gives back that much. */
  lemma {:induction false} SomethingReturnsIt(jobs: seq<JobSpec>, slots: nat, browserFree: bool)
      returns (mask: seq<bool>)
    ensures Returns(jobs, mask, slots, browserFree, Returnable(jobs, slots, browserFree))
    decreases |jobs|
  {
    if jobs == [] || slots == 0 {
      mask := seq(|jobs|, _ => false);
      NothingChosen(jobs, mask);
    } else {
      hide Returns;
      if Returnable(jobs, slots, browserFree) == Returnable(jobs[1..], slots, browserFree) {
        var without := SomethingReturnsIt(jobs[1..], slots, browserFree);
        FirstIsLeft(jobs, without, slots, browserFree, Returnable(jobs[1..], slots, browserFree));
        mask := [false] + without;
      } else {
        var with := SomethingReturnsIt(jobs[1..], slots - 1, StillFree(jobs[0], browserFree));
        FirstIsTaken(jobs, with, slots, browserFree, Returnable(jobs[1..], slots - 1, StillFree(jobs[0], browserFree)));
        mask := [true] + with;
      }
    }
  }

  lemma {:induction false} NothingChosen(jobs: seq<JobSpec>, mask: seq<bool>)
    requires |mask| == |jobs| && forall k :: 0 <= k < |mask| ==> !mask[k]
    ensures Chosen(jobs, mask) == []
    decreases |jobs|
  {
    if jobs != [] {
      NothingChosen(jobs[..|jobs| - 1], mask[..|jobs| - 1]);
    }
  }

  lemma {:induction false} AtLeastOneReturns(jobs: seq<JobSpec>, slots: int, k: nat)
    requires k < |jobs| && slots >= 1
    ensures Returnable(jobs, slots, true) + jobs[k].Capacity() >= 0
    decreases |jobs|
  {
    if k > 0 {
      AtLeastOneReturns(jobs[1..], slots, k - 1);
    }
  }

  // ---- One list in one room ----

  lemma GreedyAt(room: Room, jobs: seq<JobSpec>, k: nat)
    requires k < |jobs|
    ensures Greedy(room, jobs)[..k] == Greedy(room, jobs[..k])
    ensures Greedy(room, jobs)[k] <==> Verdict(room, Taken(room, jobs[..k]), jobs[k]).None?
  {
    GreedyPrefix(room, jobs, k);
    GreedyPrefix(room, jobs, k + 1);
    assert jobs[..k + 1][..k] == jobs[..k];
    assert Greedy(room, jobs[..k + 1])[k] == Greedy(room, jobs)[..k + 1][k];
  }

  /** A selection that agrees with the greedy one before job k and takes it, in three parts and their totals. */
  lemma ThreeParts(room: Room, jobs: seq<JobSpec>, other: seq<bool>, k: nat)
      returns (taken: seq<JobSpec>, rest: seq<JobSpec>)
    requires |other| == |jobs| && k < |jobs| && other[..k] == Greedy(room, jobs)[..k] && other[k]
    ensures taken == Taken(room, jobs[..k]) && rest == Chosen(jobs[k + 1..], other[k + 1..])
    ensures |Chosen(jobs, other)| == |taken| + 1 + |rest|
    ensures UnitsOf(Chosen(jobs, other)) == UnitsOf(taken + [jobs[k]]) + UnitsOf(rest)
    ensures UnitsOf(taken + [jobs[k]]) == UnitsOf(taken) + jobs[k].Capacity()
    ensures Browsers(Chosen(jobs, other)) == Browsers(taken + [jobs[k]]) + Browsers(rest)
    ensures Browsers(taken + [jobs[k]]) == Browsers(taken) + if jobs[k].kind == "browser" then 1 else 0
  {
    GreedyAt(room, jobs, k);
    taken, rest := Taken(room, jobs[..k]), Chosen(jobs[k + 1..], other[k + 1..]);
    SplitAt(jobs, other, k);
    TotalsOfParts(taken + [jobs[k]], rest);
    OneMore(taken, jobs[k]);
  }

  /** A greater selection takes some refused job first; the rest of it then has to give back enough. */
  lemma GreaterMeansTooLate(room: Room, jobs: seq<JobSpec>, other: seq<bool>, k: nat)
    requires RoomOk(room) && Feasible(room, jobs, other) && k < |jobs|
    requires other[..k] == Greedy(room, jobs)[..k] && other[k] && !Greedy(room, jobs)[k]
    ensures ComesTooLate(room, jobs, k)
  {
    hide Chosen, UnitsOf, Browsers, Greedy, Taken, Returnable;
    GreedyAt(room, jobs, k);
    var taken, rest := ThreeParts(room, jobs, other, k);
    NothingReturnsMore(jobs[k + 1..], other[k + 1..], room.slots - |taken| - 1, BrowserFree(room, taken + [jobs[k]]));
  }

  lemma SplitAt(jobs: seq<JobSpec>, mask: seq<bool>, k: nat)
    requires |mask| == |jobs| && k < |jobs| && mask[k]
    ensures Chosen(jobs, mask) == Chosen(jobs[..k], mask[..k]) + [jobs[k]] + Chosen(jobs[k + 1..], mask[k + 1..])
  {
    ChosenInParts(jobs, mask, k);
    ChosenFront(jobs[k..], mask[k..]);
    assert jobs[k..][1..] == jobs[k + 1..] && mask[k..][1..] == mask[k + 1..];
    Regroup(Chosen(jobs[..k], mask[..k]), [jobs[k]], Chosen(jobs[k + 1..], mask[k + 1..]));
  }

  lemma OneBrowserAtMost(room: Room, jobs: seq<JobSpec>)
    requires RoomOk(room)
    ensures Browsers(Taken(room, jobs)) <= if room.browserTaken then 0 else 1
  {
    GreedyIsFeasible(room, jobs);
  }

  /** The greedy selection before job k, job k itself, and then whatever gives back enough. */
  lemma PutTogether(room: Room, jobs: seq<JobSpec>, k: nat, tail: seq<bool>)
    requires RoomOk(room) && k < |jobs| && ComesTooLate(room, jobs, k)
    requires var taken := Taken(room, jobs[..k]);
      var free := BrowserFree(room, taken + [jobs[k]]);
      Returns(jobs[k + 1..], tail, room.slots - |taken| - 1, free,
        Returnable(jobs[k + 1..], room.slots - |taken| - 1, free))
    ensures Feasible(room, jobs, Greedy(room, jobs)[..k] + [true] + tail)
  {
    hide Chosen, UnitsOf, Browsers, Greedy, Taken, Returnable;
    var other := Greedy(room, jobs)[..k] + [true] + tail;
    GreedyAt(room, jobs, k);
    assert other[..k] == Greedy(room, jobs)[..k] && other[k + 1..] == tail;
    var taken, rest := ThreeParts(room, jobs, other, k);
    OneBrowserAtMost(room, jobs[..k]);
  }

  /** A refused job for which enough could be given back is in a feasible selection greater than the loop's. */
  lemma TooLateMeansGreater(room: Room, jobs: seq<JobSpec>, k: nat) returns (other: seq<bool>)
    requires RoomOk(room) && k < |jobs| && ComesTooLate(room, jobs, k)
    ensures Feasible(room, jobs, other) && !LexAtLeast(Greedy(room, jobs), other)
  {
    var taken := Taken(room, jobs[..k]);
    var tail := SomethingReturnsIt(jobs[k + 1..], room.slots - |taken| - 1, BrowserFree(room, taken + [jobs[k]]));
    PutTogether(room, jobs, k, tail);
    GreedyAt(room, jobs, k);
    hide Chosen, UnitsOf, Browsers, Greedy, Returnable, Feasible;
    other := Greedy(room, jobs)[..k] + [true] + tail;
    FirstDecides(Greedy(room, jobs), other, k);
  }

  lemma SamePrefixSameAt(a: seq<bool>, b: seq<bool>, j: nat, k: nat)
    requires k < j <= |a| && j <= |b| && a[..j] == b[..j]
    ensures a[k] == b[k]
  {
    assert a[k] == a[..j][k] && b[k] == b[..j][k];
  }

  lemma FirstDecides(mask: seq<bool>, other: seq<bool>, k: nat)
    requires k < |mask| == |other| && mask[..k] == other[..k] && !mask[k] && other[k]
    ensures !LexAtLeast(mask, other)
  {
    forall j | 0 <= j < |mask| && mask[..j] == other[..j] && mask[j] ensures other[j] {
      if j < k {
        assert mask[..k][j] == other[..k][j];
      } else if j > k {
        SamePrefixSameAt(mask, other, j, k);
      }
    }
  }

  /**
   For every list and every room: the loop's selection is the greatest feasible one if and only if no job is
   refused for capacity that the jobs behind it could have made room for.
   */
  lemma GreedyIsGreatestExactly(room: Room, jobs: seq<JobSpec>)
    requires RoomOk(room)
    ensures GreedyIsGreatest(room, jobs) <==> forall k :: 0 <= k < |jobs| ==> !ComesTooLate(room, jobs, k)
  {
    if k :| 0 <= k < |jobs| && ComesTooLate(room, jobs, k) {
      var other := TooLateMeansGreater(room, jobs, k);
    } else {
      forall other | Feasible(room, jobs, other) ensures LexAtLeast(Greedy(room, jobs), other) {
        if Greedy(room, jobs) != other {
          var k := FirstDifference(Greedy(room, jobs), other);
          if other[k] {
            GreaterMeansTooLate(room, jobs, other, k);
          }
        }
      }
    }
  }

  // ---- Any company in any room ----

  function TopPriority(jobs: seq<JobSpec>): (top: int)
    ensures forall k :: 0 <= k < |jobs| ==> jobs[k].priority <= top
  {
    if jobs == [] then 0
    else
      var top := TopPriority(jobs[..|jobs| - 1]);
      if jobs[|jobs| - 1].priority > top then jobs[|jobs| - 1].priority else top
  }

  /** A job that comes before all others and wants more than an empty room has. */
  function Spoiler(jobs: seq<JobSpec>): JobSpec {
    JobSpec("", "remote", TopPriority(jobs) + 1, false, Some(1))
  }

  lemma SpoilerComesFirst(jobs: seq<JobSpec>)
    ensures var sorted := SortJobs([Spoiler(jobs)] + jobs); |sorted| == |jobs| + 1 && sorted[0] == Spoiler(jobs)
  {
    var all := [Spoiler(jobs)] + jobs;
    var sorted := SortJobs(all);
    SortIsInOrder(all);
    assert |multiset(sorted)| == |multiset(all)|;
    assert all[0] in multiset(sorted);
    var i :| 0 <= i < |sorted| && sorted[i] == Spoiler(jobs);
    assert sorted[0] in multiset(all);
    assert sorted[0] in all;
    forall job | job in jobs ensures Before(Spoiler(jobs), job) {
    }
  }

  lemma NegativeJobIsBehind(jobs: seq<JobSpec>, i: nat)
    requires i < |jobs| && jobs[i].Capacity() < 0
    ensures var rest := SortJobs([Spoiler(jobs)] + jobs)[1..]; Returnable(rest, 1, true) > 0
  {
    var all := [Spoiler(jobs)] + jobs;
    var sorted := SortJobs(all);
    SpoilerComesFirst(jobs);
    hide SortJobs, Returnable, TopPriority;
    assert all[i + 1] == jobs[i] && jobs[i] in multiset(sorted);
    var k :| 0 <= k < |sorted| && sorted[k] == jobs[i];
    assert sorted[1..][k - 1] == jobs[i];
    AtLeastOneReturns(sorted[1..], 1, k - 1);
  }

  lemma SpoilerIsTooEarly(jobs: seq<JobSpec>, i: nat)
    requires i < |jobs| && jobs[i].Capacity() < 0
    ensures ComesTooLate(Room(2, 0, false), SortJobs([Spoiler(jobs)] + jobs), 0)
  {
    hide SortJobs, Returnable, TopPriority, ComesTooLate;
    SpoilerComesFirst(jobs);
    NegativeJobIsBehind(jobs, i);
    FirstComesTooLate(SortJobs([Spoiler(jobs)] + jobs));
  }

  lemma FirstComesTooLate(jobs: seq<JobSpec>)
    requires jobs != [] && jobs[0].kind == "remote" && jobs[0].Capacity() == 1 && Returnable(jobs[1..], 1, true) > 0
    ensures ComesTooLate(Room(2, 0, false), jobs, 0)
  {
    assert jobs[..0] == [] && [] + [jobs[0]] == [jobs[0]];
    OneMore([], jobs[0]);
  }

  /** Whatever other jobs without negative units are planned along with these, and whatever room there is. */
  ghost predicate SafeInAnyCompany(jobs: seq<JobSpec>) {
    forall room, company {:trigger SafeWith(jobs, room, company)} ::
      RoomOk(room) && NoNegativeUnits(company) ==> SafeWith(jobs, room, company)
  }

  ghost predicate SafeWith(jobs: seq<JobSpec>, room: Room, company: seq<JobSpec>) {
    GreedyIsGreatest(room, SortJobs(company + jobs))
  }

  /**
   Jobs are safe for the greedy loop, in every company and every room, if and only if none of them has
   negative units.
   */
  lemma SafeExactlyWithoutNegativeUnits(jobs: seq<JobSpec>)
    ensures SafeInAnyCompany(jobs) <==> NoNegativeUnits(jobs)
  {
    hide SafeWith, Spoiler;
    if NoNegativeUnits(jobs) {
      forall room, company | RoomOk(room) && NoNegativeUnits(company) ensures SafeWith(jobs, room, company) {
        CompanyIsSafe(jobs, room, company);
      }
    } else {
      var i :| 0 <= i < |jobs| && jobs[i].Capacity() < 0;
      SpoilerShows(jobs, i);
    }
  }

  lemma SpoilerShows(jobs: seq<JobSpec>, i: nat)
    requires i < |jobs| && jobs[i].Capacity() < 0
    ensures NoNegativeUnits([Spoiler(jobs)]) && !SafeWith(jobs, Room(2, 0, false), [Spoiler(jobs)])
  {
    hide SortJobs, GreedyIsGreatest, ComesTooLate, TopPriority;
    SpoilerIsTooEarly(jobs, i);
    GreedyIsGreatestExactly(Room(2, 0, false), SortJobs([Spoiler(jobs)] + jobs));
  }

  lemma CompanyIsSafe(jobs: seq<JobSpec>, room: Room, company: seq<JobSpec>)
    requires RoomOk(room) && NoNegativeUnits(company) && NoNegativeUnits(jobs)
    ensures SafeWith(jobs, room, company)
  {
    var all := company + jobs;
    var sorted := SortJobs(all);
    forall k | 0 <= k < |sorted| ensures sorted[k].Capacity() >= 0 {
      assert sorted[k] in multiset(all);
      var m :| 0 <= m < |all| && all[m] == sorted[k];
    }
    forall other | Feasible(room, sorted, other) ensures LexAtLeast(Greedy(room, sorted), other) {
      GreedyIsLexGreatest(room, sorted, other);
    }
  }
}
