/** What every run of the browser operator has in common, read off its trace. */
module BrowserTheorems {
  import opened Common
  import opened Json
  import opened BrowserModel

  /** The files handed to the cleanup. */
  function Removed(trace: seq<Call>): seq<string> {
    Collect(trace, (c: Call) => if c.Deleted? then Some(c.file) else None)
  }

  /** How often the step may be acted out. */
  function Allowance(step: Step): nat {
    if step.action.risk == Reversible then 2 else 1
  }

  function TotalAllowance(steps: seq<Step>): nat {
    if steps == [] then 0 else TotalAllowance(steps[..|steps| - 1]) + Allowance(steps[|steps| - 1])
  }

  function Body(start: seq<Call>, done: seq<seq<Call>>, last: seq<Call>): seq<Call> {
    start + Flatten(done) + last
  }

  lemma {:induction false} ActsOfBoth(a: seq<Call>, b: seq<Call>)
    ensures Acts(a + b) == Acts(a) + Acts(b)
  {
    if b == [] {
      assert a + b == a && Acts(b) == [] && Acts(a) + [] == Acts(a);
    } else {
      var n := |b| - 1;
      ActsOfBoth(a, b[..n]);
      assert a + b == a + b[..n] + [b[n]] && b == b[..n] + [b[n]];
      AppendCall(a + b[..n], b[n]);
      AppendCall(b[..n], b[n]);
      assert Acts(a) + (Acts(b[..n]) + (if b[n].Acted? then [b[n].action] else []))
          == Acts(a) + Acts(b[..n]) + (if b[n].Acted? then [b[n].action] else []);
    }
  }

  lemma {:induction false} CompletedActs(setup: Setup, steps: seq<Step>, done: seq<seq<Call>>, pages: seq<Observation>)
    requires Completed(setup, steps, done, pages)
    ensures |Acts(Flatten(done))| <= TotalAllowance(steps[..|done|])
    decreases |done|
  {
    if done == [] {
      assert Acts([]) == [];
    } else {
      var n := |done| - 1;
      assert StepDone(setup, steps[n], done[n], pages[n]);
      CompletedPrefix(setup, steps, done, pages);
      CompletedActs(setup, steps, done[..n], pages[..n]);
      ActsOfBoth(Flatten(done[..n]), done[n]);
      assert steps[..|done|][..n] == steps[..n];
    }
  }

  lemma CompletedPrefix(setup: Setup, steps: seq<Step>, done: seq<seq<Call>>, pages: seq<Observation>)
    requires Completed(setup, steps, done, pages) && done != []
    ensures Completed(setup, steps, done[..|done| - 1], pages[..|done| - 1])
  {
    var n := |done| - 1;
    forall i | 0 <= i < n ensures StepDone(setup, steps[i], done[..n][i], pages[..n][i]) {
      assert StepDone(setup, steps[i], done[i], pages[i]);
    }
    forall i, j | 0 <= i < j < n ensures FingerprintOf(pages[..n][i]) != FingerprintOf(pages[..n][j]) {
      assert pages[..n][i] == pages[i] && pages[..n][j] == pages[j];
    }
  }

  lemma {:induction false} AllowanceGrows(steps: seq<Step>, k: nat)
    requires k <= |steps|
    ensures TotalAllowance(steps[..k]) <= TotalAllowance(steps)
    ensures k < |steps| ==> TotalAllowance(steps[..k]) + Allowance(steps[k]) <= TotalAllowance(steps)
    decreases |steps|
  {
    if k == |steps| {
      assert steps[..k] == steps;
    } else {
      var front := steps[..|steps| - 1];
      assert steps[..k] == front[..k];
      AllowanceGrows(front, k);
      assert k < |front| ==> front[k] == steps[k];
      assert k == |front| ==> front[..k] == front;
    }
  }

  lemma OpeningDoesNotAct(setup: Setup, start: seq<Call>)
    requires Opening(setup, start)
    ensures Acts(start) == []
  {
    assert Acts([]) == [];
    if start != [] {
      assert start == [] + [start[0]];
      AppendCall([], start[0]);
    }
  }

  lemma LastStepActs(setup: Setup, steps: seq<Step>, start: seq<Call>, done: seq<seq<Call>>,
                     pages: seq<Observation>, last: seq<Call>, v: Verdict)
    requires Ended(setup, steps, start, done, pages, last, v)
    ensures |Acts(last)| <= if |done| < |steps| then Allowance(steps[|done|]) else 0
  {
    assert Acts([]) == [];
  }

  /** No run acts more often than once for each step it reaches, plus once for each of those that is reversible. */
  lemma RunsActSparingly(setup: Setup, steps: seq<Step>, start: seq<Call>, done: seq<seq<Call>>,
                         pages: seq<Observation>, last: seq<Call>, v: Verdict)
    requires Ended(setup, steps, start, done, pages, last, v)
    ensures |Acts(Body(start, done, last))| <= TotalAllowance(steps)
  {
    OpeningDoesNotAct(setup, start);
    LastStepActs(setup, steps, start, done, pages, last, v);
    CompletedActs(setup, steps, done, pages);
    AllowanceGrows(steps, |done|);
    ActsOfBoth(start + Flatten(done), last);
    ActsOfBoth(start, Flatten(done));
    hide Ended, Acts, TotalAllowance, Allowance, Flatten;
  }

  /** The calls of the k-th step: completed, or the one in which the run ended. */
  function CallsOf(done: seq<seq<Call>>, last: seq<Call>, k: nat): seq<Call> {
    if k < |done| then done[k] else if k == |done| then last else []
  }

  /** How a step that acts begins: cancellation is asked for and denied, and the page is looked at. */
  function Beginning(setup: Setup, before: Observation): seq<Call> {
    (if setup.hasCancel then [CancelAsked(Ok(false))] else []) + [Observed(Ok(before))]
  }

  /**
   However a run ends: no step acts more often than it is allowed to, and before each of its acts stand a
   confident step, the page it started from, an accepted review of that page where one is needed, and a screenshot.
   */
  lemma EveryActIsCleared(setup: Setup, steps: seq<Step>, start: seq<Call>, done: seq<seq<Call>>,
                          pages: seq<Observation>, last: seq<Call>, v: Verdict, k: nat)
    requires Ended(setup, steps, start, done, pages, last, v) && k < |steps|
    ensures |Acts(CallsOf(done, last, k))| <= Allowance(steps[k])
    ensures var calls := CallsOf(done, last, k);
      forall i :: 0 <= i < |calls| && calls[i].Acted? ==>
        && steps[k].confidence >= setup.threshold && Shots(calls[..i]) != []
        && exists before ::
             && Beginning(setup, before) <= calls[..i]
             && (steps[k].action.risk == Critical || before.visualConflict ==>
                   setup.hasReview && Reviewed(before, Ok(true)) in calls[..i])
    ensures var calls := CallsOf(done, last, k);
      && |Shots(calls)| <= 1 && Reviews(calls) <= 1
      && forall i :: 0 <= i < |calls| && calls[i].Reviewed? ==>
           steps[k].action.risk == Critical || calls[i].before.visualConflict
    ensures var acts := Acts(CallsOf(done, last, k));
      && (|acts| > 0 ==> acts[0] == steps[k].action)
      && (|acts| > 1 ==>
            && steps[k].action.risk == Reversible
            && acts[1].name == steps[k].action.name && acts[1].risk == steps[k].action.risk
            && (steps[k].action.equivalentKey.Some? && steps[k].action.equivalentKey.value != "" ==>
                  acts[1].equivalentKey == steps[k].action.equivalentKey)
            && (steps[k].action.equivalentKey in {None, Some("")} ==>
                  acts[1].equivalentKey == Some(steps[k].action.name)))
  {
    var calls := CallsOf(done, last, k);
    if k < |done| {
      assert StepDone(setup, steps[k], done[k], pages[k]);
    } else if calls == [] {
      assert Acts([]) == [];
    } else {
      assert StepOk(setup, steps[k], last);
    }
    forall i | 0 <= i < |calls| && calls[i].Acted?
      ensures && steps[k].confidence >= setup.threshold && Shots(calls[..i]) != []
              && exists before ::
                   && Beginning(setup, before) <= calls[..i]
                   && (steps[k].action.risk == Critical || before.visualConflict ==>
                         setup.hasReview && Reviewed(before, Ok(true)) in calls[..i])
    {
      assert ActsGuarded(setup, steps[k], calls);
      var before :| StartPage(setup, calls[..i], before) && Cleared(setup, steps[k], calls[..i], before) &&
        Shots(calls[..i]) != [];
      assert Beginning(setup, before) <= calls[..i];
    }
  }

  lemma {:induction false} CompletedStepsGoOn(setup: Setup, steps: seq<Step>, done: seq<seq<Call>>,
                                              pages: seq<Observation>)
    requires Completed(setup, steps, done, pages)
    ensures forall c :: c in Flatten(done) ==> !c.Raised() && c != CancelAsked(Ok(true))
    decreases |done|
  {
    if done != [] {
      var n := |done| - 1;
      assert StepDone(setup, steps[n], done[n], pages[n]);
      CompletedPrefix(setup, steps, done, pages);
      CompletedStepsGoOn(setup, steps, done[..n], pages[..n]);
    }
  }

  /** The last step of a run goes on up to its last call, which is why it ended. */
  lemma LastStepStops(setup: Setup, step: Step, seen: set<Fingerprint>, calls: seq<Call>, v: Verdict)
    requires StepOk(setup, step, calls) && Explained(setup, step, seen, calls, v)
    ensures forall i :: 0 <= i < |calls| - 1 ==> !calls[i].Raised() && calls[i] != CancelAsked(Ok(true))
    ensures v == Failed <==> calls[|calls| - 1].Raised()
    ensures v == Cancelled <==> calls[|calls| - 1] == CancelAsked(Ok(true))
  {
    hide ActsBounded, ActsGuarded, ReviewsNeeded, Shots, Reviews, Acts;
  }

  /**
   A run fails exactly if some call raised, and is cancelled exactly if some cancel question was answered yes;
   that call is the last one before the cleanup.
   */
  lemma StopsExactly(setup: Setup, steps: seq<Step>, start: seq<Call>, done: seq<seq<Call>>, pages: seq<Observation>,
                     last: seq<Call>, v: Verdict)
    requires Ended(setup, steps, start, done, pages, last, v)
    ensures var body := Body(start, done, last);
      && (v == Failed <==> exists c :: c in body && c.Raised())
      && (v == Cancelled <==> CancelAsked(Ok(true)) in body)
      && forall i :: 0 <= i < |body| - 1 ==> !body[i].Raised() && body[i] != CancelAsked(Ok(true))
  {
    CompletedStepsGoOn(setup, steps, done, pages);
    var front := start + Flatten(done);
    if start != [] && start[0] != CancelAsked(Ok(false)) {
      assert Flatten([]) == [];
      OpeningStops(start, Body(start, done, last));
    } else if last == [] {
      FrontGoesOn(start, done);
      assert Body(start, done, last) == front;
    } else {
      FrontGoesOn(start, done);
      LastStepStops(setup, steps[|done|], SeenOn(pages), last, v);
      hide StepOk, Explained, Completed, Flatten;
      var body := front + last;
      assert body[|body| - 1] == last[|last| - 1];
      forall i | 0 <= i < |body| - 1 ensures !body[i].Raised() && body[i] != CancelAsked(Ok(true)) {
        assert i < |front| ==> body[i] in front;
        assert i >= |front| ==> body[i] == last[i - |front|];
      }
    }
  }

  lemma OpeningStops(start: seq<Call>, body: seq<Call>)
    requires |start| == 1 && start[0].CancelAsked? && start[0].cancel != Ok(false) && body == start
    ensures start[0].Raised() <==> exists c :: c in body && c.Raised()
    ensures !start[0].Raised() <==> CancelAsked(Ok(true)) in body
  {
    assert start[0] in body;
    match start[0].cancel
    case Ok(yes) => assert yes && start[0] == CancelAsked(Ok(true));
    case Err(_) => assert CancelAsked(Ok(true)) !in body;
  }

  lemma FrontGoesOn(start: seq<Call>, done: seq<seq<Call>>)
    requires start == [] || start == [CancelAsked(Ok(false))]
    requires forall c :: c in Flatten(done) ==> !c.Raised() && c != CancelAsked(Ok(true))
    ensures var front := start + Flatten(done);
      && (forall c :: c in front ==> !c.Raised() && c != CancelAsked(Ok(true)))
      && forall i :: 0 <= i < |front| ==> !front[i].Raised() && front[i] != CancelAsked(Ok(true))
  {
    var front := start + Flatten(done);
    forall i | 0 <= i < |front| ensures !front[i].Raised() && front[i] != CancelAsked(Ok(true)) {
      assert i >= |start| ==> front[i] in Flatten(done);
    }
  }

  /** The i-th call of the trace saw the page, and none behind it saw another. */
  ghost predicate SeenLastAt(trace: seq<Call>, i: int, page: Observation) {
    && 0 <= i < |trace| && trace[i] == Observed(Ok(page))
    && forall j :: i < j < |trace| ==> !(trace[j].Observed? && trace[j].page.Ok?)
  }

  lemma {:induction false} LastPageIsExact(trace: seq<Call>, page: Observation)
    ensures LastPage(trace) == Some(page) <==> exists i :: SeenLastAt(trace, i, page)
  {
    if trace != [] {
      var n := |trace| - 1;
      if trace[n].Observed? && trace[n].page.Ok? {
        assert SeenLastAt(trace, n, trace[n].page.value);
        assert forall i :: SeenLastAt(trace, i, page) ==> i == n;
      } else {
        LastPageIsExact(trace[..n], page);
        if i :| SeenLastAt(trace[..n], i, page) {
          assert SeenLastAt(trace, i, page);
        }
        if i :| SeenLastAt(trace, i, page) {
          assert SeenLastAt(trace[..n], i, page);
        }
      }
    }
  }

  /** The i-th call acted while the reference was on the page that had been seen last. */
  ghost predicate StaleFrom(trace: seq<Call>, i: int, ref: string) {
    && 0 <= i < |trace| && trace[i].Acted? && trace[i].done.Ok?
    && LastPage(trace[..i]).Some? && ref in LastPage(trace[..i]).value.refs
  }

  /** A reference is reported invalid exactly if some act succeeded while it was visible. */
  lemma {:induction false} StaleRefsAreExact(trace: seq<Call>, ref: string)
    ensures ref in StaleRefs(trace) <==> exists i :: StaleFrom(trace, i, ref)
  {
    if trace != [] {
      var n := |trace| - 1;
      StaleRefsAreExact(trace[..n], ref);
      assert StaleFrom(trace, n, ref) <==>
        trace[n].Acted? && trace[n].done.Ok? && ref in VisibleRefs(trace[..n]);
      if i :| StaleFrom(trace[..n], i, ref) {
        assert trace[..n][..i] == trace[..i];
        assert StaleFrom(trace, i, ref);
      }
      if i :| StaleFrom(trace, i, ref) {
        assert i < n ==> trace[..n][..i] == trace[..i];
        assert i < n ==> StaleFrom(trace[..n], i, ref);
      }
    }
  }

  function ReviewCalls(trace: seq<Call>): set<int> {
    set i | 0 <= i < |trace| && trace[i].Reviewed?
  }

  /** Every review asked for is counted. */
  lemma {:induction false} ReviewsAreCounted(trace: seq<Call>)
    ensures Reviews(trace) == |ReviewCalls(trace)|
  {
    if trace != [] {
      var n := |trace| - 1;
      ReviewsAreCounted(trace[..n]);
      var before := ReviewCalls(trace[..n]);
      assert ReviewCalls(trace) == if trace[n].Reviewed? then before + {n} else before;
    }
  }

  /** Every screenshot taken is remembered. */
  lemma {:induction false} ShotsAreExact(trace: seq<Call>, file: string)
    ensures file in Shots(trace) <==> Shot(Ok(file)) in trace
  {
    assert Shots([]) == [];
    if trace != [] {
      var n := |trace| - 1;
      assert trace == trace[..n] + [trace[n]];
      AppendCall(trace[..n], trace[n]);
      ShotsAreExact(trace[..n], file);
      hide Shots, Acts, Reviews, StaleRefs, LastPage;
    }
  }

  /** Two pages count as the same exactly if they differ at most in their timestamps and screenshots. */
  lemma FingerprintsAgreeExactly(a: Observation, b: Observation, noise: Json)
    ensures FingerprintOf(a) == FingerprintOf(b) <==> a.(noise := noise) == b.(noise := noise)
  {
  }

  /** A successful run: every step acted in order, the planned action first, and its last act verified. */
  lemma SuccessActsOutEveryStep(setup: Setup, steps: seq<Step>, start: seq<Call>, done: seq<seq<Call>>,
                                pages: seq<Observation>, last: seq<Call>, i: nat)
    requires Ended(setup, steps, start, done, pages, last, Done) && i < |steps|
    ensures |done| == |steps| == |pages|
    ensures Acts(done[i]) in [[steps[i].action], [steps[i].action, Equivalent(steps[i].action)]]
    ensures VerifiedStep(steps[i], done[i]) && steps[i].confidence >= setup.threshold
    ensures forall j :: 0 <= j < i ==> pages[j].(noise := Null) != pages[i].(noise := Null)
  {
    assert StepDone(setup, steps[i], done[i], pages[i]);
    var calls, n := done[i], |done[i]| - 3;
    assert calls[n].Acted?;
    ActedShows(calls, n);
    assert ActsGuarded(setup, steps[i], calls);
    var before :| StartPage(setup, calls[..n], before) && Cleared(setup, steps[i], calls[..n], before);
  }

  lemma {:induction false} ActedShows(calls: seq<Call>, n: nat)
    requires n < |calls| && calls[n].Acted?
    ensures Acts(calls) != []
    decreases |calls|
  {
    if n < |calls| - 1 {
      ActedShows(calls[..|calls| - 1], n);
    }
  }

  ghost predicate NothingDeleted(trace: seq<Call>) {
    forall c :: c in trace ==> !c.Deleted?
  }

  lemma {:induction false} FlattenDeletesNothing(setup: Setup, steps: seq<Step>, done: seq<seq<Call>>,
                                                 pages: seq<Observation>)
    requires Completed(setup, steps, done, pages)
    ensures NothingDeleted(Flatten(done))
    decreases |done|
  {
    if done != [] {
      var n := |done| - 1;
      assert StepDone(setup, steps[n], done[n], pages[n]);
      CompletedPrefix(setup, steps, done, pages);
      FlattenDeletesNothing(setup, steps, done[..n], pages[..n]);
    }
  }

  lemma {:induction false} RemovedBy(body: seq<Call>, files: seq<string>)
    requires NothingDeleted(body)
    ensures Removed(body + Deletions(files)) == files
    decreases |files|, |body|
  {
    var all := body + Deletions(files);
    if files == [] {
      assert all == body;
      if body != [] {
        var front := body[..|body| - 1];
        assert front + Deletions([]) == front;
        RemovedBy(front, files);
      }
    } else {
      var n := |files| - 1;
      assert all[..|all| - 1] == body + Deletions(files[..n]);
      RemovedBy(body, files[..n]);
    }
  }

  /** However a run ends, the cleanup comes after its last act and attempts one delete for each screenshot taken. */
  lemma CleanupIsExact(setup: Setup, steps: seq<Step>, start: seq<Call>, done: seq<seq<Call>>, pages: seq<Observation>,
                       last: seq<Call>, v: Verdict, trace: seq<Call>)
    requires Ended(setup, steps, start, done, pages, last, v)
    requires trace == Body(start, done, last) + Deletions(Shots(Body(start, done, last)))
    ensures Removed(trace) == Shots(Body(start, done, last))
    ensures forall i, j :: 0 <= i < j < |trace| && trace[i].Deleted? ==> !trace[j].Acted?
  {
    var body := Body(start, done, last);
    FlattenDeletesNothing(setup, steps, done, pages);
    assert NothingDeleted(last);
    assert NothingDeleted(body);
    RemovedBy(body, Shots(body));
  }
}
