/**
 The Observe-Decide-Act-Verify-Recover loop, run against every possible adapter
 (src/hermes_harness/browser_operator.py).
 */
module BrowserService {
  import opened Common
  import opened Json
  import opened BrowserModel

  /** The adapter and the callbacks: every call may answer anything or raise, and is recorded. */
  class Environment {
    ghost var trace: seq<Call>

    constructor ()
      ensures trace == []
    {
      trace := [];
    }

    method Cancel() returns (r: Answer<bool>)
      modifies this
      ensures trace == old(trace) + [CancelAsked(r)]
    {
      r := *;
      trace := trace + [CancelAsked(r)];
    }

    method Observe() returns (r: Answer<Observation>)
      modifies this
      ensures trace == old(trace) + [Observed(r)]
    {
      r := *;
      trace := trace + [Observed(r)];
    }

    method Review(before: Observation) returns (r: Answer<bool>)
      modifies this
      ensures trace == old(trace) + [Reviewed(before, r)]
    {
      r := *;
      trace := trace + [Reviewed(before, r)];
    }

    method Screenshot() returns (r: Answer<string>)
      modifies this
      ensures trace == old(trace) + [Shot(r)]
    {
      r := *;
      trace := trace + [Shot(r)];
    }

    method Act(action: Action) returns (r: Answer<()>)
      modifies this
      ensures trace == old(trace) + [Acted(action, r)]
    {
      r := *;
      trace := trace + [Acted(action, r)];
    }

    method Verify(action: Action, before: Observation, after: Observation) returns (r: Answer<bool>)
      modifies this
      ensures trace == old(trace) + [Verified(action, before, after, r)]
    {
      r := *;
      trace := trace + [Verified(action, before, after, r)];
    }

    /** An exception here is swallowed, so the attempt is all that matters. */
    method DeleteScreenshot(file: string)
      modifies this
      ensures trace == old(trace) + [Deleted(file)]
    {
      trace := trace + [Deleted(file)];
    }
  }

  /** The local variables of one `run`. */
  class BrowserRun {
    const env: Environment
    const setup: Setup
    var shots: seq<string>
    var invalidated: set<string>
    var solReviews: nat
    var seen: set<Fingerprint>

    constructor (env: Environment, setup: Setup)
      ensures this.env == env && this.setup == setup
      ensures shots == [] && invalidated == {} && solReviews == 0 && seen == {}
    {
      this.env, this.setup := env, setup;
      shots, invalidated, solReviews, seen := [], {}, 0, {};
    }

    /** The variables say what the trace says. */
    ghost predicate InSync()
      reads this, env
    {
      shots == Shots(env.trace) && invalidated == StaleRefs(env.trace) && solReviews == Reviews(env.trace)
    }

    /** The calls of the current step, `calls`, end the trace. */
    ghost predicate Stepping(step: Step, prior: seq<Call>, calls: seq<Call>)
      reads this, env
    {
      env.trace == prior + calls && InSync() && StepOk(setup, step, calls)
    }

    lemma LastPageOfStep(prior: seq<Call>, calls: seq<Call>)
      requires LastPage(calls).Some?
      ensures LastPage(prior + calls) == LastPage(calls)
    {
      var n := |calls| - 1;
      assert prior + calls == prior + calls[..n] + [calls[n]];
      AppendCall(prior + calls[..n], calls[n]);
      AppendCall(calls[..n], calls[n]);
      assert calls == calls[..n] + [calls[n]];
      if !(calls[n].Observed? && calls[n].page.Ok?) {
        LastPageOfStep(prior, calls[..n]);
      }
    }

    // ---- One call each, with the bookkeeping that goes with it ----

    method AskCancel(step: Step, ghost prior: seq<Call>, ghost calls: seq<Call>)
        returns (r: Answer<bool>, ghost more: seq<Call>)
      requires Stepping(step, prior, calls) && calls == []
      modifies env
      ensures more == calls + [CancelAsked(r)] && Stepping(step, prior, more) && (r == Ok(false) ==> Calm(more))
      ensures Acts(more) == Acts(calls) && Shots(more) == Shots(calls) && Reviews(more) == Reviews(calls)
    {
      AppendToTrace(prior, calls);
      r := env.Cancel();
      more := calls + [CancelAsked(r)];
      CallFollows(setup, step, calls, CancelAsked(r));
      AppendCall(calls, CancelAsked(r));
    }

    method Observe(step: Step, ghost prior: seq<Call>, ghost calls: seq<Call>)
        returns (r: Answer<Observation>, ghost more: seq<Call>)
      requires Stepping(step, prior, calls) && Calm(calls)
      modifies env
      ensures more == calls + [Observed(r)] && Stepping(step, prior, more) && (r.Ok? ==> Calm(more))
      ensures Acts(more) == Acts(calls) && Shots(more) == Shots(calls) && Reviews(more) == Reviews(calls)
    {
      AppendToTrace(prior, calls);
      r := env.Observe();
      more := calls + [Observed(r)];
      CallFollows(setup, step, calls, Observed(r));
      AppendCall(calls, Observed(r));
    }

    method Review(step: Step, before: Observation, ghost prior: seq<Call>, ghost calls: seq<Call>)
        returns (r: Answer<bool>, ghost more: seq<Call>)
      requires Stepping(step, prior, calls) && Calm(calls) && Reviews(calls) == 0
      requires step.action.risk == Critical || before.visualConflict
      modifies this`solReviews, env
      ensures more == calls + [Reviewed(before, r)] && Stepping(step, prior, more) && (r.Ok? ==> Calm(more))
      ensures Acts(more) == Acts(calls) && Shots(more) == Shots(calls)
    {
      AppendToTrace(prior, calls);
      solReviews := solReviews + 1;
      r := env.Review(before);
      more := calls + [Reviewed(before, r)];
      CallFollows(setup, step, calls, Reviewed(before, r));
      AppendCall(calls, Reviewed(before, r));
    }

    method Screenshot(step: Step, ghost prior: seq<Call>, ghost calls: seq<Call>)
        returns (r: Answer<string>, ghost more: seq<Call>)
      requires Stepping(step, prior, calls) && Calm(calls) && Shots(calls) == []
      modifies this`shots, env
      ensures more == calls + [Shot(r)] && Stepping(step, prior, more) && (r.Ok? ==> Calm(more) && Shots(more) != [])
      ensures Acts(more) == Acts(calls)
    {
      AppendToTrace(prior, calls);
      r := env.Screenshot();
      if r.Ok? {
        shots := shots + [r.value];
      }
      more := calls + [Shot(r)];
      CallFollows(setup, step, calls, Shot(r));
      AppendCall(calls, Shot(r));
    }

    /** Acts on the page that was seen last, whose references are stale from then on. */
    method Act(step: Step, action: Action, page: Observation, ghost before: Observation, ghost prior: seq<Call>,
               ghost calls: seq<Call>)
        returns (r: Answer<()>, ghost more: seq<Call>)
      requires Stepping(step, prior, calls) && Calm(calls) && LastPage(calls) == Some(page)
      requires StartPage(setup, calls, before) && Cleared(setup, step, calls, before) && Shots(calls) != []
      requires || (Acts(calls) == [] && action == step.action)
               || (Acts(calls) == [step.action] && step.action.risk == Reversible && action == Equivalent(step.action))
      modifies this`invalidated, env
      ensures more == calls + [Acted(action, r)] && Stepping(step, prior, more) && (r.Ok? ==> Calm(more))
      ensures Acts(more) == Acts(calls) + [action]
    {
      r := env.Act(action);
      if r.Ok? {
        invalidated := invalidated + page.refs;
      }
      more := calls + [Acted(action, r)];
      Regroup(prior, calls, [Acted(action, r)]);
      PageGoesStale(prior, calls, page, action, r);
      ActFollows(setup, step, calls, before, action, r);
      AppendCall(calls, Acted(action, r));
    }

    lemma PageGoesStale(prior: seq<Call>, calls: seq<Call>, page: Observation, action: Action, r: Answer<()>)
      requires LastPage(calls) == Some(page)
      ensures var after := prior + calls + [Acted(action, r)];
        && Shots(after) == Shots(prior + calls) && Reviews(after) == Reviews(prior + calls)
        && StaleRefs(after) == StaleRefs(prior + calls) + if r.Ok? then page.refs else {}
    {
      LastPageOfStep(prior, calls);
      AppendCall(prior + calls, Acted(action, r));
    }

    method Verify(step: Step, before: Observation, after: Observation, ghost prior: seq<Call>, ghost calls: seq<Call>)
        returns (r: Answer<bool>, ghost more: seq<Call>)
      requires Stepping(step, prior, calls) && Calm(calls)
      modifies env
      ensures more == calls + [Verified(step.action, before, after, r)] && Stepping(step, prior, more)
      ensures r.Ok? ==> Calm(more)
      ensures Acts(more) == Acts(calls)
    {
      AppendToTrace(prior, calls);
      r := env.Verify(step.action, before, after);
      more := calls + [Verified(step.action, before, after, r)];
      CallFollows(setup, step, calls, Verified(step.action, before, after, r));
      AppendCall(calls, Verified(step.action, before, after, r));
    }

    // ---- One step ----

    /** Ready to act: a page seen for the first time, confident enough, and reviewed where needed. */
    ghost predicate Ready(step: Step, prior: seq<Call>, calls: seq<Call>, before: Observation)
      reads this, env
    {
      && Stepping(step, prior, calls) && Calm(calls) && Acts(calls) == [] && Shots(calls) == []
      && StartPage(setup, calls, before) && LastPage(calls) == Some(before)
    }

    /** Asks for cancellation, then looks at the page. */
    method Look(step: Step, ghost prior: seq<Call>)
        returns (page: Option<Observation>, v: Verdict, ghost calls: seq<Call>)
      requires env.trace == prior && InSync()
      modifies env
      ensures page.Some? ==> Ready(step, prior, calls, page.value) && Reviews(calls) == 0
      ensures page.None? ==> Stepping(step, prior, calls) && Explained(setup, step, seen, calls, v) && v != Done
    {
      calls := [];
      NoCallsYet(setup, step);
      assert prior + [] == prior;
      if setup.hasCancel {
        var cancel;
        cancel, calls := AskCancel(step, prior, calls);
        if cancel.Err? {
          return None, Failed, calls;
        }
        if cancel.value {
          return None, Cancelled, calls;
        }
      }
      ghost var asked := calls;
      var before;
      before, calls := Observe(step, prior, calls);
      if before.Err? {
        return None, Failed, calls;
      }
      AppendCall(asked, Observed(before));
      return Some(before.value), Done, calls;
    }

    /** Everything before the screenshot. */
    method Prepare(step: Step, ghost prior: seq<Call>)
        returns (page: Option<Observation>, v: Verdict, ghost calls: seq<Call>)
      requires env.trace == prior && InSync()
      modifies this`seen, this`solReviews, env
      ensures page.Some? ==>
        && Ready(step, prior, calls, page.value) && Cleared(setup, step, calls, page.value)
        && FingerprintOf(page.value) !in old(seen) && seen == old(seen) + {FingerprintOf(page.value)}
      ensures page.None? ==> Stepping(step, prior, calls) && Explained(setup, step, old(seen), calls, v) && v != Done
    {
      hide StepOk, Acts, LastPage, Shots, Reviews, StaleRefs, VerifiedStep, FingerprintOf;
      page, v, calls := Look(step, prior);
      if page.None? {
        return;
      }
      var before := page.value;
      var fingerprint := FingerprintOf(before);
      if fingerprint in seen {
        return None, NeedInput(CycleDetected), calls;
      }
      seen := seen + {fingerprint};
      if step.confidence < setup.threshold {
        return None, NeedInput(LowConfidence), calls;
      }
      if step.action.risk == Critical || before.visualConflict {
        if !setup.hasReview {
          return None, NeedInput(ReviewRequired), calls;
        }
        ghost var looked := calls;
        var accepted;
        accepted, calls := Review(step, before, prior, calls);
        FactsKept(setup, step, looked, before, Reviewed(before, accepted));
        AppendCall(looked, Reviewed(before, accepted));
        if accepted.Err? {
          return None, Failed, calls;
        }
        if !accepted.value {
          return None, NeedInput(ReviewRejected), calls;
        }
      }
    }

    /** Looks again after an action and lets the adapter verify the change. */
    method Check(step: Step, before: Observation, ghost start: Observation, action: Action, ghost prior: seq<Call>,
                 ghost acted: seq<Call>)
        returns (fine: Answer<bool>, after: Option<Observation>, ghost calls: seq<Call>)
      requires Stepping(step, prior, acted) && Calm(acted) && StartPage(setup, acted, start)
      requires |acted| > 0 && acted[|acted| - 1].Acted? && acted[|acted| - 1].done.Ok?
      requires acted[|acted| - 1].action == action && action in [step.action, Equivalent(step.action)]
      requires LastPage(acted[..|acted| - 1]) == Some(before)
      modifies env
      ensures Stepping(step, prior, calls) && Acts(calls) == Acts(acted) && acted <= calls
      ensures StartPage(setup, calls, start) && |calls| > 0
      ensures fine.Err? ==> calls[|calls| - 1].Raised()
      ensures fine.Ok? ==>
        && after.Some? && Calm(calls) && LastPage(calls) == after
        && calls[|calls| - 1] == Verified(step.action, before, after.value, fine)
      ensures fine == Ok(true) ==> VerifiedStep(step, calls)
    {
      hide Stepping, Calm, StartPage, Shots, Acts, LastPage, Reviews, StaleRefs, Equivalent;
      var page;
      page, calls := Observe(step, prior, acted);
      FactsKept(setup, step, acted, start, Observed(page));
      AppendCall(acted, Observed(page));
      if page.Err? {
        return Err(()), None, calls;
      }
      ghost var looked := calls;
      fine, calls := Verify(step, before, page.value, prior, calls);
      FactsKept(setup, step, looked, start, Verified(step.action, before, page.value, fine));
      AppendCall(looked, Verified(step.action, before, page.value, fine));
      assert calls[..|calls| - 3] == acted[..|acted| - 1];
      after := Some(page.value);
    }

    /** The screenshot and the action. */
    method Strike(step: Step, before: Observation, ghost prior: seq<Call>, ghost prepared: seq<Call>)
        returns (done: Answer<()>, ghost calls: seq<Call>)
      requires Ready(step, prior, prepared, before) && Cleared(setup, step, prepared, before)
      modifies this`shots, this`invalidated, env
      ensures Stepping(step, prior, calls) && StartPage(setup, calls, before) && |calls| > 0
      ensures done.Err? ==> calls[|calls| - 1].Raised()
      ensures done.Ok? ==>
        && Calm(calls) && Acts(calls) == [step.action] && calls[|calls| - 1] == Acted(step.action, done)
        && Cleared(setup, step, calls, before) && Shots(calls) != []
        && LastPage(calls[..|calls| - 1]) == Some(before)
    {
      hide Stepping, Calm, StartPage, Cleared, Shots, Acts, LastPage, StaleRefs, Reviews;
      var path;
      path, calls := Screenshot(step, prior, prepared);
      FactsKept(setup, step, prepared, before, Shot(path));
      AppendCall(prepared, Shot(path));
      if path.Err? {
        return Err(()), calls;
      }
      ghost var shown := calls;
      done, calls := Act(step, step.action, before, before, prior, calls);
      FactsKept(setup, step, shown, before, Acted(step.action, done));
      AppendCall(shown, Acted(step.action, done));
      assert calls[..|calls| - 1] == shown;
    }

    /** The screenshot, the action and at most one retry of it. */
    method Carry(step: Step, before: Observation, ghost prior: seq<Call>, ghost prepared: seq<Call>)
        returns (v: Verdict, ghost calls: seq<Call>)
      requires Ready(step, prior, prepared, before) && Cleared(setup, step, prepared, before)
      modifies this`shots, this`invalidated, env
      ensures Stepping(step, prior, calls) && Explained(setup, step, seen, calls, v)
      ensures StartPage(setup, calls, before) && (v == Done ==> Calm(calls)) && v != NeedInput(CycleDetected)
    {
      hide *;
      var done, fine, after;
      done, calls := Strike(step, before, prior, prepared);
      if done.Err? {
        EndsRaised(setup, step, seen, calls);
        return Failed, calls;
      }
      ghost var acted := calls;
      fine, after, calls := Check(step, before, before, step.action, prior, acted);
      if fine.Err? {
        EndsRaised(setup, step, seen, calls);
        return Failed, calls;
      }
      if fine.value {
        EndsDone(setup, step, seen, calls);
        return Done, calls;
      }
      if step.action.risk != Reversible {
        EndsUnverified(setup, step, seen, calls, before);
        return NeedInput(VerificationFailed), calls;
      }
      ClearedStays(setup, step, acted, calls, before);
      v, calls := Retry(step, before, after.value, prior, calls);
    }

    /** Exactly one equivalent retry. */
    method Retry(step: Step, ghost start: Observation, after: Observation, ghost prior: seq<Call>,
                 ghost tried: seq<Call>)
        returns (v: Verdict, ghost calls: seq<Call>)
      requires Stepping(step, prior, tried) && Calm(tried)
      requires Acts(tried) == [step.action] && step.action.risk == Reversible
      requires StartPage(setup, tried, start) && Cleared(setup, step, tried, start) && Shots(tried) != []
      requires LastPage(tried) == Some(after)
      modifies this`invalidated, env
      ensures Stepping(step, prior, calls) && Explained(setup, step, seen, calls, v)
      ensures StartPage(setup, calls, start) && (v == Done ==> Calm(calls)) && v != NeedInput(CycleDetected)
    {
      hide Stepping, Calm, StartPage, Cleared, Shots, Acts, LastPage, Explained, VerifiedStep, Equivalent;
      var done;
      done, calls := Act(step, Equivalent(step.action), after, start, prior, tried);
      FactsKept(setup, step, tried, start, Acted(Equivalent(step.action), done));
      if done.Err? {
        EndsRaised(setup, step, seen, calls);
        return Failed, calls;
      }
      assert calls[..|calls| - 1] == tried;
      var fine, final;
      fine, final, calls := Check(step, after, start, Equivalent(step.action), prior, calls);
      if fine.Err? {
        EndsRaised(setup, step, seen, calls);
        return Failed, calls;
      }
      if fine.value {
        EndsDone(setup, step, seen, calls);
        return Done, calls;
      }
      EndsUnverified(setup, step, seen, calls, start);
      return NeedInput(VerificationFailed), calls;
    }

    method TakeStep(step: Step, ghost prior: seq<Call>)
        returns (v: Verdict, ghost calls: seq<Call>, ghost page: Observation)
      requires env.trace == prior && InSync()
      modifies this, env
      ensures Stepping(step, prior, calls) && Explained(setup, step, old(seen), calls, v)
      ensures v == Done ==>
        && StepDone(setup, step, calls, page)
        && FingerprintOf(page) !in old(seen) && seen == old(seen) + {FingerprintOf(page)}
    {
      var before;
      before, v, calls := Prepare(step, prior);
      page := Observation(Null, {}, false, Null);
      if before.Some? {
        page := before.value;
        v, calls := Carry(step, before.value, prior, calls);
      }
    }

    // ---- The run ----

    /** The question asked before the first step. */
    method Open() returns (v: Verdict, ghost start: seq<Call>)
      requires env.trace == [] && InSync()
      modifies env
      ensures InSync() && env.trace == start && Opening(setup, start)
      ensures v ==
        if start == [] || start[0].cancel == Ok(false) then Done
        else if start[0].cancel.Err? then Failed
        else Cancelled
    {
      start := [];
      if setup.hasCancel {
        AppendToTrace([], []);
        var cancel := env.Cancel();
        start := [CancelAsked(cancel)];
        return if cancel.Err? then Failed else if cancel.value then Cancelled else Done, start;
      }
      return Done, start;
    }

    /** The steps in order, up to the first that is not done. */
    method TakeSteps(steps: seq<Step>, ghost start: seq<Call>)
        returns (v: Verdict, ghost done: seq<seq<Call>>, ghost pages: seq<Observation>, ghost last: seq<Call>)
      requires env.trace == start && InSync() && seen == {}
      modifies this, env
      ensures InSync() && env.trace == start + Flatten(done) + last && Completed(setup, steps, done, pages)
      ensures v == Done ==> |done| == |steps| && last == []
      ensures v != Done ==>
        && |done| < |steps| && StepOk(setup, steps[|done|], last)
        && Explained(setup, steps[|done|], SeenOn(pages), last, v)
    {
      v, done, pages, last := Done, [], [], [];
      assert start + [] == start;
      for i := 0 to |steps|
        invariant InSync() && env.trace == start + Flatten(done) && |done| == i
        invariant Completed(setup, steps, done, pages) && seen == SeenOn(pages)
      {
        ghost var page;
        v, last, page := TakeStep(steps[i], start + Flatten(done));
        if v != Done {
          return;
        }
        done, pages := OneMoreDone(setup, steps, start, done, pages, last, page);
      }
      last := [];
      assert start + Flatten(done) + [] == start + Flatten(done);
      return Done, done, pages, [];
    }

    /**
     One run.  Whatever the adapter and the callbacks do: `body`, the calls of the run proper, ends as its
     verdict says, and then every screenshot it took gets exactly one delete attempt, in order.
     */
    method Run(steps: seq<Step>)
        returns (r: Result, ghost body: seq<Call>, ghost start: seq<Call>, ghost done: seq<seq<Call>>,
                 ghost pages: seq<Observation>, ghost last: seq<Call>)
      requires env.trace == [] && shots == [] && invalidated == {} && solReviews == 0 && seen == {}
      modifies this, env
      ensures body == start + Flatten(done) + last && Ended(setup, steps, start, done, pages, last, r.verdict)
      ensures env.trace == body + Deletions(Shots(body))
      ensures r.invalidated == StaleRefs(body)
      ensures r.solReviews == if r.verdict == Cancelled then 0 else Reviews(body)
    {
      var v;
      v, start := Open();
      done, pages, last := [], [], [];
      assert start + Flatten(done) + last == start;
      if v == Done {
        v, done, pages, last := TakeSteps(steps, start);
      }
      body := env.trace;
      // a run cancelled between two steps reports no reviews, whatever it had asked for
      r := Result(v, invalidated, if v == Cancelled then 0 else solReviews);
      for i := 0 to |shots|
        invariant shots == Shots(body) && env.trace == body + Deletions(shots)[..i]
      {
        env.DeleteScreenshot(shots[i]);
        assert body + Deletions(shots)[..i] + [Deleted(shots[i])] == body + Deletions(shots)[..i + 1];
      }
      assert Deletions(shots)[..|shots|] == Deletions(shots);
    }

    lemma AppendToTrace(prior: seq<Call>, calls: seq<Call>)
      requires env.trace == prior + calls
      ensures forall c :: env.trace + [c] == prior + (calls + [c])
      ensures forall c ::
        Shots(env.trace + [c]) == Shots(env.trace) + (if c.Shot? && c.path.Ok? then [c.path.value] else [])
      ensures forall c :: Reviews(env.trace + [c]) == Reviews(env.trace) + (if c.Reviewed? then 1 else 0)
      ensures forall c: Call :: !c.Acted? ==> StaleRefs(env.trace + [c]) == StaleRefs(env.trace)
    {
      forall c {
        AppendCall(env.trace, c);
      }
    }
  }
}
