/** Traces of the browser operator: the calls it makes and what the environment answers. */
module BrowserModel {
  import opened Common
  import opened Json

  datatype Risk = Reversible | Persistent | Critical

  datatype Action = Action(name: string, risk: Risk, equivalentKey: Option<string>)

  datatype Step = Step(action: Action, confidence: real)

  /** A page; `noise` are its timestamp and screenshot, which the fingerprint leaves out. */
  datatype Observation = Observation(content: Json, refs: set<string>, visualConflict: bool, noise: Json)

  /** SHA-256 of the stable part of an observation, taken to be injective. */
  datatype Fingerprint = Sha256(content: Json, refs: set<string>, visualConflict: bool)

  function FingerprintOf(o: Observation): Fingerprint {
    Sha256(o.content, o.refs, o.visualConflict)
  }

  /** What a call into the adapter or a callback gives: a value, or any exception. */
  type Answer<+T> = Outcome<T, ()>

  datatype Call =
    | CancelAsked(cancel: Answer<bool>)
    | Observed(page: Answer<Observation>)
    | Reviewed(before: Observation, accepted: Answer<bool>)
    | Shot(path: Answer<string>)
    | Acted(action: Action, done: Answer<()>)
    | Verified(action: Action, before: Observation, after: Observation, fine: Answer<bool>)
    | Deleted(file: string)
  {
    predicate Raised() {
      match this
      case CancelAsked(r) => r.Err?
      case Observed(r) => r.Err?
      case Reviewed(_, r) => r.Err?
      case Shot(r) => r.Err?
      case Acted(_, r) => r.Err?
      case Verified(_, _, _, r) => r.Err?
      case Deleted(_) => false
    }

    /** The call raised, or the cancel callback said yes: nothing but the cleanup may follow. */
    predicate Stops() {
      Raised() || this == CancelAsked(Ok(true))
    }
  }

  datatype Verdict = Done | Cancelled | NeedInput(reason: Reason) | Failed

  datatype Reason = CycleDetected | LowConfidence | ReviewRequired | ReviewRejected | VerificationFailed

  datatype Result = Result(verdict: Verdict, invalidated: set<string>, solReviews: nat)

  // ---- Reading a trace ----

  function Shots(trace: seq<Call>): seq<string> {
    Collect(trace, (c: Call) => if c.Shot? && c.path.Ok? then Some(c.path.value) else None)
  }

  function Acts(trace: seq<Call>): seq<Action> {
    Collect(trace, (c: Call) => if c.Acted? then Some(c.action) else None)
  }

  function Reviews(trace: seq<Call>): nat {
    if trace == [] then 0 else Reviews(trace[..|trace| - 1]) + if trace[|trace| - 1].Reviewed? then 1 else 0
  }

  /** The page that was seen last. */
  function LastPage(trace: seq<Call>): Option<Observation> {
    if trace == [] then None
    else
      var last := trace[|trace| - 1];
      if last.Observed? && last.page.Ok? then Some(last.page.value) else LastPage(trace[..|trace| - 1])
  }

  function VisibleRefs(trace: seq<Call>): set<string> {
    if LastPage(trace).Some? then LastPage(trace).value.refs else {}
  }

  /** Every reference that was on the page when an action was carried out. */
  function StaleRefs(trace: seq<Call>): set<string> {
    if trace == [] then {}
    else
      var init, last := trace[..|trace| - 1], trace[|trace| - 1];
      StaleRefs(init) + if last.Acted? && last.done.Ok? then VisibleRefs(init) else {}
  }

  lemma AppendCall(trace: seq<Call>, c: Call)
    ensures Shots(trace + [c]) == Shots(trace) + (if c.Shot? && c.path.Ok? then [c.path.value] else [])
    ensures Acts(trace + [c]) == Acts(trace) + (if c.Acted? then [c.action] else [])
    ensures Reviews(trace + [c]) == Reviews(trace) + (if c.Reviewed? then 1 else 0)
    ensures LastPage(trace + [c]) == if c.Observed? && c.page.Ok? then Some(c.page.value) else LastPage(trace)
    ensures StaleRefs(trace + [c]) == StaleRefs(trace) + (if c.Acted? && c.done.Ok? then VisibleRefs(trace) else {})
  {
    assert (trace + [c])[..|trace + [c]| - 1] == trace;
  }

  // ---- What one step may do ----

  /** The callbacks and the threshold the operator was built with. */
  datatype Setup = Setup(hasCancel: bool, hasReview: bool, threshold: real)

  /** The one retry of an action: the same name and risk under an equivalent key. */
  function Equivalent(a: Action): Action {
    var key := if a.equivalentKey.Some? && a.equivalentKey.value != "" then a.equivalentKey.value else a.name;
    Action(a.name, a.risk, Some(key))
  }

  /** At most one retry, and only of a reversible action. */
  ghost predicate ActsBounded(step: Step, calls: seq<Call>) {
    || Acts(calls) == []
    || Acts(calls) == [step.action]
    || (step.action.risk == Reversible && Acts(calls) == [step.action, Equivalent(step.action)])
  }

  /** The page the step started from is confident enough and, where needed, was reviewed with success. */
  ghost predicate Cleared(setup: Setup, step: Step, calls: seq<Call>, before: Observation) {
    && step.confidence >= setup.threshold
    && (step.action.risk == Critical || before.visualConflict ==>
          setup.hasReview && Reviewed(before, Ok(true)) in calls)
  }

  /** Before any action: a start page, clearance for it, and a screenshot. */
  ghost predicate ActsGuarded(setup: Setup, step: Step, calls: seq<Call>) {
    forall i :: 0 <= i < |calls| && calls[i].Acted? ==>
      exists before ::
        StartPage(setup, calls[..i], before) && Cleared(setup, step, calls[..i], before) && Shots(calls[..i]) != []
  }

  /** The page observed first, after the cancel callback said no. */
  ghost predicate StartPage(setup: Setup, calls: seq<Call>, before: Observation) {
    if setup.hasCancel then |calls| > 1 && calls[0] == CancelAsked(Ok(false)) && calls[1] == Observed(Ok(before))
    else |calls| > 0 && calls[0] == Observed(Ok(before))
  }

  /** No call but possibly the last one stops the run, the cancel question comes first, and nothing was deleted. */
  ghost predicate CalmBefore(calls: seq<Call>) {
    && (forall i :: 0 <= i < |calls| - 1 ==> !calls[i].Stops())
    && (forall i :: 0 < i < |calls| ==> !calls[i].CancelAsked?)
    && (forall i :: 0 <= i < |calls| ==> !calls[i].Deleted?)
  }

  /** The step acted, looked at the page again, and the adapter verified exactly that change. */
  ghost predicate VerifiedStep(step: Step, calls: seq<Call>) {
    var n := |calls|;
    && n >= 3
    && calls[n - 1].Verified? && calls[n - 1].action == step.action && calls[n - 1].fine == Ok(true)
    && calls[n - 2] == Observed(Ok(calls[n - 1].after))
    && calls[n - 3].Acted? && calls[n - 3].done.Ok?
    && calls[n - 3].action in [step.action, Equivalent(step.action)]
    && LastPage(calls[..n - 3]) == Some(calls[n - 1].before)
  }

  ghost predicate StepOk(setup: Setup, step: Step, calls: seq<Call>) {
    && ActsBounded(step, calls) && ActsGuarded(setup, step, calls) && CalmBefore(calls)
    && ReviewsNeeded(step, calls) && |Shots(calls)| <= 1 && Reviews(calls) <= 1
  }

  /** Only critical actions and conflicting pages are reviewed. */
  ghost predicate ReviewsNeeded(step: Step, calls: seq<Call>) {
    forall i :: 0 <= i < |calls| && calls[i].Reviewed? ==>
      step.action.risk == Critical || calls[i].before.visualConflict
  }

  /** Why a step ended the run. */
  ghost predicate Explained(setup: Setup, step: Step, seen: set<Fingerprint>, calls: seq<Call>, v: Verdict) {
    |calls| > 0 &&
    var last := calls[|calls| - 1];
    (v != Failed ==> !last.Raised()) &&
    match v
    case Done => VerifiedStep(step, calls)
    case Cancelled => last == CancelAsked(Ok(true)) && |calls| == 1
    case Failed => last.Raised()
    case NeedInput(reason) =>
      exists before :: StartPage(setup, calls, before) &&
        match reason
        case CycleDetected => FingerprintOf(before) in seen && Acts(calls) == []
        case LowConfidence =>
          FingerprintOf(before) !in seen && step.confidence < setup.threshold && Acts(calls) == []
        case ReviewRequired =>
          && FingerprintOf(before) !in seen && step.confidence >= setup.threshold
          && (step.action.risk == Critical || before.visualConflict) && !setup.hasReview && Acts(calls) == []
        case ReviewRejected =>
          && FingerprintOf(before) !in seen && step.confidence >= setup.threshold
          && (step.action.risk == Critical || before.visualConflict) && setup.hasReview
          && last == Reviewed(before, Ok(false)) && Acts(calls) == []
        case VerificationFailed =>
          last.Verified? && last.fine == Ok(false) && |Acts(calls)| == (if step.action.risk == Reversible then 2 else 1)
  }

  // ---- Growing a trace ----

  /** Nothing stopped the run so far and nothing was deleted. */
  ghost predicate Calm(calls: seq<Call>) {
    forall i :: 0 <= i < |calls| ==> !calls[i].Stops() && !calls[i].Deleted?
  }

  lemma NoCallsYet(setup: Setup, step: Step)
    ensures StepOk(setup, step, []) && Calm([])
    ensures Acts([]) == [] && Shots([]) == [] && Reviews([]) == 0 && StaleRefs([]) == {}
  {
  }

  lemma GuardsKept(setup: Setup, step: Step, calls: seq<Call>, c: Call)
    requires ActsGuarded(setup, step, calls)
    requires c.Acted? ==>
      exists before :: StartPage(setup, calls, before) && Cleared(setup, step, calls, before) && Shots(calls) != []
    ensures ActsGuarded(setup, step, calls + [c])
  {
    var more := calls + [c];
    forall i | 0 <= i < |more| && more[i].Acted?
      ensures exists before ::
        StartPage(setup, more[..i], before) && Cleared(setup, step, more[..i], before) && Shots(more[..i]) != []
    {
      if i < |calls| {
        assert more[..i] == calls[..i];
        var before :| StartPage(setup, calls[..i], before) && Cleared(setup, step, calls[..i], before) &&
          Shots(calls[..i]) != [];
        assert StartPage(setup, more[..i], before);
      } else {
        assert more[..i] == calls;
      }
    }
  }

  /** Any call but an action can follow a calm trace. */
  lemma CallFollows(setup: Setup, step: Step, calls: seq<Call>, c: Call)
    requires StepOk(setup, step, calls) && Calm(calls) && !c.Acted? && !c.Deleted?
    requires (c.CancelAsked? ==> calls == []) && (c.Shot? ==> Shots(calls) == [])
    requires c.Reviewed? ==> Reviews(calls) == 0 && (step.action.risk == Critical || c.before.visualConflict)
    ensures StepOk(setup, step, calls + [c])
    ensures !c.Stops() ==> Calm(calls + [c])
  {
    GuardsKept(setup, step, calls, c);
    AppendCall(calls, c);
  }

  /** An action can follow where a page was seen, cleared and recorded. */
  lemma ActFollows(setup: Setup, step: Step, calls: seq<Call>, before: Observation, action: Action, done: Answer<()>)
    requires StepOk(setup, step, calls) && Calm(calls)
    requires StartPage(setup, calls, before) && Cleared(setup, step, calls, before) && Shots(calls) != []
    requires || (Acts(calls) == [] && action == step.action)
             || (Acts(calls) == [step.action] && step.action.risk == Reversible && action == Equivalent(step.action))
    ensures StepOk(setup, step, calls + [Acted(action, done)])
    ensures done.Ok? ==> Calm(calls + [Acted(action, done)])
  {
    GuardsKept(setup, step, calls, Acted(action, done));
    AppendCall(calls, Acted(action, done));
  }

  lemma FactsKept(setup: Setup, step: Step, calls: seq<Call>, before: Observation, c: Call)
    requires StartPage(setup, calls, before)
    ensures StartPage(setup, calls + [c], before)
    ensures Cleared(setup, step, calls, before) ==> Cleared(setup, step, calls + [c], before)
  {
  }

  lemma {:induction false} ShotsGrow(a: seq<Call>, b: seq<Call>)
    requires a <= b
    ensures Shots(a) <= Shots(b)
    decreases |b|
  {
    if a != b {
      ShotsGrow(a, b[..|b| - 1]);
    } else {
      assert Shots(a) == Shots(b);
    }
  }

  /** Clearance and the screenshot stay with a step while it goes on. */
  lemma ClearedStays(setup: Setup, step: Step, acted: seq<Call>, calls: seq<Call>, before: Observation)
    requires acted <= calls && Cleared(setup, step, acted, before) && Shots(acted) != []
    ensures Cleared(setup, step, calls, before) && Shots(calls) != []
  {
    ShotsGrow(acted, calls);
    if step.action.risk == Critical || before.visualConflict {
      var i :| 0 <= i < |acted| && acted[i] == Reviewed(before, Ok(true));
      assert calls[i] == acted[i];
    }
  }

  // ---- How a step ends ----

  lemma EndsRaised(setup: Setup, step: Step, seen: set<Fingerprint>, calls: seq<Call>)
    requires |calls| > 0 && calls[|calls| - 1].Raised()
    ensures Explained(setup, step, seen, calls, Failed)
  {
  }

  lemma EndsDone(setup: Setup, step: Step, seen: set<Fingerprint>, calls: seq<Call>)
    requires VerifiedStep(step, calls)
    ensures Explained(setup, step, seen, calls, Done)
  {
  }

  lemma EndsUnverified(setup: Setup, step: Step, seen: set<Fingerprint>, calls: seq<Call>, before: Observation)
    requires StartPage(setup, calls, before)
    requires |calls| > 0 && calls[|calls| - 1].Verified? && calls[|calls| - 1].fine == Ok(false)
    requires |Acts(calls)| == if step.action.risk == Reversible then 2 else 1
    ensures Explained(setup, step, seen, calls, NeedInput(VerificationFailed))
  {
  }

  // ---- A whole run ----

  function Flatten(parts: seq<seq<Call>>): seq<Call> {
    if parts == [] then [] else Flatten(parts[..|parts| - 1]) + parts[|parts| - 1]
  }

  function SeenOn(pages: seq<Observation>): set<Fingerprint> {
    set i | 0 <= i < |pages| :: FingerprintOf(pages[i])
  }

  /** The first `|done|` steps were carried out in order and verified, each from a page not started from before. */
  ghost predicate Completed(setup: Setup, steps: seq<Step>, done: seq<seq<Call>>, pages: seq<Observation>) {
    |pages| == |done| <= |steps| && AllDone(setup, steps, done, pages) && NoCycle(pages)
  }

  ghost predicate AllDone(setup: Setup, steps: seq<Step>, done: seq<seq<Call>>, pages: seq<Observation>)
    requires |pages| == |done| <= |steps|
  {
    forall i {:trigger StepDone(setup, steps[i], done[i], pages[i])} :: 0 <= i < |done| ==>
      StepDone(setup, steps[i], done[i], pages[i])
  }

  /** No two start pages have the same fingerprint. */
  ghost predicate NoCycle(pages: seq<Observation>) {
    forall i, j :: 0 <= i < j < |pages| ==> FingerprintOf(pages[i]) != FingerprintOf(pages[j])
  }

  ghost predicate StepDone(setup: Setup, step: Step, calls: seq<Call>, page: Observation) {
    StepOk(setup, step, calls) && Calm(calls) && VerifiedStep(step, calls) && StartPage(setup, calls, page)
  }

  /** The question that may precede the first step. */
  ghost predicate Opening(setup: Setup, start: seq<Call>) {
    if setup.hasCancel then |start| == 1 && start[0].CancelAsked? else start == []
  }

  /** How a run ends: after all steps, at its opening question, or within the step after the completed ones. */
  ghost predicate Ended(setup: Setup, steps: seq<Step>, start: seq<Call>, done: seq<seq<Call>>, pages: seq<Observation>,
                        last: seq<Call>, v: Verdict)
  {
    && Opening(setup, start) && Completed(setup, steps, done, pages)
    && if v == Done then |done| == |steps| && last == [] && (start != [] ==> start[0] == CancelAsked(Ok(false)))
       else if start != [] && start[0] != CancelAsked(Ok(false)) then
         done == [] && last == [] && v == (if start[0].Raised() then Failed else Cancelled)
       else
         && |done| < |steps| && StepOk(setup, steps[|done|], last)
         && Explained(setup, steps[|done|], SeenOn(pages), last, v)
  }

  function Deletions(shots: seq<string>): (r: seq<Call>)
    ensures |r| == |shots| && forall i :: 0 <= i < |r| ==> r[i] == Deleted(shots[i])
  {
    seq(|shots|, i requires 0 <= i < |shots| => Deleted(shots[i]))
  }

  lemma SeenGrows(pages: seq<Observation>, page: Observation)
    ensures SeenOn(pages + [page]) == SeenOn(pages) + {FingerprintOf(page)}
    ensures NoCycle(pages) && FingerprintOf(page) !in SeenOn(pages) ==> NoCycle(pages + [page])
  {
    var more := pages + [page];
    assert more[|pages|] == page;
    forall i | 0 <= i < |pages| ensures more[i] == pages[i] && FingerprintOf(pages[i]) in SeenOn(pages) {
    }
    forall f | f in SeenOn(pages) ensures f in SeenOn(more) {
      var i :| 0 <= i < |pages| && FingerprintOf(pages[i]) == f;
      assert FingerprintOf(more[i]) == f;
    }
  }

  lemma FlattenGrows(parts: seq<seq<Call>>, part: seq<Call>)
    ensures Flatten(parts + [part]) == Flatten(parts) + part
  {
    assert (parts + [part])[..|parts + [part]| - 1] == parts;
  }

  lemma AllDoneGrows(setup: Setup, steps: seq<Step>, done: seq<seq<Call>>, pages: seq<Observation>, calls: seq<Call>,
                     page: Observation)
    requires |pages| == |done| < |steps| && AllDone(setup, steps, done, pages)
    requires StepDone(setup, steps[|done|], calls, page)
    ensures AllDone(setup, steps, done + [calls], pages + [page])
  {
    forall i | 0 <= i < |done + [calls]| ensures StepDone(setup, steps[i], (done + [calls])[i], (pages + [page])[i]) {
      if i < |done| {
        assert StepDone(setup, steps[i], done[i], pages[i]);
      }
    }
  }

  lemma {:induction false} OneMoreDone(setup: Setup, steps: seq<Step>, start: seq<Call>, done: seq<seq<Call>>,
                                       pages: seq<Observation>, calls: seq<Call>, page: Observation)
    returns (moreDone: seq<seq<Call>>, morePages: seq<Observation>)
    requires Completed(setup, steps, done, pages) && |done| < |steps|
    requires StepDone(setup, steps[|done|], calls, page) && FingerprintOf(page) !in SeenOn(pages)
    ensures Completed(setup, steps, moreDone, morePages) && |moreDone| == |done| + 1
    ensures SeenOn(morePages) == SeenOn(pages) + {FingerprintOf(page)}
    ensures start + Flatten(moreDone) == start + Flatten(done) + calls
  {
    AllDoneGrows(setup, steps, done, pages, calls, page);
    SeenGrows(pages, page);
    FlattenGrows(done, calls);
    assert start + Flatten(done) + calls == start + (Flatten(done) + calls);
    moreDone, morePages := done + [calls], pages + [page];
  }
}
