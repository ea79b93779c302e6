/** The policy engine as the program runs it: two recursions that add to one shared set and raise early. */
module PolicyService {
  import opened Common
  import opened Json
  import opened PolicyMeaning
  import opened PolicyModel

  datatype PolicyDecision = PolicyDecision(requiresConfirmation: bool, reasons: set<string>)

  /** The set object that the recursions share. */
  class Reasons {
    var items: set<string>

    constructor ()
      ensures items == {}
    {
      items := {};
    }

    method Update(more: set<string>)
      modifies this
      ensures items == old(items) + more
    {
      items := items + more;
    }
  }

  /** The categories found in the first `k` children of a document. */
  ghost function FoundBefore(cfg: Config, v: Json, k: nat): set<string>
    requires k <= |Children(v)|
  {
    set c | c in cfg.critical && exists i :: 0 <= i < k && c in Found(cfg, Children(v)[i])
  }

  lemma FoundGrows(cfg: Config, v: Json, k: nat)
    requires k < |Children(v)|
    ensures FoundBefore(cfg, v, k + 1) == FoundBefore(cfg, v, k) + Found(cfg, Children(v)[k])
  {
  }

  lemma UnionsRegroup(a: set<string>, b: set<string>, c: set<string>)
    ensures a + (b + c) == a + b + c
  {
  }

  lemma Absorb(a: set<string>, b: set<string>, c: set<string>)
    requires c <= b
    ensures a + b + c == a + b
  {
  }

  lemma WalkOn(cfg: Config, v: Json, i: nat, here: set<string>)
    requires i < |Children(v)|
    ensures here + FoundBefore(cfg, v, i) + Found(cfg, Children(v)[i]) == here + FoundBefore(cfg, v, i + 1)
  {
    FoundGrows(cfg, v, i);
    UnionsRegroup(here, FoundBefore(cfg, v, i), Found(cfg, Children(v)[i]));
  }

  lemma WalkEnds(cfg: Config, v: Json, before: set<string>)
    ensures before + CategoriesOf(cfg, v) + FoundBefore(cfg, v, |Children(v)|) == before + Found(cfg, v)
  {
    FoundIsLocal(cfg, v);
    UnionsRegroup(before, CategoriesOf(cfg, v), FoundBefore(cfg, v, |Children(v)|));
  }

  lemma WalkBegins(cfg: Config, v: Json, here: set<string>)
    ensures here + FoundBefore(cfg, v, 0) == here && FirstFault(cfg, PartsBefore(v, 0)).None?
  {
    assert FoundBefore(cfg, v, 0) == {};
  }

  lemma NextChild(cfg: Config, v: Json, i: nat)
    requires i < |Children(v)| && FirstFault(cfg, PartsBefore(v, i)).None?
    ensures FirstFault(cfg, PartsBefore(v, i + 1)) == FirstFault(cfg, Parts(Children(v)[i]))
  {
    FirstFaultInParts(cfg, PartsBefore(v, i), Parts(Children(v)[i]));
  }

  /** What the walk met among the first children stays the first fault. */
  lemma {:induction false} FaultStays(cfg: Config, v: Json, i: nat, k: nat)
    requires i <= k <= |Children(v)| && FirstFault(cfg, PartsBefore(v, i)).Some?
    ensures FirstFault(cfg, PartsBefore(v, k)) == FirstFault(cfg, PartsBefore(v, i))
    decreases k
  {
    if i < k {
      FaultStays(cfg, v, i, k - 1);
      FirstFaultInParts(cfg, PartsBefore(v, k - 1), Parts(Children(v)[k - 1]));
    }
  }

  lemma SelfThenChildren(cfg: Config, v: Json)
    ensures FirstFault(cfg, Parts(v)) ==
      if Fault(cfg, v).Some? then Fault(cfg, v) else FirstFault(cfg, PartsBefore(v, |Children(v)|))
  {
    assert Parts(v)[1..] == PartsBefore(v, |Children(v)|);
  }

  /** A document lists what it lists itself and what its children list. */
  lemma FoundIsLocal(cfg: Config, v: Json)
    ensures Found(cfg, v) == CategoriesOf(cfg, v) + FoundBefore(cfg, v, |Children(v)|)
  {
    forall c | c in Found(cfg, v) ensures c in CategoriesOf(cfg, v) + FoundBefore(cfg, v, |Children(v)|) {
      var n :| Within(n, v) && c in CategoriesOf(cfg, n);
      if n != v {
        var i :| 0 <= i < |Children(v)| && Within(n, Children(v)[i]);
        assert Lists(cfg, Children(v)[i], c);
      }
    }
    forall c | c in CategoriesOf(cfg, v) ensures c in Found(cfg, v) {
      assert Within(v, v);
    }
    forall c | c in FoundBefore(cfg, v, |Children(v)|) ensures c in Found(cfg, v) {
      var i :| 0 <= i < |Children(v)| && c in Found(cfg, Children(v)[i]);
      ChildWithin(v, i);
      PartsAreClean(cfg, Children(v)[i], v);
    }
  }

  lemma ChildWithin(v: Json, i: nat)
    requires i < |Children(v)|
    ensures Within(Children(v)[i], v)
  {
    assert Within(Children(v)[i], Children(v)[i]);
  }

  /** A nested job passes with its own profile. */
  ghost predicate Passes(cfg: Config, job: Json) {
    Allowed(cfg, job, None)
  }

  ghost predicate NestedPass(cfg: Config, job: Json, k: nat) {
    k <= |NestedJobs(job)| && forall i :: 0 <= i < k ==> Passes(cfg, NestedJobs(job)[i])
  }

  lemma OneMorePasses(cfg: Config, job: Json, k: nat)
    requires NestedPass(cfg, job, k) && k < |NestedJobs(job)| && Passes(cfg, NestedJobs(job)[k])
    ensures NestedPass(cfg, job, k + 1)
  {
  }

  lemma OneFails(cfg: Config, job: Json, k: nat)
    requires k < |NestedJobs(job)| && !Passes(cfg, NestedJobs(job)[k])
    ensures !NestedPass(cfg, job, |NestedJobs(job)|)
  {
  }

  class PolicyEngine {
    const cfg: Config

    constructor (cfg: Config)
      ensures this.cfg == cfg
    {
      this.cfg := cfg;
    }

    /**
     Walks every value of a document, adding the critical categories it lists; it raises the error of the
     first part that has one.
     */
    method InspectOperation(value: Json, reasons: Reasons) returns (e: Option<Error>)
      modifies reasons
      ensures e == FirstFault(cfg, Parts(value))
      ensures e.None? <==> Clean(cfg, value)
      ensures e.None? ==> reasons.items == old(reasons.items) + Found(cfg, value)
      ensures e.None? <==> Faultless(cfg, value)
      ensures e == Some(TypeError) <==> UnreadableFirst(cfg, value)
      ensures e.None? ==> forall c :: c in reasons.items <==> c in old(reasons.items) || HasReason(cfg, value, c)
      decreases value, 1
    {
      TreesAreMeant(cfg, value);
      TypeErrorIsMeant(cfg, value);
      hide Faultless, UnreadableFirst, HasReason;
      ghost var before := reasons.items;
      SelfThenChildren(cfg, value);
      CleanHasNoFault(cfg, value);
      hide Parts, Clean, Found;
      if value.Obj? {
        reasons.Update(CategoriesOf(cfg, value));
        var deletions := DeletionsOf(cfg, value);
        if deletions.None? {
          return Some(TypeError);
        }
        if deletions.value * cfg.protected != {} {
          return Some(PolicyDenied);
        }
      }
      e := InspectChildren(value, reasons, before);
    }

    /** The loop of `_inspect_operation` over the values of an object or the items of a list. */
    method InspectChildren(value: Json, reasons: Reasons, ghost before: set<string>) returns (e: Option<Error>)
      requires reasons.items == before + CategoriesOf(cfg, value)
      modifies reasons
      ensures e == FirstFault(cfg, PartsBefore(value, |Children(value)|))
      ensures e.None? ==> reasons.items == before + Found(cfg, value)
      decreases value, 0
    {
      hide *;
      ghost var here := before + CategoriesOf(cfg, value);
      var children := Children(value);
      WalkBegins(cfg, value, here);
      for i := 0 to |children|
        invariant reasons.items == here + FoundBefore(cfg, value, i)
        invariant FirstFault(cfg, PartsBefore(value, i)).None?
      {
        NextChild(cfg, value, i);
        e := InspectOperation(children[i], reasons);
        if e.Some? {
          FaultStays(cfg, value, i + 1, |children|);
          return;
        }
        WalkOn(cfg, value, i, here);
      }
      WalkEnds(cfg, value, before);
      return None;
    }

    /**
     Checks one job and recurses into the jobs nested in its parameters. TypeError is raised only by the walk over
     the job's own parameters: the parts of nested jobs lie inside them and were found without fault.
     */
    method EvaluateJob(job: Json, reasons: Reasons, effective: Option<string>) returns (e: Option<Error>)
      requires job.Obj?
      modifies reasons
      ensures e.None? <==> Allowed(cfg, job, effective)
      ensures e.None? ==> reasons.items == old(reasons.items) + Found(cfg, Parameters(job))
      ensures e == Some(TypeError) <==>
        RulesOk(cfg, job, effective) && FirstFault(cfg, Parts(Parameters(job))) == Some(TypeError)
      decreases job, 2
    {
      ghost var before := reasons.items;
      if !RulesOk(cfg, job, effective) {
        return Some(PolicyDenied);
      }
      e := InspectOperation(Parameters(job), reasons);
      if e.Some? {
        return;
      }
      e := EvaluateNested(job, reasons, before);
    }

    /** The loop over the nested jobs. */
    method EvaluateNested(job: Json, reasons: Reasons, ghost before: set<string>) returns (e: Option<Error>)
      requires job.Obj?
      requires Clean(cfg, Parameters(job)) && reasons.items == before + Found(cfg, Parameters(job))
      modifies reasons
      ensures e.None? <==> NestedPass(cfg, job, |NestedJobs(job)|)
      ensures e.None? ==> reasons.items == old(reasons.items)
      ensures e != Some(TypeError)
      decreases job, 1
    {
      var nested := NestedJobs(job);
      for i := 0 to |nested|
        invariant reasons.items == old(reasons.items)
        invariant NestedPass(cfg, job, i)
      {
        if !nested[i].Obj? {
          OneFails(cfg, job, i);
          return Some(PolicyDenied);
        }
        e := EvaluateChild(job, i, reasons, before);
        if e.Some? {
          OneFails(cfg, job, i);
          return;
        }
        OneMorePasses(cfg, job, i);
      }
      return None;
    }

    /** One round of the loop over the nested jobs: it leaves the shared set as it was. */
    method EvaluateChild(job: Json, i: nat, reasons: Reasons, ghost before: set<string>) returns (e: Option<Error>)
      requires job.Obj? && i < |NestedJobs(job)| && NestedJobs(job)[i].Obj?
      requires Clean(cfg, Parameters(job)) && reasons.items == before + Found(cfg, Parameters(job))
      modifies reasons
      ensures e.None? <==> Passes(cfg, NestedJobs(job)[i])
      ensures e.None? ==> reasons.items == old(reasons.items)
      ensures e != Some(TypeError)
      decreases job, 0
    {
      NestedIsInside(job, i);
      NestedAddsNothing(cfg, job, i);
      Absorb(before, Found(cfg, Parameters(job)), Found(cfg, Parameters(NestedJobs(job)[i])));
      CleanHasNoFault(cfg, Parameters(NestedJobs(job)[i]));
      e := EvaluateJob(NestedJobs(job)[i], reasons, None);
    }

    /**
     Fail-closed evaluation: it succeeds exactly if every job at every depth keeps the rules and nothing
     anywhere in the payload's parameters deletes protected data, and then the reasons are exactly the
     critical categories found anywhere in those parameters. It raises TypeError instead of PolicyDenied exactly
     if the payload itself keeps the rules and the first fault in its parameters is a `delete` that cannot be
     iterated.
     */
    method Evaluate(payload: Json, effective: Option<string>) returns (r: Outcome<PolicyDecision, Error>)
      requires payload.Obj?
      ensures r.Ok? <==>
        RulesOk(cfg, payload, effective) && Clean(cfg, Parameters(payload)) && NestedRulesOk(cfg, payload)
      ensures r.Ok? ==> r.value.reasons == Found(cfg, Parameters(payload))
      ensures r == Err(TypeError) <==>
        RulesOk(cfg, payload, effective) && FirstFault(cfg, Parts(Parameters(payload))) == Some(TypeError)
      ensures r.Ok? <==> Acceptable(cfg, payload, effective)
      ensures r == Err(TypeError) <==> RaisesTypeError(cfg, payload, effective)
      ensures r.Ok? ==>
        && (forall c :: c in r.value.reasons <==>
              payload.Get("parameters").Some? && HasReason(cfg, payload.Get("parameters").value, c))
        && (r.value.requiresConfirmation <==> r.value.reasons != {})
    {
      AcceptanceIsMeant(cfg, payload, effective);
      ReasonsAreMeant(cfg, payload);
      RaisingIsMeant(cfg, payload, effective);
      hide Acceptable, RaisesTypeError, HasReason;
      var reasons := new Reasons();
      AllowedMeans(cfg, payload, effective);
      var e := EvaluateJob(payload, reasons, effective);
      if e.Some? {
        return Err(e.value);
      }
      var found := reasons.items;
      return Ok(PolicyDecision(found != {}, found));
    }
  }
}
