/** What src/hermes_harness/control_plane/policy.py promises about a payload, said without its recursions. */
module PolicyModel {
  import opened Common
  import opened Json

  datatype Error = PolicyDenied | TypeError

  datatype ProfilePolicy = ProfilePolicy(models: set<string>, efforts: set<string>)

  /** The loaded policies; `text` is Python's str() and `fold` its str.casefold(). */
  datatype Config = Config(
    provider: Json, profiles: map<string, ProfilePolicy>, solIntents: set<string>,
    wideProfiles: set<string>, wideIntents: set<string>,
    critical: set<string>, protected: set<string>,
    text: Json -> string, fold: string -> string)

  // ---- The parts of a document ----

  function FieldValues(fields: seq<(string, Json)>): (r: seq<Json>)
    ensures |r| == |fields| && forall i :: 0 <= i < |r| ==> r[i] == fields[i].1
  {
    seq(|fields|, i requires 0 <= i < |fields| => fields[i].1)
  }

  /** The documents directly inside a document: list items or object values. */
  function Children(v: Json): (r: seq<Json>)
    ensures forall i :: 0 <= i < |r| ==> r[i] < v
  {
    match v
    case Arr(items) => items
    case Obj(fields) => FieldValues(fields)
    case _ => []
  }

  /** `n` is `v` or occurs anywhere inside it. */
  ghost predicate Within(n: Json, v: Json)
    decreases v
  {
    n == v || exists i :: 0 <= i < |Children(v)| && Within(n, Children(v)[i])
  }

  lemma {:induction false} WithinTransitive(a: Json, b: Json, c: Json)
    requires Within(a, b) && Within(b, c)
    ensures Within(a, c)
    decreases c
  {
    if b != c {
      var i :| 0 <= i < |Children(c)| && Within(b, Children(c)[i]);
      WithinTransitive(a, b, Children(c)[i]);
    }
  }

  lemma FieldWithin(v: Json, key: string)
    requires v.Get(key).Some?
    ensures Within(v.Get(key).value, v) && v.Get(key).value < v
  {
    var i :| 0 <= i < |v.fields| && v.fields[i] == (key, v.Get(key).value);
    assert Children(v)[i] == v.Get(key).value;
    assert Within(Children(v)[i], Children(v)[i]);
  }

  // ---- One operation ----

  /** The critical change categories that an object lists itself. */
  function CategoriesOf(cfg: Config, n: Json): set<string> {
    if !n.Obj? then {}
    else
      match n.GetOr("change_categories", Arr([]))
      case Arr(items) => set c | c in cfg.critical && (exists i :: 0 <= i < |items| && cfg.text(items[i]) == c)
      case _ => {}
  }

  /** What an object asks to delete; iterating a number, a boolean or None raises TypeError instead. */
  function DeletionsOf(cfg: Config, n: Json): Option<set<string>> {
    if !n.Obj? then Some({})
    else
      match n.GetOr("delete", Arr([]))
      case Str(s) => Some({s})
      case Arr(items) => Some(set i | 0 <= i < |items| :: cfg.text(items[i]))
      case Obj(_) => Some({})
      case _ => None
  }

  predicate DeletesProtected(cfg: Config, n: Json) {
    var d := DeletionsOf(cfg, n);
    d.Some? && d.value * cfg.protected != {}
  }

  predicate BadDelete(cfg: Config, n: Json) {
    DeletionsOf(cfg, n).None?
  }

  /** Nothing anywhere in `v` deletes protected data or is malformed there. */
  ghost predicate Clean(cfg: Config, v: Json) {
    forall n :: Within(n, v) ==> !DeletesProtected(cfg, n) && !BadDelete(cfg, n)
  }

  ghost predicate Lists(cfg: Config, v: Json, c: string) {
    exists n :: Within(n, v) && c in CategoriesOf(cfg, n)
  }

  /** The critical categories that occur anywhere in `v`. */
  ghost function Found(cfg: Config, v: Json): set<string> {
    set c | c in cfg.critical && Lists(cfg, v, c)
  }

  lemma {:induction false} PartsAreClean(cfg: Config, n: Json, v: Json)
    requires Within(n, v)
    ensures Clean(cfg, v) ==> Clean(cfg, n)
    ensures Found(cfg, n) <= Found(cfg, v)
  {
    forall m | Within(m, n) ensures Within(m, v) {
      WithinTransitive(m, n, v);
    }
    forall c | c in Found(cfg, n) ensures c in Found(cfg, v) {
      var m :| Within(m, n) && c in CategoriesOf(cfg, m);
      assert Lists(cfg, v, c);
    }
  }

  // ---- The order of the walk ----

  /** A document and everything inside it, in the order in which the walk meets them. */
  function Parts(v: Json): seq<Json>
    decreases v, 1
  {
    [v] + PartsBefore(v, |Children(v)|)
  }

  /** What is inside the first `k` children. */
  function PartsBefore(v: Json, k: nat): seq<Json>
    requires k <= |Children(v)|
    decreases v, 0, k
  {
    if k == 0 then [] else PartsBefore(v, k - 1) + Parts(Children(v)[k - 1])
  }

  lemma {:induction false} PartsAreWithin(n: Json, v: Json)
    ensures n in Parts(v) <==> Within(n, v)
    decreases v, 1
  {
    PartsBeforeAreWithin(n, v, |Children(v)|);
  }

  lemma {:induction false} PartsBeforeAreWithin(n: Json, v: Json, k: nat)
    requires k <= |Children(v)|
    ensures n in PartsBefore(v, k) <==> exists i :: 0 <= i < k && Within(n, Children(v)[i])
    decreases v, 0, k
  {
    if k > 0 {
      PartsBeforeAreWithin(n, v, k - 1);
      PartsAreWithin(n, Children(v)[k - 1]);
    }
  }

  /** The error that one document raises by what it asks to delete. */
  function Fault(cfg: Config, n: Json): Option<Error> {
    if BadDelete(cfg, n) then Some(TypeError) else if DeletesProtected(cfg, n) then Some(PolicyDenied) else None
  }

  function FirstFault(cfg: Config, parts: seq<Json>): Option<Error> {
    if parts == [] then None
    else if Fault(cfg, parts[0]).Some? then Fault(cfg, parts[0])
    else FirstFault(cfg, parts[1..])
  }

  /** The first fault is the fault of some part that has only faultless parts before it. */
  lemma {:induction false} FirstFaultMeans(cfg: Config, parts: seq<Json>, e: Error)
    ensures FirstFault(cfg, parts) == Some(e) <==> exists i :: FaultAt(cfg, parts, i, e)
    ensures FirstFault(cfg, parts).None? <==> forall n :: n in parts ==> Fault(cfg, n).None?
  {
    if parts == [] {
    } else if Fault(cfg, parts[0]).Some? {
      assert parts[0] in parts;
      assert forall i :: FaultAt(cfg, parts, i, e) ==> i == 0;
      assert Fault(cfg, parts[0]) == Some(e) ==> FaultAt(cfg, parts, 0, e);
    } else {
      var rest := parts[1..];
      FirstFaultMeans(cfg, rest, e);
      if i :| FaultAt(cfg, rest, i, e) {
        assert FaultAt(cfg, parts, i + 1, e);
      }
      if i :| FaultAt(cfg, parts, i, e) {
        assert forall j :: 0 <= j < i - 1 ==> rest[j] == parts[j + 1];
        assert FaultAt(cfg, rest, i - 1, e);
      }
      assert forall n :: n in parts <==> n == parts[0] || n in rest;
    }
  }

  ghost predicate FaultAt(cfg: Config, parts: seq<Json>, i: int, e: Error) {
    0 <= i < |parts| && Fault(cfg, parts[i]) == Some(e) && forall j :: 0 <= j < i ==> Fault(cfg, parts[j]).None?
  }

  lemma {:induction false} FirstFaultInParts(cfg: Config, a: seq<Json>, b: seq<Json>)
    ensures FirstFault(cfg, a + b) == if FirstFault(cfg, a).Some? then FirstFault(cfg, a) else FirstFault(cfg, b)
  {
    if a == [] {
      assert a + b == b;
    } else {
      assert (a + b)[1..] == a[1..] + b;
      FirstFaultInParts(cfg, a[1..], b);
    }
  }

  /** A tree is clean exactly if the walk over its parts meets no fault. */
  lemma CleanHasNoFault(cfg: Config, v: Json)
    ensures Clean(cfg, v) <==> FirstFault(cfg, Parts(v)).None?
  {
    FirstFaultMeans(cfg, Parts(v), TypeError);
    forall n ensures n in Parts(v) <==> Within(n, v) {
      PartsAreWithin(n, v);
    }
  }

  // ---- One job ----

  predicate Contains(text: string, part: string) {
    |part| <= |text| && (text[..|part|] == part || (text != "" && Contains(text[1..], part)))
  }

  function Parameters(job: Json): Json {
    job.GetOr("parameters", Obj([]))
  }

  function Or(a: Json, b: Json): Json {
    if a.Truthy() then a else b
  }

  /** The profile a job is judged by. */
  function ProfileOf(cfg: Config, job: Json, effective: Option<string>): string {
    if effective.Some? && effective.value != "" then effective.value
    else
      cfg.text(Or(Or(Parameters(job).GetOr("requested_profile", Null), job.GetOr("requested_profile", Null)),
                  job.GetOr("origin_profile", Null)))
  }

  /** The model and profile rules, for the job itself. */
  predicate RulesOk(cfg: Config, job: Json, effective: Option<string>) {
    var model := job.GetOr("model_policy", Null);
    && model.Obj?
    && model.GetOr("provider", Null) == cfg.provider
    && var name := cfg.text(model.GetOr("model", Str("")));
       var effort := cfg.text(model.GetOr("effort", Str("")));
       var intent := cfg.text(job.GetOr("intent", Str("")));
       var profile := ProfileOf(cfg, job, effective);
       var sol, wide := Contains(cfg.fold(name), "sol"), Contains(cfg.fold(name), "900k");
       && profile in cfg.profiles
       && (!sol ==> (name in cfg.profiles[profile].models || wide) && effort in cfg.profiles[profile].efforts)
       && (sol ==> intent in cfg.solIntents && effort in {"low", "medium", "high"})
       && (wide ==>
             && profile in cfg.wideProfiles && intent in cfg.wideIntents
             && model.GetOr("context_size_justification", Null).Truthy())
  }

  /** The entries under nested_jobs in a job's parameters. */
  function NestedJobs(job: Json): (r: seq<Json>)
  {
    match Parameters(job).GetOr("nested_jobs", Arr([]))
    case Arr(items) => items
    case _ => []
  }

  lemma NestedIsInside(job: Json, i: nat)
    requires job.Obj? && i < |NestedJobs(job)|
    ensures NestedJobs(job)[i] < job
    ensures Within(NestedJobs(job)[i], Parameters(job))
  {
    var parameters := Parameters(job);
    FieldWithin(parameters, "nested_jobs");
    FieldWithin(job, "parameters");
    var list := parameters.Get("nested_jobs").value;
    assert list == Arr(list.items) && Children(list)[i] == NestedJobs(job)[i];
    assert Within(NestedJobs(job)[i], NestedJobs(job)[i]);
    assert Within(NestedJobs(job)[i], list);
    WithinTransitive(NestedJobs(job)[i], list, parameters);
  }

  /** `entry` is a nested job of `job`, at any depth. */
  ghost predicate NestedAnywhere(entry: Json, job: Json)
    decreases job
  {
    job.Obj? &&
    exists i ::
      && 0 <= i < |NestedJobs(job)|
      && (entry == NestedJobs(job)[i] || (NestedIsInside(job, i); NestedAnywhere(entry, NestedJobs(job)[i])))
  }

  /** What the recursion over nested jobs demands. */
  ghost predicate Allowed(cfg: Config, job: Json, effective: Option<string>)
    decreases job
  {
    && job.Obj? && RulesOk(cfg, job, effective) && Clean(cfg, Parameters(job))
    && forall i :: 0 <= i < |NestedJobs(job)| ==> (NestedIsInside(job, i); Allowed(cfg, NestedJobs(job)[i], None))
  }

  lemma ChildParametersInside(job: Json, i: nat)
    requires job.Obj? && i < |NestedJobs(job)| && NestedJobs(job)[i].Obj?
    requires NestedJobs(job)[i].Get("parameters").Some?
    ensures Within(Parameters(NestedJobs(job)[i]), Parameters(job))
  {
    var child := NestedJobs(job)[i];
    NestedIsInside(job, i);
    FieldWithin(child, "parameters");
    WithinTransitive(Parameters(child), child, Parameters(job));
  }

  /** The default for absent parameters, an empty object, is clean and raises nothing. */
  lemma NothingIsClean(cfg: Config)
    ensures Clean(cfg, Obj([])) && Found(cfg, Obj([])) == {}
  {
    forall n | Within(n, Obj([])) ensures n == Obj([]) {
      assert Children(Obj([])) == [];
    }
    assert Obj([]).GetOr("delete", Arr([])) == Arr([]);
    assert forall d :: d !in DeletionsOf(cfg, Obj([])).value;
    assert CategoriesOf(cfg, Obj([])) == {};
  }

  /** The parameters of a nested job add nothing to what the tree walk over the outer parameters finds. */
  lemma NestedAddsNothing(cfg: Config, job: Json, i: nat)
    requires job.Obj? && i < |NestedJobs(job)| && NestedJobs(job)[i].Obj?
    ensures Clean(cfg, Parameters(job)) ==> Clean(cfg, Parameters(NestedJobs(job)[i]))
    ensures Found(cfg, Parameters(NestedJobs(job)[i])) <= Found(cfg, Parameters(job))
  {
    var child := NestedJobs(job)[i];
    if child.Get("parameters").Some? {
      ChildParametersInside(job, i);
      PartsAreClean(cfg, Parameters(child), Parameters(job));
    } else {
      NothingIsClean(cfg);
    }
  }

  /** Every nested job, at any depth, is an object that keeps the rules with its own profile. */
  ghost predicate NestedRulesOk(cfg: Config, job: Json) {
    forall entry :: NestedAnywhere(entry, job) ==> entry.Obj? && RulesOk(cfg, entry, None)
  }

  /**
   The recursion allows a payload exactly if the payload and every nested job at every depth keep the
   model and profile rules and nothing anywhere in the payload's own parameters deletes protected data.
   */
  lemma {:induction false} AllowedMeans(cfg: Config, job: Json, effective: Option<string>)
    requires job.Obj?
    ensures Allowed(cfg, job, effective) <==>
      RulesOk(cfg, job, effective) && Clean(cfg, Parameters(job)) && NestedRulesOk(cfg, job)
    decreases job
  {
    if RulesOk(cfg, job, effective) && Clean(cfg, Parameters(job)) {
      forall i | 0 <= i < |NestedJobs(job)|
        ensures Allowed(cfg, NestedJobs(job)[i], None) <==> ChildRulesOk(cfg, job, i)
      {
        NestedIsInside(job, i);
        var child := NestedJobs(job)[i];
        if child.Obj? {
          AllowedMeans(cfg, child, None);
          NestedAddsNothing(cfg, job, i);
        }
      }
      RulesByChild(cfg, job);
    }
  }

  ghost predicate ChildRulesOk(cfg: Config, job: Json, i: nat)
    requires job.Obj? && i < |NestedJobs(job)|
  {
    var child := NestedJobs(job)[i];
    child.Obj? && RulesOk(cfg, child, None) && NestedRulesOk(cfg, child)
  }

  lemma RulesByChild(cfg: Config, job: Json)
    requires job.Obj?
    ensures NestedRulesOk(cfg, job) <==> forall i :: 0 <= i < |NestedJobs(job)| ==> ChildRulesOk(cfg, job, i)
  {
    if NestedRulesOk(cfg, job) {
      forall i | 0 <= i < |NestedJobs(job)| ensures ChildRulesOk(cfg, job, i) {
        var child := NestedJobs(job)[i];
        assert NestedAnywhere(child, job);
        forall entry | NestedAnywhere(entry, child) ensures entry.Obj? && RulesOk(cfg, entry, None) {
          assert NestedAnywhere(entry, job);
        }
      }
    }
    if forall i :: 0 <= i < |NestedJobs(job)| ==> ChildRulesOk(cfg, job, i) {
      forall entry | NestedAnywhere(entry, job) ensures entry.Obj? && RulesOk(cfg, entry, None) {
        var i :| 0 <= i < |NestedJobs(job)| &&
          (entry == NestedJobs(job)[i] || NestedAnywhere(entry, NestedJobs(job)[i]));
        assert ChildRulesOk(cfg, job, i);
      }
    }
  }
}
