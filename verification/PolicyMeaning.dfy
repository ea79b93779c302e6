/** The policy in the fields of the documents it judges: what is refused, what must be confirmed. */
module PolicyMeaning {
  import opened Common
  import opened Json
  import opened PolicyModel

  // ---- Deletions and categories ----

  /** The object asks to delete something protected, as one name or in a list. */
  ghost predicate Forbidden(cfg: Config, n: Json) {
    match n.Get("delete")
    case Some(Str(s)) => s in cfg.protected
    case Some(Arr(items)) => exists i :: 0 <= i < |items| && cfg.text(items[i]) in cfg.protected
    case _ => false
  }

  /** Something stands under `delete` that is neither a text, a list nor an object. */
  predicate Unreadable(n: Json) {
    match n.Get("delete")
    case Some(Null) => true
    case Some(Bool(_)) => true
    case Some(Num(_)) => true
    case _ => false
  }

  /** The object lists `c` among its change categories. */
  ghost predicate ListsReason(cfg: Config, n: Json, c: string) {
    match n.Get("change_categories")
    case Some(Arr(items)) => exists i :: 0 <= i < |items| && cfg.text(items[i]) == c
    case _ => false
  }

  lemma DeletionsAreMeant(cfg: Config, n: Json)
    ensures DeletesProtected(cfg, n) <==> Forbidden(cfg, n)
    ensures BadDelete(cfg, n) <==> Unreadable(n)
  {
    match n.Get("delete")
    case Some(Arr(items)) =>
      var d := DeletionsOf(cfg, n).value;
      if Forbidden(cfg, n) {
        var i :| 0 <= i < |items| && cfg.text(items[i]) in cfg.protected;
        assert cfg.text(items[i]) in d * cfg.protected;
      }
      if x :| x in d * cfg.protected {
        var i :| 0 <= i < |items| && cfg.text(items[i]) == x;
      }
    case Some(Str(s)) =>
      assert s in DeletionsOf(cfg, n).value;
      assert DeletesProtected(cfg, n) <==> s in {s} * cfg.protected;
    case _ =>
  }

  lemma CategoriesAreMeant(cfg: Config, n: Json, c: string)
    ensures c in CategoriesOf(cfg, n) <==> c in cfg.critical && ListsReason(cfg, n, c)
  {
  }

  /** The tree `v` has no fault. */
  ghost predicate Faultless(cfg: Config, v: Json) {
    forall n :: Within(n, v) ==> !Forbidden(cfg, n) && !Unreadable(n)
  }

  ghost predicate HasReason(cfg: Config, v: Json, c: string) {
    c in cfg.critical && exists n :: Within(n, v) && ListsReason(cfg, n, c)
  }

  lemma TreesAreMeant(cfg: Config, v: Json)
    ensures Clean(cfg, v) <==> Faultless(cfg, v)
    ensures forall c :: c in Found(cfg, v) <==> HasReason(cfg, v, c)
  {
    forall n ensures (DeletesProtected(cfg, n) || BadDelete(cfg, n)) <==> (Forbidden(cfg, n) || Unreadable(n)) {
      DeletionsAreMeant(cfg, n);
    }
    forall c ensures c in Found(cfg, v) <==> HasReason(cfg, v, c) {
      forall n ensures c in CategoriesOf(cfg, n) <==> c in cfg.critical && ListsReason(cfg, n, c) {
        CategoriesAreMeant(cfg, n, c);
      }
      if Lists(cfg, v, c) {
        var n :| Within(n, v) && c in CategoriesOf(cfg, n);
      }
      if HasReason(cfg, v, c) {
        var n :| Within(n, v) && ListsReason(cfg, n, c);
        assert c in CategoriesOf(cfg, n);
      }
    }
  }

  ghost predicate UnreadableAt(cfg: Config, parts: seq<Json>, i: int) {
    && 0 <= i < |parts| && Unreadable(parts[i])
    && forall j :: 0 <= j < i ==> !Forbidden(cfg, parts[j]) && !Unreadable(parts[j])
  }

  /** The first part of the tree, in the order of the walk, that has a fault is unreadable. */
  ghost predicate UnreadableFirst(cfg: Config, v: Json) {
    exists i :: UnreadableAt(cfg, Parts(v), i)
  }

  lemma FaultAtIsMeant(cfg: Config, parts: seq<Json>, i: int)
    ensures FaultAt(cfg, parts, i, TypeError) <==> UnreadableAt(cfg, parts, i)
  {
    forall n
      ensures Fault(cfg, n) == Some(TypeError) <==> Unreadable(n)
      ensures Fault(cfg, n).None? <==> !Forbidden(cfg, n) && !Unreadable(n)
    {
      DeletionsAreMeant(cfg, n);
    }
    hide Fault, Forbidden, Unreadable;
  }

  lemma TypeErrorIsMeant(cfg: Config, v: Json)
    ensures FirstFault(cfg, Parts(v)) == Some(TypeError) <==> UnreadableFirst(cfg, v)
  {
    FirstFaultMeans(cfg, Parts(v), TypeError);
    hide Parts, FirstFault, FaultAt, UnreadableAt;
    forall i ensures FaultAt(cfg, Parts(v), i, TypeError) <==> UnreadableAt(cfg, Parts(v), i) {
      FaultAtIsMeant(cfg, Parts(v), i);
    }
  }

  // ---- Models, efforts, intents and profiles ----

  predicate StandsAt(text: string, part: string, k: nat) {
    k + |part| <= |text| && text[k..k + |part|] == part
  }

  /** `part in text` */
  ghost predicate Mentions(text: string, part: string) {
    exists k: nat :: StandsAt(text, part, k)
  }

  lemma {:induction false} ContainsIsMeant(text: string, part: string)
    ensures Contains(text, part) <==> Mentions(text, part)
  {
    if Contains(text, part) {
      if text[..|part|] == part {
        assert StandsAt(text, part, 0);
      } else {
        ContainsIsMeant(text[1..], part);
        var k: nat :| StandsAt(text[1..], part, k);
        assert text[k + 1..k + 1 + |part|] == text[1..][k..k + |part|];
        assert StandsAt(text, part, k + 1);
      }
    }
    if k: nat :| StandsAt(text, part, k) {
      if k == 0 {
        assert text[..|part|] == text[0..0 + |part|];
      } else {
        assert text[1..][k - 1..k - 1 + |part|] == text[k..k + |part|];
        assert StandsAt(text[1..], part, k - 1);
        ContainsIsMeant(text[1..], part);
      }
    }
  }

  lemma TruthIsMeant(v: Json)
    ensures v.Truthy() <==> v !in {Null, Bool(false), Num(0.0), Str(""), Arr([]), Obj([])}
  {
  }

  /** The profile that a job names itself: in its parameters, or else beside them, or else where it comes from. */
  function NamedProfile(job: Json): Json {
    var inside := match job.Get("parameters") case Some(p) => p.Get("requested_profile") case None => None;
    if inside.Some? && inside.value.Truthy() then inside.value
    else if job.Get("requested_profile").Some? && job.Get("requested_profile").value.Truthy() then
      job.Get("requested_profile").value
    else job.GetOr("origin_profile", Null)
  }

  function JudgedAs(cfg: Config, job: Json, effective: Option<string>): string {
    match effective
    case Some(profile) => if profile != "" then profile else cfg.text(NamedProfile(job))
    case None => cfg.text(NamedProfile(job))
  }

  lemma ProfileIsMeant(cfg: Config, job: Json, effective: Option<string>)
    ensures ProfileOf(cfg, job, effective) == JudgedAs(cfg, job, effective)
  {
    assert Obj([]).Get("requested_profile") == None;
  }

  /** Why a job is refused, apart from what it asks to delete. */
  datatype Refusal =
    | NoModelPolicy | WrongProvider | UnknownProfile
    | ModelNotAllowed | EffortNotAllowed
    | SolForIntent | SolEffortTooHigh
    | WideForProfile | WideForIntent | WideUnjustified

  ghost predicate IsSol(cfg: Config, name: string) {
    Mentions(cfg.fold(name), "sol")
  }

  ghost predicate IsWide(cfg: Config, name: string) {
    Mentions(cfg.fold(name), "900k")
  }

  ghost predicate Refused(cfg: Config, job: Json, effective: Option<string>, why: Refusal) {
    var model := job.GetOr("model_policy", Null);
    var name := cfg.text(model.GetOr("model", Str("")));
    var effort := cfg.text(model.GetOr("effort", Str("")));
    var intent := cfg.text(job.GetOr("intent", Str("")));
    var profile := JudgedAs(cfg, job, effective);
    match why
    case NoModelPolicy => !model.Obj?
    case WrongProvider => model.GetOr("provider", Null) != cfg.provider
    case UnknownProfile => profile !in cfg.profiles
    case ModelNotAllowed =>
      profile in cfg.profiles && !IsSol(cfg, name) && !IsWide(cfg, name) && name !in cfg.profiles[profile].models
    case EffortNotAllowed =>
      profile in cfg.profiles && !IsSol(cfg, name) && effort !in cfg.profiles[profile].efforts
    case SolForIntent => IsSol(cfg, name) && intent !in cfg.solIntents
    case SolEffortTooHigh => IsSol(cfg, name) && effort != "low" && effort != "medium" && effort != "high"
    case WideForProfile => IsWide(cfg, name) && profile !in cfg.wideProfiles
    case WideForIntent => IsWide(cfg, name) && intent !in cfg.wideIntents
    case WideUnjustified =>
      IsWide(cfg, name) && !(model.Get("context_size_justification").Some? &&
                             model.Get("context_size_justification").value.Truthy())
  }

  ghost predicate KeepsRules(cfg: Config, job: Json, effective: Option<string>) {
    forall why :: !Refused(cfg, job, effective, why)
  }

  lemma RulesRefuse(cfg: Config, job: Json, effective: Option<string>, why: Refusal)
    requires RulesOk(cfg, job, effective)
    ensures !Refused(cfg, job, effective, why)
  {
    var name := cfg.text(job.GetOr("model_policy", Null).GetOr("model", Str("")));
    ProfileIsMeant(cfg, job, effective);
    ContainsIsMeant(cfg.fold(name), "sol");
    ContainsIsMeant(cfg.fold(name), "900k");
    hide ProfileOf, JudgedAs, Contains, Mentions;
  }

  lemma NothingElseRefuses(cfg: Config, job: Json, effective: Option<string>)
    requires KeepsRules(cfg, job, effective)
    ensures RulesOk(cfg, job, effective)
  {
    var name := cfg.text(job.GetOr("model_policy", Null).GetOr("model", Str("")));
    ProfileIsMeant(cfg, job, effective);
    ContainsIsMeant(cfg.fold(name), "sol");
    ContainsIsMeant(cfg.fold(name), "900k");
    hide ProfileOf, JudgedAs, Contains, Mentions;
    assert !Refused(cfg, job, effective, NoModelPolicy) && !Refused(cfg, job, effective, WrongProvider);
    assert !Refused(cfg, job, effective, UnknownProfile) && !Refused(cfg, job, effective, ModelNotAllowed);
    assert !Refused(cfg, job, effective, EffortNotAllowed) && !Refused(cfg, job, effective, SolForIntent);
    assert !Refused(cfg, job, effective, SolEffortTooHigh) && !Refused(cfg, job, effective, WideForProfile);
    assert !Refused(cfg, job, effective, WideForIntent) && !Refused(cfg, job, effective, WideUnjustified);
  }

  /** The rules allow a job exactly if none of these reasons speaks against it. */
  lemma RulesAreMeant(cfg: Config, job: Json, effective: Option<string>)
    ensures RulesOk(cfg, job, effective) <==> KeepsRules(cfg, job, effective)
  {
    if RulesOk(cfg, job, effective) {
      hide RulesOk, Refused;
      forall why ensures !Refused(cfg, job, effective, why) {
        RulesRefuse(cfg, job, effective, why);
      }
    }
    if KeepsRules(cfg, job, effective) {
      hide RulesOk, KeepsRules;
      NothingElseRefuses(cfg, job, effective);
    }
  }

  // ---- Nested jobs ----

  /** `child` stands under `nested_jobs` in the job's parameters. */
  predicate ListsJob(job: Json, child: Json) {
    match job.Get("parameters")
    case None => false
    case Some(p) =>
      match p.Get("nested_jobs")
      case Some(Arr(items)) => child in items
      case _ => false
  }

  lemma ListedIsSmaller(job: Json, child: Json)
    requires ListsJob(job, child)
    ensures child < job
  {
    var p := job.Get("parameters").value;
    FieldWithin(job, "parameters");
    FieldWithin(p, "nested_jobs");
    var items := p.Get("nested_jobs").value.items;
    var i :| 0 <= i < |items| && items[i] == child;
    assert items[i] < p.Get("nested_jobs").value;
  }

  /** `entry` is a job listed in `job`, or in a job listed there, at any depth. */
  ghost predicate Below(entry: Json, job: Json)
    decreases job
  {
    exists child ::
      ListsJob(job, child) && (entry == child || (ListedIsSmaller(job, child); Below(entry, child)))
  }

  lemma ListedAreNested(job: Json, child: Json)
    ensures ListsJob(job, child) <==> exists i :: 0 <= i < |NestedJobs(job)| && NestedJobs(job)[i] == child
  {
    assert Obj([]).Get("nested_jobs") == None;
    assert child in NestedJobs(job) <==> exists i :: 0 <= i < |NestedJobs(job)| && NestedJobs(job)[i] == child;
  }

  lemma {:induction false} NestingIsMeant(entry: Json, job: Json)
    ensures NestedAnywhere(entry, job) <==> Below(entry, job)
    decreases job
  {
    if NestedAnywhere(entry, job) {
      var i :| 0 <= i < |NestedJobs(job)| &&
        (entry == NestedJobs(job)[i] || (NestedIsInside(job, i); NestedAnywhere(entry, NestedJobs(job)[i])));
      var child := NestedJobs(job)[i];
      NestedIsInside(job, i);
      ListedAreNested(job, child);
      NestingIsMeant(entry, child);
      assert ListsJob(job, child);
    }
    if Below(entry, job) {
      var child :| ListsJob(job, child) && (entry == child || (ListedIsSmaller(job, child); Below(entry, child)));
      ListedIsSmaller(job, child);
      ListedAreNested(job, child);
      NestingIsMeant(entry, child);
      assert job.Obj?;
    }
  }

  // ---- A whole payload ----

  /** What stands under `parameters`, if anything does, has no fault. */
  ghost predicate HarmlessParameters(cfg: Config, job: Json) {
    job.Get("parameters").Some? ==> Faultless(cfg, job.Get("parameters").value)
  }

  /** The payload and every job below it keep the rules, and nothing in the payload's parameters has a fault. */
  ghost predicate Acceptable(cfg: Config, payload: Json, effective: Option<string>) {
    && KeepsRules(cfg, payload, effective) && HarmlessParameters(cfg, payload)
    && forall entry :: Below(entry, payload) ==> entry.Obj? && KeepsRules(cfg, entry, None)
  }

  lemma AcceptanceIsMeant(cfg: Config, payload: Json, effective: Option<string>)
    requires payload.Obj?
    ensures RulesOk(cfg, payload, effective) && Clean(cfg, Parameters(payload)) && NestedRulesOk(cfg, payload) <==>
      Acceptable(cfg, payload, effective)
  {
    RulesAreMeant(cfg, payload, effective);
    TreesAreMeant(cfg, Parameters(payload));
    NothingIsClean(cfg);
    forall entry ensures NestedAnywhere(entry, payload) <==> Below(entry, payload) {
      NestingIsMeant(entry, payload);
    }
    forall entry ensures RulesOk(cfg, entry, None) <==> KeepsRules(cfg, entry, None) {
      RulesAreMeant(cfg, entry, None);
    }
    hide RulesOk, KeepsRules, Clean, Faultless, NestedAnywhere, Below;
  }

  /** The reasons of a payload are the critical categories that some object in its parameters lists. */
  lemma ReasonsAreMeant(cfg: Config, payload: Json)
    ensures forall c :: c in Found(cfg, Parameters(payload)) <==>
      payload.Get("parameters").Some? && HasReason(cfg, payload.Get("parameters").value, c)
  {
    TreesAreMeant(cfg, Parameters(payload));
    NothingIsClean(cfg);
  }

  /** The payload itself keeps the rules, and the walk over its parameters meets an unreadable fault first. */
  ghost predicate RaisesTypeError(cfg: Config, payload: Json, effective: Option<string>) {
    && KeepsRules(cfg, payload, effective)
    && payload.Get("parameters").Some? && UnreadableFirst(cfg, payload.Get("parameters").value)
  }

  lemma RaisingIsMeant(cfg: Config, payload: Json, effective: Option<string>)
    ensures RulesOk(cfg, payload, effective) && FirstFault(cfg, Parts(Parameters(payload))) == Some(TypeError) <==>
      RaisesTypeError(cfg, payload, effective)
  {
    RulesAreMeant(cfg, payload, effective);
    TypeErrorIsMeant(cfg, Parameters(payload));
    if payload.Get("parameters").None? {
      NothingIsClean(cfg);
      CleanHasNoFault(cfg, Obj([]));
    }
  }
}
