/** The jobs of one coordination: their ids and keys, which the dispatcher derives from the coordinating job. */
module DispatchFamily {
  import opened Contracts
  import opened DispatchModel

  ghost predicate DistinctStages(stages: seq<Stage>) {
    forall i, j :: 0 <= i < j < |stages| ==> stages[i].name != stages[j].name
  }

  predicate WorksDiffer(a: Work, b: Work) {
    a.env.jobId != b.env.jobId && a.env.key != b.env.key
  }

  /** The children of a coordination are different jobs with different keys. */
  ghost predicate DistinctWorks(works: seq<Work>) {
    forall i, j :: 0 < i < j < |works| ==> WorksDiffer(works[i], works[j])
  }

  lemma PrefixCancels(prefix: string, a: string, b: string)
    requires prefix + a == prefix + b
    ensures a == b
  {
    assert a == (prefix + a)[|prefix|..];
    assert b == (prefix + b)[|prefix|..];
  }

  lemma SuffixCancels(a: string, b: string, suffix: string)
    requires a + suffix == b + suffix
    ensures a == b
  {
    assert |a + suffix| == |b + suffix|;
    assert a == (a + suffix)[..|a|];
    assert b == (b + suffix)[..|b|];
  }

  lemma AppendIsInjective(key: Key, a: string, b: string)
    requires key.Append(a) == key.Append(b)
    ensures a == b
  {
    PrefixCancels(if key.Text? then key.text else key.rest, a, b);
  }

  lemma AppendKeepsKeysApart(a: Key, b: Key, more: string)
    requires a.Append(more) == b.Append(more)
    ensures a == b
  {
    SuffixCancels(if a.Text? then a.text else a.rest, if b.Text? then b.text else b.rest, more);
  }

  /** What is appended to a key always leaves something behind the uuid. */
  lemma AppendedIsNoBareUuid(key: Key, more: string, u: Uuid)
    requires more != ""
    ensures key.Append(more) != UuidThen(u, "")
  {
    assert key.UuidThen? ==> |key.rest + more| > 0;
  }

  lemma DifferentStagesDifferentJobs(env: Envelope, a: string, b: string)
    requires a != b
    ensures ChildId(env, a) != ChildId(env, b)
  {
    var prefix := "development-coordinate:";
    if prefix + a == prefix + b {
      PrefixCancels(prefix, a, b);
    }
  }

  /** The name under which the key of a child is minted when the joined text would be too long. */
  function MintedName(stage: string): string {
    "development-coordinate:" + stage + ":idempotency"
  }

  lemma MintedNamesDiffer(a: string, b: string)
    requires a != b
    ensures MintedName(a) != MintedName(b)
  {
    if MintedName(a) == MintedName(b) {
      SuffixCancels("development-coordinate:" + a, "development-coordinate:" + b, ":idempotency");
      PrefixCancels("development-coordinate:", a, b);
    }
  }

  /** Whatever the key of the coordinating job, however long it is: distinct stages have distinct keys. */
  lemma DifferentStagesDifferentKeys(env: Envelope, a: string, b: string)
    requires a != b
    ensures ChildKey(env, a) != ChildKey(env, b)
  {
    MintedNamesDiffer(a, b);
    if env.key.Append(":" + a) == env.key.Append(":" + b) {
      AppendIsInjective(env.key, ":" + a, ":" + b);
      PrefixCancels(":", a, b);
    }
    AppendedIsNoBareUuid(env.key, ":" + a, Uuid5(env.jobId, MintedName(b)));
    AppendedIsNoBareUuid(env.key, ":" + b, Uuid5(env.jobId, MintedName(a)));
  }

  /**
   A child has the key of the coordinating job exactly if that key is the very uuid minted for the child,
   which takes a stage name of more than 219 characters.
   */
  lemma ChildKeyIsParentKey(env: Envelope, stage: string)
    ensures ChildKey(env, stage) == env.key <==>
      env.key == UuidThen(Uuid5(env.jobId, MintedName(stage)), "") && |stage| > 255 - UUID_TEXT_LENGTH
  {
    assert env.key.Append(":" + stage) != env.key by {
      assert |":" + stage| > 0;
      assert env.key.Append(":" + stage).Length() == env.key.Length() + |":" + stage|;
    }
  }

  /**
   Two coordinations of one job agree on the key of a child exactly if they have the same key themselves or
   both keys are too long for the stage.
   */
  lemma ChildKeysAgreeExactly(a: Envelope, b: Envelope, stage: string)
    requires a.jobId == b.jobId
    ensures ChildKey(a, stage) == ChildKey(b, stage) <==>
      || a.key == b.key
      || (a.key.Append(":" + stage).Length() > 256 && b.key.Append(":" + stage).Length() > 256)
  {
    var more := ":" + stage;
    AppendedIsNoBareUuid(a.key, more, Uuid5(a.jobId, MintedName(stage)));
    AppendedIsNoBareUuid(b.key, more, Uuid5(a.jobId, MintedName(stage)));
    if a.key.Append(more) == b.key.Append(more) {
      AppendKeepsKeysApart(a.key, b.key, more);
    }
  }

  lemma {:induction false} ChildAt(env: Envelope, stages: seq<Stage>, i: nat) returns (work: Work)
    requires env.intent.DevelopmentCoordinate? && 0 < i <= |stages|
    ensures |Program(env, stages)| == |stages| + 1 && work == Program(env, stages)[i] &&
      Program(env, stages)[0] == Work(env, EnsureOnly)
    ensures work == ChildWork(env, stages, i - 1)
    ensures work.env.jobId == ChildId(env, stages[i - 1].name) && work.env.key == ChildKey(env, stages[i - 1].name)
    ensures work.duty == Delegate(stages[i - 1].assignee) && work.env.parameters == env.parameters
  {
    work := Program(env, stages)[i];
    assert work == ChildWork(env, stages, i - 1);
  }

  lemma TwoChildrenDiffer(env: Envelope, stages: seq<Stage>, i: nat, j: nat)
    requires env.intent.DevelopmentCoordinate? && 0 < i <= |stages| && 0 < j <= |stages|
    requires stages[i - 1].name != stages[j - 1].name
    ensures |Program(env, stages)| == |stages| + 1
    ensures WorksDiffer(Program(env, stages)[i], Program(env, stages)[j])
  {
    var a := ChildAt(env, stages, i);
    var b := ChildAt(env, stages, j);
    hide Program, ChildWork, ChildKey, ChildId;
    DifferentStagesDifferentJobs(env, stages[i - 1].name, stages[j - 1].name);
    DifferentStagesDifferentKeys(env, stages[i - 1].name, stages[j - 1].name);
  }

  /** Distinct stage names are enough for distinct jobs and distinct keys. */
  lemma StagesGiveDistinctWorks(env: Envelope, stages: seq<Stage>)
    requires env.intent.DevelopmentCoordinate? && DistinctStages(stages)
    ensures DistinctWorks(Program(env, stages))
  {
    var works := Program(env, stages);
    assert |works| == |stages| + 1;
    forall i, j | 0 < i < j < |works| ensures WorksDiffer(works[i], works[j]) {
      assert stages[i - 1].name != stages[j - 1].name;
      TwoChildrenDiffer(env, stages, i, j);
    }
  }

  /** The stages the dispatcher ships with are distinct, and none of their children takes the coordinating job's key. */
  lemma ShippedStagesAreDistinct(env: Envelope)
    ensures DistinctStages(DEVELOPMENT_WORKFLOW)
    ensures forall i :: 0 <= i < |DEVELOPMENT_WORKFLOW| ==> ChildKey(env, DEVELOPMENT_WORKFLOW[i].name) != env.key
  {
    assert "research"[0] != "change"[0];
    forall i | 0 <= i < |DEVELOPMENT_WORKFLOW| ensures ChildKey(env, DEVELOPMENT_WORKFLOW[i].name) != env.key {
      ChildKeyIsParentKey(env, DEVELOPMENT_WORKFLOW[i].name);
    }
  }

  /** Whoever could build the coordinating envelope can build those of its children, however long its key is. */
  lemma ChildrenAreAccepted(env: Envelope, stages: seq<Stage>, i: nat)
    requires Accepted(env) && env.intent.DevelopmentCoordinate? && i < |Program(env, stages)|
    ensures Accepted(Program(env, stages)[i].env)
  {
    if i > 0 {
      var child := ChildAt(env, stages, i);
      assert child.env.key.Length() >= 1;
    }
  }

  /** No uuid is minted in its own namespace. */
  lemma ChildIsNotParent(env: Envelope, stage: string)
    ensures ChildId(env, stage) != env.jobId
  {
    NoOwnNamespace(env.jobId, "development-coordinate:" + stage);
  }

  lemma NoOwnNamespace(u: Uuid, name: string)
    ensures Uuid5(u, name) != u
  {
    if u.Uuid5? {
      NoOwnNamespace(u.namespace, u.name);
    }
  }
}
