/** The typed envelopes of the control plane (src/hermes_harness/control_plane/contracts.py). */
module Contracts {
  import opened Common
  import opened Json

  /** uuid5 is an injective function of its namespace and name: a free constructor. */
  datatype Uuid = Uuid4(n: nat) | Uuid5(namespace: Uuid, name: string)

  /** The length of `str(uuid)`. */
  const UUID_TEXT_LENGTH := 36

  /**
   An idempotency key: `UuidThen` is a text that begins with `str(uuid)`, whoever wrote it, and `Text` any
   other text, so the two are different keys.
   */
  datatype Key = Text(text: string) | UuidThen(uuid: Uuid, rest: string)
  {
    function Length(): nat {
      match this
      case Text(text) => |text|
      case UuidThen(_, rest) => UUID_TEXT_LENGTH + |rest|
    }

    function Append(more: string): Key {
      match this
      case Text(text) => Text(text + more)
      case UuidThen(uuid, rest) => UuidThen(uuid, rest + more)
    }
  }

  datatype Intent =
    | CalendarCreateVtodo | CalendarCreateEvent | CalendarUpdate | CalendarDelete | CalendarList
    | PiHealthRead | PiJobsList | PiJobsCancel
    | BrowserResearch | BrowserOrderPrepare | BrowserFormPrepare | BrowserAuthRequired
    | TravelPlan | TravelSearchFlights | TravelSearchStays
    | TechnicalResearch | TechnicalPlan | TechnicalChange | TechnicalReview
    | DevelopmentCoordinate
    | CodePlan | CodeChange | CodeReview
    | DocsReconcile | DocsQuery
    | GeneralAnswer | GeneralClarify

  datatype RiskClass = LowRisk | MediumRisk | HighRisk | CriticalRisk

  datatype Effort = Low | Medium | High | XHigh

  datatype ModelPolicy = ModelPolicy(provider: string, model: string, effort: Effort, justification: Option<string>)

  datatype Envelope = Envelope(
    schemaVersion: string,
    jobId: Uuid,
    parentJobId: Option<Uuid>,
    traceId: Uuid,
    originProfile: string,
    originSession: string,
    deliveryTarget: string,
    intent: Intent,
    key: Key,
    risk: RiskClass,
    modelPolicy: ModelPolicy,
    contextReferences: seq<string>,
    parameters: Json,
    sourceText: string,
    dependencies: seq<Uuid>)

  // ---- What the envelope type accepts ----

  predicate ShortText(s: string) {
    1 <= |s| <= 4096
  }

  predicate SchemaVersion(s: string) {
    |s| > 4 && s[..4] == "1.0." && forall i :: 4 <= i < |s| ==> '0' <= s[i] <= '9'
  }

  predicate ModelAccepted(policy: ModelPolicy) {
    && policy.provider == "openai-codex" && ShortText(policy.model)
    && (policy.justification.Some? ==> ShortText(policy.justification.value))
  }

  /** The constraints on the fields of an envelope; nobody has an envelope that violates them. */
  predicate Accepted(env: Envelope) {
    && SchemaVersion(env.schemaVersion) && ModelAccepted(env.modelPolicy)
    && ShortText(env.originProfile) && ShortText(env.originSession) && ShortText(env.deliveryTarget)
    && 1 <= env.key.Length() <= 256 && 1 <= |env.sourceText| <= 16384
    && |env.contextReferences| <= 100
    && (forall i :: 0 <= i < |env.contextReferences| ==> ShortText(env.contextReferences[i]))
    && env.parameters.Obj? && |env.dependencies| <= 20
  }
}
