/** The review gateway connection as a state machine over what it reads (src/hermes_harness/observability_review.py). */
module JsonRpcModel {
  import opened Common
  import opened Json

  const COMPLETE := "message.complete"

  datatype Notification = Notification(kind: string, session: Option<string>, payload: Option<Json>)

  /**
   A buffered notification.  A global event has no session and `message.start` may have no payload;
   a completion always has both.
   */
  type Event = e: Notification | e.kind == COMPLETE ==> e.session.Some? && e.payload.Some?
    witness Notification("", None, None)

  datatype Fault = TransportFailed | InvalidFrame | InvalidEvent

  /** Why a call raised `ReviewExecutionBlocked`. */
  datatype Blocked =
    | Unreadable(fault: Fault)
    | SecondCompletion
    | NotCorrelated
    | ErrorResponse
    | InvalidResult
    | SessionNotUnique
    | UnexpectedResponse

  /** What one read of the stream gives: a line of JSON, or a timeout, a failure or text that is no JSON. */
  datatype Line = Text(frame: Json) | Broken

  /** A line as the client understands it. */
  datatype Read = Note(event: Event) | Reply(frame: Json) | Bad(fault: Fault)

  const GLOBAL_EVENTS := {
    "gateway.ready", "session.reclaimed", "skin.changed", "pet.changed", "cron.changed",
    "sessions.changed", "platforms.changed", "pairing.changed", "bot_relay.outbox.pending"
  }

  /** The event a frame carries; `None` for a frame that is no notification. */
  function Decode(frame: Json): Outcome<Option<Event>, Fault> {
    if frame.Get("method") != Some(Str("event")) then Ok(None)
    else
      var params := frame.GetOr("params", Null);
      var kind, payload := params.GetOr("type", Null), params.GetOr("payload", Null);
      if !params.Obj? || !kind.Str? then Err(InvalidEvent)
      else if kind.s in GLOBAL_EVENTS then
        if payload.Obj? then Ok(Some(Notification(kind.s, None, Some(payload)))) else Err(InvalidEvent)
      else
        var session := params.GetOr("session_id", Null);
        if !session.Str? || session.s == "" then Err(InvalidEvent)
        else if payload.Null? then
          if kind.s == "message.start" then Ok(Some(Notification(kind.s, Some(session.s), None))) else Err(InvalidEvent)
        else if payload.Obj? then Ok(Some(Notification(kind.s, Some(session.s), Some(payload))))
        else Err(InvalidEvent)
  }

  /** What a buffered notification looks like. */
  predicate WellFormed(e: Event) {
    && (e.session.None? <==> e.kind in GLOBAL_EVENTS)
    && (e.session.Some? ==> e.session.value != "")
    && (if e.payload.Some? then e.payload.value.Obj? else e.kind == "message.start")
  }

  /** The frame that announces `e`. */
  function Encode(e: Event): Json {
    var session := if e.session.Some? then [("session_id", Str(e.session.value))] else [];
    var payload := if e.payload.Some? then [("payload", e.payload.value)] else [];
    Obj([("jsonrpc", Str("2.0")), ("method", Str("event")),
      ("params", Obj([("type", Str(e.kind))] + session + payload))])
  }

  lemma GetFirst(key: string, value: Json, rest: seq<(string, Json)>)
    ensures Obj([(key, value)] + rest).Get(key) == Some(value)
  {
  }

  lemma GetLater(key: string, other: string, value: Json, rest: seq<(string, Json)>)
    requires key != other
    ensures Obj([(other, value)] + rest).Get(key) == Obj(rest).Get(key)
  {
    assert ([(other, value)] + rest)[1..] == rest;
  }

  /** `params` announces the event: its type, its session unless the type is global, and its payload. */
  ghost predicate Announces(params: Json, e: Event) {
    && params.Get("type") == Some(Str(e.kind))
    && (e.kind in GLOBAL_EVENTS ==> e.session.None?)
    && (e.kind !in GLOBAL_EVENTS ==>
          e.session.Some? && e.session.value != "" && params.Get("session_id") == Some(Str(e.session.value)))
    && (e.payload.Some? ==> e.payload.value.Obj? && params.Get("payload") == e.payload)
    && (e.payload.None? ==>
          && e.kind == "message.start" && e.kind !in GLOBAL_EVENTS
          && (params.Get("payload") == None || params.Get("payload") == Some(Null)))
  }

  /** The kinds of events that belong to no session. */
  lemma GlobalEventsAre(kind: string)
    ensures kind in GLOBAL_EVENTS <==>
      || kind == "gateway.ready" || kind == "session.reclaimed" || kind == "sessions.changed"
      || kind == "skin.changed" || kind == "pet.changed" || kind == "cron.changed" || kind == "platforms.changed"
      || kind == "pairing.changed" || kind == "bot_relay.outbox.pending"
  {
  }

  /** Every frame is an announced event, no notification, or invalid. */
  lemma FramesAreMeant(frame: Json, e: Event)
    ensures Decode(frame) == Ok(None) <==> frame.Get("method") != Some(Str("event"))
    ensures Decode(frame) == Ok(Some(e)) <==>
      && frame.Get("method") == Some(Str("event")) && frame.Get("params").Some?
      && Announces(frame.Get("params").value, e)
    ensures Decode(frame).Err? ==> Decode(frame).error == InvalidEvent
  {
  }

  /** Decoding gives well-formed events only, and gives back every one of them. */
  lemma EventsRoundTrip(e: Event, frame: Json)
    ensures Decode(frame) == Ok(Some(e)) ==> WellFormed(e)
    ensures WellFormed(e) ==> Decode(Encode(e)) == Ok(Some(e))
  {
    hide Decode, Encode, WellFormed;
    if Decode(frame) == Ok(Some(e)) {
      DecodedIsWellFormed(e, frame);
    }
    if WellFormed(e) {
      EncodedIsDecoded(e);
    }
  }

  lemma DecodedIsWellFormed(e: Event, frame: Json)
    requires Decode(frame) == Ok(Some(e))
    ensures WellFormed(e)
  {
  }

  lemma EncodedIsDecoded(e: Event)
    requires WellFormed(e)
    ensures Decode(Encode(e)) == Ok(Some(e))
  {
    ParamsOf(e);
    FieldsOf(e);
  }

  lemma ParamsOf(e: Event)
    ensures Encode(e).Get("method") == Some(Str("event"))
    ensures Encode(e).Get("params") == Some(Encode(e).fields[2].1)
  {
    var f := Encode(e).fields;
    assert f == [f[0]] + ([f[1]] + ([f[2]] + []));
    GetLater("method", "jsonrpc", f[0].1, [f[1]] + ([f[2]] + []));
    GetFirst("method", f[1].1, [f[2]] + []);
    GetLater("params", "jsonrpc", f[0].1, [f[1]] + ([f[2]] + []));
    GetLater("params", "method", f[1].1, [f[2]] + []);
    GetFirst("params", f[2].1, []);
  }

  lemma FieldsOf(e: Event)
    ensures var params := Encode(e).fields[2].1;
      && params.Get("type") == Some(Str(e.kind))
      && params.Get("session_id") == (if e.session.Some? then Some(Str(e.session.value)) else None)
      && params.Get("payload") == e.payload
  {
    var session := if e.session.Some? then [("session_id", Str(e.session.value))] else [];
    var payload := if e.payload.Some? then [("payload", e.payload.value)] else [];
    var rest := session + payload;
    assert [("type", Str(e.kind))] + session + payload == [("type", Str(e.kind))] + rest;
    hide *;
    GetFirst("type", Str(e.kind), rest);
    GetLater("session_id", "type", Str(e.kind), rest);
    GetLater("payload", "type", Str(e.kind), rest);
    SessionThenPayload(e.session, e.payload);
  }

  lemma SessionThenPayload(session: Option<string>, payload: Option<Json>)
    ensures var rest := (if session.Some? then [("session_id", Str(session.value))] else [])
                        + (if payload.Some? then [("payload", payload.value)] else []);
      && Obj(rest).Get("session_id") == (if session.Some? then Some(Str(session.value)) else None)
      && Obj(rest).Get("payload") == payload
  {
    var last := if payload.Some? then [("payload", payload.value)] else [];
    PayloadAlone(payload);
    if session.Some? {
      GetFirst("session_id", Str(session.value), last);
      GetLater("payload", "session_id", Str(session.value), last);
    } else {
      assert [] + last == last;
    }
  }

  lemma PayloadAlone(payload: Option<Json>)
    ensures var last := if payload.Some? then [("payload", payload.value)] else [];
      && Obj(last).Get("session_id") == None
      && Obj(last).Get("payload") == payload
  {
    if payload.Some? {
      assert [("payload", payload.value)] + [] == [("payload", payload.value)];
      GetFirst("payload", payload.value, []);
      GetLater("session_id", "payload", payload.value, []);
    }
  }

  function Classify(line: Line): Read {
    if line.Broken? then Bad(TransportFailed)
    else if line.frame.Get("jsonrpc") != Some(Str("2.0")) then Bad(InvalidFrame)
    else
      Understood(line.frame)
  }

  function Understood(frame: Json): Read {
    var decoded := Decode(frame);
    if decoded.Err? then Bad(decoded.error)
    else if decoded.value.None? then Reply(frame)
    else Note(decoded.value.value)
  }

  /** A line is refused unless it is JSON that names version 2.0 and is no invalid event. */
  lemma LinesAreMeant(line: Line)
    ensures Classify(line) == Bad(TransportFailed) <==> line.Broken?
    ensures Classify(line) == Bad(InvalidFrame) <==> line.Text? && line.frame.Get("jsonrpc") != Some(Str("2.0"))
    ensures Classify(line).Reply? ==> Classify(line) == Reply(line.frame)
  {
  }

  function ClassifyAll(lines: seq<Line>): (r: seq<Read>)
    ensures |r| == |lines| && forall i :: 0 <= i < |lines| ==> r[i] == Classify(lines[i])
  {
    seq(|lines|, i requires 0 <= i < |lines| => Classify(lines[i]))
  }

  /** The fields of the client, the stream it reads, and the ids it has given to requests. */
  datatype Client = Client(
    nextRequestId: nat,
    notifications: seq<Event>,
    completed: set<string>,
    incoming: seq<Read>,
    ids: seq<string>)

  datatype Seen = Recorded | Answer(frame: Json) | Raised(why: Blocked)

  predicate Completes(e: Event) {
    e.kind == COMPLETE
  }

  /** Buffers an event.  A second completion of a session is buffered too, and then raises. */
  function Record(c: Client, e: Event): (Client, Seen) {
    var next := c.(notifications := c.notifications + [e]);
    if !Completes(e) then (next, Recorded)
    else if e.session.value in c.completed then (next, Raised(SecondCompletion))
    else (next.(completed := c.completed + {e.session.value}), Recorded)
  }

  /** Reads one frame and buffers it when it is an event; past the end of the stream the connection is closed. */
  function Receive(c: Client): (r: (Client, Seen))
    ensures r.1.Recorded? ==> |r.0.incoming| < |c.incoming|
  {
    if c.incoming == [] then (c, Raised(Unreadable(TransportFailed)))
    else Heard(c.(incoming := c.incoming[1..]), c.incoming[0])
  }

  function Heard(c: Client, read: Read): (Client, Seen) {
    match read
    case Bad(fault) => (c, Raised(Unreadable(fault)))
    case Reply(frame) => (c, Answer(frame))
    case Note(e) => Record(c, e)
  }

  /** What a response frame means to the request with id `id`. */
  function Respond(frame: Json, id: string): Outcome<Json, Blocked> {
    var result := frame.GetOr("result", Null);
    if frame.Get("id") != Some(Str(id)) then Err(NotCorrelated)
    else if frame.Get("error").Some? then Err(ErrorResponse)
    else if !result.Obj? then Err(InvalidResult)
    else Ok(result)
  }

  /** The frame answers the request with `id`: it names that id and no error, and its result is the object `result`. */
  predicate Answers(frame: Json, id: string, result: Json) {
    frame.Get("id") == Some(Str(id)) && frame.Get("error") == None && frame.Get("result") == Some(result) && result.Obj?
  }

  lemma ResponsesAreMeant(frame: Json, id: string, result: Json)
    ensures Respond(frame, id) == Ok(result) <==> Answers(frame, id, result)
    ensures Respond(frame, id) == Err(NotCorrelated) <==> frame.Get("id") != Some(Str(id))
    ensures Respond(frame, id) == Err(ErrorResponse) <==> frame.Get("id") == Some(Str(id)) && frame.Get("error").Some?
    ensures Respond(frame, id) == Err(InvalidResult) <==>
      && frame.Get("id") == Some(Str(id)) && frame.Get("error") == None
      && (frame.Get("result").Some? ==> !frame.Get("result").value.Obj?)
  {
  }

  function AwaitResponse(c: Client, id: string): (Client, Outcome<Json, Blocked>)
    decreases |c.incoming|
  {
    var (next, seen) := Receive(c);
    match seen
    case Recorded => AwaitResponse(next, id)
    case Answer(frame) => (next, Respond(frame, id))
    case Raised(why) => (next, Err(why))
  }

  function AwaitCompletion(c: Client, session: string): (Client, Outcome<Json, Blocked>)
    decreases |c.incoming|
  {
    var (next, seen) := Receive(c);
    match seen
    case Recorded =>
      var e := next.notifications[|next.notifications| - 1];
      if Completes(e) && e.session.value == session then (next, Ok(e.payload.value))
      else AwaitCompletion(next, session)
    case Answer(_) => (next, Err(UnexpectedResponse))
    case Raised(why) => (next, Err(why))
  }

  function Digit(d: nat): char
    requires d < 10
  {
    "0123456789"[d]
  }

  /** `str(n)` */
  function Decimal(n: nat): (r: string)
    ensures r != [] && (n >= 10 ==> |r| > 1)
  {
    if n < 10 then [Digit(n)] else Decimal(n / 10) + [Digit(n % 10)]
  }

  function RequestId(n: nat): string {
    "observability-review-" + Decimal(n)
  }

  /** A call from outside; `alive` and `written` say whether the process runs and takes the request. */
  datatype Op = Request(alive: bool, written: bool) | WaitForMessageComplete(session: string)

  function Do(c: Client, op: Op): (Client, Outcome<Json, Blocked>) {
    match op
    case Request(alive, written) =>
      if !alive then (c, Err(Unreadable(TransportFailed)))
      else
        var id := RequestId(c.nextRequestId + 1);
        var next := c.(nextRequestId := c.nextRequestId + 1, ids := c.ids + [id]);
        if !written then (next, Err(Unreadable(TransportFailed))) else AwaitResponse(next, id)
    case WaitForMessageComplete(session) =>
      if session == "" || session in c.completed then (c, Err(SessionNotUnique)) else AwaitCompletion(c, session)
  }

  function Fresh(incoming: seq<Read>): Client {
    Client(0, [], {}, incoming, [])
  }

  /** A run of calls: the client afterwards and what each call gave. */
  function Run(c: Client, ops: seq<Op>): (Client, seq<Outcome<Json, Blocked>>) {
    if ops == [] then (c, [])
    else
      var (mid, results) := Run(c, ops[..|ops| - 1]);
      var (end, result) := Do(mid, ops[|ops| - 1]);
      (end, results + [result])
  }

  // ---- Invariants ----

  /** How often the notifications complete session `s`. */
  function Completions(ns: seq<Event>, s: string): nat {
    if ns == [] then 0
    else
      var last := ns[|ns| - 1];
      Completions(ns[..|ns| - 1], s) + if Completes(last) && last.session.value == s then 1 else 0
  }

  /** The completed sessions are those with a completion among the notifications. */
  ghost predicate InStep(c: Client) {
    forall s :: s in c.completed <==> Completions(c.notifications, s) > 0
  }

  ghost predicate OnceEach(ns: seq<Event>) {
    forall s :: Completions(ns, s) <= 1
  }

  /** Notifications and completed sessions are never dropped. */
  ghost predicate Continues(a: Client, b: Client) {
    a.notifications <= b.notifications && a.completed <= b.completed
  }

  lemma OneMoreNotification(ns: seq<Event>, e: Event, s: string)
    ensures Completions(ns + [e], s) == Completions(ns, s) + if Completes(e) && e.session.value == s then 1 else 0
  {
    assert (ns + [e])[..|ns + [e]| - 1] == ns;
  }

  lemma OnceEachGrows(ns: seq<Event>, e: Event)
    ensures OnceEach(ns + [e]) <==> OnceEach(ns) && (Completes(e) ==> Completions(ns, e.session.value) == 0)
  {
    if OnceEach(ns) && (Completes(e) ==> Completions(ns, e.session.value) == 0) {
      forall s ensures Completions(ns + [e], s) <= 1 {
        OneMoreNotification(ns, e, s);
      }
    }
    if OnceEach(ns + [e]) {
      forall s ensures Completions(ns, s) <= 1 {
        OneMoreNotification(ns, e, s);
        assert Completions(ns + [e], s) <= 1;
      }
      if Completes(e) {
        OneMoreNotification(ns, e, e.session.value);
        assert Completions(ns + [e], e.session.value) <= 1;
      }
    }
  }

  lemma RecordKeeps(c: Client, e: Event)
    requires InStep(c)
    ensures InStep(Record(c, e).0)
    ensures OnceEach(Record(c, e).0.notifications) <==>
      OnceEach(c.notifications) && Record(c, e).1 != Raised(SecondCompletion)
  {
    OnceEachGrows(c.notifications, e);
    var next := Record(c, e).0;
    forall s ensures s in next.completed <==> Completions(next.notifications, s) > 0 {
      OneMoreNotification(c.notifications, e, s);
    }
  }

  /** One frame: the invariant stays, and a session is completed twice exactly if that raises. */
  lemma ReceiveKeeps(c: Client)
    requires InStep(c)
    ensures InStep(Receive(c).0) && Continues(c, Receive(c).0)
    ensures OnceEach(Receive(c).0.notifications) <==>
      OnceEach(c.notifications) && Receive(c).1 != Raised(SecondCompletion)
    ensures Receive(c).0.ids == c.ids && Receive(c).0.nextRequestId == c.nextRequestId
  {
    if c.incoming != [] && c.incoming[0].Note? {
      RecordKeeps(c.(incoming := c.incoming[1..]), c.incoming[0].event);
    }
  }

  /** A loop of reads that ended in `b` with `result`. */
  ghost predicate Kept(a: Client, b: Client, result: Outcome<Json, Blocked>) {
    && InStep(b) && Continues(a, b)
    && (OnceEach(b.notifications) <==> OnceEach(a.notifications) && result != Err(SecondCompletion))
    && b.ids == a.ids && b.nextRequestId == a.nextRequestId
  }

  lemma {:induction false} AwaitResponseKeeps(c: Client, id: string)
    requires InStep(c)
    ensures Kept(c, AwaitResponse(c, id).0, AwaitResponse(c, id).1)
    decreases |c.incoming|
  {
    ReceiveKeeps(c);
    if Receive(c).1.Recorded? {
      AwaitResponseKeeps(Receive(c).0, id);
    }
  }

  lemma {:induction false} AwaitCompletionKeeps(c: Client, session: string)
    requires InStep(c)
    ensures Kept(c, AwaitCompletion(c, session).0, AwaitCompletion(c, session).1)
    decreases |c.incoming|
  {
    ReceiveKeeps(c);
    if Receive(c).1.Recorded? {
      AwaitCompletionKeeps(Receive(c).0, session);
    }
  }

  lemma DoKeeps(c: Client, op: Op)
    requires InStep(c)
    ensures InStep(Do(c, op).0) && Continues(c, Do(c, op).0)
    ensures OnceEach(Do(c, op).0.notifications) <==> OnceEach(c.notifications) && Do(c, op).1 != Err(SecondCompletion)
    ensures Do(c, op).0.ids == c.ids || Do(c, op).0.ids == c.ids + [RequestId(c.nextRequestId + 1)]
    ensures Do(c, op).0.nextRequestId == c.nextRequestId + (|Do(c, op).0.ids| - |c.ids|)
  {
    if op.Request? {
      var id := RequestId(c.nextRequestId + 1);
      AwaitResponseKeeps(c.(nextRequestId := c.nextRequestId + 1, ids := c.ids + [id]), id);
    } else {
      AwaitCompletionKeeps(c, op.session);
    }
  }

  // ---- Theorems over whole runs ----

  /**
   Over any run on any stream: the completed sessions are exactly those with a `message.complete`
   notification, and each has one such notification if and only if no call reported a second one.
   */
  lemma {:induction false} CompletionsAreUnique(incoming: seq<Read>, ops: seq<Op>)
    ensures InStep(Run(Fresh(incoming), ops).0)
    ensures OnceEach(Run(Fresh(incoming), ops).0.notifications) <==>
      Err(SecondCompletion) !in Run(Fresh(incoming), ops).1
  {
    if ops != [] {
      var n := |ops| - 1;
      CompletionsAreUnique(incoming, ops[..n]);
      DoKeeps(Run(Fresh(incoming), ops[..n]).0, ops[n]);
    }
  }

  /** While no call has raised, every completed session has exactly one completion. */
  lemma CalmRunsCompleteOnce(incoming: seq<Read>, ops: seq<Op>, s: string)
    requires forall i :: 0 <= i < |Run(Fresh(incoming), ops).1| ==> Run(Fresh(incoming), ops).1[i].Ok?
    ensures Completions(Run(Fresh(incoming), ops).0.notifications, s) ==
      if s in Run(Fresh(incoming), ops).0.completed then 1 else 0
  {
    CompletionsAreUnique(incoming, ops);
  }

  lemma {:induction false} DecimalIsInjective(m: nat, n: nat)
    requires Decimal(m) == Decimal(n)
    ensures m == n
  {
    assert Decimal(m)[|Decimal(m)| - 1] == Digit(m % 10);
    assert Decimal(n)[|Decimal(n)| - 1] == Digit(n % 10);
    DigitIsInjective(m % 10, n % 10);
    if m >= 10 && n >= 10 {
      assert Decimal(m / 10) == Decimal(m)[..|Decimal(m)| - 1];
      assert Decimal(n / 10) == Decimal(n)[..|Decimal(n)| - 1];
      DecimalIsInjective(m / 10, n / 10);
    }
  }

  lemma DigitIsInjective(d: nat, e: nat)
    requires d < 10 && e < 10 && Digit(d) == Digit(e)
    ensures d == e
  {
  }

  /** The number that a text of decimal digits stands for. */
  function Value(digits: string): int {
    if digits == [] then 0 else 10 * Value(digits[..|digits| - 1]) + (digits[|digits| - 1] as int - '0' as int)
  }

  lemma {:induction false} DecimalIsMeant(n: nat)
    ensures Value(Decimal(n)) == n
  {
    if n < 10 {
      assert Value(Decimal(n)[..0]) == 0;
    } else {
      assert Decimal(n)[..|Decimal(n)| - 1] == Decimal(n / 10);
      DecimalIsMeant(n / 10);
    }
  }

  lemma {:induction false} IdsAreNumbered(incoming: seq<Read>, ops: seq<Op>)
    ensures |Run(Fresh(incoming), ops).0.ids| == Run(Fresh(incoming), ops).0.nextRequestId
    ensures forall i :: 0 <= i < |Run(Fresh(incoming), ops).0.ids| ==>
      Run(Fresh(incoming), ops).0.ids[i] == RequestId(i + 1)
  {
    if ops != [] {
      var n := |ops| - 1;
      IdsAreNumbered(incoming, ops[..n]);
      CompletionsAreUnique(incoming, ops[..n]);
      DoKeeps(Run(Fresh(incoming), ops[..n]).0, ops[n]);
    }
  }

  /** No two requests of a connection have the same id. */
  lemma RequestIdsAreDistinct(incoming: seq<Read>, ops: seq<Op>, i: nat, j: nat)
    requires i < j < |Run(Fresh(incoming), ops).0.ids|
    ensures Run(Fresh(incoming), ops).0.ids[i] != Run(Fresh(incoming), ops).0.ids[j]
  {
    IdsAreNumbered(incoming, ops);
    IdsDiffer(i + 1, j + 1);
  }

  lemma IdsDiffer(m: nat, n: nat)
    requires m != n
    ensures RequestId(m) != RequestId(n)
  {
    if RequestId(m) == RequestId(n) {
      assert Decimal(m) == RequestId(m)[|"observability-review-"|..];
      assert Decimal(n) == RequestId(n)[|"observability-review-"|..];
      DecimalIsInjective(m, n);
    }
  }

  // ---- What a call that returns has read ----

  /** The first `k` reads are all events, none of them a second completion. */
  ghost predicate EventsFirst(c: Client, k: nat)
    decreases k
  {
    k <= |c.incoming| && (k > 0 ==> Receive(c).1.Recorded? && EventsFirst(Receive(c).0, k - 1))
  }

  /** The client after `k` events. */
  function AfterEvents(c: Client, k: nat): Client
    decreases k
  {
    if k == 0 then c else AfterEvents(Receive(c).0, k - 1)
  }

  /** The events among the reads, in order. */
  function EventsOf(stream: seq<Read>): seq<Event> {
    if stream == [] then []
    else (if stream[0].Note? then [stream[0].event] else []) + EventsOf(stream[1..])
  }

  /** Reading `k` events appends exactly them and consumes exactly their lines. */
  lemma {:induction false} EventsAreBuffered(c: Client, k: nat)
    requires EventsFirst(c, k)
    ensures AfterEvents(c, k).notifications == c.notifications + EventsOf(c.incoming[..k]) &&
      |EventsOf(c.incoming[..k])| == k
    ensures AfterEvents(c, k).incoming == c.incoming[k..]
    decreases k
  {
    if k == 0 {
      assert c.notifications + [] == c.notifications;
    } else {
      var next, e := Receive(c).0, c.incoming[0].event;
      EventsAreBuffered(next, k - 1);
      assert c.incoming[..k][1..] == next.incoming[..k - 1];
      assert c.notifications + [e] + EventsOf(next.incoming[..k - 1]) ==
        c.notifications + ([e] + EventsOf(next.incoming[..k - 1]));
    }
  }

  /** The line after the first `k` is a response to request `id` with the object `result`. */
  ghost predicate AnsweredAt(c: Client, k: nat, id: string, result: Json) {
    && k < |c.incoming| && EventsFirst(c, k)
    && c.incoming[k].Reply? && Answers(c.incoming[k].frame, id, result)
  }

  lemma {:induction false} ResponseFound(c: Client, id: string) returns (k: nat)
    requires AwaitResponse(c, id).1.Ok?
    ensures AnsweredAt(c, k, id, AwaitResponse(c, id).1.value)
    ensures AwaitResponse(c, id).0 == AfterEvents(c, k).(incoming := c.incoming[k + 1..])
    decreases |c.incoming|
  {
    var next := Receive(c).0;
    if Receive(c).1.Recorded? {
      var j := ResponseFound(next, id);
      k := j + 1;
      assert next.incoming == c.incoming[1..];
      assert next.incoming[j + 1..] == c.incoming[k + 1..];
    } else {
      k := 0;
    }
  }

  lemma {:induction false} ResponseReturned(c: Client, id: string, k: nat, result: Json)
    requires AnsweredAt(c, k, id, result)
    ensures AwaitResponse(c, id).1 == Ok(result)
    decreases k
  {
    if k > 0 {
      assert Receive(c).0.incoming == c.incoming[1..];
      ResponseReturned(Receive(c).0, id, k - 1, result);
    }
  }

  /**
   A request returns `result` if and only if the stream brings events and then the frame with the
   request's own id, no error and `result` as its result object.  All those events, and nothing else,
   are then appended in order, and nothing behind the answer has been read.
   */
  lemma RequestReturnsItsOwnAnswer(c: Client, result: Json)
    ensures (exists k: nat :: Answered(c, k, result)) ==> Do(c, Request(true, true)).1 == Ok(result)
    ensures Do(c, Request(true, true)).1 == Ok(result) ==>
      exists k: nat ::
        && Answered(c, k, result)
        && Do(c, Request(true, true)).0.notifications == c.notifications + EventsOf(c.incoming[..k])
        && Do(c, Request(true, true)).0.incoming == c.incoming[k + 1..]
  {
    var id, begun := RequestId(c.nextRequestId + 1), Begun(c);
    if AwaitResponse(begun, id).1 == Ok(result) {
      var k := ResponseFound(begun, id);
      EventsAreBuffered(begun, k);
      assert Answered(c, k, result);
    }
    forall k: nat | Answered(c, k, result) ensures AwaitResponse(begun, id).1 == Ok(result) {
      ResponseReturned(begun, id, k, result);
    }
  }

  ghost predicate Answered(c: Client, k: nat, result: Json) {
    AnsweredAt(Begun(c), k, RequestId(c.nextRequestId + 1), result)
  }

  /** The client once the request has taken its id. */
  function Begun(c: Client): Client {
    c.(nextRequestId := c.nextRequestId + 1, ids := c.ids + [RequestId(c.nextRequestId + 1)])
  }

  /** The k-th read is the first event that completes the session, and its payload is `payload`. */
  ghost predicate CompletedAt(c: Client, k: nat, session: string, payload: Json) {
    && k < |c.incoming| && EventsFirst(c, k + 1) && NoneCompletes(c, k, session)
    && c.incoming[k] == Note(Notification("message.complete", Some(session), Some(payload)))
  }

  ghost predicate NoneCompletes(c: Client, k: nat, session: string) {
    forall i :: 0 <= i < k && i < |c.incoming| && c.incoming[i].Note? ==>
      !(c.incoming[i].event.kind == "message.complete" && c.incoming[i].event.session == Some(session))
  }

  /** What a wait comes to when its first read is an event. */
  lemma WaitOneEvent(c: Client, session: string)
    requires c.incoming != [] && c.incoming[0].Note? && Receive(c).1.Recorded?
    ensures var e := c.incoming[0].event;
      AwaitCompletion(c, session) ==
        if e.kind == "message.complete" && e.session == Some(session) then (Receive(c).0, Ok(e.payload.value))
        else AwaitCompletion(Receive(c).0, session)
    ensures Receive(c).0.incoming == c.incoming[1..]
  {
  }

  lemma {:induction false} CompletionFound(c: Client, session: string) returns (k: nat)
    requires AwaitCompletion(c, session).1.Ok?
    ensures CompletedAt(c, k, session, AwaitCompletion(c, session).1.value)
    decreases |c.incoming|
  {
    WaitOneEvent(c, session);
    var e, next := c.incoming[0].event, Receive(c).0;
    if e.kind == "message.complete" && e.session == Some(session) {
      k := 0;
      assert EventsFirst(next, 0);
    } else {
      hide AwaitCompletion, Receive;
      var j := CompletionFound(next, session);
      k := j + 1;
      assert forall i :: 0 < i < |c.incoming| ==> c.incoming[i] == next.incoming[i - 1];
    }
  }

  lemma {:induction false} CompletionReturned(c: Client, session: string, k: nat, payload: Json)
    requires CompletedAt(c, k, session, payload)
    ensures AwaitCompletion(c, session).1 == Ok(payload)
    decreases k
  {
    WaitOneEvent(c, session);
    if k > 0 {
      var next := Receive(c).0;
      assert forall i :: 0 < i < |c.incoming| ==> c.incoming[i] == next.incoming[i - 1];
      hide AwaitCompletion, Receive;
      CompletionReturned(next, session, k - 1, payload);
    }
  }

  /**
   A wait for a named session that is not complete returns `payload` if and only if the stream brings events only,
   none of them a second completion, up to the first one that completes the session, with that payload.
   */
  lemma WaitReturnsExactly(c: Client, session: string, payload: Json)
    requires session != "" && session !in c.completed
    ensures Do(c, WaitForMessageComplete(session)).1 == Ok(payload) <==>
      exists k: nat :: CompletedAt(c, k, session, payload)
  {
    hide CompletedAt;
    if AwaitCompletion(c, session).1 == Ok(payload) {
      var k := CompletionFound(c, session);
    }
    forall k: nat | CompletedAt(c, k, session, payload) ensures AwaitCompletion(c, session).1 == Ok(payload) {
      CompletionReturned(c, session, k, payload);
    }
  }

  /** Why reading stops at the k-th read: the stream ends, the line is refused, or a session completes again. */
  ghost predicate StopsAt(c: Client, k: nat, why: Blocked) {
    && EventsFirst(c, k)
    && if k == |c.incoming| then why == Unreadable(TransportFailed)
       else match c.incoming[k]
         case Bad(fault) => why == Unreadable(fault)
         case Reply(_) => false
         case Note(e) =>
           && why == SecondCompletion && e.kind == "message.complete"
           && e.session.value in AfterEvents(c, k).completed
  }

  /** The k-th read is a response that nobody waits for. */
  ghost predicate UnaskedAt(c: Client, k: nat, why: Blocked) {
    EventsFirst(c, k) && k < |c.incoming| && c.incoming[k].Reply? && why == UnexpectedResponse
  }

  /** The k-th read is a response that does not answer the request `id`. */
  ghost predicate MissesAt(c: Client, k: nat, id: string, why: Blocked) {
    EventsFirst(c, k) && k < |c.incoming| && c.incoming[k].Reply? && Respond(c.incoming[k].frame, id) == Err(why)
  }

  lemma LaterStops(c: Client, k: nat, why: Blocked)
    requires Receive(c).1.Recorded?
    ensures StopsAt(Receive(c).0, k, why) ==> StopsAt(c, k + 1, why)
    ensures UnaskedAt(Receive(c).0, k, why) ==> UnaskedAt(c, k + 1, why)
    ensures forall id :: MissesAt(Receive(c).0, k, id, why) ==> MissesAt(c, k + 1, id, why)
  {
    assert Receive(c).0.incoming == c.incoming[1..];
  }

  lemma StopsAtOnce(c: Client)
    requires Receive(c).1.Raised?
    ensures StopsAt(c, 0, Receive(c).1.why)
  {
  }

  /** A wait that fails does so at the first read that is not a new event, and for the reason found there. */
  lemma {:induction false} WaitFailsFor(c: Client, session: string) returns (k: nat)
    requires AwaitCompletion(c, session).1.Err?
    ensures var why := AwaitCompletion(c, session).1.error; StopsAt(c, k, why) || UnaskedAt(c, k, why)
    decreases |c.incoming|
  {
    k := 0;
    if Receive(c).1.Recorded? {
      k := WaitFailsFor(Receive(c).0, session);
      LaterStops(c, k, AwaitCompletion(c, session).1.error);
      k := k + 1;
    } else if Receive(c).1.Raised? {
      StopsAtOnce(c);
    }
  }

  /** A request that was sent and fails does so at the first read that is not a new event, for the reason there. */
  lemma {:induction false} RequestFailsFor(c: Client, id: string) returns (k: nat)
    requires AwaitResponse(c, id).1.Err?
    ensures var why := AwaitResponse(c, id).1.error; StopsAt(c, k, why) || MissesAt(c, k, id, why)
    decreases |c.incoming|
  {
    k := 0;
    if Receive(c).1.Recorded? {
      k := RequestFailsFor(Receive(c).0, id);
      LaterStops(c, k, AwaitResponse(c, id).1.error);
      k := k + 1;
    } else if Receive(c).1.Raised? {
      StopsAtOnce(c);
    }
  }

  lemma {:induction false} CompletionIsLast(c: Client, session: string)
    requires InStep(c) && AwaitCompletion(c, session).1.Ok?
    ensures AwaitCompletion(c, session).0.notifications != []
    ensures var after := AwaitCompletion(c, session).0;
      && after.notifications[|after.notifications| - 1] ==
        Notification(COMPLETE, Some(session), Some(AwaitCompletion(c, session).1.value))
      && session in after.completed
      && (session !in c.completed ==> Completions(after.notifications, session) == 1)
    decreases |c.incoming|
  {
    ReceiveKeeps(c);
    var next := Receive(c).0;
    var e := next.notifications[|next.notifications| - 1];
    assert next.notifications == c.notifications + [e];
    OneMoreNotification(c.notifications, e, session);
    if !(Completes(e) && e.session.value == session) {
      CompletionIsLast(next, session);
    }
  }

  /**
   A wait that returns gives the payload of the session's only completion, which is the last notification;
   the session had none before, in whatever run the wait comes and whether or not earlier calls raised.
   */
  lemma WaitReturnsTheOnlyCompletion(incoming: seq<Read>, ops: seq<Op>, session: string)
    requires Do(Run(Fresh(incoming), ops).0, WaitForMessageComplete(session)).1.Ok?
    ensures var before := Run(Fresh(incoming), ops).0;
      var (after, result) := Do(before, WaitForMessageComplete(session));
      && Completions(before.notifications, session) == 0 && Completions(after.notifications, session) == 1
      && after.notifications != []
      && after.notifications[|after.notifications| - 1]
           == Notification("message.complete", Some(session), Some(result.value))
  {
    CompletionsAreUnique(incoming, ops);
    CompletionIsLast(Run(Fresh(incoming), ops).0, session);
  }

  /** An answer to an earlier request of the connection is never taken for the answer to a later one. */
  lemma StaleAnswersAreRefused(incoming: seq<Read>, ops: seq<Op>, earlier: nat, k: nat)
    requires earlier < |Run(Fresh(incoming), ops).0.ids|
    requires var c := Run(Fresh(incoming), ops).0;
      && EventsFirst(Begun(c), k) && k < |c.incoming| && c.incoming[k].Reply?
      && c.incoming[k].frame.Get("id") == Some(Str(c.ids[earlier]))
    ensures Do(Run(Fresh(incoming), ops).0, Request(true, true)).1 == Err(NotCorrelated)
  {
    NextIdIsNew(incoming, ops, earlier);
    var c := Run(Fresh(incoming), ops).0;
    RefusedAt(Begun(c), RequestId(c.nextRequestId + 1), k);
  }

  lemma NextIdIsNew(incoming: seq<Read>, ops: seq<Op>, earlier: nat)
    requires earlier < |Run(Fresh(incoming), ops).0.ids|
    ensures Run(Fresh(incoming), ops).0.ids[earlier] != RequestId(Run(Fresh(incoming), ops).0.nextRequestId + 1)
  {
    IdsAreNumbered(incoming, ops);
    IdsDiffer(earlier + 1, |Run(Fresh(incoming), ops).0.ids| + 1);
  }

  lemma {:induction false} RefusedAt(c: Client, id: string, k: nat)
    requires EventsFirst(c, k) && k < |c.incoming| && c.incoming[k].Reply?
    requires c.incoming[k].frame.Get("id") != Some(Str(id))
    ensures AwaitResponse(c, id).1 == Err(NotCorrelated)
    decreases k
  {
    if k > 0 {
      assert Receive(c).0.incoming == c.incoming[1..];
      RefusedAt(Receive(c).0, id, k - 1);
    }
  }
}
