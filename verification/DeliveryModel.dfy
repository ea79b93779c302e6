/** Outbound delivery as functions on the router's dictionaries (src/hermes_harness/delivery.py). */
module DeliveryModel {
  import opened Common

  datatype EventType = Start | Blocked | Milestone | Terminal | Status
  {
    function Text(): string {
      match this
      case Start => "start"
      case Blocked => "blocked"
      case Milestone => "milestone"
      case Terminal => "terminal"
      case Status => "status"
    }
  }

  datatype DeliveryEvent = DeliveryEvent(
    jobId: string,
    origin: string,
    eventType: EventType,
    text: string,
    eventId: Option<string>,
    critical: bool,
    terminal: bool,
    revealId: bool)

  datatype Role = Assistant | User

  datatype Message = Message(target: string, text: string, role: Role, jobId: string)

  /** A message that was built: for an event that was routed, or for a status query. */
  datatype Built = Built(message: Message, routed: bool)

  /** The router's fields, and every message it has built. */
  datatype Router = Router(
    extra: string,
    seen: set<string>,
    connected: map<string, bool>,
    history: map<string, seq<Message>>,
    turn: map<string, nat>,
    built: seq<Built>)

  const NO_STATUS := "No hay estado disponible"

  function New(extra: string): Router {
    Router(extra, {}, map[], map[], map[], [])
  }

  /** `d.get(key, default)` */
  function GetOr<K, V>(d: map<K, V>, key: K, default: V): V {
    if key in d then d[key] else default
  }

  function Key(e: DeliveryEvent): string {
    if e.eventId.Some? && e.eventId.value != "" then e.eventId.value
    else e.jobId + ":" + e.eventType.Text() + ":" + e.text
  }

  function ShortId(jobId: string): string {
    if |jobId| <= 7 then jobId else jobId[..7]
  }

  predicate Escalates(e: DeliveryEvent) {
    (e.critical || e.eventType == Blocked) && !("telegram:" <= e.origin)
  }

  function Targets(extra: string, e: DeliveryEvent): seq<string> {
    if Escalates(e) then [e.origin, extra] else [e.origin]
  }

  function MessageText(e: DeliveryEvent): string {
    if e.revealId then "[" + ShortId(e.jobId) + "] " + e.text else e.text
  }

  /** Builds the next message for a target. */
  function Build(r: Router, e: DeliveryEvent, target: string, routed: bool): (Router, Message) {
    var turn := GetOr(r.turn, target, 0);
    var m := Message(target, MessageText(e), if turn % 2 == 0 then Assistant else User, e.jobId);
    (r.(turn := r.turn[target := turn + 1], built := r.built + [Built(m, routed)]), m)
  }

  function Send(r: Router, e: DeliveryEvent, target: string): (Router, seq<Message>) {
    var (next, m) := Build(r, e, target, true);
    (next.(history := next.history[e.jobId := GetOr(next.history, e.jobId, []) + [m]]),
     if GetOr(r.connected, target, true) then [m] else [])
  }

  function SendAll(r: Router, e: DeliveryEvent, targets: seq<string>): (Router, seq<Message>) {
    if targets == [] then (r, [])
    else
      var (mid, sent) := SendAll(r, e, targets[..|targets| - 1]);
      var (end, more) := Send(mid, e, targets[|targets| - 1]);
      (end, sent + more)
  }

  function RouteOne(r: Router, e: DeliveryEvent): (Router, seq<Message>) {
    if Key(e) in r.seen then (r, [])
    else SendAll(r.(seen := r.seen + {Key(e)}), e, Targets(r.extra, e))
  }

  function Route(r: Router, events: seq<DeliveryEvent>): (Router, seq<Message>) {
    if events == [] then (r, [])
    else
      var (mid, sent) := Route(r, events[..|events| - 1]);
      var (end, more) := RouteOne(mid, events[|events| - 1]);
      (end, sent + more)
  }

  function StatusEvent(r: Router, jobId: string, target: string): DeliveryEvent {
    var history := GetOr(r.history, jobId, []);
    var text := if history == [] then NO_STATUS else history[|history| - 1].text;
    DeliveryEvent(jobId, target, Status, text, None, false, false, true)
  }

  datatype Op =
    | SetConnected(target: string, connected: bool)
    | RouteEvents(events: seq<DeliveryEvent>)
    | AskStatus(jobId: string, target: string)

  function Do(r: Router, op: Op): Router {
    match op
    case SetConnected(target, connected) => r.(connected := r.connected[target := connected])
    case RouteEvents(events) => Route(r, events).0
    case AskStatus(jobId, target) => Build(r, StatusEvent(r, jobId, target), target, false).0
  }

  function Run(r: Router, ops: seq<Op>): Router {
    if ops == [] then r else Do(Run(r, ops[..|ops| - 1]), ops[|ops| - 1])
  }

  // ---- Routing in parts ----

  lemma OneMoreEvent(r: Router, events: seq<DeliveryEvent>, e: DeliveryEvent)
    ensures Route(r, events + [e]).0 == RouteOne(Route(r, events).0, e).0
    ensures Route(r, events + [e]).1 == Route(r, events).1 + RouteOne(Route(r, events).0, e).1
  {
    assert (events + [e])[..|events + [e]| - 1] == events;
  }

  /** Routing two batches one after the other is routing them as one, in messages and in state. */
  lemma {:induction false} RouteInParts(r: Router, xs: seq<DeliveryEvent>, ys: seq<DeliveryEvent>)
    ensures Route(r, xs + ys).0 == Route(Route(r, xs).0, ys).0
    ensures Route(r, xs + ys).1 == Route(r, xs).1 + Route(Route(r, xs).0, ys).1
    decreases |ys|
  {
    if ys == [] {
      assert xs + ys == xs;
      assert Route(r, xs).1 + [] == Route(r, xs).1;
    } else {
      var front, e := ys[..|ys| - 1], ys[|ys| - 1];
      assert xs + ys == xs + front + [e] && ys == front + [e];
      RouteInParts(r, xs, front);
      OneMoreEvent(r, xs + front, e);
      OneMoreEvent(Route(r, xs).0, front, e);
      Regroup(Route(r, xs).1, Route(Route(r, xs).0, front).1, RouteOne(Route(r, xs + front).0, e).1);
    }
  }

  ghost predicate AllSeen(r: Router, events: seq<DeliveryEvent>) {
    forall e :: e in events ==> Key(e) in r.seen
  }

  lemma {:induction false} SendKeepsSeen(r: Router, e: DeliveryEvent, targets: seq<string>)
    ensures SendAll(r, e, targets).0.seen == r.seen && SendAll(r, e, targets).0.extra == r.extra
    ensures SendAll(r, e, targets).0.connected == r.connected
  {
    if targets != [] {
      SendKeepsSeen(r, e, targets[..|targets| - 1]);
    }
  }

  /** Exactly the keys of the events are added to those seen. */
  lemma {:induction false} RouteSees(r: Router, events: seq<DeliveryEvent>)
    ensures Route(r, events).0.seen == r.seen + (set e | e in events :: Key(e))
    ensures Route(r, events).0.extra == r.extra && Route(r, events).0.connected == r.connected
  {
    if events != [] {
      var n := |events| - 1;
      RouteSees(r, events[..n]);
      var mid := Route(r, events[..n]).0;
      SendKeepsSeen(mid.(seen := mid.seen + {Key(events[n])}), events[n], Targets(r.extra, events[n]));
      KeysGrow(events);
    }
  }

  lemma KeysGrow(events: seq<DeliveryEvent>)
    requires events != []
    ensures (set e | e in events :: Key(e)) ==
      (set e | e in events[..|events| - 1] :: Key(e)) + {Key(events[|events| - 1])}
  {
    var n := |events| - 1;
    assert events == events[..n] + [events[n]];
    forall e | e in events ensures Key(e) in (set e | e in events[..n] :: Key(e)) + {Key(events[n])} {
      assert e in events[..n] || e == events[n];
    }
  }

  /** Events that were all seen give no message and change nothing. */
  lemma {:induction false} SeenEventsAreSilent(r: Router, events: seq<DeliveryEvent>)
    requires AllSeen(r, events)
    ensures Route(r, events) == (r, [])
  {
    if events != [] {
      var front, e := events[..|events| - 1], events[|events| - 1];
      SeenEventsAreSilent(r, front);
      OneMoreEvent(r, front, e);
      assert events == front + [e];
    }
  }

  lemma {:induction false} RunRemembers(r: Router, ops: seq<Op>, i: nat, events: seq<DeliveryEvent>)
    requires i < |ops| && ops[i] == RouteEvents(events)
    ensures AllSeen(Run(r, ops), events)
    decreases |ops|
  {
    var n := |ops| - 1;
    var mid := Run(r, ops[..n]);
    if i < n {
      RunRemembers(r, ops[..n], i, events);
    }
    if ops[n].RouteEvents? {
      RouteSees(mid, ops[n].events);
    }
  }

  /** Whatever happens after a batch was routed, routing any of its events again gives nothing and changes nothing. */
  lemma RoutedEventsStaySilent(r: Router, ops: seq<Op>, i: nat, events: seq<DeliveryEvent>, again: seq<DeliveryEvent>)
    requires i < |ops| && ops[i] == RouteEvents(events)
    requires forall e :: e in again ==> exists x :: x in events && Key(x) == Key(e)
    ensures Route(Run(r, ops), again) == (Run(r, ops), [])
  {
    RunRemembers(r, ops, i, events);
    SeenEventsAreSilent(Run(r, ops), again);
  }

  /** The events whose key is neither seen nor carried by an earlier event. */
  function Novel(seen: set<string>, events: seq<DeliveryEvent>): seq<DeliveryEvent> {
    if events == [] then []
    else
      var init, last := events[..|events| - 1], events[|events| - 1];
      Novel(seen, init) + if Key(last) in seen + (set e | e in init :: Key(e)) then [] else [last]
  }

  /** Routing a batch is routing the first event for each key that was not seen before. */
  lemma {:induction false} DuplicatesDoNotMatter(r: Router, events: seq<DeliveryEvent>)
    ensures Route(r, events) == Route(r, Novel(r.seen, events))
  {
    if events != [] {
      var init, last := events[..|events| - 1], events[|events| - 1];
      DuplicatesDoNotMatter(r, init);
      RouteSees(r, init);
      var novel := Novel(r.seen, init);
      if Key(last) in Route(r, init).0.seen {
        assert novel + [] == novel;
        assert Route(r, init).1 + [] == Route(r, init).1;
      } else {
        assert (novel + [last])[..|novel + [last]| - 1] == novel;
      }
    }
  }

  // ---- Roles and history ----

  /** The messages built for a target, in order. */
  function For(built: seq<Built>, target: string): seq<Message> {
    Collect(built, (b: Built) => if b.message.target == target then Some(b.message) else None)
  }

  /** The messages routed for a job, in order. */
  function RoutedFor(built: seq<Built>, jobId: string): seq<Message> {
    Collect(built, (b: Built) => if b.routed && b.message.jobId == jobId then Some(b.message) else None)
  }

  ghost predicate Alternates(ms: seq<Message>) {
    forall n :: 0 <= n < |ms| ==> ms[n].role == if n % 2 == 0 then Assistant else User
  }

  ghost predicate TurnOk(r: Router, target: string) {
    GetOr(r.turn, target, 0) == |For(r.built, target)| && Alternates(For(r.built, target))
  }

  ghost predicate HistoryOk(r: Router, jobId: string) {
    GetOr(r.history, jobId, []) == RoutedFor(r.built, jobId)
  }

  ghost predicate Consistent(r: Router) {
    && (forall t :: TurnOk(r, t))
    && (forall j :: HistoryOk(r, j))
  }

  lemma OneMoreBuilt(built: seq<Built>, b: Built, target: string, jobId: string)
    ensures For(built + [b], target) == For(built, target) + if b.message.target == target then [b.message] else []
    ensures RoutedFor(built + [b], jobId) ==
      RoutedFor(built, jobId) + if b.routed && b.message.jobId == jobId then [b.message] else []
  {
    assert (built + [b])[..|built + [b]| - 1] == built;
  }

  lemma BuildKeepsTurns(r: Router, e: DeliveryEvent, target: string, routed: bool)
    requires forall t :: TurnOk(r, t)
    ensures forall t :: TurnOk(Build(r, e, target, routed).0, t)
  {
    var (next, m) := Build(r, e, target, routed);
    forall t ensures TurnOk(next, t) {
      assert TurnOk(r, t);
      OneMoreBuilt(r.built, Built(m, routed), t, "");
    }
  }

  lemma SendKeeps(r: Router, e: DeliveryEvent, target: string)
    requires Consistent(r)
    ensures Consistent(Send(r, e, target).0)
  {
    BuildKeepsTurns(r, e, target, true);
    var (next, m) := Build(r, e, target, true);
    var end := Send(r, e, target).0;
    forall t ensures TurnOk(end, t) {
      assert TurnOk(next, t);
    }
    forall j ensures HistoryOk(end, j) {
      assert HistoryOk(r, j);
      OneMoreBuilt(r.built, Built(m, true), "", j);
    }
  }

  lemma {:induction false} SendAllKeeps(r: Router, e: DeliveryEvent, targets: seq<string>)
    requires Consistent(r)
    ensures Consistent(SendAll(r, e, targets).0)
  {
    if targets != [] {
      SendAllKeeps(r, e, targets[..|targets| - 1]);
      SendKeeps(SendAll(r, e, targets[..|targets| - 1]).0, e, targets[|targets| - 1]);
    }
  }

  lemma SeenIsApart(r: Router, seen: set<string>)
    requires Consistent(r)
    ensures Consistent(r.(seen := seen))
  {
    var next := r.(seen := seen);
    forall t ensures TurnOk(next, t) {
      assert TurnOk(r, t);
    }
    forall j ensures HistoryOk(next, j) {
      assert HistoryOk(r, j);
    }
  }

  lemma {:induction false} RouteKeeps(r: Router, events: seq<DeliveryEvent>)
    requires Consistent(r)
    ensures Consistent(Route(r, events).0)
  {
    if events != [] {
      var n := |events| - 1;
      RouteKeeps(r, events[..n]);
      var mid := Route(r, events[..n]).0;
      if Key(events[n]) !in mid.seen {
        SeenIsApart(mid, mid.seen + {Key(events[n])});
        SendAllKeeps(mid.(seen := mid.seen + {Key(events[n])}), events[n], Targets(mid.extra, events[n]));
      }
    }
  }

  lemma StatusKeeps(r: Router, jobId: string, target: string)
    requires Consistent(r)
    ensures Consistent(Do(r, AskStatus(jobId, target)))
  {
    var e := StatusEvent(r, jobId, target);
    BuildKeepsTurns(r, e, target, false);
    var (next, m) := Build(r, e, target, false);
    forall j ensures HistoryOk(next, j) {
      assert HistoryOk(r, j);
      OneMoreBuilt(r.built, Built(m, false), "", j);
    }
  }

  lemma ConnectionIsApart(r: Router, target: string, connected: bool)
    requires Consistent(r)
    ensures Consistent(Do(r, SetConnected(target, connected)))
  {
    var next := Do(r, SetConnected(target, connected));
    forall t ensures TurnOk(next, t) {
      assert TurnOk(r, t);
    }
    forall j ensures HistoryOk(next, j) {
      assert HistoryOk(r, j);
    }
  }

  lemma {:induction false} RunIsConsistent(extra: string, ops: seq<Op>)
    ensures Consistent(Run(New(extra), ops))
  {
    if ops == [] {
      forall t ensures TurnOk(New(extra), t) {
      }
      forall j ensures HistoryOk(New(extra), j) {
      }
    } else {
      var n := |ops| - 1;
      RunIsConsistent(extra, ops[..n]);
      var mid := Run(New(extra), ops[..n]);
      match ops[n]
      case SetConnected(target, connected) => ConnectionIsApart(mid, target, connected);
      case RouteEvents(events) => RouteKeeps(mid, events);
      case AskStatus(jobId, target) => StatusKeeps(mid, jobId, target);
    }
  }

  /** Over all calls, the n-th message built for a target is the assistant's exactly if n is even. */
  lemma RolesAlternate(extra: string, ops: seq<Op>, target: string, n: nat)
    requires n < |For(Run(New(extra), ops).built, target)|
    ensures For(Run(New(extra), ops).built, target)[n].role == Assistant <==> n % 2 == 0
  {
    RunIsConsistent(extra, ops);
    assert TurnOk(Run(New(extra), ops), target);
  }

  /** A status answer repeats the text routed last for the job under the job's short id, delivered or not. */
  lemma StatusRepeatsTheLastMessage(extra: string, ops: seq<Op>, jobId: string, target: string)
    ensures var r := Run(New(extra), ops);
      var routed := RoutedFor(r.built, jobId);
      Build(r, StatusEvent(r, jobId, target), target, false).1.text
        == "[" + ShortId(jobId) + "] " + (if routed == [] then NO_STATUS else routed[|routed| - 1].text)
  {
    RunIsConsistent(extra, ops);
    assert HistoryOk(Run(New(extra), ops), jobId);
  }

  /** What a call of `route` returns are the messages it built whose target was connected. */
  lemma {:induction false} ConnectedMessagesAreReturned(r: Router, events: seq<DeliveryEvent>)
    ensures r.built <= Route(r, events).0.built
    ensures Route(r, events).1 == Deliverable(r.connected, Route(r, events).0.built[|r.built|..])
  {
    if events == [] {
      assert r.built[|r.built|..] == [];
    } else {
      var n := |events| - 1;
      ConnectedMessagesAreReturned(r, events[..n]);
      var mid := Route(r, events[..n]).0;
      RouteSees(r, events[..n]);
      if Key(events[n]) in mid.seen {
        assert Route(r, events[..n]).1 + [] == Route(r, events[..n]).1;
      } else {
        var noted := mid.(seen := mid.seen + {Key(events[n])});
        var end := SendAll(noted, events[n], Targets(mid.extra, events[n])).0;
        SentAreDeliverable(noted, events[n], Targets(mid.extra, events[n]));
        DeliverableInParts(r.connected, mid.built[|r.built|..], end.built[|mid.built|..]);
        TailsJoin(r.built, mid.built, end.built);
      }
    }
  }

  function Deliverable(connected: map<string, bool>, built: seq<Built>): seq<Message> {
    Collect(built, (b: Built) => if GetOr(connected, b.message.target, true) then Some(b.message) else None)
  }

  lemma {:induction false} DeliverableInParts(connected: map<string, bool>, a: seq<Built>, b: seq<Built>)
    ensures Deliverable(connected, a + b) == Deliverable(connected, a) + Deliverable(connected, b)
    decreases |b|
  {
    if b == [] {
      assert a + b == a && Deliverable(connected, a) + [] == Deliverable(connected, a);
    } else {
      assert (a + b)[..|a + b| - 1] == a + b[..|b| - 1];
      DeliverableInParts(connected, a, b[..|b| - 1]);
    }
  }

  lemma {:induction false} SentAreDeliverable(r: Router, e: DeliveryEvent, targets: seq<string>)
    ensures r.built <= SendAll(r, e, targets).0.built
    ensures SendAll(r, e, targets).1 == Deliverable(r.connected, SendAll(r, e, targets).0.built[|r.built|..])
  {
    if targets == [] {
      assert r.built[|r.built|..] == [];
    } else {
      var n := |targets| - 1;
      SentAreDeliverable(r, e, targets[..n]);
      SendKeepsSeen(r, e, targets[..n]);
      var mid := SendAll(r, e, targets[..n]).0;
      var end := Send(mid, e, targets[n]).0;
      var b := end.built[|end.built| - 1];
      assert end.built == mid.built + [b];
      assert end.built[|r.built|..] == mid.built[|r.built|..] + [b];
      OneMoreDeliverable(r.connected, mid.built[|r.built|..], b);
    }
  }

  lemma OneMoreDeliverable(connected: map<string, bool>, built: seq<Built>, b: Built)
    ensures Deliverable(connected, built + [b])
         == Deliverable(connected, built) + if GetOr(connected, b.message.target, true) then [b.message] else []
  {
    assert (built + [b])[..|built + [b]| - 1] == built;
  }

  // ---- What one event leads to ----

  lemma TypesAreTold(a: EventType, b: EventType)
    requires a.Text() == b.Text()
    ensures a == b
  {
    assert a.Text()[0] == b.Text()[0] && |a.Text()| == |b.Text()|;
    assert "start"[0] == 's' && "blocked"[0] == 'b' && "milestone"[0] == 'm' && "terminal"[0] == 't';
  }

  predicate Nameless(e: DeliveryEvent) {
    e.eventId == None || e.eventId == Some("")
  }

  /** Events with ids go by them alone; two others of one job go by type and text. */
  lemma KeysAgreeExactly(a: DeliveryEvent, b: DeliveryEvent)
    ensures !Nameless(a) ==> Key(a) == a.eventId.value
    ensures Nameless(a) && Nameless(b) && a.jobId == b.jobId && a.eventType == b.eventType ==>
      (Key(a) == Key(b) <==> a.text == b.text)
    ensures Nameless(a) && Nameless(b) && a.jobId == b.jobId && a.text == b.text ==>
      (Key(a) == Key(b) <==> a.eventType == b.eventType)
    ensures Nameless(a) && Nameless(b) && a.eventType == b.eventType && a.text == b.text ==>
      (Key(a) == Key(b) <==> a.jobId == b.jobId)
  {
    var x, y := a.jobId + ":" + a.eventType.Text() + ":", b.jobId + ":" + b.eventType.Text() + ":";
    assert (x + a.text)[|x|..] == a.text && (y + b.text)[|y|..] == b.text;
    assert (x + a.text)[..|x|] == x && (y + b.text)[..|y|] == y;
    assert x[..|a.jobId|] == a.jobId && y[..|b.jobId|] == b.jobId;
    assert x[|a.jobId| + 1..|x| - 1] == a.eventType.Text() && y[|b.jobId| + 1..|y| - 1] == b.eventType.Text();
    if a.eventType.Text() == b.eventType.Text() {
      TypesAreTold(a.eventType, b.eventType);
    }
  }

  /** The message says what the event says, under the first seven characters of the job id if that is to be shown. */
  ghost predicate Says(m: Message, e: DeliveryEvent, target: string) {
    && m.target == target && m.jobId == e.jobId
    && (!e.revealId ==> m.text == e.text)
    && (e.revealId && |e.jobId| > 7 ==> m.text == "[" + e.jobId[..7] + "] " + e.text)
    && (e.revealId && |e.jobId| <= 7 ==> m.text == "[" + e.jobId + "] " + e.text)
  }

  /** The event is critical or blocked, and did not come from Telegram. */
  ghost predicate GoesToTelegramToo(e: DeliveryEvent) {
    (e.critical || e.eventType.Blocked?) && !(|e.origin| >= 9 && e.origin[..9] == "telegram:")
  }

  /** Somebody has said that the target is not connected. */
  predicate Disconnected(r: Router, target: string) {
    target in r.connected && !r.connected[target]
  }

  /**
   An event that was not seen is sent to its origin, and to the extra target exactly if it is critical or
   blocked and did not come from Telegram; it is remembered as seen and in the history of its job only.
   */
  lemma RoutedEventIsSent(r: Router, e: DeliveryEvent)
    requires Key(e) !in r.seen
    ensures var next := RouteOne(r, e).0;
      && next.seen == r.seen + {Key(e)} && next.connected == r.connected && next.extra == r.extra
      && |next.built| == |r.built| + (if GoesToTelegramToo(e) then 2 else 1) && r.built <= next.built
      && next.built[|r.built|].routed && Says(next.built[|r.built|].message, e, e.origin)
      && (GoesToTelegramToo(e) ==>
            next.built[|r.built| + 1].routed && Says(next.built[|r.built| + 1].message, e, r.extra))
      && forall j :: j != e.jobId && j in r.history ==> j in next.history && next.history[j] == r.history[j]
    ensures var next, sent := RouteOne(r, e).0, RouteOne(r, e).1;
      sent == (if Disconnected(r, e.origin) then [] else [next.built[|r.built|].message]) +
              (if GoesToTelegramToo(e) && !Disconnected(r, r.extra) then [next.built[|r.built| + 1].message] else [])
  {
    var noted := r.(seen := r.seen + {Key(e)});
    SentInTurn(r, e);
    SendIsMeant(noted, e, e.origin);
    var one := Send(noted, e, e.origin).0;
    SendIsMeant(one, e, r.extra);
    assert ("telegram:" <= e.origin) <==> (|e.origin| >= 9 && e.origin[..9] == "telegram:");
    hide Send, RouteOne, Says, Key;
  }

  lemma SentInTurn(r: Router, e: DeliveryEvent)
    requires Key(e) !in r.seen
    ensures var one := Send(r.(seen := r.seen + {Key(e)}), e, e.origin).0;
      && RouteOne(r, e).0 == (if Escalates(e) then Send(one, e, r.extra).0 else one)
      && RouteOne(r, e).1 ==
           Send(r.(seen := r.seen + {Key(e)}), e, e.origin).1 + (if Escalates(e) then Send(one, e, r.extra).1 else [])
  {
    var noted := r.(seen := r.seen + {Key(e)});
    hide Send, Key, Escalates;
    assert SendAll(noted, e, []) == (noted, []);
    assert [e.origin][..0] == [] && [e.origin, r.extra][..1] == [e.origin];
    assert [] + Send(noted, e, e.origin).1 == Send(noted, e, e.origin).1;
    assert SendAll(noted, e, [e.origin]) == Send(noted, e, e.origin);
    assert Send(noted, e, e.origin).1 + [] == Send(noted, e, e.origin).1;
  }

  /** One message, built for the target and put behind the history of its job. */
  lemma SendIsMeant(r: Router, e: DeliveryEvent, target: string)
    ensures var next := Send(r, e, target).0;
      && next.seen == r.seen && next.connected == r.connected && next.extra == r.extra
      && |next.built| == |r.built| + 1 && r.built <= next.built
      && next.built[|r.built|].routed && Says(next.built[|r.built|].message, e, target)
      && Send(r, e, target).1 == (if Disconnected(r, target) then [] else [next.built[|r.built|].message])
      && forall j :: j != e.jobId && j in r.history ==> j in next.history && next.history[j] == r.history[j]
  {
  }

  /** Events without ids that differ in their text are both sent, one after the other. */
  lemma DifferentTextsAreBothSent(r: Router, a: DeliveryEvent, b: DeliveryEvent)
    requires Nameless(a) && Nameless(b)
    requires a.jobId == b.jobId && a.eventType == b.eventType && a.text != b.text
    requires Key(a) !in r.seen && Key(b) !in r.seen
    ensures var mid, end := RouteOne(r, a).0, Route(r, [a, b]).0;
      r.built < mid.built < end.built && Says(end.built[|mid.built|].message, b, b.origin)
  {
    KeysAgreeExactly(a, b);
    RoutedEventIsSent(r, a);
    var mid := RouteOne(r, a).0;
    RoutedEventIsSent(mid, b);
    assert [a, b][..1] == [a] && [a][..0] == [];
    assert Route(r, [a]).0 == mid;
    assert Route(r, [a, b]).0 == RouteOne(mid, b).0;
  }
}
