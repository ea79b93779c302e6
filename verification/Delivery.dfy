/** The delivery router object (src/hermes_harness/delivery.py). */
module DeliveryService {
  import opened Common
  import opened DeliveryModel

  class DeliveryRouter {
    const telegramExtraTarget: string
    var seen: set<string>
    var connected: map<string, bool>
    var history: map<string, seq<Message>>
    var turn: map<string, nat>
    ghost var built: seq<Built>

    constructor (telegramExtraTarget: string)
      ensures State() == New(telegramExtraTarget)
    {
      this.telegramExtraTarget := telegramExtraTarget;
      seen, connected, history, turn, built := {}, map[], map[], map[], [];
    }

    ghost function State(): Router
      reads this
    {
      Router(telegramExtraTarget, seen, connected, history, turn, built)
    }

    method SetConnected(target: string, connected: bool)
      modifies this`connected
      ensures State() == Do(old(State()), Op.SetConnected(target, connected))
    {
      this.connected := this.connected[target := connected];
    }

    method BuildMessage(event: DeliveryEvent, target: string, ghost routed: bool) returns (message: Message)
      modifies this`turn, this`built
      ensures Build(old(State()), event, target, routed) == (State(), message)
    {
      var text := event.text;
      if event.revealId {
        text := "[" + ShortId(event.jobId) + "] " + text;
      }
      var role := if GetOr(turn, target, 0) % 2 == 0 then Assistant else User;
      turn := turn[target := GetOr(turn, target, 0) + 1];
      message := Message(target, text, role, event.jobId);
      built := built + [Built(message, routed)];
    }

    method Route(events: seq<DeliveryEvent>) returns (messages: seq<Message>)
      modifies this`seen, this`history, this`turn, this`built
      ensures DeliveryModel.Route(old(State()), events) == (State(), messages)
    {
      messages := [];
      for i := 0 to |events|
        invariant DeliveryModel.Route(old(State()), events[..i]) == (State(), messages)
      {
        var event := events[i];
        assert events[..i + 1][..i] == events[..i];
        if Key(event) in seen {
          assert messages + [] == messages;
          continue;
        }
        seen := seen + {Key(event)};
        var sent := SendToTargets(event);
        messages := messages + sent;
      }
      assert events[..|events|] == events;
    }

    method SendToTargets(event: DeliveryEvent) returns (messages: seq<Message>)
      modifies this`history, this`turn, this`built
      ensures SendAll(old(State()), event, Targets(telegramExtraTarget, event)) == (State(), messages)
    {
      messages := [];
      var targets := [event.origin];
      if (event.critical || event.eventType == Blocked) && !("telegram:" <= event.origin) {
        targets := targets + [telegramExtraTarget];
      }
      for i := 0 to |targets|
        invariant SendAll(old(State()), event, targets[..i]) == (State(), messages)
      {
        assert targets[..i + 1][..i] == targets[..i];
        var message := BuildMessage(event, targets[i], true);
        history := history[event.jobId := GetOr(history, event.jobId, []) + [message]];
        if GetOr(connected, targets[i], true) {
          messages := messages + [message];
        } else {
          assert messages + [] == messages;
        }
      }
      assert targets[..|targets|] == targets == Targets(telegramExtraTarget, event);
    }

    method Status(jobId: string, target: string) returns (message: Message)
      modifies this`turn, this`built
      ensures State() == Do(old(State()), AskStatus(jobId, target))
      ensures message == Build(old(State()), StatusEvent(old(State()), jobId, target), target, false).1
    {
      var past := GetOr(history, jobId, []);
      var text := if past != [] then past[|past| - 1].text else NO_STATUS;
      var event := DeliveryEvent(jobId, target, EventType.Status, text, None, false, false, true);
      message := BuildMessage(event, target, false);
    }
  }
}
