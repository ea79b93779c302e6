/** The JSON-RPC client object of the review gateway (src/hermes_harness/observability_review.py). */
module JsonRpcService {
  import opened Common
  import opened Json
  import opened JsonRpcModel

  class JsonRpcStdioClient {
    var nextRequestId: nat
    var notifications: seq<Event>
    var completedSessions: set<string>
    /** What the process is still going to write, and where reads fail. */
    var incoming: seq<Line>
    ghost var ids: seq<string>

    constructor (incoming: seq<Line>)
      ensures State() == Fresh(ClassifyAll(incoming))
    {
      nextRequestId, notifications, completedSessions := 0, [], {};
      this.incoming, ids := incoming, [];
    }

    ghost function State(): Client
      reads this
    {
      Client(nextRequestId, notifications, completedSessions, ClassifyAll(incoming), ids)
    }

    /** One line; past the end of the stream the connection is closed. */
    method ReadFrame() returns (frame: Outcome<Json, Fault>)
      modifies this`incoming
      ensures old(incoming) == [] ==> incoming == [] && frame == Err(TransportFailed)
      ensures old(incoming) != [] ==>
        incoming == old(incoming)[1..] && ClassifyAll(incoming) == ClassifyAll(old(incoming))[1..]
      ensures old(incoming) != [] ==>
        Classify(old(incoming)[0]) == if frame.Err? then Bad(frame.error) else Understood(frame.value)
      ensures frame.Ok? <==>
        old(incoming) != [] && old(incoming)[0].Text? && old(incoming)[0].frame.Get("jsonrpc") == Some(Str("2.0"))
      ensures frame.Ok? ==> old(incoming)[0] == Text(frame.value)
    {
      if incoming == [] {
        return Err(TransportFailed);
      }
      var line := incoming[0];
      incoming := incoming[1..];
      if line.Broken? {
        return Err(TransportFailed);
      }
      if line.frame.Get("jsonrpc") != Some(Str("2.0")) {
        return Err(InvalidFrame);
      }
      return Ok(line.frame);
    }

    /** Buffers the frame if it is a notification, and says whether it was one. */
    method RecordEvent(frame: Json) returns (r: Outcome<bool, Blocked>)
      modifies this`notifications, this`completedSessions
      ensures Heard(old(State()), Understood(frame)) ==
        (State(), if r.Err? then Raised(r.error) else if r.value then Recorded else Answer(frame))
    {
      var decoded := Decode(frame);
      if decoded.Err? {
        return Err(Unreadable(decoded.error));
      }
      if decoded.value.None? {
        return Ok(false);
      }
      var event := decoded.value.value;
      notifications := notifications + [event];
      if event.kind == COMPLETE {
        if event.session.value in completedSessions {
          return Err(SecondCompletion);
        }
        completedSessions := completedSessions + {event.session.value};
      }
      return Ok(true);
    }

    method Receive() returns (seen: Seen)
      modifies this`incoming, this`notifications, this`completedSessions
      ensures JsonRpcModel.Receive(old(State())) == (State(), seen)
    {
      var frame := ReadFrame();
      if frame.Err? {
        return Raised(Unreadable(frame.error));
      }
      var r := RecordEvent(frame.value);
      return if r.Err? then Raised(r.error) else if r.value then Recorded else Answer(frame.value);
    }

    /** `alive` and `written` say whether the process runs and whether the request could be written. */
    method Request(alive: bool, written: bool) returns (r: Outcome<Json, Blocked>)
      modifies this
      ensures Do(old(State()), JsonRpcModel.Request(alive, written)) == (State(), r)
      ensures !alive ==> r == Err(Unreadable(TransportFailed)) && State() == old(State())
      ensures alive ==> nextRequestId == old(nextRequestId) + 1
      ensures alive && !written ==> r == Err(Unreadable(TransportFailed)) && incoming == old(incoming)
    {
      if !alive {
        return Err(Unreadable(TransportFailed));
      }
      nextRequestId := nextRequestId + 1;
      var requestId := RequestId(nextRequestId);
      ids := ids + [requestId];
      if !written {
        return Err(Unreadable(TransportFailed));
      }
      ghost var begun := State();
      while true
        invariant AwaitResponse(State(), requestId) == AwaitResponse(begun, requestId)
        invariant nextRequestId == old(nextRequestId) + 1
        decreases |incoming|
      {
        var seen := Receive();
        match seen
        case Recorded =>
        case Answer(frame) => return Respond(frame, requestId);
        case Raised(why) => return Err(why);
      }
    }

    method WaitForMessageComplete(session: string) returns (r: Outcome<Json, Blocked>)
      modifies this
      ensures Do(old(State()), JsonRpcModel.WaitForMessageComplete(session)) == (State(), r)
      ensures session == "" || session in old(completedSessions) ==>
        r == Err(SessionNotUnique) && State() == old(State())
    {
      if session == "" || session in completedSessions {
        return Err(SessionNotUnique);
      }
      while true
        invariant AwaitCompletion(State(), session) == AwaitCompletion(old(State()), session)
        decreases |incoming|
      {
        var seen := Receive();
        match seen
        case Recorded =>
          var event := notifications[|notifications| - 1];
          if event.kind == COMPLETE && event.session == Some(session) {
            return Ok(event.payload.value);
          }
        case Answer(_) => return Err(UnexpectedResponse);
        case Raised(why) => return Err(why);
      }
    }
  }
}
