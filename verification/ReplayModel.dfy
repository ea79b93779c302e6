/**
 The versioned routing replay: its join of expectations with events, and its cursor paging
 (scripts/replay_routing.py).
 */
module ReplayModel {
  import opened Common
  import opened Json

  datatype Error =
    | LimitNotPositive
    | StringRequired(field: string)
    | DuplicateEvent
    | DuplicateExpectation
    | NoMatchingEvent
    | EventIdDiffers
    | CursorDiffers
    | UnknownCursor
    | InvalidCase

  /** An expectation with its event, and the event's cursor. */
  datatype Pair = Pair(expectation: Json, event: Json, cursor: string)

  /** What one case comes to; reading and judging it is a parameter of the model. */
  datatype Judged = Judged(outcome: Json, violations: seq<Json>)

  type Judge = Pair -> Option<Judged>

  datatype Report = Report(cases: seq<Json>, violations: seq<Json>, nextCursor: Option<string>, hasMore: bool)

  /** A field that is a non-empty string, or the empty string. */
  function TextOf(record: Json, field: string): string {
    var value := record.GetOr(field, Null);
    if value.Str? then value.s else ""
  }

  // ---- The join ----

  function IndexEvents(events: seq<Json>): Outcome<map<string, Json>, Error> {
    if events == [] then Ok(map[])
    else
      var index, event := IndexEvents(events[..|events| - 1]), events[|events| - 1];
      if index.Err? then index
      else if TextOf(event, "id") == "" then Err(StringRequired("id"))
      else if TextOf(event, "id") in index.value then Err(DuplicateEvent)
      else Ok(index.value[TextOf(event, "id") := event])
  }

  /** Pairs one expectation; `seen` are the ids of those before it. */
  function MatchOne(index: map<string, Json>, seen: set<string>, expectation: Json): Outcome<Pair, Error> {
    var id := TextOf(expectation, "id");
    if id == "" then Err(StringRequired("id"))
    else if id in seen then Err(DuplicateExpectation)
    else if id !in index then Err(NoMatchingEvent)
    else
      var event := index[id];
      if expectation.GetOr("event_id", Null) != event.GetOr("event_id", Null) then Err(EventIdDiffers)
      else if expectation.GetOr("cursor", Null) != event.GetOr("cursor", Null) then Err(CursorDiffers)
      else if TextOf(event, "event_id") == "" then Err(StringRequired("event_id"))
      else if TextOf(event, "cursor") == "" then Err(StringRequired("cursor"))
      else Ok(Pair(expectation, event, TextOf(event, "cursor")))
  }

  function Ids(records: seq<Json>): set<string> {
    set r | r in records :: TextOf(r, "id")
  }

  function MatchAll(index: map<string, Json>, expectations: seq<Json>): (r: Outcome<seq<Pair>, Error>)
    ensures r.Ok? ==> |r.value| == |expectations|
  {
    if expectations == [] then Ok([])
    else
      var n := |expectations| - 1;
      var pairs := MatchAll(index, expectations[..n]);
      if pairs.Err? then pairs
      else
        var pair := MatchOne(index, Ids(expectations[..n]), expectations[n]);
        if pair.Err? then Err(pair.error) else Ok(pairs.value + [pair.value])
  }

  function Join(expectations: seq<Json>, events: seq<Json>): Outcome<seq<Pair>, Error> {
    var index := IndexEvents(events);
    if index.Err? then Err(index.error) else MatchAll(index.value, expectations)
  }

  // ---- Paging ----

  function Cursors(pairs: seq<Pair>): (r: seq<string>)
    ensures |r| == |pairs| && forall i :: 0 <= i < |pairs| ==> r[i] == pairs[i].cursor
  {
    seq(|pairs|, i requires 0 <= i < |pairs| => pairs[i].cursor)
  }

  /** `cursors.index(c)` */
  function FirstIndex(cursors: seq<string>, c: string): (k: nat)
    requires c in cursors
    ensures k < |cursors| && cursors[k] == c && c !in cursors[..k]
  {
    if cursors[0] == c then 0
    else
      var k := FirstIndex(cursors[1..], c) + 1;
      assert forall i :: 0 < i < k ==> cursors[i] == cursors[1..][i - 1];
      k
  }

  function StartOf(pairs: seq<Pair>, after: Option<string>): Outcome<nat, Error> {
    if after.None? then Ok(0)
    else if after.value !in Cursors(pairs) then Err(UnknownCursor)
    else Ok(FirstIndex(Cursors(pairs), after.value) + 1)
  }

  function EndOf(pairs: seq<Pair>, start: nat, limit: Option<int>): int {
    if limit.None? || start + limit.value > |pairs| then |pairs| else start + limit.value
  }

  /** Judges pairs in order, up to the first that is invalid. */
  function JudgeAll(judge: Judge, pairs: seq<Pair>): Outcome<(seq<Json>, seq<Json>), Error> {
    if pairs == [] then Ok(([], []))
    else
      var n := |pairs| - 1;
      var before := JudgeAll(judge, pairs[..n]);
      if before.Err? then before
      else if judge(pairs[n]).None? then Err(InvalidCase)
      else Ok((before.value.0 + [judge(pairs[n]).value.outcome], before.value.1 + judge(pairs[n]).value.violations))
  }

  function PageOf(judge: Judge, pairs: seq<Pair>, after: Option<string>, limit: Option<int>): Outcome<Report, Error>
    requires limit.Some? ==> limit.value >= 1
  {
    var start := StartOf(pairs, after);
    if start.Err? then Err(start.error)
    else
      var end := EndOf(pairs, start.value, limit);
      var selected := pairs[start.value..end];
      var judged := JudgeAll(judge, selected);
      if judged.Err? then Err(judged.error)
      else Ok(Report(judged.value.0, judged.value.1,
                     if selected == [] then after else Some(selected[|selected| - 1].cursor), end < |pairs|))
  }

  function Replay(judge: Judge, expectations: seq<Json>, events: seq<Json>, after: Option<string>,
                  limit: Option<int>): Outcome<Report, Error> {
    if limit.Some? && limit.value < 1 then Err(LimitNotPositive)
    else
      var pairs := Join(expectations, events);
      if pairs.Err? then Err(pairs.error) else PageOf(judge, pairs.value, after, limit)
  }

  // ---- The join gives every expectation its one event ----

  ghost predicate Unambiguous(records: seq<Json>) {
    && (forall i :: 0 <= i < |records| ==> TextOf(records[i], "id") != "")
    && (forall i, j :: 0 <= i < j < |records| ==> TextOf(records[i], "id") != TextOf(records[j], "id"))
  }

  predicate Agrees(expectation: Json, event: Json) {
    && TextOf(expectation, "id") == TextOf(event, "id")
    && expectation.GetOr("event_id", Null) == event.GetOr("event_id", Null) && TextOf(event, "event_id") != ""
    && expectation.GetOr("cursor", Null) == event.GetOr("cursor", Null) && TextOf(event, "cursor") != ""
  }

  ghost predicate HasEvent(expectation: Json, events: seq<Json>) {
    exists k :: 0 <= k < |events| && Agrees(expectation, events[k])
  }

  ghost predicate Joinable(expectations: seq<Json>, events: seq<Json>) {
    && Unambiguous(events) && Unambiguous(expectations)
    && AllHaveEvents(expectations, events)
  }

  ghost predicate AllHaveEvents(expectations: seq<Json>, events: seq<Json>) {
    forall i :: 0 <= i < |expectations| ==> HasEvent(expectations[i], events)
  }

  /** The pair is the expectation with an event that agrees with it. */
  ghost predicate Paired(pair: Pair, expectation: Json, events: seq<Json>) {
    && pair.expectation == expectation && pair.event in events
    && Agrees(expectation, pair.event) && pair.cursor == TextOf(pair.event, "cursor")
  }

  ghost predicate AllPaired(pairs: seq<Pair>, expectations: seq<Json>, events: seq<Json>) {
    |pairs| == |expectations| && forall i :: 0 <= i < |pairs| ==> Paired(pairs[i], expectations[i], events)
  }

  /** The index holds exactly the events, under their ids. */
  ghost predicate Indexes(index: map<string, Json>, events: seq<Json>) {
    && index.Keys == Ids(events)
    && forall e :: e in events ==> TextOf(e, "id") in index && index[TextOf(e, "id")] == e
  }

  lemma IdsGrow(records: seq<Json>, r: Json)
    ensures Ids(records + [r]) == Ids(records) + {TextOf(r, "id")}
  {
    forall x | x in Ids(records) ensures x in Ids(records + [r]) {
      var y :| y in records && TextOf(y, "id") == x;
      assert y in records + [r];
    }
    assert r in records + [r];
  }

  lemma UnambiguousGrows(records: seq<Json>, r: Json)
    ensures Unambiguous(records + [r]) <==>
      Unambiguous(records) && TextOf(r, "id") != "" && TextOf(r, "id") !in Ids(records)
  {
    var more := records + [r];
    assert more[|records|] == r;
    assert forall i :: 0 <= i < |records| ==> more[i] == records[i];
    if Unambiguous(records) && TextOf(r, "id") !in Ids(records) {
      forall i | 0 <= i < |records| ensures TextOf(more[i], "id") != TextOf(r, "id") {
        assert records[i] in records;
      }
    }
    if Unambiguous(more) {
      forall i, j | 0 <= i < j < |records| ensures TextOf(records[i], "id") != TextOf(records[j], "id") {
        assert more[i] == records[i] && more[j] == records[j];
      }
    }
  }

  lemma {:induction false} IndexEventsIndexes(events: seq<Json>)
    ensures IndexEvents(events).Ok? <==> Unambiguous(events)
    ensures IndexEvents(events).Ok? ==> Indexes(IndexEvents(events).value, events)
  {
    if events != [] {
      var front, last := events[..|events| - 1], events[|events| - 1];
      assert events == front + [last];
      IndexEventsIndexes(front);
      IdsGrow(front, last);
      UnambiguousGrows(front, last);
      forall e | e in front ensures TextOf(e, "id") in Ids(front) {
      }
    }
  }

  lemma MatchOneMeans(index: map<string, Json>, events: seq<Json>, seen: set<string>, x: Json)
    requires Indexes(index, events)
    ensures MatchOne(index, seen, x).Ok? <==> TextOf(x, "id") != "" && TextOf(x, "id") !in seen && HasEvent(x, events)
    ensures MatchOne(index, seen, x).Ok? ==> Paired(MatchOne(index, seen, x).value, x, events)
  {
    var id := TextOf(x, "id");
    if HasEvent(x, events) {
      var k :| 0 <= k < |events| && Agrees(x, events[k]);
      assert events[k] in events;
      assert index[id] == events[k];
    }
    if id in index {
      assert id in Ids(events);
      var e :| e in events && TextOf(e, "id") == id;
      assert index[id] == e;
      var k :| 0 <= k < |events| && events[k] == e;
    }
  }

  lemma AllGrow(pairs: seq<Pair>, expectations: seq<Json>, events: seq<Json>, pair: Pair, x: Json)
    ensures AllHaveEvents(expectations + [x], events) <==> AllHaveEvents(expectations, events) && HasEvent(x, events)
    ensures AllPaired(pairs, expectations, events) && Paired(pair, x, events) ==>
      AllPaired(pairs + [pair], expectations + [x], events)
  {
    var more := expectations + [x];
    assert more[|expectations|] == x;
    assert forall i :: 0 <= i < |expectations| ==> more[i] == expectations[i];
    if AllHaveEvents(more, events) {
      forall i | 0 <= i < |expectations| ensures HasEvent(expectations[i], events) {
        assert HasEvent(more[i], events);
      }
    }
  }

  lemma {:induction false} MatchAllMeans(index: map<string, Json>, events: seq<Json>, expectations: seq<Json>)
    requires Indexes(index, events)
    ensures MatchAll(index, expectations).Ok? <==> Unambiguous(expectations) && AllHaveEvents(expectations, events)
    ensures MatchAll(index, expectations).Ok? ==> AllPaired(MatchAll(index, expectations).value, expectations, events)
  {
    if expectations != [] {
      var n := |expectations| - 1;
      var front, last := expectations[..n], expectations[n];
      MatchAllMeans(index, events, front);
      MatchOneMeans(index, events, Ids(front), last);
      UnambiguousGrows(front, last);
      var pairs, pair := MatchAll(index, front), MatchOne(index, Ids(front), last);
      AllGrow(if pairs.Ok? then pairs.value else [], front, events,
        if pair.Ok? then pair.value else Pair(last, last, ""), last);
      assert expectations == front + [last];
    }
  }

  /**
   The join succeeds if and only if ids are non-empty and unambiguous on both sides and every expectation
   agrees with an event; it then gives every expectation, in order, the only event with its id.
   */
  lemma {:induction false} JoinIsExact(expectations: seq<Json>, events: seq<Json>)
    ensures Join(expectations, events).Ok? <==> Joinable(expectations, events)
    ensures Join(expectations, events).Ok? ==>
      var pairs := Join(expectations, events).value;
      |pairs| == |expectations| &&
      forall i :: 0 <= i < |pairs| ==>
        && Paired(pairs[i], expectations[i], events)
        && forall e :: e in events && TextOf(e, "id") == TextOf(expectations[i], "id") ==> e == pairs[i].event
  {
    IndexEventsIndexes(events);
    if IndexEvents(events).Ok? {
      var index := IndexEvents(events).value;
      MatchAllMeans(index, events, expectations);
      if MatchAll(index, expectations).Ok? {
        var pairs := MatchAll(index, expectations).value;
        forall i, e | 0 <= i < |pairs| && e in events && TextOf(e, "id") == TextOf(expectations[i], "id")
          ensures e == pairs[i].event
        {
          assert Paired(pairs[i], expectations[i], events);
        }
      }
    }
  }
}
