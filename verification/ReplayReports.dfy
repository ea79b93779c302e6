/** What one report of the replay holds: cases, violations and cursor, by the positions of the joined pairs. */
module ReplayReports {
  import opened Common
  import opened Json
  import opened ReplayModel
  import opened ReplayPaging

  /** One case gives its outcome and its violations, or fails. */
  lemma JudgeOne(judge: Judge, pair: Pair)
    ensures JudgeAll(judge, [pair]) ==
      if judge(pair).None? then Err(InvalidCase) else Ok(([judge(pair).value.outcome], judge(pair).value.violations))
  {
    assert [pair][..|[pair]| - 1] == [];
    assert JudgeAll(judge, []) == Ok(([], []));
    assert [pair][|[pair]| - 1] == pair;
    if judge(pair).Some? {
      assert [] + judge(pair).value.violations == judge(pair).value.violations;
      assert [] + [judge(pair).value.outcome] == [judge(pair).value.outcome];
    }
  }

  /** The violations of a case stand behind those of the cases before it, and before those of the cases after it. */
  lemma ViolationsInOrder(judge: Judge, pairs: seq<Pair>, i: nat)
    requires i < |pairs| && JudgeAll(judge, pairs).Ok?
    ensures judge(pairs[i]).Some? && JudgeAll(judge, pairs[..i]).Ok? && JudgeAll(judge, pairs[i + 1..]).Ok?
    ensures JudgeAll(judge, pairs).value.1 ==
      JudgeAll(judge, pairs[..i]).value.1 + judge(pairs[i]).value.violations + JudgeAll(judge, pairs[i + 1..]).value.1
  {
    hide *;
    assert pairs == pairs[..i] + ([pairs[i]] + pairs[i + 1..]);
    ViolationsOfParts(judge, pairs[..i], pairs[i], pairs[i + 1..]);
  }

  lemma ViolationsOfParts(judge: Judge, before: seq<Pair>, pair: Pair, behind: seq<Pair>)
    requires JudgeAll(judge, before + ([pair] + behind)).Ok?
    ensures judge(pair).Some? && JudgeAll(judge, before).Ok? && JudgeAll(judge, behind).Ok?
    ensures JudgeAll(judge, before + ([pair] + behind)).value.1 ==
      JudgeAll(judge, before).value.1 + judge(pair).value.violations + JudgeAll(judge, behind).value.1
  {
    hide JudgeAll;
    JudgeInParts(judge, before, [pair] + behind);
    JudgeInParts(judge, [pair], behind);
    JudgeOne(judge, pair);
    Regroup(JudgeAll(judge, before).value.1, judge(pair).value.violations, JudgeAll(judge, behind).value.1);
  }

  lemma {:induction false} JudgingFailsAlike(judge: Judge, pairs: seq<Pair>)
    ensures JudgeAll(judge, pairs).Err? ==> JudgeAll(judge, pairs).error == InvalidCase
  {
    if pairs != [] {
      JudgingFailsAlike(judge, pairs[..|pairs| - 1]);
    }
  }

  /** The i-th case is the outcome of the i-th pair from `start` on. */
  ghost predicate CaseAt(judge: Judge, pairs: seq<Pair>, cases: seq<Json>, start: nat, i: int) {
    && 0 <= i < |cases| && start + i < |pairs|
    && judge(pairs[start + i]).Some? && cases[i] == judge(pairs[start + i]).value.outcome
  }

  /** The cases reported run from behind the first occurrence of the cursor to the limit or the end. */
  ghost predicate PageFrom(judge: Judge, pairs: seq<Pair>, after: Option<string>, limit: Option<int>, report: Report,
                           start: nat)
  {
    && BeginsAt(pairs, after, start)
    && var end := start + |report.cases|;
       && end <= |pairs| && report.hasMore == (end < |pairs|)
       && (end < |pairs| ==> limit == Some(|report.cases|)) && (limit.Some? ==> |report.cases| <= limit.value)
       && report.nextCursor == (if |report.cases| == 0 then after else Some(pairs[end - 1].cursor))
       && forall i :: 0 <= i < |report.cases| ==> CaseAt(judge, pairs, report.cases, start, i)
  }

  /** A report covers one page exactly; a cursor that does not occur is refused, and so is a limit below one. */
  lemma ReportIsExact(judge: Judge, expectations: seq<Json>, events: seq<Json>, after: Option<string>,
                      limit: Option<int>)
    ensures var r := Replay(judge, expectations, events, after, limit);
      && (limit.Some? && limit.value < 1 <==> r == Err(LimitNotPositive))
      && (limit.None? || limit.value >= 1 ==>
            var joined := Join(expectations, events);
            && (joined.Err? ==> r == Err(joined.error))
            && (joined.Ok? && after.Some? && (forall p :: p in joined.value ==> p.cursor != after.value) ==>
                  r == Err(UnknownCursor))
            && (r.Ok? ==> joined.Ok? && exists start :: PageFrom(judge, joined.value, after, limit, r.value, start)))
  {
    JoinErrors(expectations, events);
    if (limit.None? || limit.value >= 1) && Join(expectations, events).Ok? {
      var pairs := Join(expectations, events).value;
      hide Join, JudgeAll;
      PageIsExact(judge, pairs, after, limit);
    }
  }

  /** What is wrong with the event behind those of `before`. */
  ghost predicate EventFault(before: seq<Json>, event: Json, why: Error) {
    if TextOf(event, "id") == "" then why == StringRequired("id")
    else why == DuplicateEvent && exists e :: e in before && TextOf(e, "id") == TextOf(event, "id")
  }

  /** The first event that is without an id or repeats one decides why indexing fails. */
  lemma {:induction false} IndexFailsFor(events: seq<Json>) returns (i: nat)
    requires IndexEvents(events).Err?
    ensures i < |events| && Unambiguous(events[..i]) && EventFault(events[..i], events[i], IndexEvents(events).error)
  {
    var n := |events| - 1;
    IndexEventsIndexes(events[..n]);
    if IndexEvents(events[..n]).Err? {
      i := IndexFailsFor(events[..n]);
      assert events[..n][..i] == events[..i];
    } else {
      i := n;
    }
  }

  /** What is wrong with the expectation behind those of `before`, given the events. */
  ghost predicate ExpectationFault(before: seq<Json>, x: Json, events: seq<Json>, why: Error) {
    var id := TextOf(x, "id");
    if id == "" then why == StringRequired("id")
    else if exists y :: y in before && TextOf(y, "id") == id then why == DuplicateExpectation
    else if forall e :: e in events ==> TextOf(e, "id") != id then why == NoMatchingEvent
    else exists e :: e in events && TextOf(e, "id") == id && Differs(x, e, why)
  }

  /** How an expectation and the event with its id differ, the event id first. */
  ghost predicate Differs(x: Json, event: Json, why: Error) {
    if x.GetOr("event_id", Null) != event.GetOr("event_id", Null) then why == EventIdDiffers
    else if x.GetOr("cursor", Null) != event.GetOr("cursor", Null) then why == CursorDiffers
    else if TextOf(event, "event_id") == "" then why == StringRequired("event_id")
    else why == StringRequired("cursor") && TextOf(event, "cursor") == ""
  }

  lemma MatchOneFailsFor(index: map<string, Json>, events: seq<Json>, before: seq<Json>, x: Json)
    requires Indexes(index, events) && MatchOne(index, Ids(before), x).Err?
    ensures ExpectationFault(before, x, events, MatchOne(index, Ids(before), x).error)
  {
    var id, why := TextOf(x, "id"), MatchOne(index, Ids(before), x).error;
    if id in index {
      assert id in Ids(events);
      var e :| e in events && TextOf(e, "id") == id;
      assert index[id] == e && (id != "" && id !in Ids(before) ==> Differs(x, e, why));
    }
  }

  /** The first expectation that cannot be joined decides why the join fails. */
  lemma {:induction false} MatchingFailsFor(index: map<string, Json>, events: seq<Json>, expectations: seq<Json>)
      returns (i: nat)
    requires Indexes(index, events) && MatchAll(index, expectations).Err?
    ensures i < |expectations| && MatchAll(index, expectations[..i]).Ok?
    ensures ExpectationFault(expectations[..i], expectations[i], events, MatchAll(index, expectations).error)
  {
    var n := |expectations| - 1;
    if MatchAll(index, expectations[..n]).Err? {
      i := MatchingFailsFor(index, events, expectations[..n]);
      assert expectations[..n][..i] == expectations[..i];
    } else {
      i := n;
      MatchOneFailsFor(index, events, expectations[..n], expectations[n]);
    }
  }

  /** A join that fails names the first thing wrong: with the events, or, if they are in order, with an expectation. */
  lemma JoinFailsFor(expectations: seq<Json>, events: seq<Json>) returns (i: nat)
    requires Join(expectations, events).Err?
    ensures var why := Join(expectations, events).error;
      if Unambiguous(events) then
        && i < |expectations| && Joinable(expectations[..i], events)
        && ExpectationFault(expectations[..i], expectations[i], events, why)
      else i < |events| && Unambiguous(events[..i]) && EventFault(events[..i], events[i], why)
  {
    IndexEventsIndexes(events);
    if IndexEvents(events).Err? {
      i := IndexFailsFor(events);
    } else {
      i := MatchingFailsFor(IndexEvents(events).value, events, expectations);
      JoinIsExact(expectations[..i], events);
    }
  }

  lemma JoinErrors(expectations: seq<Json>, events: seq<Json>)
    ensures Join(expectations, events) != Err(LimitNotPositive)
  {
    IndexErrors(events);
    if IndexEvents(events).Ok? {
      MatchErrors(IndexEvents(events).value, expectations);
    }
  }

  lemma {:induction false} IndexErrors(events: seq<Json>)
    ensures IndexEvents(events) != Err(LimitNotPositive)
  {
    if events != [] {
      IndexErrors(events[..|events| - 1]);
    }
  }

  lemma {:induction false} MatchErrors(index: map<string, Json>, expectations: seq<Json>)
    ensures MatchAll(index, expectations) != Err(LimitNotPositive)
  {
    if expectations != [] {
      MatchErrors(index, expectations[..|expectations| - 1]);
    }
  }

  /** The page begins at `start`, behind the first occurrence of the cursor if there is one. */
  ghost predicate BeginsAt(pairs: seq<Pair>, after: Option<string>, start: nat) {
    && start <= |pairs|
    && match after
       case None => start == 0
       case Some(c) =>
         start > 0 && pairs[start - 1].cursor == c && forall j :: 0 <= j < start - 1 ==> pairs[j].cursor != c
  }

  lemma StartIsMeant(pairs: seq<Pair>, after: Option<string>)
    ensures StartOf(pairs, after).Ok? ==> BeginsAt(pairs, after, StartOf(pairs, after).value)
    ensures after.Some? && (forall p :: p in pairs ==> p.cursor != after.value) ==>
      StartOf(pairs, after) == Err(UnknownCursor)
    ensures StartOf(pairs, after).Err? ==> StartOf(pairs, after).error == UnknownCursor
  {
    if after.Some? && after.value in Cursors(pairs) {
      var k := FirstIndex(Cursors(pairs), after.value);
      assert pairs[k] in pairs;
      assert forall j :: 0 <= j < k ==> Cursors(pairs)[..k][j] == pairs[j].cursor;
    }
  }

  lemma PageIsExact(judge: Judge, pairs: seq<Pair>, after: Option<string>, limit: Option<int>)
    requires limit.None? || limit.value >= 1
    ensures var r := PageOf(judge, pairs, after, limit);
      && r != Err(LimitNotPositive)
      && (after.Some? && (forall p :: p in pairs ==> p.cursor != after.value) ==> r == Err(UnknownCursor))
      && (r.Ok? ==> exists start :: PageFrom(judge, pairs, after, limit, r.value, start))
  {
    StartIsMeant(pairs, after);
    hide StartOf, BeginsAt, JudgeAll;
    if StartOf(pairs, after).Ok? {
      var start := StartOf(pairs, after).value;
      JudgingFailsAlike(judge, pairs[start..EndOf(pairs, start, limit)]);
      if PageOf(judge, pairs, after, limit).Ok? {
        PageIsFrom(judge, pairs, after, limit, start);
      }
    }
  }

  lemma SelectedCases(judge: Judge, pairs: seq<Pair>, start: nat, end: nat)
    requires start <= end <= |pairs| && JudgeAll(judge, pairs[start..end]).Ok?
    ensures var cases := JudgeAll(judge, pairs[start..end]).value.0;
      && |cases| == end - start
      && forall i :: 0 <= i < |cases| ==> CaseAt(judge, pairs, cases, start, i)
  {
    var cases := JudgeAll(judge, pairs[start..end]).value.0;
    JudgedInOrder(judge, pairs[start..end]);
    hide JudgeAll;
    forall i | 0 <= i < |cases| ensures CaseAt(judge, pairs, cases, start, i) {
      assert pairs[start..end][i] == pairs[start + i];
    }
  }

  /** The report, read off the stretch of pairs that it covers. */
  lemma PageReads(judge: Judge, pairs: seq<Pair>, after: Option<string>, limit: Option<int>, start: nat)
      returns (end: nat, r: Report)
    requires (limit.None? || limit.value >= 1) && PageOf(judge, pairs, after, limit).Ok?
    requires StartOf(pairs, after) == Ok(start) && start <= |pairs|
    ensures start <= end <= |pairs| && (end < |pairs| ==> limit == Some(end - start))
    ensures limit.Some? ==> end - start <= limit.value
    ensures r == PageOf(judge, pairs, after, limit).value
    ensures JudgeAll(judge, pairs[start..end]).Ok? && r.cases == JudgeAll(judge, pairs[start..end]).value.0
    ensures r.nextCursor == if start == end then after else Some(pairs[end - 1].cursor)
    ensures r.hasMore == (end < |pairs|)
  {
    hide JudgeAll, StartOf;
    end, r := EndOf(pairs, start, limit), PageOf(judge, pairs, after, limit).value;
  }

  lemma PageIsFrom(judge: Judge, pairs: seq<Pair>, after: Option<string>, limit: Option<int>, start: nat)
    requires (limit.None? || limit.value >= 1) && PageOf(judge, pairs, after, limit).Ok?
    requires StartOf(pairs, after) == Ok(start) && BeginsAt(pairs, after, start)
    ensures PageFrom(judge, pairs, after, limit, PageOf(judge, pairs, after, limit).value, start)
  {
    var end, r := PageReads(judge, pairs, after, limit, start);
    SelectedCases(judge, pairs, start, end);
    hide JudgeAll, StartOf, PageOf, BeginsAt;
    assert start + |r.cases| == end;
  }
}
