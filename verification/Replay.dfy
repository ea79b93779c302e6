/** The replay as it is computed: three loops over records that were read before (scripts/replay_routing.py). */
module ReplayService {
  import opened Common
  import opened Json
  import opened ReplayModel

  method IndexById(events: seq<Json>) returns (r: Outcome<map<string, Json>, Error>)
    ensures r == IndexEvents(events)
  {
    var index: map<string, Json> := map[];
    for i := 0 to |events|
      invariant IndexEvents(events[..i]) == Ok(index)
    {
      assert events[..i + 1][..i] == events[..i];
      var id := TextOf(events[i], "id");
      if id == "" {
        r := Err(StringRequired("id"));
        IndexErrorsStay(events, i + 1);
        return;
      }
      if id in index {
        r := Err(DuplicateEvent);
        IndexErrorsStay(events, i + 1);
        return;
      }
      index := index[id := events[i]];
    }
    assert events[..|events|] == events;
    return Ok(index);
  }

  lemma {:induction false} IndexErrorsStay(events: seq<Json>, i: nat)
    requires i <= |events| && IndexEvents(events[..i]).Err?
    ensures IndexEvents(events) == IndexEvents(events[..i])
    decreases |events| - i
  {
    if i == |events| {
      assert events[..i] == events;
    } else {
      assert events[..i + 1][..i] == events[..i];
      IndexErrorsStay(events, i + 1);
    }
  }

  lemma {:induction false} MatchStep(index: map<string, Json>, expectations: seq<Json>, i: nat)
      returns (pair: Outcome<Pair, Error>)
    requires i < |expectations| && MatchAll(index, expectations[..i]).Ok?
    ensures pair == MatchOne(index, Ids(expectations[..i]), expectations[i])
    ensures MatchAll(index, expectations[..i + 1])
         == if pair.Err? then Err(pair.error) else Ok(MatchAll(index, expectations[..i]).value + [pair.value])
    ensures Ids(expectations[..i + 1]) == Ids(expectations[..i]) + {TextOf(expectations[i], "id")}
  {
    TakeOneMore(expectations, i);
    pair := MatchOne(index, Ids(expectations[..i]), expectations[i]);
    IdsGrow(expectations[..i], expectations[i]);
  }

  method MatchExpectations(index: map<string, Json>, expectations: seq<Json>) returns (r: Outcome<seq<Pair>, Error>)
    ensures r == MatchAll(index, expectations)
  {
    var pairs: seq<Pair>, seen: set<string> := [], {};
    for i := 0 to |expectations|
      invariant MatchAll(index, expectations[..i]) == Ok(pairs) && seen == Ids(expectations[..i])
    {
      ghost var expected := MatchStep(index, expectations, i);
      var pair := MatchOne(index, seen, expectations[i]);
      if pair.Err? {
        r := Err(pair.error);
        MatchErrorsStay(index, expectations, i + 1);
        return;
      }
      seen := seen + {TextOf(expectations[i], "id")};
      pairs := pairs + [pair.value];
    }
    assert expectations[..|expectations|] == expectations;
    return Ok(pairs);
  }

  lemma {:induction false} MatchErrorsStay(index: map<string, Json>, expectations: seq<Json>, i: nat)
    requires i <= |expectations| && MatchAll(index, expectations[..i]).Err?
    ensures MatchAll(index, expectations) == MatchAll(index, expectations[..i])
    decreases |expectations| - i
  {
    if i == |expectations| {
      assert expectations[..i] == expectations;
    } else {
      assert expectations[..i + 1][..i] == expectations[..i];
      MatchErrorsStay(index, expectations, i + 1);
    }
  }

  method JudgeCases(judge: Judge, selected: seq<Pair>) returns (r: Outcome<(seq<Json>, seq<Json>), Error>)
    ensures r == JudgeAll(judge, selected)
  {
    var cases: seq<Json>, violations: seq<Json> := [], [];
    for i := 0 to |selected|
      invariant JudgeAll(judge, selected[..i]) == Ok((cases, violations))
    {
      assert selected[..i + 1][..i] == selected[..i];
      var judged := judge(selected[i]);
      if judged.None? {
        r := Err(InvalidCase);
        JudgeErrorsStay(judge, selected, i + 1);
        return;
      }
      violations := violations + judged.value.violations;
      cases := cases + [judged.value.outcome];
    }
    assert selected[..|selected|] == selected;
    return Ok((cases, violations));
  }

  lemma {:induction false} JudgeErrorsStay(judge: Judge, pairs: seq<Pair>, i: nat)
    requires i <= |pairs| && JudgeAll(judge, pairs[..i]).Err?
    ensures JudgeAll(judge, pairs) == JudgeAll(judge, pairs[..i])
    decreases |pairs| - i
  {
    if i == |pairs| {
      assert pairs[..i] == pairs;
    } else {
      assert pairs[..i + 1][..i] == pairs[..i];
      JudgeErrorsStay(judge, pairs, i + 1);
    }
  }

  method SelectPage(judge: Judge, pairs: seq<Pair>, after: Option<string>, limit: Option<int>)
      returns (r: Outcome<Report, Error>)
    requires limit.Some? ==> limit.value >= 1
    ensures r == PageOf(judge, pairs, after, limit)
  {
    hide JudgeAll;
    var start := 0;
    if after.Some? {
      var cursors := Cursors(pairs);
      if after.value !in cursors {
        return Err(UnknownCursor);
      }
      start := FirstIndex(cursors, after.value) + 1;
    }
    var end := if limit.None? || start + limit.value > |pairs| then |pairs| else start + limit.value;
    var selected := pairs[start..end];
    var judged := JudgeCases(judge, selected);
    if judged.Err? {
      return Err(judged.error);
    }
    return Ok(Report(judged.value.0, judged.value.1,
                     if selected == [] then after else Some(selected[|selected| - 1].cursor), end < |pairs|));
  }

  method Replay(judge: Judge, expectations: seq<Json>, events: seq<Json>, after: Option<string>, limit: Option<int>)
      returns (r: Outcome<Report, Error>)
    ensures r == ReplayModel.Replay(judge, expectations, events, after, limit)
  {
    if limit.Some? && limit.value < 1 {
      return Err(LimitNotPositive);
    }
    var index := IndexById(events);
    if index.Err? {
      return Err(index.error);
    }
    var joined := MatchExpectations(index.value, expectations);
    if joined.Err? {
      return Err(joined.error);
    }
    r := SelectPage(judge, joined.value, after, limit);
  }
}
