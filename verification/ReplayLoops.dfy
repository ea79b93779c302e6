/** Following replay cursors that may repeat: when it is complete, and when it never ends. */
module ReplayLoops {
  import opened Common
  import opened Json
  import opened ReplayModel
  import opened ReplayPaging
  import opened ReplayReports

  // ---- Where the pages begin ----

  /** Where the page after the one at `start` begins, if the reader goes on at all. */
  function NextStart(cursors: seq<string>, piece: Stretch, limit: nat, start: nat): (next: Option<nat>)
    requires limit >= 1 && start <= |cursors|
    ensures next.Some? ==> next.value < |cursors|
  {
    var end := PageEnd(|cursors|, start, limit);
    if piece(start, end).Err? || end == |cursors| then None
    else Some(Behind(cursors, end))
  }

  /** Where the page of a later call begins; `None` once the reader has stopped. */
  function PageStart(cursors: seq<string>, piece: Stretch, limit: nat, start: nat, calls: nat): (at: Option<nat>)
    requires limit >= 1 && start <= |cursors|
    ensures at.Some? ==> at.value <= |cursors| && (calls > 0 || start < |cursors| ==> at.value < |cursors|)
    decreases calls
  {
    if calls == 0 then Some(start)
    else
      var next := NextStart(cursors, piece, limit, start);
      if next.None? then None else PageStart(cursors, piece, limit, next.value, calls - 1)
  }

  /** Two of the pages, among the first `|cursors|` and one, begin at the same place. */
  ghost predicate ComesBack(cursors: seq<string>, piece: Stretch, limit: nat)
    requires limit >= 1
  {
    exists i, j :: 0 <= i < j <= |cursors| && SamePage(cursors, piece, limit, i, j)
  }

  ghost predicate SamePage(cursors: seq<string>, piece: Stretch, limit: nat, i: nat, j: nat)
    requires limit >= 1
  {
    PageStart(cursors, piece, limit, 0, i).Some? &&
      PageStart(cursors, piece, limit, 0, i) == PageStart(cursors, piece, limit, 0, j)
  }

  lemma {:induction false} WalkStops(cursors: seq<string>, piece: Stretch, limit: nat, start: nat, calls: nat)
    requires limit >= 1 && start <= |cursors|
    ensures Walk(cursors, piece, limit, start, calls).Some? <==> PageStart(cursors, piece, limit, start, calls).None?
    decreases calls
  {
    if calls > 0 {
      var next := NextStart(cursors, piece, limit, start);
      if next.Some? {
        WalkStops(cursors, piece, limit, next.value, calls - 1);
      }
    }
  }

  // ---- Coming back means never ending ----

  lemma {:induction false} PagesInParts(cursors: seq<string>, piece: Stretch, limit: nat, start: nat, a: nat, b: nat)
    requires limit >= 1 && start <= |cursors|
    ensures var mid := PageStart(cursors, piece, limit, start, a);
      PageStart(cursors, piece, limit, start, a + b) ==
        if mid.None? then None else PageStart(cursors, piece, limit, mid.value, b)
    decreases a
  {
    hide NextStart;
    if a > 0 {
      var next := NextStart(cursors, piece, limit, start);
      if next.Some? {
        PagesInParts(cursors, piece, limit, next.value, a - 1, b);
      }
    }
  }

  lemma {:induction false} GoesOnForEver(cursors: seq<string>, piece: Stretch, limit: nat, i: nat, j: nat, calls: nat)
    requires limit >= 1 && i < j && SamePage(cursors, piece, limit, i, j)
    ensures PageStart(cursors, piece, limit, 0, calls).Some?
    decreases calls
  {
    hide NextStart, PageStart;
    if calls <= j {
      PagesInParts(cursors, piece, limit, 0, calls, j - calls);
    } else {
      PagesInParts(cursors, piece, limit, 0, j, calls - j);
      PagesInParts(cursors, piece, limit, 0, i, calls - j);
      GoesOnForEver(cursors, piece, limit, i, j, calls - (j - i));
    }
  }

  // ---- Never ending means coming back ----

  function Members(s: seq<nat>): (r: set<nat>)
    ensures forall x :: x in r <==> x in s
  {
    if s == [] then {} else Members(s[..|s| - 1]) + {s[|s| - 1]}
  }

  lemma {:induction false} DistinctMembers(s: seq<nat>)
    requires forall i, j :: 0 <= i < j < |s| ==> s[i] != s[j]
    ensures |Members(s)| == |s|
  {
    if s != [] {
      DistinctMembers(s[..|s| - 1]);
    }
  }

  function Below(n: nat): (r: set<nat>)
    ensures |r| == n && forall x :: x in r <==> 0 <= x < n
  {
    if n == 0 then {} else Below(n - 1) + {n - 1}
  }

  lemma SubsetIsSmaller(a: set<nat>, b: set<nat>)
    requires a <= b
    ensures |a| <= |b|
  {
    assert b == a + (b - a);
  }

  lemma Pigeonhole(s: seq<nat>, n: nat) returns (i: nat, j: nat)
    requires |s| > n && forall k :: 0 <= k < |s| ==> s[k] < n
    ensures i < j < |s| && s[i] == s[j]
  {
    if a, b :| 0 <= a < b < |s| && s[a] == s[b] {
      i, j := a, b;
    } else {
      DistinctMembers(s);
      SubsetIsSmaller(Members(s), Below(n));
      assert false;
    }
  }

  lemma LongWalkComesBack(cursors: seq<string>, piece: Stretch, limit: nat)
    requires limit >= 1 && cursors != []
    requires forall k :: 0 <= k <= |cursors| ==> PageStart(cursors, piece, limit, 0, k).Some?
    ensures ComesBack(cursors, piece, limit)
  {
    var n := |cursors|;
    var starts := seq(n + 1, k requires 0 <= k <= n => PageStart(cursors, piece, limit, 0, k).value);
    var i, j := Pigeonhole(starts, n);
    assert SamePage(cursors, piece, limit, i, j);
  }

  /** A walk that goes on for as many calls as there are pairs, and one more, goes on for ever. */
  lemma EndsOrComesBack(cursors: seq<string>, piece: Stretch, limit: nat, calls: nat)
    requires limit >= 1
    ensures ComesBack(cursors, piece, limit) ==> PageStart(cursors, piece, limit, 0, calls).Some?
    ensures PageStart(cursors, piece, limit, 0, |cursors| + 1).Some? ==> ComesBack(cursors, piece, limit)
  {
    if ComesBack(cursors, piece, limit) {
      var i, j :| 0 <= i < j <= |cursors| && SamePage(cursors, piece, limit, i, j);
      GoesOnForEver(cursors, piece, limit, i, j, calls);
    } else if PageStart(cursors, piece, limit, 0, |cursors| + 1).Some? {
      assert NextStart(cursors, piece, limit, 0).Some?;
      forall k | 0 <= k <= |cursors| ensures PageStart(cursors, piece, limit, 0, k).Some? {
        PagesInParts(cursors, piece, limit, 0, k, |cursors| + 1 - k);
      }
      LongWalkComesBack(cursors, piece, limit);
    }
  }

  // ---- Completeness ----

  /** Every failure to judge is the same error. */
  ghost predicate OneError(piece: Stretch, n: nat) {
    forall a: nat, b: nat :: a <= b <= n && piece(a, b).Err? ==> piece(a, b).error == InvalidCase
  }

  /** What is collected without an error covers everything from the start on. */
  lemma {:induction false} WalkCovers(cursors: seq<string>, piece: Stretch, limit: nat, start: nat, calls: nat)
    requires limit >= 1 && start <= |cursors| && Additive(piece, |cursors|) && OneError(piece, |cursors|)
    requires Walk(cursors, piece, limit, start, calls).Some?
    ensures var found := Walk(cursors, piece, limit, start, calls).value;
      if found.Ok? then piece(start, |cursors|).Ok? else found.error == InvalidCase
    decreases calls
  {
    var end := PageEnd(|cursors|, start, limit);
    if piece(start, end).Ok? && end < |cursors| {
      var at := Behind(cursors, end);
      hide Additive, Behind;
      WalkCovers(cursors, piece, limit, at, calls - 1);
      PiecesJoin(piece, |cursors|, at, end, |cursors|);
      PiecesJoin(piece, |cursors|, start, end, |cursors|);
    }
  }

  /** Following ends with what the replay without paging gives. */
  ghost predicate Complete(judge: Judge, expectations: seq<Json>, events: seq<Json>, limit: nat) {
    exists calls: nat ::
      Follow(Paged(judge, expectations, events, limit), None, calls) == Some(Whole(judge, expectations, events))
  }

  ghost predicate NeverEnds(judge: Judge, expectations: seq<Json>, events: seq<Json>, limit: nat) {
    forall calls: nat :: Follow(Paged(judge, expectations, events, limit), None, calls) == None
  }

  /** The pages of the joined records begin twice at the same place. */
  ghost predicate PagesComeBack(judge: Judge, expectations: seq<Json>, events: seq<Json>, limit: nat)
    requires limit >= 1 && Join(expectations, events).Ok?
  {
    var pairs := Join(expectations, events).value;
    ComesBack(Cursors(pairs), StretchOf(judge, pairs), limit)
  }

  /**
   Following the cursors never ends if and only if the records can be joined and two of its first pages
   begin at the same place; whether they do shows within one call more than there are pairs.
   */
  lemma NeverEndsExactly(judge: Judge, expectations: seq<Json>, events: seq<Json>, limit: nat)
    requires limit >= 1
    ensures NeverEnds(judge, expectations, events, limit) <==>
      Join(expectations, events).Ok? && PagesComeBack(judge, expectations, events, limit)
    ensures NeverEnds(judge, expectations, events, limit) <==>
      Follow(Paged(judge, expectations, events, limit), None, |expectations| + 1) == None
  {
    if Join(expectations, events).Ok? {
      hide Paged, Follow, ComesBack, StretchOf, Join;
      forall calls: nat ensures PagesComeBack(judge, expectations, events, limit) ==>
        Follow(Paged(judge, expectations, events, limit), None, calls).None?
      {
        GoingOn(judge, expectations, events, limit, calls);
      }
      GoingOn(judge, expectations, events, limit, 0);
    } else {
      UnjoinedStops(judge, expectations, events, limit);
      hide Paged, Follow, Join;
    }
  }

  lemma UnjoinedStops(judge: Judge, expectations: seq<Json>, events: seq<Json>, limit: nat)
    requires limit >= 1 && Join(expectations, events).Err?
    ensures Follow(Paged(judge, expectations, events, limit), None, |expectations| + 1).Some?
  {
    assert Paged(judge, expectations, events, limit)(None).Err?;
  }

  /** Pages that come back go on; pages that go on long enough come back. */
  lemma GoingOn(judge: Judge, expectations: seq<Json>, events: seq<Json>, limit: nat, calls: nat)
    requires limit >= 1 && Join(expectations, events).Ok?
    ensures PagesComeBack(judge, expectations, events, limit) ==>
      Follow(Paged(judge, expectations, events, limit), None, calls).None?
    ensures Follow(Paged(judge, expectations, events, limit), None, |expectations| + 1).None? ==>
      PagesComeBack(judge, expectations, events, limit)
  {
    var pairs, source := Join(expectations, events).value, Paged(judge, expectations, events, limit);
    var cursors, piece := Cursors(pairs), StretchOf(judge, pairs);
    PagesAreServed(judge, expectations, events, limit);
    hide Serves, Follow, ComesBack, PageStart, Paged, StretchOf;
    FollowIsWalk(source, cursors, piece, limit, None, calls);
    FollowIsWalk(source, cursors, piece, limit, None, |cursors| + 1);
    WalkStops(cursors, piece, limit, 0, calls);
    WalkStops(cursors, piece, limit, 0, |cursors| + 1);
    EndsOrComesBack(cursors, piece, limit, calls);
  }

  lemma PagesAreServed(judge: Judge, expectations: seq<Json>, events: seq<Json>, limit: nat)
    requires limit >= 1 && Join(expectations, events).Ok?
    ensures var pairs := Join(expectations, events).value;
      Serves(Paged(judge, expectations, events, limit), Cursors(pairs), StretchOf(judge, pairs), limit)
  {
    var pairs := Join(expectations, events).value;
    forall after: Option<string> | after.Some? ==> after.value in Cursors(pairs)
      ensures ServesAt(Paged(judge, expectations, events, limit), Cursors(pairs), StretchOf(judge, pairs), limit, after)
    {
      PagesServe(judge, expectations, events, limit, after);
    }
  }

  /** If all cases are valid: complete exactly if no page but the last ends on a cursor that occurred before. */
  lemma CompleteWhenValid(judge: Judge, expectations: seq<Json>, events: seq<Json>, limit: nat)
    requires limit >= 1 && Join(expectations, events).Ok? && Whole(judge, expectations, events).Ok?
    ensures Complete(judge, expectations, events, limit) <==>
      BoundariesFresh(Cursors(Join(expectations, events).value), 0, limit)
  {
    var source, whole := Paged(judge, expectations, events, limit), Whole(judge, expectations, events);
    var cursors, piece := Setting(judge, expectations, events, limit);
    if BoundariesFresh(cursors, 0, limit) {
      FollowIsWalk(source, cursors, piece, limit, None, |cursors| + 1);
      WalkFrom(cursors, piece, limit, 0, |cursors| + 1);
    } else {
      forall calls: nat ensures Follow(source, None, calls) != Some(whole) {
        if Follow(source, None, calls).Some? && Follow(source, None, calls).value.Ok? {
          FollowIsWalk(source, cursors, piece, limit, None, calls);
          WalkCollects(cursors, piece, limit, 0, calls);
        }
      }
    }
  }

  /** If some case is invalid: complete, with the same error, exactly if it ends at all. */
  lemma CompleteWhenInvalid(judge: Judge, expectations: seq<Json>, events: seq<Json>, limit: nat)
    requires limit >= 1 && Join(expectations, events).Ok? && Whole(judge, expectations, events).Err?
    ensures Complete(judge, expectations, events, limit) <==> !NeverEnds(judge, expectations, events, limit)
  {
    var source, whole := Paged(judge, expectations, events, limit), Whole(judge, expectations, events);
    var cursors, piece := Setting(judge, expectations, events, limit);
    ErrorsAreOne(judge, expectations, events, cursors, piece);
    hide Paged, Whole, Serves, Additive, OneError, StretchOf, Join, Cursors, Follow, Walk;
    forall calls: nat | Follow(source, None, calls).Some? ensures Follow(source, None, calls) == Some(whole) {
      FollowIsWalk(source, cursors, piece, limit, None, calls);
      WalkCovers(cursors, piece, limit, 0, calls);
    }
  }

  lemma ErrorsAreOne(judge: Judge, expectations: seq<Json>, events: seq<Json>, cursors: seq<string>, piece: Stretch)
    requires Join(expectations, events).Ok? && cursors == Cursors(Join(expectations, events).value)
    requires piece == StretchOf(judge, Join(expectations, events).value)
    ensures OneError(piece, |cursors|)
  {
    var pairs := Join(expectations, events).value;
    forall a: nat, b: nat | a <= b <= |cursors| && piece(a, b).Err? ensures piece(a, b).error == InvalidCase {
      JudgingFailsAlike(judge, pairs[a..b]);
    }
  }

  /**
   The exact condition, for cursors that may repeat and cases that may be invalid: following the cursors
   gives what the replay without paging gives if and only if the records cannot be joined, or all cases are
   valid and no page but the last ends on a cursor that occurred before, or some case is invalid and no two
   pages begin at the same place.
   */
  lemma PagingIsCompleteExactly(judge: Judge, expectations: seq<Json>, events: seq<Json>, limit: nat)
    requires limit >= 1
    ensures Complete(judge, expectations, events, limit) <==>
      || Join(expectations, events).Err?
      || (if Whole(judge, expectations, events).Ok? then
            BoundariesFresh(Cursors(Join(expectations, events).value), 0, limit)
          else !PagesComeBack(judge, expectations, events, limit))
  {
    if Join(expectations, events).Err? {
      PagingIsComplete(judge, expectations, events, limit, |expectations| + 1);
    } else if Whole(judge, expectations, events).Ok? {
      CompleteWhenValid(judge, expectations, events, limit);
    } else {
      CompleteWhenInvalid(judge, expectations, events, limit);
      NeverEndsExactly(judge, expectations, events, limit);
    }
  }

  // ---- Any cursors can occur ----

  /** What a record holds behind its id, event id and cursor; the judging of cases reads it, the join does not. */
  type Fields = nat -> seq<(string, Json)>

  /** A record with an id of its own. */
  function RecordOf(i: nat, cursor: string, rest: seq<(string, Json)>): Json {
    Obj([("id", Str(seq(i + 1, _ => 'x'))), ("event_id", Str("e")), ("cursor", Str(cursor))] + rest)
  }

  function RecordsOf(cursors: seq<string>, rest: Fields): (r: seq<Json>)
    ensures |r| == |cursors| && forall i :: 0 <= i < |r| ==> r[i] == RecordOf(i, cursors[i], rest(i))
  {
    seq(|cursors|, i requires 0 <= i < |cursors| => RecordOf(i, cursors[i], rest(i)))
  }

  lemma RecordFields(i: nat, cursor: string, rest: seq<(string, Json)>)
    ensures var r := RecordOf(i, cursor, rest);
      && r.GetOr("id", Null) == Str(seq(i + 1, _ => 'x'))
      && r.GetOr("event_id", Null) == Str("e") && r.GetOr("cursor", Null) == Str(cursor)
  {
    var r := RecordOf(i, cursor, rest);
    assert r.fields[1..] == [r.fields[1], r.fields[2]] + rest;
    assert r.fields[1..][1..] == [r.fields[2]] + rest;
    assert Lookup(r.fields, "event_id") == Lookup(r.fields[1..], "event_id");
    assert Lookup(r.fields, "cursor") == Lookup(r.fields[1..][1..], "cursor");
  }

  lemma RecordsAreUnambiguous(cursors: seq<string>, rest: Fields)
    ensures Unambiguous(RecordsOf(cursors, rest))
  {
    var records := RecordsOf(cursors, rest);
    forall i | 0 <= i < |records| ensures TextOf(records[i], "id") == seq(i + 1, _ => 'x') {
      RecordFields(i, cursors[i], rest(i));
    }
    forall i, j | 0 <= i < j < |records| ensures TextOf(records[i], "id") != TextOf(records[j], "id") {
      assert |TextOf(records[i], "id")| != |TextOf(records[j], "id")|;
    }
  }

  /** Every list of non-empty cursors is the list of some records that can be joined, whatever else they hold. */
  lemma AnyCursorsOccur(cursors: seq<string>, wanted: Fields, given: Fields)
    requires forall i :: 0 <= i < |cursors| ==> cursors[i] != ""
    ensures var joined := Join(RecordsOf(cursors, wanted), RecordsOf(cursors, given));
      && joined.Ok? && Cursors(joined.value) == cursors
      && forall i :: 0 <= i < |cursors| ==>
        joined.value[i] == Pair(RecordOf(i, cursors[i], wanted(i)), RecordOf(i, cursors[i], given(i)), cursors[i])
  {
    var expectations, events := RecordsOf(cursors, wanted), RecordsOf(cursors, given);
    RecordsAreUnambiguous(cursors, wanted);
    RecordsAreUnambiguous(cursors, given);
    hide Unambiguous;
    forall i | 0 <= i < |cursors|
      ensures Agrees(expectations[i], events[i]) && HasEvent(expectations[i], events) && events[i] in events
      ensures TextOf(events[i], "cursor") == cursors[i] && TextOf(events[i], "id") == TextOf(expectations[i], "id")
    {
      RecordFields(i, cursors[i], wanted(i));
      RecordFields(i, cursors[i], given(i));
    }
    hide Agrees, TextOf, RecordOf;
    JoinIsExact(expectations, events);
    var pairs := Join(expectations, events).value;
    forall i | 0 <= i < |cursors| ensures pairs[i] == Pair(expectations[i], events[i], cursors[i]) {
      assert Paired(pairs[i], expectations[i], events);
    }
  }

  /** No stretch has an invalid case. */
  ghost predicate AllValid(piece: Stretch, n: nat) {
    forall a: nat, b: nat :: a <= b <= n ==> piece(a, b).Ok?
  }

  ghost predicate NoneRepeats(cursors: seq<string>, k: nat)
    requires k <= |cursors|
  {
    forall i :: 0 <= i < k ==> cursors[i] !in cursors[..i]
  }

  /** Every page of one pair leads to the next one while no cursor repeats. */
  lemma {:induction false} ReachesEach(cursors: seq<string>, piece: Stretch, k: nat)
    requires k < |cursors| && AllValid(piece, |cursors|)
    requires NoneRepeats(cursors, k)
    ensures PageStart(cursors, piece, 1, 0, k) == Some(k)
  {
    if k > 0 {
      hide AllValid, PageStart, NextStart;
      ReachesEach(cursors, piece, k - 1);
      PagesInParts(cursors, piece, 1, 0, k - 1, 1);
      OnePageOn(cursors, piece, k - 1);
      assert cursors[k - 1] !in cursors[..k - 1];
    }
  }

  lemma OnePageOn(cursors: seq<string>, piece: Stretch, k: nat)
    requires k + 1 < |cursors| && AllValid(piece, |cursors|)
    ensures PageStart(cursors, piece, 1, k, 1) == Some(Behind(cursors, k + 1))
  {
    assert NextStart(cursors, piece, 1, k) == Some(Behind(cursors, k + 1));
    assert PageStart(cursors, piece, 1, Behind(cursors, k + 1), 0) == Some(Behind(cursors, k + 1));
  }

  lemma {:induction false} FirstRepeat(cursors: seq<string>, k: nat) returns (j: nat)
    requires k < |cursors| && cursors[k] in cursors[..k]
    ensures j <= k && cursors[j] in cursors[..j]
    ensures NoneRepeats(cursors, j)
  {
    if i :| 0 <= i < k && cursors[i] in cursors[..i] {
      j := FirstRepeat(cursors, i);
    } else {
      j := k;
    }
  }

  lemma RepeatComesBack(cursors: seq<string>, piece: Stretch, k: nat)
    requires k + 1 < |cursors| && cursors[k] in cursors[..k]
    requires AllValid(piece, |cursors|)
    ensures ComesBack(cursors, piece, 1)
  {
    var j := FirstRepeat(cursors, k);
    var at := Behind(cursors, j + 1);
    hide AllValid, PageStart, NextStart, Behind;
    ReachesEach(cursors, piece, j);
    ReachesEach(cursors, piece, at);
    PagesInParts(cursors, piece, 1, 0, j, 1);
    OnePageOn(cursors, piece, j);
    assert SamePage(cursors, piece, 1, at, j + 1);
  }

  lemma ValidThroughout(piece: Stretch, n: nat)
    requires Additive(piece, n) && piece(0, n).Ok?
    ensures AllValid(piece, n)
  {
    forall a: nat, b: nat | a <= b <= n ensures piece(a, b).Ok? {
      PiecesJoin(piece, n, 0, a, n);
      PiecesJoin(piece, n, a, b, n);
    }
  }

  /** Whatever judges the cases: if all are valid and a cursor before the last repeats, pages of one never end. */
  lemma {:induction false} RepeatedCursorLoops(judge: Judge, expectations: seq<Json>, events: seq<Json>, k: nat)
    requires Join(expectations, events).Ok? && Whole(judge, expectations, events).Ok?
    requires var cursors := Cursors(Join(expectations, events).value);
      k + 1 < |cursors| && cursors[k] in cursors[..k]
    ensures NeverEnds(judge, expectations, events, 1)
  {
    var cursors, piece := Setting(judge, expectations, events, 1);
    hide Join, Paged, Whole, ComesBack, Follow, Serves, Additive, NeverEnds;
    ValidThroughout(piece, |cursors|);
    RepeatComesBack(cursors, piece, k);
    NeverEndsExactly(judge, expectations, events, 1);
  }

  /** One cursor before the last occurs earlier. */
  ghost predicate RepeatsBeforeTheEnd(cursors: seq<string>) {
    exists k :: 0 <= k < |cursors| - 1 && cursors[k] in cursors[..k]
  }

  lemma {:induction false} NothingRepeatsIsFresh(cursors: seq<string>, start: nat)
    requires start <= |cursors| && !RepeatsBeforeTheEnd(cursors)
    ensures BoundariesFresh(cursors, start, 1)
    decreases |cursors| - start
  {
    if start + 1 < |cursors| {
      NothingRepeatsIsFresh(cursors, start + 1);
    }
  }

  /** On valid cases pages of one never end if and only if a cursor before the last repeats. */
  lemma PagesOfOneNeverEndExactly(judge: Judge, expectations: seq<Json>, events: seq<Json>)
    requires Join(expectations, events).Ok? && Whole(judge, expectations, events).Ok?
    ensures NeverEnds(judge, expectations, events, 1) <==>
      RepeatsBeforeTheEnd(Cursors(Join(expectations, events).value))
  {
    var cursors := Cursors(Join(expectations, events).value);
    hide Join, Whole, Paged, Follow;
    if RepeatsBeforeTheEnd(cursors) {
      var k :| 0 <= k < |cursors| - 1 && cursors[k] in cursors[..k];
      RepeatedCursorLoops(judge, expectations, events, k);
    } else {
      NothingRepeatsIsFresh(cursors, 0);
      CompleteWhenValid(judge, expectations, events, 1);
    }
  }

  lemma {:induction false} AcceptedThroughout(judge: Judge, pairs: seq<Pair>)
    requires forall i :: 0 <= i < |pairs| ==> judge(pairs[i]).Some?
    ensures JudgeAll(judge, pairs).Ok?
  {
    if pairs != [] {
      AcceptedThroughout(judge, pairs[..|pairs| - 1]);
    }
  }

  /**
   Such records exist for every judge that accepts some record for each cursor: their ids differ, and only a
   cursor before the last repeats.
   */
  lemma {:induction false} LoopingRecords(judge: Judge, cursors: seq<string>, wanted: Fields, given: Fields)
    requires RepeatsBeforeTheEnd(cursors) && forall i :: 0 <= i < |cursors| ==> cursors[i] != ""
    requires forall i :: 0 <= i < |cursors| ==>
      judge(Pair(RecordOf(i, cursors[i], wanted(i)), RecordOf(i, cursors[i], given(i)), cursors[i])).Some?
    ensures Whole(judge, RecordsOf(cursors, wanted), RecordsOf(cursors, given)).Ok?
    ensures NeverEnds(judge, RecordsOf(cursors, wanted), RecordsOf(cursors, given), 1)
  {
    hide *;
    AnyCursorsOccur(cursors, wanted, given);
    var expectations, events := RecordsOf(cursors, wanted), RecordsOf(cursors, given);
    var pairs := Join(expectations, events).value;
    assert |pairs| == |Cursors(pairs)| == |cursors|;
    forall i | 0 <= i < |pairs| ensures judge(pairs[i]).Some? {
    }
    AcceptedIsWhole(judge, expectations, events);
    PagesOfOneNeverEndExactly(judge, expectations, events);
  }

  lemma AcceptedIsWhole(judge: Judge, expectations: seq<Json>, events: seq<Json>)
    requires Join(expectations, events).Ok?
    requires var pairs := Join(expectations, events).value;
      forall i :: 0 <= i < |pairs| ==> judge(pairs[i]).Some?
    ensures Whole(judge, expectations, events).Ok?
  {
    var pairs := Join(expectations, events).value;
    AcceptedThroughout(judge, pairs);
    assert pairs[0..|pairs|] == pairs;
    hide Join, JudgeAll;
  }
}
