/** Following the replay's cursors from page to page (scripts/replay_routing.py). */
module ReplayPaging {
  import opened Common
  import opened Json
  import opened ReplayModel

  /** Cases and violations, or the error that kept them from being given. */
  type Judgement = Outcome<(seq<Json>, seq<Json>), Error>

  /** The replay with everything fixed but the cursor. */
  type Source = Option<string> -> Outcome<Report, Error>

  function Paged(judge: Judge, expectations: seq<Json>, events: seq<Json>, limit: int): Source {
    after => Replay(judge, expectations, events, after, Some(limit))
  }

  /** Two stretches one after the other. */
  function Both(a: Judgement, b: Judgement): Judgement {
    if a.Err? then a else if b.Err? then b else Ok((a.value.0 + b.value.0, a.value.1 + b.value.1))
  }

  function Collected(page: Outcome<Report, Error>): Judgement {
    if page.Err? then Err(page.error) else Ok((page.value.cases, page.value.violations))
  }

  /** What a reader collects who follows `next_cursor` while `has_more`, in at most `calls` calls. */
  function Follow(source: Source, after: Option<string>, calls: nat): Option<Judgement>
    decreases calls
  {
    if calls == 0 then None
    else
      var page := source(after);
      if page.Err? || !page.value.hasMore then Some(Collected(page))
      else
        var rest := Follow(source, page.value.nextCursor, calls - 1);
        if rest.None? then None else Some(Both(Collected(page), rest.value))
  }

  /** The replay without a limit. */
  function Whole(judge: Judge, expectations: seq<Json>, events: seq<Json>): Judgement {
    Collected(Replay(judge, expectations, events, None, None))
  }

  /** The cursor at the end of every page but the last does not occur earlier. */
  predicate BoundariesFresh(cursors: seq<string>, start: nat, limit: nat)
    requires limit >= 1 && start <= |cursors|
    decreases |cursors| - start
  {
    start + limit < |cursors| ==>
      cursors[start + limit - 1] !in cursors[..start + limit - 1] && BoundariesFresh(cursors, start + limit, limit)
  }

  ghost predicate Distinct(cursors: seq<string>) {
    forall i, j :: 0 <= i < j < |cursors| ==> cursors[i] != cursors[j]
  }

  lemma {:induction false} DistinctIsFresh(cursors: seq<string>, start: nat, limit: nat)
    requires limit >= 1 && start <= |cursors| && Distinct(cursors)
    ensures BoundariesFresh(cursors, start, limit)
    decreases |cursors| - start
  {
    if start + limit < |cursors| {
      DistinctIsFresh(cursors, start + limit, limit);
    }
  }

  // ---- Judging stretches of the pairs ----

  lemma {:induction false} JudgeInParts(judge: Judge, a: seq<Pair>, b: seq<Pair>)
    ensures JudgeAll(judge, a + b) == Both(JudgeAll(judge, a), JudgeAll(judge, b))
    decreases |b|
  {
    if b == [] {
      assert a + b == a;
      var ra := JudgeAll(judge, a);
      assert ra.Ok? ==> ra.value.0 + [] == ra.value.0 && ra.value.1 + [] == ra.value.1;
    } else {
      var n := |b| - 1;
      assert (a + b)[..|a + b| - 1] == a + b[..n];
      JudgeInParts(judge, a, b[..n]);
      var ra, rb, last := JudgeAll(judge, a), JudgeAll(judge, b[..n]), judge(b[n]);
      if ra.Ok? && rb.Ok? && last.Some? {
        Regroup(ra.value.0, rb.value.0, [last.value.outcome]);
        Regroup(ra.value.1, rb.value.1, last.value.violations);
      }
    }
  }

  /** Judged cases are the outcomes of the pairs, one each and in order. */
  lemma {:induction false} JudgedInOrder(judge: Judge, pairs: seq<Pair>)
    requires JudgeAll(judge, pairs).Ok?
    ensures |JudgeAll(judge, pairs).value.0| == |pairs|
    ensures forall i :: 0 <= i < |pairs| ==>
      judge(pairs[i]).Some? && JudgeAll(judge, pairs).value.0[i] == judge(pairs[i]).value.outcome
  {
    if pairs != [] {
      var n := |pairs| - 1;
      JudgedInOrder(judge, pairs[..n]);
      forall i | 0 <= i < |pairs|
        ensures judge(pairs[i]).Some? && JudgeAll(judge, pairs).value.0[i] == judge(pairs[i]).value.outcome
      {
        if i < n {
          assert pairs[..n][i] == pairs[i];
        }
      }
    }
  }

  /** What the pairs from one position to another come to. */
  type Stretch = (nat, nat) -> Judgement

  function StretchOf(judge: Judge, pairs: seq<Pair>): Stretch {
    (a: nat, b: nat) => if a <= b <= |pairs| then JudgeAll(judge, pairs[a..b]) else Err(InvalidCase)
  }

  /** Stretches can be put together, and have one case for each pair. */
  ghost predicate Additive(piece: Stretch, n: nat) {
    && (forall a: nat, b: nat, c: nat :: a <= b <= c <= n ==> piece(a, c) == Both(piece(a, b), piece(b, c)))
    && (forall a: nat, b: nat :: a <= b <= n && piece(a, b).Ok? ==> |piece(a, b).value.0| == b - a)
  }

  lemma StretchesAreAdditive(judge: Judge, pairs: seq<Pair>)
    ensures Additive(StretchOf(judge, pairs), |pairs|)
  {
    var piece := StretchOf(judge, pairs);
    forall a: nat, b: nat, c: nat | a <= b <= c <= |pairs| ensures piece(a, c) == Both(piece(a, b), piece(b, c)) {
      assert pairs[a..c] == pairs[a..b] + pairs[b..c];
      JudgeInParts(judge, pairs[a..b], pairs[b..c]);
    }
    forall a: nat, b: nat | a <= b <= |pairs| && piece(a, b).Ok? ensures |piece(a, b).value.0| == b - a {
      JudgedInOrder(judge, pairs[a..b]);
    }
  }

  // ---- Walking by positions ----

  function PageEnd(n: nat, start: nat, limit: nat): nat {
    if start + limit < n then start + limit else n
  }

  function StartAt(cursors: seq<string>, after: Option<string>): (start: nat)
    requires after.Some? ==> after.value in cursors
    ensures start <= |cursors|
  {
    if after.None? then 0 else FirstIndex(cursors, after.value) + 1
  }

  /** The page after a cursor is the stretch that begins behind the cursor's first occurrence. */
  ghost predicate ServesAt(source: Source, cursors: seq<string>, piece: Stretch, limit: nat, after: Option<string>)
    requires limit >= 1 && (after.Some? ==> after.value in cursors)
  {
    var start := StartAt(cursors, after);
    var end := PageEnd(|cursors|, start, limit);
    && Collected(source(after)) == piece(start, end)
    && (source(after).Ok? ==> source(after).value.hasMore == (end < |cursors|))
    && (source(after).Ok? && end < |cursors| ==> source(after).value.nextCursor == Some(cursors[end - 1]))
  }

  lemma {:induction false} PagesServe(judge: Judge, expectations: seq<Json>, events: seq<Json>, limit: nat,
                                      after: Option<string>)
    requires limit >= 1 && Join(expectations, events).Ok?
    requires after.Some? ==> after.value in Cursors(Join(expectations, events).value)
    ensures var pairs := Join(expectations, events).value;
      ServesAt(Paged(judge, expectations, events, limit), Cursors(pairs), StretchOf(judge, pairs), limit, after)
  {
    var pairs := Join(expectations, events).value;
    var start := StartAt(Cursors(pairs), after);
    var end := PageEnd(|pairs|, start, limit);
    PageAt(judge, pairs, after, start, end, limit);
    assert Paged(judge, expectations, events, limit)(after) == PageOf(judge, pairs, after, Some(limit));
  }

  lemma PageAt(judge: Judge, pairs: seq<Pair>, after: Option<string>, start: nat, end: nat, limit: nat)
    requires limit >= 1 && start <= end <= |pairs| && StartOf(pairs, after) == Ok(start) &&
      end == PageEnd(|pairs|, start, limit)
    ensures Collected(PageOf(judge, pairs, after, Some(limit))) == JudgeAll(judge, pairs[start..end])
    ensures PageOf(judge, pairs, after, Some(limit)).Ok? ==>
      var page := PageOf(judge, pairs, after, Some(limit)).value;
      page.hasMore == (end < |pairs|) && (end < |pairs| ==> page.nextCursor == Some(pairs[end - 1].cursor))
  {
    assert EndOf(pairs, start, Some(limit)) == end;
  }

  lemma FirstIndexOf(cursors: seq<string>, k: nat)
    requires k < |cursors|
    ensures FirstIndex(cursors, cursors[k]) <= k
    ensures cursors[k] !in cursors[..k] <==> FirstIndex(cursors, cursors[k]) == k
  {
    var f := FirstIndex(cursors, cursors[k]);
    if f < k {
      assert cursors[..k][f] == cursors[k];
    }
  }

  ghost predicate Serves(source: Source, cursors: seq<string>, piece: Stretch, limit: nat)
    requires limit >= 1
  {
    forall after: Option<string> {:trigger source(after)} :: (after.Some? ==> after.value in cursors) ==>
      ServesAt(source, cursors, piece, limit, after)
  }

  lemma ServesOne(source: Source, cursors: seq<string>, piece: Stretch, limit: nat, after: Option<string>)
    requires limit >= 1 && Serves(source, cursors, piece, limit) && (after.Some? ==> after.value in cursors)
    ensures ServesAt(source, cursors, piece, limit, after)
  {
    assert source(after) == source(after);
  }

  lemma PiecesJoin(piece: Stretch, n: nat, a: nat, b: nat, c: nat)
    requires Additive(piece, n) && a <= b <= c <= n
    ensures piece(a, c) == Both(piece(a, b), piece(b, c))
    ensures piece(a, b).Ok? ==> |piece(a, b).value.0| == b - a
  {
  }

  /** Where the first occurrence of the cursor just before `end` is, and one more. */
  function Behind(cursors: seq<string>, end: nat): (at: nat)
    requires 0 < end <= |cursors|
    ensures at <= end && (at == end <==> cursors[end - 1] !in cursors[..end - 1])
  {
    FirstIndexOf(cursors, end - 1);
    FirstIndex(cursors, cursors[end - 1]) + 1
  }

  /** What the calls collect, told by the positions where their pages begin. */
  function Walk(cursors: seq<string>, piece: Stretch, limit: nat, start: nat, calls: nat): Option<Judgement>
    requires limit >= 1 && start <= |cursors|
    decreases calls
  {
    if calls == 0 then None
    else
      var end := PageEnd(|cursors|, start, limit);
      if piece(start, end).Err? || end == |cursors| then Some(piece(start, end))
      else
        var rest := Walk(cursors, piece, limit, Behind(cursors, end), calls - 1);
        if rest.None? then None else Some(Both(piece(start, end), rest.value))
  }

  /** One call: it ends the reading, or gives the cursor with which the next page begins behind `end`. */
  lemma OnePage(source: Source, cursors: seq<string>, piece: Stretch, limit: nat, after: Option<string>)
    returns (start: nat, end: nat)
    requires limit >= 1 && (after.Some? ==> after.value in cursors) && ServesAt(source, cursors, piece, limit, after)
    ensures start == StartAt(cursors, after) <= |cursors| && end == PageEnd(|cursors|, start, limit)
    ensures Collected(source(after)) == piece(start, end)
    ensures source(after).Ok? ==> source(after).value.hasMore == (end < |cursors|)
    ensures source(after).Ok? && end < |cursors| ==>
      var next := source(after).value.nextCursor;
      next.Some? && next.value in cursors && StartAt(cursors, next) == Behind(cursors, end)
  {
    start := StartAt(cursors, after);
    end := PageEnd(|cursors|, start, limit);
  }

  lemma {:induction false} FollowIsWalk(source: Source, cursors: seq<string>, piece: Stretch, limit: nat,
                                        after: Option<string>, calls: nat)
    requires limit >= 1 && (after.Some? ==> after.value in cursors) && Serves(source, cursors, piece, limit)
    ensures Follow(source, after, calls) == Walk(cursors, piece, limit, StartAt(cursors, after), calls)
    decreases calls
  {
    if calls > 0 {
      ServesOne(source, cursors, piece, limit, after);
      hide Serves, ServesAt, StartAt, Behind, Both;
      var start, end := OnePage(source, cursors, piece, limit, after);
      if source(after).Ok? && end < |cursors| {
        FollowIsWalk(source, cursors, piece, limit, source(after).value.nextCursor, calls - 1);
      }
    }
  }

  lemma {:induction false} WalkFrom(cursors: seq<string>, piece: Stretch, limit: nat, start: nat, calls: nat)
    requires limit >= 1 && start <= |cursors| && Additive(piece, |cursors|)
    requires BoundariesFresh(cursors, start, limit) && calls + start > |cursors|
    ensures Walk(cursors, piece, limit, start, calls) == Some(piece(start, |cursors|))
    decreases calls
  {
    var end := PageEnd(|cursors|, start, limit);
    if end < |cursors| {
      hide Additive, Behind;
      WalkFrom(cursors, piece, limit, end, calls - 1);
      PiecesJoin(piece, |cursors|, start, end, |cursors|);
    }
  }

  /** From `start` on at least the remaining cases are collected, and more if a page ends on a repeated cursor. */
  lemma {:induction false} WalkCollects(cursors: seq<string>, piece: Stretch, limit: nat, start: nat, calls: nat)
    requires limit >= 1 && start <= |cursors| && Additive(piece, |cursors|)
    requires Walk(cursors, piece, limit, start, calls).Some? && Walk(cursors, piece, limit, start, calls).value.Ok?
    ensures |Walk(cursors, piece, limit, start, calls).value.value.0| >= |cursors| - start
    ensures !BoundariesFresh(cursors, start, limit) ==>
      |Walk(cursors, piece, limit, start, calls).value.value.0| > |cursors| - start
    decreases calls
  {
    var end := PageEnd(|cursors|, start, limit);
    PiecesJoin(piece, |cursors|, start, end, |cursors|);
    if end < |cursors| {
      hide Additive, Behind;
      WalkCollects(cursors, piece, limit, Behind(cursors, end), calls - 1);
    }
  }

  // ---- Theorems ----

  /** The paged replay and the replay without a limit, on joined records. */
  lemma Setting(judge: Judge, expectations: seq<Json>, events: seq<Json>, limit: nat)
    returns (cursors: seq<string>, piece: Stretch)
    requires limit >= 1 && Join(expectations, events).Ok?
    ensures cursors == Cursors(Join(expectations, events).value) &&
      piece == StretchOf(judge, Join(expectations, events).value)
    ensures Serves(Paged(judge, expectations, events, limit), cursors, piece, limit)
    ensures Additive(piece, |cursors|)
    ensures Whole(judge, expectations, events) == piece(0, |cursors|)
  {
    var pairs := Join(expectations, events).value;
    cursors, piece := Cursors(pairs), StretchOf(judge, pairs);
    StretchesAreAdditive(judge, pairs);
    forall after: Option<string> | after.Some? ==> after.value in cursors
      ensures ServesAt(Paged(judge, expectations, events, limit), cursors, piece, limit, after)
    {
      PagesServe(judge, expectations, events, limit, after);
    }
  }

  /**
   With pairwise distinct cursors and any limit of at least one, following the cursors ends and collects
   exactly what the replay without paging gives: the same cases and violations in the same order, or the same error.
   */
  lemma {:induction false} PagingIsComplete(judge: Judge, expectations: seq<Json>, events: seq<Json>, limit: nat,
                                            calls: nat)
    requires limit >= 1 && calls > |expectations|
    requires Join(expectations, events).Ok? ==> Distinct(Cursors(Join(expectations, events).value))
    ensures Follow(Paged(judge, expectations, events, limit), None, calls) == Some(Whole(judge, expectations, events))
  {
    var source := Paged(judge, expectations, events, limit);
    if Join(expectations, events).Ok? {
      var cursors, piece := Setting(judge, expectations, events, limit);
      DistinctIsFresh(cursors, 0, limit);
      FollowIsWalk(source, cursors, piece, limit, None, calls);
      WalkFrom(cursors, piece, limit, 0, calls);
    } else {
      assert source(None).Err?;
    }
  }
}
