/** Dependency ordering and routing of a batch (src/hermes_harness/control_plane/router.py). */
module RouterService {
  import opened Common
  import opened Contracts

  datatype RoutingDenied = DuplicateJobId | DependencyCycle | UnknownIntent

  datatype RouteConfig = RouteConfig(profile: Option<string>, directTool: Option<string>, confirmation: Option<string>)

  datatype RouteDecision = RouteDecision(
    envelope: Envelope, profile: Option<string>, directTool: Option<string>, confirmation: string)

  // ---- The dependency graph of a batch ----

  ghost predicate DistinctIds(batch: seq<Envelope>) {
    forall i, j :: 0 <= i < j < |batch| ==> batch[i].jobId != batch[j].jobId
  }

  /** `a` names the job of `b` among its dependencies, and both are in the batch. */
  ghost predicate DependsOn(batch: seq<Envelope>, a: Envelope, b: Envelope) {
    a in batch && b in batch && b.jobId in a.dependencies
  }

  ghost predicate WalkStep(batch: seq<Envelope>, path: seq<Envelope>, i: nat)
    requires 0 < i < |path|
  {
    DependsOn(batch, path[i - 1], path[i])
  }

  /** A walk along dependencies inside the batch. */
  ghost predicate Walk(batch: seq<Envelope>, path: seq<Envelope>) {
    forall i {:trigger WalkStep(batch, path, i)} :: 0 < i < |path| ==> WalkStep(batch, path, i)
  }

  /** A walk that comes back to where it started; a job that depends on itself is one. */
  ghost predicate Cycle(batch: seq<Envelope>, path: seq<Envelope>) {
    |path| > 1 && Walk(batch, path) && path[0] == path[|path| - 1]
  }

  ghost predicate HasCycle(batch: seq<Envelope>) {
    exists path :: Cycle(batch, path)
  }

  /** All in-batch dependencies of `item` are in `order`. */
  ghost predicate Satisfied(batch: seq<Envelope>, item: Envelope, order: seq<Envelope>) {
    forall b :: DependsOn(batch, item, b) ==> b in order
  }

  ghost predicate InPlace(batch: seq<Envelope>, order: seq<Envelope>, i: nat)
    requires i < |order|
  {
    Satisfied(batch, order[i], order[..i])
  }

  /** Every in-batch dependency of an item comes before it. */
  ghost predicate DependencyOrder(batch: seq<Envelope>, order: seq<Envelope>) {
    forall i {:trigger InPlace(batch, order, i)} :: 0 <= i < |order| ==> InPlace(batch, order, i)
  }

  // ---- Order excludes cycles ----

  /** Position in an order without repetitions. */
  ghost predicate NoRepeats(order: seq<Envelope>) {
    forall i, j :: 0 <= i < j < |order| ==> order[i] != order[j]
  }

  lemma {:induction false} WalksGoBack(batch: seq<Envelope>, order: seq<Envelope>, path: seq<Envelope>, i: nat)
      returns (j: nat)
    requires DependencyOrder(batch, order)
    requires Walk(batch, path) && |path| > 0 && i < |order| && order[i] == path[0]
    ensures j <= i && order[j] == path[|path| - 1]
    ensures |path| > 1 ==> j < i
    decreases |path|
  {
    if |path| == 1 {
      j := i;
    } else {
      assert WalkStep(batch, path, 1) && InPlace(batch, order, i);
      var k :| 0 <= k < i && order[k] == path[1];
      var rest := path[1..];
      forall m | 0 < m < |rest| ensures WalkStep(batch, rest, m) {
        assert WalkStep(batch, path, m + 1);
      }
      j := WalksGoBack(batch, order, rest, k);
    }
  }

  /** A batch that has a dependency order has no cycle. */
  lemma OrderExcludesCycles(batch: seq<Envelope>, order: seq<Envelope>)
    requires NoRepeats(order) && DependencyOrder(batch, order)
    requires forall e :: e in batch ==> e in order
    ensures !HasCycle(batch)
  {
    if HasCycle(batch) {
      var path :| Cycle(batch, path);
      assert WalkStep(batch, path, 1);
      var i :| 0 <= i < |order| && order[i] == path[0];
      var j := WalksGoBack(batch, order, path, i);
      assert false;
    }
  }

  // ---- Reachability ----

  ghost predicate WalkFromTo(batch: seq<Envelope>, a: Envelope, b: Envelope, path: seq<Envelope>) {
    |path| > 0 && Walk(batch, path) && path[0] == a && path[|path| - 1] == b
  }

  /** `b` is `a` or one of its transitive in-batch dependencies. */
  ghost predicate Reaches(batch: seq<Envelope>, a: Envelope, b: Envelope) {
    exists path :: WalkFromTo(batch, a, b, path)
  }

  lemma ReachesItself(batch: seq<Envelope>, a: Envelope)
    ensures Reaches(batch, a, a)
  {
    assert WalkFromTo(batch, a, a, [a]);
  }

  lemma WalkOn(batch: seq<Envelope>, path: seq<Envelope>, next: Envelope)
    requires Walk(batch, path) && (|path| > 0 ==> DependsOn(batch, path[|path| - 1], next))
    ensures Walk(batch, path + [next])
  {
    var longer := path + [next];
    forall i | 0 < i < |longer| ensures WalkStep(batch, longer, i) {
      assert i < |path| ==> WalkStep(batch, path, i);
    }
  }

  lemma ReachesFurther(batch: seq<Envelope>, a: Envelope, b: Envelope, c: Envelope)
    requires DependsOn(batch, a, b) && Reaches(batch, b, c)
    ensures Reaches(batch, a, c)
  {
    var path :| WalkFromTo(batch, b, c, path);
    var longer := [a] + path;
    forall i | 0 < i < |longer| ensures WalkStep(batch, longer, i) {
      assert i > 1 ==> WalkStep(batch, path, i - 1);
    }
    assert WalkFromTo(batch, a, c, longer);
  }

  ghost predicate ReachedFrom(batch: seq<Envelope>, m: nat, e: Envelope)
    requires m <= |batch|
  {
    exists k :: 0 <= k < m && Reaches(batch, batch[k], e)
  }

  /** `part` holds exactly the first `m` items of the batch and what they transitively depend on. */
  ghost predicate Closure(batch: seq<Envelope>, m: nat, part: seq<Envelope>)
    requires m <= |batch|
  {
    forall e :: e in part <==> ReachedFrom(batch, m, e)
  }

  ghost predicate HasClosurePrefix(batch: seq<Envelope>, m: nat, order: seq<Envelope>)
    requires m <= |batch|
  {
    exists n :: 0 <= n <= |order| && Closure(batch, m, order[..n])
  }

  /** Nothing is pulled forward without need: some prefix of the order is the closure of each prefix of the batch. */
  ghost predicate LazyOrder(batch: seq<Envelope>, order: seq<Envelope>) {
    forall m :: 0 <= m <= |batch| ==> HasClosurePrefix(batch, m, order)
  }

  // ---- Depth-first traversal ----

  ghost predicate Indexed(batch: seq<Envelope>, byId: map<Uuid, Envelope>) {
    && (forall e :: e in batch ==> e.jobId in byId && byId[e.jobId] == e)
    && (forall id :: id in byId ==> byId[id].jobId == id && byId[id] in batch)
  }

  /** `ids` are the ids of `items`. */
  ghost predicate IdsOf(byId: map<Uuid, Envelope>, items: seq<Envelope>, ids: set<Uuid>) {
    forall id :: id in ids <==> id in byId && byId[id] in items
  }

  ghost predicate OrderOk(batch: seq<Envelope>, ordered: seq<Envelope>) {
    (forall e :: e in ordered ==> e in batch) && NoRepeats(ordered) && DependencyOrder(batch, ordered)
  }

  /** The items being visited, outermost first, walk along dependencies. */
  ghost predicate StackOk(batch: seq<Envelope>, stack: seq<Envelope>) {
    Walk(batch, stack) && forall e :: e in stack ==> e in batch
  }

  /** What a completed visit of `item` makes of the order it found. */
  ghost predicate Visited(batch: seq<Envelope>, item: Envelope, before: seq<Envelope>, after: seq<Envelope>) {
    && before <= after
    && item in after
    && AllReached(batch, item, after[|before|..])
    && (item in before ==> after == before)
    && (Satisfied(batch, item, before) && item !in before ==> after == before + [item])
  }

  ghost predicate AllReached(batch: seq<Envelope>, item: Envelope, part: seq<Envelope>) {
    forall e :: e in part ==> Reaches(batch, item, e)
  }

  lemma StackMeetsItself(batch: seq<Envelope>, stack: seq<Envelope>, item: Envelope)
    requires StackOk(batch, stack) && item in stack
    requires DependsOn(batch, stack[|stack| - 1], item)
    ensures HasCycle(batch)
  {
    var i :| 0 <= i < |stack| && stack[i] == item;
    var tail := stack[i..];
    forall k | 0 < k < |tail| ensures WalkStep(batch, tail, k) {
      assert WalkStep(batch, stack, i + k);
    }
    WalkOn(batch, tail, item);
    assert Cycle(batch, tail + [item]);
  }

  lemma PushId(batch: seq<Envelope>, byId: map<Uuid, Envelope>, items: seq<Envelope>, ids: set<Uuid>, item: Envelope)
    requires Indexed(batch, byId) && IdsOf(byId, items, ids) && item in batch
    ensures IdsOf(byId, items + [item], ids + {item.jobId})
  {
  }

  lemma PopId(batch: seq<Envelope>, byId: map<Uuid, Envelope>, items: seq<Envelope>, ids: set<Uuid>, item: Envelope)
    requires Indexed(batch, byId) && IdsOf(byId, items + [item], ids) && item !in items && item in batch
    ensures IdsOf(byId, items, ids - {item.jobId})
  {
  }

  lemma AppendSatisfied(batch: seq<Envelope>, ordered: seq<Envelope>, item: Envelope)
    requires OrderOk(batch, ordered) && item in batch && item !in ordered && Satisfied(batch, item, ordered)
    ensures OrderOk(batch, ordered + [item])
  {
    var longer := ordered + [item];
    forall i | 0 <= i < |longer| ensures InPlace(batch, longer, i) {
      assert longer[..i] == if i < |ordered| then ordered[..i] else ordered;
      assert i < |ordered| ==> InPlace(batch, ordered, i);
    }
  }

  lemma ReachedAlong(batch: seq<Envelope>, item: Envelope, next: Envelope, start: seq<Envelope>, before: seq<Envelope>,
                     after: seq<Envelope>)
    requires DependsOn(batch, item, next) && start <= before <= after
    requires AllReached(batch, item, before[|start|..]) && AllReached(batch, next, after[|before|..])
    ensures AllReached(batch, item, after[|start|..])
  {
    forall e | e in after[|start|..] ensures Reaches(batch, item, e) {
      if e in after[|before|..] {
        ReachesFurther(batch, item, next, e);
      } else {
        assert e in before[|start|..];
      }
    }
  }

  lemma LastReached(batch: seq<Envelope>, item: Envelope, start: seq<Envelope>, before: seq<Envelope>)
    requires start <= before && AllReached(batch, item, before[|start|..])
    ensures AllReached(batch, item, (before + [item])[|start|..])
  {
    ReachesItself(batch, item);
    assert (before + [item])[|start|..] == before[|start|..] + [item];
  }

  /** The variables that the nested `visit` shares with `route_many`. */
  class Traversal {
    const byId: map<Uuid, Envelope>
    var visiting: set<Uuid>
    var visited: set<Uuid>
    var ordered: seq<Envelope>

    constructor (byId: map<Uuid, Envelope>)
      ensures this.byId == byId && visiting == {} && visited == {} && ordered == []
    {
      this.byId := byId;
      visiting, visited, ordered := {}, {}, [];
    }

    ghost predicate Valid(batch: seq<Envelope>, stack: seq<Envelope>)
      reads this
    {
      && Indexed(batch, byId)
      && OrderOk(batch, ordered) && IdsOf(byId, ordered, visited)
      && StackOk(batch, stack) && IdsOf(byId, stack, visiting)
      && visiting !! visited
    }

    /** In the middle of a visit of `item`, after its first `i` dependencies. */
    ghost predicate Midway(batch: seq<Envelope>, stack: seq<Envelope>, item: Envelope, start: seq<Envelope>, i: nat)
      requires i <= |item.dependencies|
      reads this
    {
      && Valid(batch, stack + [item]) && item.jobId in visiting
      && start <= ordered && AllReached(batch, item, ordered[|start|..])
      && (forall k :: 0 <= k < i && item.dependencies[k] in byId ==> byId[item.dependencies[k]] in ordered)
      && (Satisfied(batch, item, start) ==> ordered == start)
    }

    method Enter(item: Envelope, ghost batch: seq<Envelope>, ghost stack: seq<Envelope>)
      requires Valid(batch, stack) && item in batch && item.jobId !in visiting && item.jobId !in visited
      requires |stack| > 0 ==> DependsOn(batch, stack[|stack| - 1], item)
      modifies this`visiting
      ensures visiting == old(visiting) + {item.jobId} && Midway(batch, stack, item, ordered, 0)
      ensures byId.Keys - visiting < byId.Keys - old(visiting)
    {
      WalkOn(batch, stack, item);
      PushId(batch, byId, stack, visiting, item);
      visiting := visiting + {item.jobId};
      assert item.jobId in byId.Keys - old(visiting);
    }

    method Leave(item: Envelope, ghost batch: seq<Envelope>, ghost stack: seq<Envelope>, ghost start: seq<Envelope>)
      requires item in batch && item !in stack && StackOk(batch, stack)
      requires Midway(batch, stack, item, start, |item.dependencies|)
      modifies this
      ensures Valid(batch, stack) && visiting == old(visiting) - {item.jobId}
      ensures Visited(batch, item, start, ordered)
    {
      assert item !in ordered;
      AppendSatisfied(batch, ordered, item);
      PopId(batch, byId, stack, visiting, item);
      PushId(batch, byId, ordered, visited, item);
      LastReached(batch, item, start, ordered);
      visiting := visiting - {item.jobId};
      visited := visited + {item.jobId};
      ordered := ordered + [item];
    }

    lemma OneMoreDependency(batch: seq<Envelope>, stack: seq<Envelope>, item: Envelope, start: seq<Envelope>,
                            before: seq<Envelope>, i: nat)
      requires i < |item.dependencies| && item.dependencies[i] in byId && item in batch
      requires Valid(batch, stack + [item]) && item.jobId in visiting
      requires start <= before && AllReached(batch, item, before[|start|..])
      requires forall k :: 0 <= k < i && item.dependencies[k] in byId ==> byId[item.dependencies[k]] in before
      requires Satisfied(batch, item, start) ==> before == start
      requires Visited(batch, byId[item.dependencies[i]], before, ordered)
      ensures Midway(batch, stack, item, start, i + 1)
    {
      var next := byId[item.dependencies[i]];
      assert DependsOn(batch, item, next);
      ReachedAlong(batch, item, next, start, before, ordered);
    }

    /** The nested function `visit`; false stands for the raised "dependency cycle detected". */
    method Visit(item: Envelope, ghost batch: seq<Envelope>, ghost stack: seq<Envelope>) returns (ok: bool)
      requires Valid(batch, stack) && item in batch
      requires |stack| > 0 ==> DependsOn(batch, stack[|stack| - 1], item)
      modifies this
      ensures ok ==> Valid(batch, stack) && visiting == old(visiting) && Visited(batch, item, old(ordered), ordered)
      ensures !ok ==> HasCycle(batch)
      decreases |byId.Keys - visiting|, 0
    {
      if item.jobId in visiting {
        StackMeetsItself(batch, stack, item);
        return false;
      }
      if item.jobId in visited {
        return true;
      }
      ghost var start := ordered;
      Enter(item, batch, stack);
      ok := VisitDependencies(item, batch, stack, start);
      if ok {
        Leave(item, batch, stack, start);
      }
    }

    /** The loop of `visit` over the dependencies of an item. */
    method VisitDependencies(item: Envelope, ghost batch: seq<Envelope>, ghost stack: seq<Envelope>,
                             ghost start: seq<Envelope>)
        returns (ok: bool)
      requires Midway(batch, stack, item, start, 0) && item in batch
      modifies this
      ensures ok ==> Midway(batch, stack, item, start, |item.dependencies|) && visiting == old(visiting)
      ensures !ok ==> HasCycle(batch)
      decreases |byId.Keys - visiting|, 1
    {
      for i := 0 to |item.dependencies|
        invariant Midway(batch, stack, item, start, i) && visiting == old(visiting)
      {
        var dependency := item.dependencies[i];
        if dependency in byId {
          ghost var before := ordered;
          assert DependsOn(batch, item, byId[dependency]);
          ok := Visit(byId[dependency], batch, stack + [item]);
          if !ok {
            return false;
          }
          OneMoreDependency(batch, stack, item, start, before, i);
        }
      }
      return true;
    }
  }

  // ---- The batch ----

  /** Items of a dependency-ordered list with everything reachable from them inside: reaching goes backwards. */
  lemma PrefixIsClosed(batch: seq<Envelope>, ordered: seq<Envelope>, a: Envelope, b: Envelope)
    requires DependencyOrder(batch, ordered) && a in ordered && Reaches(batch, a, b)
    ensures b in ordered
  {
    var path :| WalkFromTo(batch, a, b, path);
    var i :| 0 <= i < |ordered| && ordered[i] == a;
    var j := WalksGoBack(batch, ordered, path, i);
  }

  lemma ClosureGrows(batch: seq<Envelope>, m: nat, before: seq<Envelope>, after: seq<Envelope>)
    requires m < |batch| && Closure(batch, m, before) && DependencyOrder(batch, after)
    requires Visited(batch, batch[m], before, after)
    ensures Closure(batch, m + 1, after)
  {
    forall e | e in after ensures ReachedFrom(batch, m + 1, e) {
      if e in before {
        assert ReachedFrom(batch, m, e);
      } else {
        assert e in after[|before|..];
      }
    }
    forall e | ReachedFrom(batch, m + 1, e) ensures e in after {
      var k :| 0 <= k < m + 1 && Reaches(batch, batch[k], e);
      if k == m {
        PrefixIsClosed(batch, after, batch[m], e);
      } else {
        assert ReachedFrom(batch, m, e);
      }
    }
  }

  lemma LongerKeepsPrefix(batch: seq<Envelope>, m: nat, before: seq<Envelope>, after: seq<Envelope>)
    requires m <= |batch| && before <= after && HasClosurePrefix(batch, m, before)
    ensures HasClosurePrefix(batch, m, after)
  {
    var n :| 0 <= n <= |before| && Closure(batch, m, before[..n]);
    assert after[..n] == before[..n];
  }

  lemma {:induction false} SameElementsSamePermutation(a: seq<Envelope>, b: seq<Envelope>)
    requires NoRepeats(a) && NoRepeats(b) && forall e :: e in a <==> e in b
    ensures multiset(a) == multiset(b)
  {
    forall e ensures multiset(a)[e] == multiset(b)[e] {
      OccursOnce(a, e);
      OccursOnce(b, e);
    }
  }

  lemma {:induction false} OccursOnce(s: seq<Envelope>, e: Envelope)
    requires NoRepeats(s)
    ensures multiset(s)[e] == if e in s then 1 else 0
  {
    if s != [] {
      OccursOnce(s[1..], e);
      assert s == [s[0]] + s[1..];
    }
  }

  /** What `route_many` makes of a batch before it routes the items. */
  ghost predicate Orders(batch: seq<Envelope>, order: seq<Envelope>) {
    && multiset(order) == multiset(batch)
    && DependencyOrder(batch, order)
    && LazyOrder(batch, order)
    && (DependencyOrder(batch, batch) ==> order == batch)
  }

  function Ids(items: seq<Envelope>): set<Uuid> {
    if items == [] then {} else Ids(items[..|items| - 1]) + {items[|items| - 1].jobId}
  }

  lemma IdsContain(items: seq<Envelope>, id: Uuid)
    ensures id in Ids(items) <==> exists k :: 0 <= k < |items| && items[k].jobId == id
  {
    if items != [] {
      var init := items[..|items| - 1];
      IdsContain(init, id);
      assert forall k :: 0 <= k < |init| ==> init[k] == items[k];
    }
  }

  lemma DistinctIdsGrow(items: seq<Envelope>)
    requires items != []
    ensures var init, last := items[..|items| - 1], items[|items| - 1].jobId;
      DistinctIds(items) <==> DistinctIds(init) && last !in Ids(init)
  {
    var n := |items| - 1;
    var init := items[..n];
    IdsContain(init, items[n].jobId);
    if DistinctIds(items) {
      assert forall k :: 0 <= k < n ==> init[k] == items[k] && items[k].jobId != items[n].jobId;
    } else {
      var i, j :| 0 <= i < j < |items| && items[i].jobId == items[j].jobId;
      assert init[i] == items[i];
      assert j < n ==> init[j] == items[j];
    }
  }

  /** A dictionary keyed by id is as large as the batch exactly if no id repeats. */
  lemma {:induction false} IdsCountDistinct(items: seq<Envelope>)
    ensures |Ids(items)| <= |items|
    ensures |Ids(items)| == |items| <==> DistinctIds(items)
  {
    if items != [] {
      var init := items[..|items| - 1];
      IdsCountDistinct(init);
      DistinctIdsGrow(items);
      if items[|items| - 1].jobId in Ids(init) {
        assert Ids(items) == Ids(init);
      }
    }
  }

  lemma DistinctIdsAreIndexed(batch: seq<Envelope>, byId: map<Uuid, Envelope>)
    requires DistinctIds(batch) && byId.Keys == Ids(batch)
    requires forall id :: id in byId ==> byId[id].jobId == id && byId[id] in batch
    ensures Indexed(batch, byId)
  {
    forall e | e in batch ensures e.jobId in byId && byId[e.jobId] == e {
      var a :| 0 <= a < |batch| && batch[a] == e;
      IdsContain(batch, e.jobId);
      var b :| 0 <= b < |batch| && batch[b] == byId[e.jobId];
      SameIdSamePlace(batch, a, b);
    }
  }

  lemma SameIdSamePlace(batch: seq<Envelope>, a: nat, b: nat)
    requires DistinctIds(batch) && a < |batch| && b < |batch| && batch[a].jobId == batch[b].jobId
    ensures a == b
  {
  }

  method IndexById(batch: seq<Envelope>) returns (byId: map<Uuid, Envelope>)
    ensures |byId| == |batch| <==> DistinctIds(batch)
    ensures DistinctIds(batch) ==> Indexed(batch, byId)
  {
    byId := map[];
    for i := 0 to |batch|
      invariant byId.Keys == Ids(batch[..i])
      invariant forall id :: id in byId ==> byId[id].jobId == id && byId[id] in batch
    {
      assert batch[..i + 1][..i] == batch[..i];
      byId := byId[batch[i].jobId := batch[i]];
    }
    assert batch[..|batch|] == batch;
    IdsCountDistinct(batch);
    assert |byId| == |byId.Keys|;
    if DistinctIds(batch) {
      DistinctIdsAreIndexed(batch, byId);
    }
  }

  /** In a batch already in dependency order the next item only waits for items that are out. */
  lemma NextIsSatisfied(batch: seq<Envelope>, i: nat)
    requires i < |batch| && DependencyOrder(batch, batch) && DistinctIds(batch)
    ensures Satisfied(batch, batch[i], batch[..i]) && batch[i] !in batch[..i]
  {
    assert InPlace(batch, batch, i);
  }

  lemma OrderIsComplete(batch: seq<Envelope>, order: seq<Envelope>)
    requires DistinctIds(batch) && OrderOk(batch, order)
    requires forall k :: 0 <= k < |batch| ==> batch[k] in order
    ensures multiset(order) == multiset(batch) && !HasCycle(batch)
  {
    SameElementsSamePermutation(order, batch);
    OrderExcludesCycles(batch, order);
  }

  /** The order after the first `i` items of the batch were visited. */
  ghost predicate Processed(batch: seq<Envelope>, i: nat, order: seq<Envelope>) {
    && i <= |batch|
    && (forall m :: 0 <= m <= i ==> HasClosurePrefix(batch, m, order))
    && Closure(batch, i, order)
    && (DependencyOrder(batch, batch) ==> order == batch[..i])
  }

  lemma NothingProcessed(batch: seq<Envelope>)
    ensures Processed(batch, 0, [])
  {
    var none: seq<Envelope> := [];
    assert none[..0] == none;
    assert Closure(batch, 0, none);
  }

  lemma ClosurePrefixesGrow(batch: seq<Envelope>, i: nat, before: seq<Envelope>, after: seq<Envelope>)
    requires i < |batch| && before <= after && Closure(batch, i + 1, after)
    requires forall m :: 0 <= m <= i ==> HasClosurePrefix(batch, m, before)
    ensures forall m :: 0 <= m <= i + 1 ==> HasClosurePrefix(batch, m, after)
  {
    assert after[..|after|] == after;
    forall m | 0 <= m <= i + 1 ensures HasClosurePrefix(batch, m, after) {
      if m <= i {
        LongerKeepsPrefix(batch, m, before, after);
      }
    }
  }

  lemma OrderedBatchIsKept(batch: seq<Envelope>, i: nat, before: seq<Envelope>, after: seq<Envelope>)
    requires i < |batch| && DistinctIds(batch) && DependencyOrder(batch, batch)
    requires before == batch[..i] && Visited(batch, batch[i], before, after)
    ensures after == batch[..i + 1]
  {
    NextIsSatisfied(batch, i);
    assert batch[..i + 1] == batch[..i] + [batch[i]];
  }

  lemma VisitExtends(batch: seq<Envelope>, i: nat, before: seq<Envelope>, after: seq<Envelope>)
    requires i < |batch| && DistinctIds(batch) && Processed(batch, i, before) && DependencyOrder(batch, after)
    requires Visited(batch, batch[i], before, after)
    ensures Processed(batch, i + 1, after)
  {
    ClosureGrows(batch, i, before, after);
    ClosurePrefixesGrow(batch, i, before, after);
    if DependencyOrder(batch, batch) {
      OrderedBatchIsKept(batch, i, before, after);
    }
  }

  lemma AllAreReached(batch: seq<Envelope>, order: seq<Envelope>)
    requires Processed(batch, |batch|, order)
    ensures forall k :: 0 <= k < |batch| ==> batch[k] in order
  {
    forall k | 0 <= k < |batch| ensures batch[k] in order {
      ReachesItself(batch, batch[k]);
      assert ReachedFrom(batch, |batch|, batch[k]);
    }
  }

  lemma AllProcessed(batch: seq<Envelope>, order: seq<Envelope>)
    requires DistinctIds(batch) && OrderOk(batch, order) && Processed(batch, |batch|, order)
    ensures Orders(batch, order) && !HasCycle(batch)
  {
    AllAreReached(batch, order);
    OrderIsComplete(batch, order);
    hide HasCycle, Closure, HasClosurePrefix, DistinctIds;
    assert batch[..|batch|] == batch;
  }

  /** The first part of `route_many`: the order in which the batch is routed. */
  method OrderBatch(batch: seq<Envelope>) returns (r: Outcome<seq<Envelope>, RoutingDenied>)
    ensures r == Err(DuplicateJobId) <==> !DistinctIds(batch)
    ensures DistinctIds(batch) ==> (r == Err(DependencyCycle) <==> HasCycle(batch))
    ensures r.Err? ==> r.error != UnknownIntent
    ensures r.Ok? ==> Orders(batch, r.value)
  {
    var byId := IndexById(batch);
    if |byId| != |batch| {
      return Err(DuplicateJobId);
    }
    var t := new Traversal(byId);
    NothingProcessed(batch);
    for i := 0 to |batch|
      invariant t.Valid(batch, []) && Processed(batch, i, t.ordered)
    {
      ghost var before := t.ordered;
      var ok := t.Visit(batch[i], batch, []);
      if !ok {
        return Err(DependencyCycle);
      }
      VisitExtends(batch, i, before, t.ordered);
    }
    AllProcessed(batch, t.ordered);
    return Ok(t.ordered);
  }

  /** The output of the ordering is itself a batch in dependency order, so ordering it again changes nothing. */
  lemma OrderedOutputIsOrdered(batch: seq<Envelope>, order: seq<Envelope>)
    requires DistinctIds(batch) && Orders(batch, order)
    ensures DependencyOrder(order, order)
    ensures forall again :: Orders(order, again) ==> again == order
  {
    SameMembers(order, batch);
    forall i | 0 <= i < |order| ensures InPlace(order, order, i) {
      assert InPlace(batch, order, i);
      forall b | DependsOn(order, order[i], b) ensures b in order[..i] {
        assert DependsOn(batch, order[i], b);
      }
    }
  }

  lemma SameMembers(a: seq<Envelope>, b: seq<Envelope>)
    requires multiset(a) == multiset(b)
    ensures forall e :: e in a <==> e in b
  {
    assert forall e :: e in a <==> e in multiset(a);
    assert forall e :: e in b <==> e in multiset(b);
  }

  class Router {
    const routes: map<Intent, RouteConfig>

    constructor (routes: map<Intent, RouteConfig>)
      ensures this.routes == routes
    {
      this.routes := routes;
    }

    /** The decision carries the destination and the confirmation that are configured for the intent. */
    ghost predicate Decided(envelope: Envelope, d: RouteDecision) {
      && d.envelope == envelope && envelope.intent in routes
      && d.profile == routes[envelope.intent].profile && d.directTool == routes[envelope.intent].directTool
      && (forall text :: routes[envelope.intent].confirmation == Some(text) ==> d.confirmation == text)
      && (d.confirmation == "none" <==> routes[envelope.intent].confirmation in {None, Some("none")})
    }

    method Route(envelope: Envelope) returns (r: Outcome<RouteDecision, RoutingDenied>)
      ensures r == Err(UnknownIntent) <==> envelope.intent !in routes
      ensures r.Err? ==> r.error == UnknownIntent
      ensures r.Ok? ==> Decided(envelope, r.value)
    {
      if envelope.intent !in routes {
        return Err(UnknownIntent);
      }
      var config := routes[envelope.intent];
      var confirmation := if config.confirmation.Some? then config.confirmation.value else "none";
      return Ok(RouteDecision(envelope, config.profile, config.directTool, confirmation));
    }

    /** Routes a batch in dependency order, each item as configured for its intent, or refuses all of it. */
    method RouteMany(batch: seq<Envelope>) returns (r: Outcome<seq<RouteDecision>, RoutingDenied>)
      ensures r == Err(DuplicateJobId) <==> !DistinctIds(batch)
      ensures DistinctIds(batch) ==> (r == Err(DependencyCycle) <==> HasCycle(batch))
      ensures r == Err(UnknownIntent) <==>
        DistinctIds(batch) && !HasCycle(batch) && exists e :: e in batch && e.intent !in routes
      ensures r.Ok? ==> exists order ::
        && Orders(batch, order) && |r.value| == |order|
        && forall i :: 0 <= i < |order| ==> Decided(order[i], r.value[i])
    {
      var ordering := OrderBatch(batch);
      if ordering.Err? {
        return Err(ordering.error);
      }
      var order := ordering.value;
      SameMembers(order, batch);
      var result: seq<RouteDecision> := [];
      for i := 0 to |order|
        invariant |result| == i
        invariant forall k :: 0 <= k < i ==> Decided(order[k], result[k])
      {
        var one := Route(order[i]);
        if one.Err? {
          assert order[i] in batch;
          return Err(one.error);
        }
        result := result + [one.value];
      }
      return Ok(result);
    }
  }
}
