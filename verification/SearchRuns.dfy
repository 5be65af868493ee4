/**
 * What every run of the search does, for any costs at all and whatever it chooses among least entries
 * and orders of neighbours. This is where negative costs show.
 */
module SearchRuns {
  import opened MeshTypes
  import opened Walks
  import opened SearchQueue
  import opened ReadBack
  import opened ShortestPath

  lemma {:induction false} RelaxAllKeepsQueue(w: Weights, start: PeerId, target: PeerId, s: Search,
                                              node: PeerId, cost: real, order: seq<PeerId>)
    requires QueueOk(w, start, target, s, node, cost, set x | x in order) && node in s.dist
    requires forall v | v in order :: Edge(w, node, v)
    requires NoRepeats(order)
    ensures QueueOk(w, start, target, RelaxAll(w, s, node, cost, order), node, cost, {})
    decreases |order|
  {
    if order == [] {
      assert (set x | x in order) == {};
    } else {
      var v, rest := order[0], order[1..];
      RelaxLinkKeepsQueue(w, start, target, s, node, cost, v, set x | x in order);
      assert (set x | x in order) - {v} == set x | x in rest by {
        assert forall x :: x in order <==> x == v || x in rest;
        assert v !in rest;
      }
      RelaxAllKeepsQueue(w, start, target, RelaxLink(w, s, node, cost, v), node, cost, rest);
    }
  }

  lemma TurnKeepsQueue(w: Weights, start: PeerId, target: PeerId, s: Search, cur: PeerId, cost: real,
                       top: SearchState, order: seq<PeerId>, s': Search)
    returns (cur': PeerId, cost': real)
    requires QueueOk(w, start, target, s, cur, cost, {}) && Turn(w, target, s, top, order, s')
    ensures QueueOk(w, start, target, s', cur', cost', {})
  {
    assert s.heap[top] > 0;
    if top.cost > s.dist[top.node] {
      SkipKeepsQueue(w, start, target, s, top, cur, cost);
      cur', cost' := cur, cost;
    } else {
      PopKeepsQueue(w, start, target, s, top, cur, cost, set x | x in order);
      RelaxAllKeepsQueue(w, start, target, Popped(s, top), top.node, top.cost, order);
      cur', cost' := top.node, top.cost;
    }
  }

  lemma CanTurnKeepsQueue(w: Weights, start: PeerId, target: PeerId, s: Search, cur: PeerId, cost: real, s': Search)
    returns (cur': PeerId, cost': real)
    requires QueueOk(w, start, target, s, cur, cost, {}) && CanTurn(w, target, s, s')
    ensures QueueOk(w, start, target, s', cur', cost', {})
  {
    var top, order :| Turn(w, target, s, top, order, s');
    cur', cost' := TurnKeepsQueue(w, start, target, s, cur, cost, top, order, s');
  }

  lemma {:induction false} RunKeepsQueue(w: Weights, start: PeerId, target: PeerId, run: seq<Search>)
    returns (cur: PeerId, cost: real)
    requires IsRun(w, start, target, run)
    ensures QueueOk(w, start, target, run[|run| - 1], cur, cost, {})
    decreases |run|
  {
    if |run| == 1 {
      BeginQueue(w, start, target);
      cur, cost := start, 0.0;
    } else {
      cur, cost := RunKeepsQueue(w, start, target, run[..|run| - 1]);
      cur, cost := CanTurnKeepsQueue(w, start, target, run[|run| - 2], cur, cost, run[|run| - 1]);
    }
  }

  /** The heap is never exhausted while a negative cycle can be reached, whatever the schedule. */
  lemma NegativeCycleNeverExhausts(w: Weights, start: PeerId, target: PeerId, run: seq<Search>)
    requires IsRun(w, start, target, run) && !NoNegativeCycle(w, start)
    ensures run[|run| - 1].heap != multiset{}
  {
    var cur, cost := RunKeepsQueue(w, start, target, run);
    if run[|run| - 1].heap == multiset{} {
      ExhaustedMeansNoNegativeCycle(w, start, target, run[|run| - 1], cur, cost);
    }
  }

  /** A search whose heap is not empty, with something other than the target to pop, can take another turn. */
  lemma TurnExists(w: Weights, start: PeerId, target: PeerId, s: Search, cur: PeerId, cost: real) returns (s': Search)
    requires QueueOk(w, start, target, s, cur, cost, {}) && s.heap != multiset{}
    requires forall top | IsLeast(top, s.heap) :: top.node != target
    ensures CanTurn(w, target, s, s')
  {
    LeastExists(s.heap);
    var top :| IsLeast(top, s.heap);
    assert s.heap[top] > 0;
    assert top.node in s.dist;
    var order := OrderExists(if top.node in w then w[top.node].Keys else {});
    s' := if top.cost > s.dist[top.node] then Popped(s, top)
          else RelaxAll(w, Popped(s, top), top.node, top.cost, order);
    assert Turn(w, target, s, top, order, s');
  }

  // ----- A negative round keeps the heap below its peak

  /** `q` starts a search off within `b`, and ends by going round a negative cycle. */
  ghost predicate RoundBelow(w: Weights, start: PeerId, q: seq<PeerId>, i: nat, b: real) {
    PeakWithin(w, q, Some(b)) && q[0] == start && NegativeRound(w, q, i)
  }

  lemma NotOpenBelow(s: Search, y: PeerId, least: real)
    requires y in s.dist && s.dist[y] < least && forall e | e in s.heap :: least <= e.cost
    ensures !Open(s, y)
  {
  }

  /** If everything in the heap were above `b`, the distances would hold along every walk within `b`. */
  lemma {:induction false} HighHeapBoundsWalks(w: Weights, start: PeerId, target: PeerId, s: Search,
                                               cur: PeerId, cost: real, least: real, q: seq<PeerId>, i: nat, b: real)
    requires QueueOk(w, start, target, s, cur, cost, {}) && target !in w && b < least
    requires (forall e | e in s.heap :: least <= e.cost)
    requires PeakWithin(w, q, Some(b)) && q[0] == start && i < |q|
    ensures IsWalk(w, q[i..]) && q[i] in s.dist && q[|q| - 1] in s.dist
    ensures s.dist[q[|q| - 1]] <= s.dist[q[i]] + WalkCost(w, q[i..])
    decreases |q|
  {
    WalksRespectDistances(w, start, target, s, cur, cost, least, q, b);
    CutCost(w, q, i);
    if i < |q| - 1 {
      var before, y, x := q[..|q| - 1], q[|q| - 2], q[|q| - 1];
      HighHeapBoundsWalks(w, start, target, s, cur, cost, least, before, i, b);
      assert q[i..][..|q| - 1 - i] == before[i..];
      WalksRespectDistances(w, start, target, s, cur, cost, least, before, b);
      NotOpenBelow(s, y, least);
      assert Edge(w, y, x);
    } else {
      assert q[i..] == [q[i]];
    }
  }

  lemma RoundKeepsHeapLow(w: Weights, start: PeerId, target: PeerId, s: Search, cur: PeerId, cost: real,
                          q: seq<PeerId>, i: nat, b: real)
    requires QueueOk(w, start, target, s, cur, cost, {}) && target !in w && RoundBelow(w, start, q, i, b)
    ensures exists e :: e in s.heap && e.cost <= b
  {
    if forall e | e in s.heap :: b < e.cost {
      var least := HigherThan(s.heap, b);
      HighHeapBoundsWalks(w, start, target, s, cur, cost, least, q, i, b);
    }
  }

  lemma HigherThan(heap: multiset<SearchState>, b: real) returns (least: real)
    requires forall e | e in heap :: b < e.cost
    ensures b < least && forall e | e in heap :: least <= e.cost
  {
    if heap == multiset{} {
      least := b + 1.0;
    } else {
      LeastExists(heap);
      var e :| IsLeast(e, heap);
      least := e.cost;
    }
  }

  // ----- Every entry was come by within the limit

  /** Some walk costs what the entry says and was within the limit before its last link. */
  ghost predicate HasTrace(w: Weights, start: PeerId, limit: Option<real>, e: SearchState) {
    exists p :: IsTrace(w, start, limit, e, p)
  }

  ghost predicate IsTrace(w: Weights, start: PeerId, limit: Option<real>, e: SearchState, p: seq<PeerId>) {
    && WalkBetween(w, p, start, e.node) && WalkCost(w, p) == e.cost
    && (|p| > 1 ==> PeakWithin(w, p[..|p| - 1], limit))
  }

  ghost predicate Traced(w: Weights, start: PeerId, limit: Option<real>, s: Search) {
    forall e {:trigger s.heap[e]} | s.heap[e] > 0 :: HasTrace(w, start, limit, e)
  }

  lemma ExtendTrace(w: Weights, start: PeerId, limit: Option<real>, e: SearchState, v: PeerId)
    requires HasTrace(w, start, limit, e) && Within(e.cost, limit) && Edge(w, e.node, v)
    ensures HasTrace(w, start, limit, SearchState(e.cost + w[e.node][v], v))
  {
    var p :| IsTrace(w, start, limit, e, p);
    assert (p + [v])[..|p|] == p;
    assert IsTrace(w, start, limit, SearchState(e.cost + w[e.node][v], v), p + [v]);
  }

  lemma {:induction false} RelaxAllKeepsTraces(w: Weights, start: PeerId, limit: Option<real>, s: Search,
                                               node: PeerId, cost: real, order: seq<PeerId>)
    requires Traced(w, start, limit, s) && HasTrace(w, start, limit, SearchState(cost, node)) && Within(cost, limit)
    requires forall v | v in order :: Edge(w, node, v)
    ensures Traced(w, start, limit, RelaxAll(w, s, node, cost, order))
    decreases |order|
  {
    if order != [] {
      var v := order[0];
      var s' := RelaxLink(w, s, node, cost, v);
      ExtendTrace(w, start, limit, SearchState(cost, node), v);
      assert Traced(w, start, limit, s') by {
        forall e | s'.heap[e] > 0 ensures HasTrace(w, start, limit, e) {
          assert s.heap[e] > 0 || e == SearchState(cost + w[node][v], v);
        }
      }
      assert forall x | x in order[1..] :: x in order;
      RelaxAllKeepsTraces(w, start, limit, s', node, cost, order[1..]);
    }
  }

  lemma TurnKeepsTraces(w: Weights, start: PeerId, target: PeerId, limit: Option<real>, s: Search, s': Search)
    requires Traced(w, start, limit, s) && CanTurn(w, target, s, s')
    requires forall top | IsLeast(top, s.heap) :: Within(top.cost, limit)
    ensures Traced(w, start, limit, s')
  {
    var top, order :| Turn(w, target, s, top, order, s');
    assert s.heap[top] > 0;
    var rest := Popped(s, top);
    assert Traced(w, start, limit, rest) by {
      forall e | rest.heap[e] > 0 ensures HasTrace(w, start, limit, e) {
        assert s.heap[e] > 0;
      }
    }
    if s' != rest {
      RelaxAllKeepsTraces(w, start, limit, rest, top.node, top.cost, order);
    }
  }

  lemma BeginTraced(w: Weights, start: PeerId, limit: Option<real>)
    ensures Traced(w, start, limit, Begin(start))
  {
    assert IsTrace(w, start, limit, SearchState(0.0, start), [start]);
  }

  // ----- When no schedule ends

  /** No walk to the target stays within `b`. */
  ghost predicate NoWayBelow(w: Weights, start: PeerId, target: PeerId, b: real) {
    forall p | WalkBetween(w, p, start, target) :: !PeakWithin(w, p, Some(b))
  }

  /** A negative cycle can be reached and gone round below every way to the target. */
  ghost predicate Strays(w: Weights, start: PeerId, target: PeerId) {
    exists q, i, b :: RoundBelow(w - {target}, start, q, i, b) && NoWayBelow(w - {target}, start, target, b)
  }

  lemma RoundBoundsLeast(w: Weights, start: PeerId, target: PeerId, run: seq<Search>, q: seq<PeerId>, i: nat, b: real)
    requires IsRun(w, start, target, run) && target !in w && RoundBelow(w, start, q, i, b)
    ensures run[|run| - 1].heap != multiset{} && forall top | IsLeast(top, run[|run| - 1].heap) :: top.cost <= b
  {
    var cur, cost := RunKeepsQueue(w, start, target, run);
    RoundKeepsHeapLow(w, start, target, run[|run| - 1], cur, cost, q, i, b);
  }

  lemma {:induction false} RunIsTraced(w: Weights, start: PeerId, target: PeerId, run: seq<Search>, q: seq<PeerId>,
                                       i: nat, b: real)
    requires IsRun(w, start, target, run) && target !in w && RoundBelow(w, start, q, i, b)
    ensures Traced(w, start, Some(b), run[|run| - 1])
    decreases |run|
  {
    if |run| == 1 {
      BeginTraced(w, start, Some(b));
    } else {
      var before := run[..|run| - 1];
      RunIsTraced(w, start, target, before, q, i, b);
      RoundBoundsLeast(w, start, target, before, q, i, b);
      TurnKeepsTraces(w, start, target, Some(b), run[|run| - 2], run[|run| - 1]);
    }
  }

  lemma TracedTargetIsBelow(w: Weights, start: PeerId, target: PeerId, s: Search, top: SearchState, b: real)
    requires Traced(w, start, Some(b), s) && IsLeast(top, s.heap) && top.cost <= b && top.node == target
    ensures !NoWayBelow(w, start, target, b)
  {
    assert s.heap[top] > 0;
    var p :| IsTrace(w, start, Some(b), top, p);
    assert PeakWithin(w, p, Some(b)) && WalkBetween(w, p, start, target);
  }

  /** Then no run gets to one of the two exits of the search: the heap never empties, the target is never popped. */
  lemma StrayingNeverExits(w: Weights, start: PeerId, target: PeerId, run: seq<Search>)
    requires Strays(w, start, target) && IsRun(w, start, target, run)
    ensures run[|run| - 1].heap != multiset{}
    ensures forall top | IsLeast(top, run[|run| - 1].heap) :: top.node != target
  {
    var w' := w - {target};
    var q, i, b :| RoundBelow(w', start, q, i, b) && NoWayBelow(w', start, target, b);
    RunIgnoresTarget(w, start, target, run);
    RoundBoundsLeast(w', start, target, run, q, i, b);
    RunIsTraced(w', start, target, run, q, i, b);
    forall top | IsLeast(top, run[|run| - 1].heap) ensures top.node != target {
      if top.node == target {
        TracedTargetIsBelow(w', start, target, run[|run| - 1], top, b);
      }
    }
  }

  /** And it has runs of every length, whatever the schedule so far. */
  lemma {:induction false} StrayingNeverEnds(w: Weights, start: PeerId, target: PeerId, n: nat)
    returns (run: seq<Search>)
    requires Strays(w, start, target)
    ensures IsRun(w, start, target, run) && |run| == n + 1
    decreases n
  {
    if n == 0 {
      run := [Begin(start)];
    } else {
      var before := StrayingNeverEnds(w, start, target, n - 1);
      StrayingNeverExits(w, start, target, before);
      var cur, cost := RunKeepsQueue(w, start, target, before);
      var s := TurnExists(w, start, target, before[n - 1], cur, cost);
      run := before + [s];
      assert run[..n] == before;
    }
  }

  /** A search cannot both be bound to end and bound not to. */
  lemma StrayingDoesNotSettle(w: Weights, start: PeerId, target: PeerId)
    requires Strays(w, start, target)
    ensures !Settles(w, start, target)
  {
    var w' := w - {target};
    var q, i, b :| RoundBelow(w', start, q, i, b) && NoWayBelow(w', start, target, b);
    assert !Calm(w', start, None) by {
      EveryPeakIsWithinNone(w', q);
    }
    CalmIff(w', start);
    forall p, c ensures !ReachedCalmly(w', start, target, p, c) {
      if ReachedCalmly(w', start, target, p, c) {
        if c <= b {
          PeakIsMonotone(w', p, c, b);
        } else {
          PeakIsMonotone(w', q, b, c);
        }
      }
    }
  }

  lemma {:induction false} PeakIsMonotone(w: Weights, p: seq<PeerId>, b: real, c: real)
    requires PeakWithin(w, p, Some(b)) && b <= c
    ensures PeakWithin(w, p, Some(c))
    decreases |p|
  {
    if |p| > 1 {
      PeakIsMonotone(w, p[..|p| - 1], b, c);
    }
  }

  lemma {:induction false} PeakExists(w: Weights, p: seq<PeerId>) returns (b: real)
    requires IsWalk(w, p)
    ensures PeakWithin(w, p, Some(b))
    decreases |p|
  {
    b := WalkCost(w, p);
    if |p| > 1 {
      var c := PeakExists(w, p[..|p| - 1]);
      if b < c {
        b := c;
      } else {
        PeakIsMonotone(w, p[..|p| - 1], c, b);
      }
    }
  }

  /** For a target that cannot be reached, straying is the presence of a negative cycle, and settling its absence. */
  lemma UnreachableStraysIff(w: Weights, start: PeerId, target: PeerId)
    requires !CanReach(w, start, target)
    ensures Strays(w, start, target) <==> !NoNegativeCycle(w, start)
    ensures Settles(w, start, target) <==> NoNegativeCycle(w, start)
  {
    var w' := w - {target};
    ReachIgnoresTargetLinks(w, start, target);
    CalmIff(w, start);
    CalmIff(w', start);
    if !NoNegativeCycle(w, start) {
      var q, i :| PeakWithin(w, q, None) && q[0] == start && NegativeRound(w, q, i);
      UnreachedIsAvoided(w, start, target, q, i);
      var b := PeakExists(w', q);
      assert RoundBelow(w', start, q, i, b);
      StrayingDoesNotSettle(w, start, target);
    } else {
      NoRoundInLess(w', w, start);
    }
    if Strays(w, start, target) {
      StrayingDoesNotSettle(w, start, target);
    }
  }

  lemma UnreachedIsAvoided(w: Weights, start: PeerId, target: PeerId, q: seq<PeerId>, i: nat)
    requires !CanReach(w, start, target) && IsWalk(w, q) && q[0] == start && NegativeRound(w, q, i)
    ensures IsWalk(w - {target}, q) && NegativeRound(w - {target}, q, i)
  {
    forall x | x in q ensures x != target {
      var k :| 0 <= k < |q| && q[k] == x;
      PrefixReaches(w, q, k);
    }
    assert target !in q;
    assert target !in q[..|q| - 1] && target !in q[i..][..|q[i..]| - 1];
    WithoutTarget(w, q, target);
    WithoutTarget(w, q[i..], target);
  }

  lemma NoRoundInLess(w': Weights, w: Weights, start: PeerId)
    requires SomeLinksOf(w', w) && NoNegativeCycle(w, start)
    ensures NoNegativeCycle(w', start)
  {
    forall c | IsCycle(w', c) && CanReach(w', start, c[0]) ensures WalkCost(w', c) >= 0.0 {
      WalkInMore(w', w, c);
      var p :| WalkBetween(w', p, start, c[0]);
      WalkInMore(w', w, p);
      assert WalkBetween(w, p, start, c[0]);
    }
  }

  /** So a search for a node that cannot be reached never ends if a negative cycle can be. */
  lemma NegativeCycleNeverEnds(w: Weights, start: PeerId, target: PeerId, n: nat) returns (run: seq<Search>)
    requires !NoNegativeCycle(w, start) && !CanReach(w, start, target)
    ensures IsRun(w, start, target, run) && |run| == n + 1 && run[n].heap != multiset{}
    ensures forall top | IsLeast(top, run[n].heap) :: top.node != target
  {
    UnreachableStraysIff(w, start, target);
    run := StrayingNeverEnds(w, start, target, n);
    StrayingNeverExits(w, start, target, run);
  }

  /**
   * So for a node that cannot be reached the condition is exact: some run exhausts the heap if and
   * only if no negative cycle can be reached. The other direction is `RouteGraph.FindShortestPath`.
   */
  lemma ExhaustedRunHasNoNegativeCycle(w: Weights, start: PeerId, target: PeerId, run: seq<Search>)
    requires IsRun(w, start, target, run) && run[|run| - 1].heap == multiset{}
    ensures NoNegativeCycle(w, start) && !CanReach(w, start, target)
  {
    var cur, cost := RunKeepsQueue(w, start, target, run);
    ExhaustedMeansNoNegativeCycle(w, start, target, run[|run| - 1], cur, cost);
    ExhaustedMeansUnreachable(w, start, target, run[|run| - 1], cur, cost);
  }

  lemma TwoLinkCost(w: Weights, a: PeerId, b: PeerId, c: PeerId)
    requires Edge(w, a, b) && Edge(w, b, c)
    ensures IsWalk(w, [a, b, c]) && WalkCost(w, [a, b, c]) == w[a][b] + w[b][c]
  {
    var p := [a, b, c];
    assert p[..2] == [a, b] && [a, b][..1] == [a];
    assert IsWalk(w, [a]) && WalkCost(w, [a]) == 0.0;
    assert IsWalk(w, [a, b]) && WalkCost(w, [a, b]) == w[a][b];
  }

  /** Two peers with a link of cost -1 each way, and a third that neither knows. */
  lemma NegativePairNeverEnds(a: PeerId, b: PeerId, t: PeerId, n: nat) returns (run: seq<Search>)
    requires a != b && t != a && t != b
    ensures IsRun(map[a := map[b := -1.0], b := map[a := -1.0]], a, t, run) && |run| == n + 1
    ensures run[n].heap != multiset{} && forall top | IsLeast(top, run[n].heap) :: top.node != t
  {
    var w: Weights := map[a := map[b := -1.0], b := map[a := -1.0]];
    assert !NoNegativeCycle(w, a) by {
      TwoLinkCost(w, a, b, a);
      assert WalkBetween(w, [a], a, a);
      assert IsCycle(w, [a, b, a]);
    }
    assert !CanReach(w, a, t) by {
      forall p | WalkBetween(w, p, a, t) ensures false {
        WalkStaysInNodes(w, p);
      }
    }
    run := NegativeCycleNeverEnds(w, a, t, n);
  }

  /**
   * A negative link without a negative cycle: the search ends, but the target can be popped, and so
   * returned, before the cheaper way through that link has been seen.
   */
  lemma NegativeLinkIsMissed(a: PeerId, b: PeerId, t: PeerId, w: Weights) returns (s: Search)
    requires a != b && t != a && t != b && w == map[a := map[t := 1.0, b := 2.0], b := map[t := -2.0]]
    ensures CanTurn(w, t, Begin(a), s) && IsLeast(SearchState(1.0, t), s.heap) && t in s.dist && s.dist[t] == 1.0
    ensures WalkBetween(w, [a, b, t], a, t) && WalkCost(w, [a, b, t]) == 0.0
  {
    TwoLinkCost(w, a, b, t);
    var s0, top, order := Popped(Begin(a), SearchState(0.0, a)), SearchState(0.0, a), [t, b];
    var s1 := RelaxLink(w, s0, a, 0.0, t);
    s := RelaxLink(w, s1, a, 0.0, b);
    assert s0.heap == multiset{};
    assert s.heap == multiset{SearchState(1.0, t), SearchState(2.0, b)};
    assert RelaxAll(w, s0, a, 0.0, order) == s by {
      assert order[1..] == [b] && [b][1..] == [];
      assert RelaxAll(w, s, a, 0.0, []) == s;
      assert RelaxAll(w, s1, a, 0.0, [b]) == s;
    }
    assert IsOrder(w, a, order);
    assert Turn(w, t, Begin(a), top, order, s);
  }

  /**
   * In between, the target may be popped and still not be returned: here a negative cycle through the
   * start has left the predecessors going round when the target comes up, and reading them back never
   * ends.
   */
  lemma PoppedButNeverReadBack(a: PeerId, b: PeerId, t: PeerId, w: Weights) returns (run: seq<Search>)
    requires a != b && t != a && t != b && w == map[a := map[b := 1.0], b := map[a := -2.0, t := -5.0]]
    ensures IsRun(w, a, t, run) && |run| == 3 && IsLeast(SearchState(-4.0, t), run[2].heap)
    ensures !Ends(run[2].pred, t)
  {
    var s0 := Begin(a);
    var s1 := Search(map[a := 0.0, b := 1.0], map[b := a], multiset{SearchState(1.0, b)});
    var s2 := Search(map[a := -1.0, b := 1.0, t := -4.0], map[b := a, a := b, t := b],
                     multiset{SearchState(-1.0, a), SearchState(-4.0, t)});
    FirstTurn(a, b, t, w, s0, s1);
    SecondTurn(a, b, t, w, s1, s2);
    run := [s0, s1, s2];
    assert run[..2] == [s0, s1] && [s0, s1][..1] == [s0];
    assert IsRun(w, a, t, [s0]) && IsRun(w, a, t, [s0, s1]);
    EndsIff(s2.pred, t);
    forall n: nat ensures CanFollow(s2.pred, t, n) {
      GoesRound(s2.pred, a, b, n);
      if n > 0 {
        GoesRound(s2.pred, a, b, n - 1);
      }
    }
  }

  lemma {:induction false} GoesRound(pred: map<PeerId, PeerId>, a: PeerId, b: PeerId, n: nat)
    requires a in pred && b in pred && pred[a] == b && pred[b] == a
    ensures CanFollow(pred, a, n) && CanFollow(pred, b, n)
    decreases n
  {
    if n > 0 {
      GoesRound(pred, a, b, n - 1);
    }
  }

  lemma FirstTurn(a: PeerId, b: PeerId, t: PeerId, w: Weights, s: Search, s': Search)
    requires a != b && t != a && t != b && w == map[a := map[b := 1.0], b := map[a := -2.0, t := -5.0]]
    requires s == Begin(a)
    requires s' == Search(map[a := 0.0, b := 1.0], map[b := a], multiset{SearchState(1.0, b)})
    ensures CanTurn(w, t, s, s')
  {
    var top, order := SearchState(0.0, a), [b];
    assert Popped(s, top).heap == multiset{};
    assert order[1..] == [];
    assert RelaxLink(w, Popped(s, top), a, 0.0, b) == s';
    assert RelaxAll(w, s', a, 0.0, []) == s';
    assert IsOrder(w, a, order);
    assert Turn(w, t, s, top, order, s');
  }

  lemma SecondTurn(a: PeerId, b: PeerId, t: PeerId, w: Weights, s: Search, s': Search)
    requires a != b && t != a && t != b && w == map[a := map[b := 1.0], b := map[a := -2.0, t := -5.0]]
    requires s == Search(map[a := 0.0, b := 1.0], map[b := a], multiset{SearchState(1.0, b)})
    requires s' == Search(map[a := -1.0, b := 1.0, t := -4.0], map[b := a, a := b, t := b],
                          multiset{SearchState(-1.0, a), SearchState(-4.0, t)})
    ensures CanTurn(w, t, s, s')
  {
    var top, order := SearchState(1.0, b), [a, t];
    var rest := Popped(s, top);
    assert rest.heap == multiset{};
    var mid := Search(map[a := -1.0, b := 1.0], map[b := a, a := b], multiset{SearchState(-1.0, a)});
    assert RelaxLink(w, rest, b, 1.0, a) == mid;
    assert RelaxLink(w, mid, b, 1.0, t) == s';
    assert order[1..] == [t] && [t][1..] == [];
    assert RelaxAll(w, s', b, 1.0, []) == s';
    assert RelaxAll(w, mid, b, 1.0, [t]) == s';
    assert IsOrder(w, b, order);
    assert Turn(w, t, s, top, order, s');
  }
}
