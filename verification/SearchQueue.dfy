/** The path search on values: what its distances and its heap keep between two pops, whatever the costs. */
module SearchQueue {
  import opened MeshTypes
  import opened Walks

  /** One entry of the search heap. */
  datatype SearchState = SearchState(cost: real, node: PeerId)

  /** The search's mutable state: distances, predecessors, heap. */
  datatype Search = Search(dist: map<PeerId, real>, pred: map<PeerId, PeerId>, heap: multiset<SearchState>)

  function Begin(start: PeerId): (s: Search) {
    Search(map[start := 0.0], map[], multiset{SearchState(0.0, start)})
  }

  predicate IsLeast(e: SearchState, heap: multiset<SearchState>) {
    e in heap && forall e' | e' in heap :: e.cost <= e'.cost
  }

  lemma {:induction false} LeastExists(heap: multiset<SearchState>)
    requires heap != multiset{}
    ensures exists e :: IsLeast(e, heap)
    decreases |heap|
  {
    var e :| e in heap;
    var rest := heap - multiset{e};
    assert forall x | x in heap :: x == e || x in rest;
    if rest == multiset{} {
      assert IsLeast(e, heap);
    } else {
      LeastExists(rest);
      var e' :| IsLeast(e', rest);
      assert IsLeast(if e.cost <= e'.cost then e else e', heap);
    }
  }

  function Popped(s: Search, top: SearchState): (s': Search) {
    s.(heap := s.heap - multiset{top})
  }

  /** A cheaper way to `v` through `node` is recorded and pushed. */
  function Improved(s: Search, node: PeerId, v: PeerId, next: real): (s': Search) {
    Search(s.dist[v := next], s.pred[v := node], s.heap + multiset{SearchState(next, v)})
  }

  /** One link of the node being expanded at `cost`. */
  function RelaxLink(w: Weights, s: Search, node: PeerId, cost: real, v: PeerId): (s': Search)
    requires Edge(w, node, v)
  {
    var next := cost + w[node][v];
    if v !in s.dist || next < s.dist[v] then Improved(s, node, v, next) else s
  }

  // ----- Runs: every choice of a least entry and every order of neighbours

  /** The links of `node` relaxed in the given order. */
  ghost function RelaxAll(w: Weights, s: Search, node: PeerId, cost: real, order: seq<PeerId>): (s': Search)
    requires forall v | v in order :: Edge(w, node, v)
    decreases |order|
  {
    if order == [] then s else RelaxAll(w, RelaxLink(w, s, node, cost, order[0]), node, cost, order[1..])
  }

  ghost predicate IsOrder(w: Weights, node: PeerId, order: seq<PeerId>) {
    NoRepeats(order) && forall v :: v in order <==> Edge(w, node, v)
  }

  /** One turn of the main loop that does not return: `top` is popped and skipped or expanded. */
  ghost predicate Turn(w: Weights, target: PeerId, s: Search, top: SearchState, order: seq<PeerId>, s': Search) {
    && IsLeast(top, s.heap) && top.node != target && IsOrder(w, top.node, order)
    && s' == if top.node in s.dist && top.cost > s.dist[top.node] then Popped(s, top)
             else RelaxAll(w, Popped(s, top), top.node, top.cost, order)
  }

  ghost predicate CanTurn(w: Weights, target: PeerId, s: Search, s': Search) {
    exists top, order :: Turn(w, target, s, top, order, s')
  }

  /** The states of a search so far, one per turn. */
  ghost predicate IsRun(w: Weights, start: PeerId, target: PeerId, run: seq<Search>) {
    && run != []
    && if |run| == 1 then run[0] == Begin(start)
       else IsRun(w, start, target, run[..|run| - 1]) && CanTurn(w, target, run[|run| - 2], run[|run| - 1])
  }

  lemma {:induction false} RelaxAllAppend(w: Weights, s: Search, node: PeerId, cost: real, order: seq<PeerId>,
                                          v: PeerId)
    requires (forall x | x in order :: Edge(w, node, x)) && Edge(w, node, v)
    ensures RelaxAll(w, s, node, cost, order + [v]) == RelaxLink(w, RelaxAll(w, s, node, cost, order), node, cost, v)
    decreases |order|
  {
    if order == [] {
      assert ([] + [v])[1..] == [];
    } else {
      assert forall x | x in order[1..] :: x in order;
      assert (order + [v])[1..] == order[1..] + [v];
      RelaxAllAppend(w, RelaxLink(w, s, node, cost, order[0]), node, cost, order[1..], v);
    }
  }

  lemma {:induction false} OrderExists(nodes: set<PeerId>) returns (order: seq<PeerId>)
    ensures NoRepeats(order) && forall v :: v in order <==> v in nodes
    decreases nodes
  {
    if nodes == {} {
      order := [];
    } else {
      var v :| v in nodes;
      var rest := OrderExists(nodes - {v});
      order := rest + [v];
    }
  }

  lemma RunGrows(w: Weights, start: PeerId, target: PeerId, run: seq<Search>, top: SearchState, order: seq<PeerId>,
                 s: Search)
    requires IsRun(w, start, target, run) && Turn(w, target, run[|run| - 1], top, order, s)
    ensures IsRun(w, start, target, run + [s])
  {
    assert (run + [s])[..|run|] == run;
    assert CanTurn(w, target, run[|run| - 1], s);
  }

  // ----- Every node with a distance is open or relaxed, whatever the costs

  ghost predicate Open(s: Search, v: PeerId) {
    v in s.dist && s.heap[SearchState(s.dist[v], v)] > 0
  }

  /** The links of `u` to nodes outside `todo` offer no improvement. */
  ghost predicate Relaxed(w: Weights, s: Search, u: PeerId, todo: set<PeerId>) {
    u in s.dist
    && forall v {:trigger Edge(w, u, v)} | Edge(w, u, v) && v !in todo ::
         v in s.dist && s.dist[v] <= s.dist[u] + w[u][v]
  }

  /** `cur` is being expanded at `cost`, with the links to `todo` still unseen. */
  ghost predicate QueueOk(w: Weights, start: PeerId, target: PeerId, s: Search,
                          cur: PeerId, cost: real, todo: set<PeerId>)
  {
    && start in s.dist && s.dist[start] <= 0.0
    && (forall e {:trigger s.heap[e]} | s.heap[e] > 0 :: e.node in s.dist && s.dist[e.node] <= e.cost)
    && (forall u {:trigger Open(s, u)} | u in s.dist ::
          || Open(s, u)
          || (u != target && Relaxed(w, s, u, if u == cur then todo else {}) && (u == cur ==> s.dist[u] == cost)))
  }

  lemma BeginQueue(w: Weights, start: PeerId, target: PeerId)
    ensures QueueOk(w, start, target, Begin(start), start, 0.0, {})
  {
    var s := Begin(start);
    forall u | u in s.dist ensures Open(s, u) {
    }
  }

  lemma RelaxKeepsOthers(w: Weights, s: Search, s': Search, node: PeerId, v: PeerId, u: PeerId, todo: set<PeerId>)
    requires Relaxed(w, s, u, todo) && u != v && v in s'.dist && s'.dist == s.dist[v := s'.dist[v]]
    requires v in s.dist ==> s'.dist[v] <= s.dist[v]
    ensures Relaxed(w, s', u, todo)
  {
  }

  lemma RelaxLinkKeepsQueue(w: Weights, start: PeerId, target: PeerId, s: Search,
                            node: PeerId, cost: real, v: PeerId, todo: set<PeerId>)
    requires QueueOk(w, start, target, s, node, cost, todo) && Edge(w, node, v) && node in s.dist
    ensures QueueOk(w, start, target, RelaxLink(w, s, node, cost, v), node, cost, todo - {v})
  {
    var s' := RelaxLink(w, s, node, cost, v);
    forall u | u in s'.dist
      ensures || Open(s', u)
              || (u != target && Relaxed(w, s', u, if u == node then todo - {v} else {})
                  && (u == node ==> s'.dist[u] == cost))
    {
      RelaxLinkKeepsNode(w, target, s, node, cost, v, todo, u);
    }
  }

  lemma RelaxLinkKeepsNode(w: Weights, target: PeerId, s: Search,
                           node: PeerId, cost: real, v: PeerId, todo: set<PeerId>, u: PeerId)
    requires Edge(w, node, v) && node in s.dist && u in RelaxLink(w, s, node, cost, v).dist
    requires u in s.dist ==>
               || Open(s, u)
               || (u != target && Relaxed(w, s, u, if u == node then todo else {}) && (u == node ==> s.dist[u] == cost))
    ensures var s' := RelaxLink(w, s, node, cost, v);
            || Open(s', u)
            || (u != target && Relaxed(w, s', u, if u == node then todo - {v} else {})
                && (u == node ==> s'.dist[u] == cost))
  {
    var s' := RelaxLink(w, s, node, cost, v);
    if s' != s && u == v {
      assert Open(s', u);
    } else if Open(s, u) {
      assert Open(s', u);
    } else if s' != s {
      RelaxKeepsOthers(w, s, s', node, v, u, if u == node then todo else {});
    }
  }

  lemma SkipKeepsQueue(w: Weights, start: PeerId, target: PeerId, s: Search, top: SearchState, cur: PeerId, cost: real)
    requires QueueOk(w, start, target, s, cur, cost, {}) && top in s.heap && top.cost > s.dist[top.node]
    ensures QueueOk(w, start, target, Popped(s, top), cur, cost, {})
  {
    var s' := Popped(s, top);
    forall u | u in s'.dist
      ensures || Open(s', u)
              || (u != target && Relaxed(w, s', u, {}) && (u == cur ==> s'.dist[u] == cost))
    {
      if Open(s, u) {
        assert SearchState(s.dist[u], u) != top;
        assert Open(s', u);
      }
    }
  }

  /** Popping a current entry opens the expansion of its node, with all links unseen. */
  lemma PopKeepsQueue(w: Weights, start: PeerId, target: PeerId, s: Search, top: SearchState,
                      cur: PeerId, cost: real, todo: set<PeerId>)
    requires QueueOk(w, start, target, s, cur, cost, {}) && top in s.heap && top.cost <= s.dist[top.node]
    requires top.node != target && forall v | Edge(w, top.node, v) :: v in todo
    ensures top.cost == s.dist[top.node]
    ensures QueueOk(w, start, target, Popped(s, top), top.node, top.cost, todo)
  {
    var s' := Popped(s, top);
    forall u | u in s'.dist
      ensures || Open(s', u)
              || (u != target && Relaxed(w, s', u, if u == top.node then todo else {})
                  && (u == top.node ==> s'.dist[u] == top.cost))
    {
      if u != top.node && Open(s, u) {
        assert SearchState(s.dist[u], u) != top;
        assert Open(s', u);
      }
    }
  }

  // ----- What an empty heap and a popped target mean

  /** With nothing left to expand, the distances hold along every walk. */
  lemma {:induction false} EmptyHeapBoundsWalks(w: Weights, start: PeerId, target: PeerId, s: Search,
                                                cur: PeerId, cost: real, p: seq<PeerId>)
    requires QueueOk(w, start, target, s, cur, cost, {}) && s.heap == multiset{}
    requires IsWalk(w, p) && p[0] in s.dist
    ensures p[|p| - 1] in s.dist && s.dist[p[|p| - 1]] <= s.dist[p[0]] + WalkCost(w, p)
    ensures p[|p| - 1] != target
    decreases |p|
  {
    var x := p[|p| - 1];
    if |p| > 1 {
      EmptyHeapBoundsWalks(w, start, target, s, cur, cost, p[..|p| - 1]);
      assert !Open(s, p[|p| - 2]) && Edge(w, p[|p| - 2], x);
    }
    assert !Open(s, x);
  }

  /** An empty heap before the target was popped means that no walk leads to it. */
  lemma ExhaustedMeansUnreachable(w: Weights, start: PeerId, target: PeerId, s: Search, cur: PeerId, cost: real)
    requires QueueOk(w, start, target, s, cur, cost, {}) && s.heap == multiset{}
    ensures !CanReach(w, start, target)
  {
    forall p | WalkBetween(w, p, start, target) ensures false {
      EmptyHeapBoundsWalks(w, start, target, s, cur, cost, p);
    }
  }

  /** And it means that no negative cycle can be reached. */
  lemma ExhaustedMeansNoNegativeCycle(w: Weights, start: PeerId, target: PeerId, s: Search, cur: PeerId, cost: real)
    requires QueueOk(w, start, target, s, cur, cost, {}) && s.heap == multiset{}
    ensures NoNegativeCycle(w, start)
  {
    forall c | IsCycle(w, c) && CanReach(w, start, c[0]) ensures WalkCost(w, c) >= 0.0 {
      var p :| WalkBetween(w, p, start, c[0]);
      EmptyHeapBoundsWalks(w, start, target, s, cur, cost, p);
      EmptyHeapBoundsWalks(w, start, target, s, cur, cost, c);
    }
  }

  /**
   * The heart of optimality: a walk from `start` that always stayed cheaper than everything in the heap
   * only leads to a node whose recorded distance it does not beat.
   */
  lemma {:induction false} WalksRespectDistances(w: Weights, start: PeerId, target: PeerId, s: Search,
                                                 cur: PeerId, cost: real, least: real, p: seq<PeerId>, b: real)
    requires QueueOk(w, start, target, s, cur, cost, {})
    requires forall e | e in s.heap :: least <= e.cost
    requires PeakWithin(w, p, Some(b)) && p[0] == start
    ensures least <= b || (p[|p| - 1] in s.dist && s.dist[p[|p| - 1]] <= WalkCost(w, p))
    decreases |p|
  {
    if |p| > 1 {
      var prefix, y, x := p[..|p| - 1], p[|p| - 2], p[|p| - 1];
      WalksRespectDistances(w, start, target, s, cur, cost, least, prefix, b);
      assert Edge(w, y, x);
      assert Open(s, y) ==> SearchState(s.dist[y], y) in s.heap;
    }
  }

  /** For any costs: a target at the top of the heap, stale or not, is recorded below the peak of every walk to it. */
  lemma PoppedTargetIsBelowPeaks(w: Weights, start: PeerId, target: PeerId, s: Search, cur: PeerId, cost: real,
                                 top: SearchState, q: seq<PeerId>, b: real)
    requires QueueOk(w, start, target, s, cur, cost, {})
    requires IsLeast(top, s.heap) && top.node == target
    requires PeakWithin(w, q, Some(b)) && WalkBetween(w, q, start, target)
    ensures target in s.dist && s.dist[target] <= b
  {
    assert s.heap[top] > 0;
    assert Open(s, target);
    assert SearchState(s.dist[target], target) in s.heap;
    WalksRespectDistances(w, start, target, s, cur, cost, top.cost, q, b);
  }

  /** With non-negative costs, then, it has its minimal distance. */
  lemma PoppedTargetIsOptimal(w: Weights, start: PeerId, target: PeerId, s: Search, cur: PeerId, cost: real,
                              top: SearchState)
    requires NonNegative(w) && QueueOk(w, start, target, s, cur, cost, {})
    requires IsLeast(top, s.heap) && top.node == target
    ensures target in s.dist
    ensures forall q | WalkBetween(w, q, start, target) :: s.dist[target] <= WalkCost(w, q)
  {
    assert s.heap[top] > 0;
    forall q | WalkBetween(w, q, start, target) ensures s.dist[target] <= WalkCost(w, q) {
      NonNegativePeak(w, q, Some(WalkCost(w, q)));
      PoppedTargetIsBelowPeaks(w, start, target, s, cur, cost, top, q, WalkCost(w, q));
    }
  }

  /** A heap whose least entry exceeds the peak of a walk to the target would have popped the target before. */
  lemma LeastIsBelowTargetPeak(w: Weights, start: PeerId, target: PeerId, s: Search, cur: PeerId, cost: real,
                               top: SearchState, p: seq<PeerId>, b: real)
    requires QueueOk(w, start, target, s, cur, cost, {}) && IsLeast(top, s.heap)
    requires PeakWithin(w, p, Some(b)) && WalkBetween(w, p, start, target)
    ensures top.cost <= b
  {
    WalksRespectDistances(w, start, target, s, cur, cost, top.cost, p, b);
    if target in s.dist {
      assert Open(s, target);
      assert SearchState(s.dist[target], target) in s.heap;
    }
  }
}
