/** The route graph and its lowest-cost path search: Dijkstra with lazy deletion. */
module ShortestPath {
  import opened MeshTypes
  import opened Metrics
  import opened Walks
  import opened SearchQueue
  import opened LabelSearch
  import opened ReadBack

  type Topology = map<PeerId, map<PeerId, LinkMetrics>>

  function LinkOf(g: Topology, from: PeerId, to: PeerId): (link: Option<LinkMetrics>) {
    if from in g && to in g[from] then Some(g[from][to]) else None
  }

  function WithLink(g: Topology, from: PeerId, to: PeerId, m: LinkMetrics): (g': Topology) {
    g[from := GetOr(g, from, map[])[to := m]]
  }

  ghost predicate NoEmptyRow(g: Topology) {
    forall u {:trigger u in g} | u in g :: g[u] != map[]
  }

  /** Adding a link sets that link, leaves every other, and leaves no node without links behind. */
  lemma LinkLookup(g: Topology, from: PeerId, to: PeerId, metrics: LinkMetrics)
    ensures LinkOf(WithLink(g, from, to, metrics), from, to) == Some(metrics)
    ensures forall u, v | (u, v) != (from, to) :: LinkOf(WithLink(g, from, to, metrics), u, v) == LinkOf(g, u, v)
    ensures NoEmptyRow(g) ==> NoEmptyRow(WithLink(g, from, to, metrics))
  {
    assert to in WithLink(g, from, to, metrics)[from];
  }

  /** The costs the search works with. */
  function WeightsOf(g: Topology): (w: Weights) {
    map u | u in g :: map v | v in g[u] :: g[u][v].Cost()
  }

  // ----- Routes, priced by the metrics of their links

  /** The route runs along links of the topology. */
  ghost predicate IsRouteIn(g: Topology, p: seq<PeerId>) {
    p != [] && (|p| > 1 ==> IsRouteIn(g, p[..|p| - 1]) && LinkOf(g, p[|p| - 2], p[|p| - 1]).Some?)
  }

  ghost function RouteCost(g: Topology, p: seq<PeerId>): (cost: real)
    requires IsRouteIn(g, p)
  {
    if |p| == 1 then 0.0 else RouteCost(g, p[..|p| - 1]) + LinkOf(g, p[|p| - 2], p[|p| - 1]).value.Cost()
  }

  ghost predicate RouteBetween(g: Topology, p: seq<PeerId>, s: PeerId, t: PeerId) {
    IsRouteIn(g, p) && p[0] == s && p[|p| - 1] == t
  }

  ghost predicate IsCheapestRoute(g: Topology, p: seq<PeerId>, s: PeerId, t: PeerId) {
    && RouteBetween(g, p, s, t)
    && forall q | RouteBetween(g, q, s, t) :: RouteCost(g, p) <= RouteCost(g, q)
  }

  ghost predicate NoNegativeLink(g: Topology) {
    forall u, v | LinkOf(g, u, v).Some? :: LinkOf(g, u, v).value.Cost() >= 0.0
  }

  /**
   * The search prices every link by all four of its metrics: what a link weighs above its relay cost,
   * times its bandwidth counted as at least 100 Kbps, is a thousand times latency times (1 + loss).
   */
  lemma WeightsAreLinkCosts(g: Topology, u: PeerId, v: PeerId)
    ensures Edge(WeightsOf(g), u, v) <==> LinkOf(g, u, v).Some?
    ensures LinkOf(g, u, v).Some? ==>
              var m := LinkOf(g, u, v).value;
              (WeightsOf(g)[u][v] - m.relayCost) * (if m.bandwidthKbps < 100.0 then 100.0 else m.bandwidthKbps)
              == 1000.0 * (m.latencyMs * (1.0 + m.lossRate))
  {
    if LinkOf(g, u, v).Some? {
      CostTimesBandwidth(LinkOf(g, u, v).value);
    }
  }

  lemma LinkWeight(g: Topology, w: Weights, u: PeerId, v: PeerId)
    requires w == WeightsOf(g)
    ensures Edge(w, u, v) <==> LinkOf(g, u, v).Some?
    ensures Edge(w, u, v) ==> w[u][v] == LinkOf(g, u, v).value.Cost()
  {
  }

  lemma {:induction false} RoutesAreWalks(g: Topology, w: Weights, p: seq<PeerId>)
    requires w == WeightsOf(g)
    ensures IsRouteIn(g, p) <==> IsWalk(w, p)
    ensures IsRouteIn(g, p) ==> RouteCost(g, p) == WalkCost(w, p)
    decreases |p|
  {
    if |p| > 1 {
      RoutesAreWalks(g, w, p[..|p| - 1]);
      LinkWeight(g, w, p[|p| - 2], p[|p| - 1]);
    }
  }

  lemma NoNegativeLinkIff(g: Topology)
    ensures NoNegativeLink(g) <==> NonNegative(WeightsOf(g))
  {
    var w := WeightsOf(g);
    forall u, v ensures Edge(w, u, v) <==> LinkOf(g, u, v).Some? {
      LinkWeight(g, w, u, v);
    }
    if NoNegativeLink(g) {
      forall u, v | Edge(w, u, v) ensures w[u][v] >= 0.0 {
        LinkWeight(g, w, u, v);
        assert LinkOf(g, u, v).Some?;
      }
    }
    if NonNegative(w) {
      forall u, v | LinkOf(g, u, v).Some? ensures LinkOf(g, u, v).value.Cost() >= 0.0 {
        LinkWeight(g, w, u, v);
        assert Edge(w, u, v);
      }
    }
  }

  /** Cheapest routes are the shortest walks of the weighted graph. */
  lemma CheapestIsShortest(g: Topology, w: Weights, p: seq<PeerId>, s: PeerId, t: PeerId)
    requires w == WeightsOf(g)
    ensures IsCheapestRoute(g, p, s, t) <==> IsShortest(w, p, s, t)
  {
    forall q
      ensures RouteBetween(g, q, s, t) <==> WalkBetween(w, q, s, t)
      ensures RouteBetween(g, q, s, t) ==> RouteCost(g, q) == WalkCost(w, q)
    {
      RoutesAreWalks(g, w, q);
    }
  }

  lemma RoutableIsReachable(g: Topology, s: PeerId, t: PeerId)
    ensures (exists q :: RouteBetween(g, q, s, t)) <==> CanReach(WeightsOf(g), s, t)
  {
    var w := WeightsOf(g);
    if q :| RouteBetween(g, q, s, t) {
      RoutesAreWalks(g, w, q);
      assert WalkBetween(w, q, s, t);
    }
    if q :| WalkBetween(w, q, s, t) {
      RoutesAreWalks(g, w, q);
      assert RouteBetween(g, q, s, t);
    }
  }

  // ----- With non-negative costs every node is expanded at most once

  /** The heap holds exactly one current entry per open node, and nothing below an expanded one. */
  ghost predicate FrontierOk(s: Search, done: set<PeerId>) {
    && (forall e {:trigger s.heap[e]} | e in s.heap :: e.node in s.dist && s.dist[e.node] <= e.cost)
    && (forall v {:trigger v in s.dist} | v in s.dist ::
          s.heap[SearchState(s.dist[v], v)] == if v in done then 0 else 1)
    && (forall u, e {:trigger u in done, s.heap[e]} | u in done && e in s.heap ::
          u in s.dist && s.dist[u] <= e.cost)
  }

  /** `node` is the latest expanded node: none was dearer, and nothing open is cheaper. */
  ghost predicate CheapestLast(s: Search, done: set<PeerId>, node: PeerId) {
    && node in done && node in s.dist
    && (forall u {:trigger u in done} | u in done :: u in s.dist && s.dist[u] <= s.dist[node])
    && (forall e {:trigger s.heap[e]} | e in s.heap :: s.dist[node] <= e.cost)
  }

  /** An expanded node can no longer be improved. */
  lemma ExpandedIsFinal(w: Weights, s: Search, s': Search, done: set<PeerId>, node: PeerId, v: PeerId)
    requires NonNegative(w) && CheapestLast(s, done, node) && Improves(w, s, s', node, v)
    ensures w[node][v] >= 0.0 && v !in done && s'.dist[node] == s.dist[node]
    ensures CheapestLast(s', done, node)
  {
  }

  lemma ImprovementKeepsFrontier(w: Weights, s: Search, s': Search, done: set<PeerId>, node: PeerId, v: PeerId)
    requires NonNegative(w) && CheapestLast(s, done, node) && Improves(w, s, s', node, v)
    requires FrontierOk(s, done)
    ensures FrontierOk(s', done)
  {
    ExpandedIsFinal(w, s, s', done, node, v);
    var e := SearchState(s.dist[node] + w[node][v], v);
    assert e !in s.heap;
    forall x | x in s'.dist
      ensures s'.heap[SearchState(s'.dist[x], x)] == if x in done then 0 else 1
    {
      assert x != v ==> SearchState(s'.dist[x], x) != e && x in s.dist;
    }
  }

  /** A least entry that is not stale belongs to a node never expanded before, and is its only current one. */
  lemma LeastCurrentIsOpen(s: Search, top: SearchState, done: set<PeerId>)
    requires FrontierOk(s, done) && IsLeast(top, s.heap) && top.node in s.dist && top.cost <= s.dist[top.node]
    ensures top.node !in done && top.cost == s.dist[top.node]
    ensures s.heap[top] == 1
    ensures forall u | u in done :: u in s.dist && s.dist[u] <= s.dist[top.node]
  {
    assert s.heap[top] > 0;
    assert top == SearchState(s.dist[top.node], top.node);
  }

  lemma PopKeepsCounts(s: Search, top: SearchState, done: set<PeerId>, v: PeerId)
    requires v in s.dist && s.heap[SearchState(s.dist[v], v)] == if v in done then 0 else 1
    requires top.node in s.dist && top.node !in done && top.cost == s.dist[top.node] && s.heap[top] == 1
    ensures Popped(s, top).heap[SearchState(s.dist[v], v)] == if v in done + {top.node} then 0 else 1
  {
    if v == top.node {
      assert SearchState(s.dist[v], v) == top;
    } else {
      assert SearchState(s.dist[v], v) != top;
    }
  }

  lemma PopExpands(s: Search, top: SearchState, done: set<PeerId>)
    requires FrontierOk(s, done) && IsLeast(top, s.heap) && top.node in s.dist && top.cost <= s.dist[top.node]
    ensures top.node !in done
    ensures FrontierOk(Popped(s, top), done + {top.node}) && CheapestLast(Popped(s, top), done + {top.node}, top.node)
  {
    LeastCurrentIsOpen(s, top, done);
    assert FrontierOk(Popped(s, top), done + {top.node}) by { PopKeepsFrontier(s, top, done); }
    assert forall e :: Popped(s, top).heap[e] <= s.heap[e];
  }

  lemma PopKeepsFrontier(s: Search, top: SearchState, done: set<PeerId>)
    requires FrontierOk(s, done) && IsLeast(top, s.heap) && top.node in s.dist && top.node !in done
    requires top.cost == s.dist[top.node] && s.heap[top] == 1
    ensures FrontierOk(Popped(s, top), done + {top.node})
  {
    forall v | v in s.dist
      ensures Popped(s, top).heap[SearchState(s.dist[v], v)] == if v in done + {top.node} then 0 else 1
    {
      PopKeepsCounts(s, top, done, v);
    }
    assert forall e :: Popped(s, top).heap[e] <= s.heap[e];
  }

  lemma PopSkips(s: Search, top: SearchState, done: set<PeerId>)
    requires FrontierOk(s, done) && top in s.heap && top.node in s.dist && top.cost > s.dist[top.node]
    ensures FrontierOk(Popped(s, top), done)
  {
  }

  // ----- Both together: what the two loops of the search keep

  /** `node` is being expanded at `cost`; its links to `todo` are unseen. */
  ghost predicate Scanning(w: Weights, start: PeerId, limit: Option<real>, target: PeerId, s: Search,
                           labels: map<PeerId, seq<PeerId>>,
                           done: set<PeerId>, node: PeerId, cost: real, todo: set<PeerId>)
  {
    && SearchOk(w, start, limit, target, s, labels, node, cost, todo)
    && node in s.dist && node in labels && s.dist[node] == cost && Within(cost, limit)
    && FrontierScanned(w, s, done, node)
  }

  /** The part of `Scanning` that needs non-negative costs. */
  ghost predicate FrontierScanned(w: Weights, s: Search, done: set<PeerId>, node: PeerId) {
    NonNegative(w) ==> FrontierOk(s, done) && CheapestLast(s, done, node)
  }

  lemma FrontierImproves(w: Weights, s: Search, s': Search, done: set<PeerId>, node: PeerId, v: PeerId)
    requires FrontierScanned(w, s, done, node) && Improves(w, s, s', node, v)
    ensures FrontierScanned(w, s', done, node)
  {
    if NonNegative(w) {
      ExpandedIsFinal(w, s, s', done, node, v);
      ImprovementKeepsFrontier(w, s, s', done, node, v);
    }
  }

  lemma ScanImproves(w: Weights, start: PeerId, limit: Option<real>, target: PeerId, s: Search, s': Search,
                     labels: map<PeerId, seq<PeerId>>, done: set<PeerId>,
                     node: PeerId, cost: real, v: PeerId, todo: set<PeerId>)
    requires Scanning(w, start, limit, target, s, labels, done, node, cost, todo) && Improves(w, s, s', node, v)
    ensures Scanning(w, start, limit, target, s', labels[v := labels[node] + [v]], done, node, cost, todo - {v})
    ensures Improvable(w, start, s') < Improvable(w, start, s)
  {
    assert FrontierScanned(w, s', done, node) by {
      FrontierImproves(w, s, s', done, node, v);
    }
    ImprovedLinkKeeps(w, start, limit, target, s, s', labels, node, cost, v, todo);
  }

  lemma ScanSkips(w: Weights, start: PeerId, limit: Option<real>, target: PeerId, s: Search, labels: map<PeerId,
                  seq<PeerId>>,
                  done: set<PeerId>, node: PeerId, cost: real, v: PeerId, todo: set<PeerId>)
    requires Scanning(w, start, limit, target, s, labels, done, node, cost, todo) && Edge(w, node, v)
    requires v in s.dist && cost + w[node][v] >= s.dist[v]
    ensures Scanning(w, start, limit, target, s, labels, done, node, cost, todo - {v})
  {
    UselessLinkKeeps(w, start, limit, target, s, labels, node, cost, v, todo);
  }

  /** One link, whether it improves anything or not. */
  lemma ScanLink(w: Weights, start: PeerId, limit: Option<real>, target: PeerId, s: Search,
                 labels: map<PeerId, seq<PeerId>>, done: set<PeerId>,
                 node: PeerId, cost: real, v: PeerId, todo: set<PeerId>)
    returns (labels': map<PeerId, seq<PeerId>>)
    requires Scanning(w, start, limit, target, s, labels, done, node, cost, todo) && Edge(w, node, v)
    ensures var s' := RelaxLink(w, s, node, cost, v);
            && Scanning(w, start, limit, target, s', labels', done, node, cost, todo - {v})
            && (s' == s || Improvable(w, start, s') < Improvable(w, start, s))
  {
    var s' := RelaxLink(w, s, node, cost, v);
    if v !in s.dist || cost + w[node][v] < s.dist[v] {
      ScanImproves(w, start, limit, target, s, s', labels, done, node, cost, v, todo);
      labels' := labels[v := labels[node] + [v]];
    } else {
      ScanSkips(w, start, limit, target, s, labels, done, node, cost, v, todo);
      labels' := labels;
    }
  }

  /** All links of the node, in any order. */
  lemma {:induction false} ScanAll(w: Weights, start: PeerId, limit: Option<real>, target: PeerId, s: Search,
                                   labels: map<PeerId, seq<PeerId>>, done: set<PeerId>,
                                   node: PeerId, cost: real, todo: set<PeerId>, order: seq<PeerId>)
    returns (labels': map<PeerId, seq<PeerId>>)
    requires Scanning(w, start, limit, target, s, labels, done, node, cost, todo)
    requires (forall v | v in order :: Edge(w, node, v)) && forall v | v in todo :: v in order
    ensures var s' := RelaxAll(w, s, node, cost, order);
            && Scanning(w, start, limit, target, s', labels', done, node, cost, {})
            && (s' == s || Improvable(w, start, s') < Improvable(w, start, s))
    decreases |order|
  {
    if order == [] {
      assert todo == {};
      labels' := labels;
    } else {
      var v := order[0];
      var next := ScanLink(w, start, limit, target, s, labels, done, node, cost, v, todo);
      assert forall x | x in order :: x == v || x in order[1..];
      labels' := ScanAll(w, start, limit, target, RelaxLink(w, s, node, cost, v), next, done, node, cost, todo - {v},
                         order[1..]);
    }
  }

  /** Between two pops; `expanded` lists the expanded nodes in order. */
  ghost predicate Ready(w: Weights, start: PeerId, limit: Option<real>, target: PeerId, s: Search,
                        labels: map<PeerId, seq<PeerId>>,
                        done: set<PeerId>, expanded: seq<PeerId>, cur: PeerId, at: real)
  {
    && SearchOk(w, start, limit, target, s, labels, cur, at, {})
    && (NonNegative(w) ==> FrontierOk(s, done) && NoRepeats(expanded) && forall x | x in expanded :: x in done)
  }

  lemma ReadyAtBegin(w: Weights, start: PeerId, limit: Option<real>, target: PeerId)
    requires Calm(w, start, limit)
    ensures Ready(w, start, limit, target, Begin(start), map[start := [start]], {}, [], start, 0.0)
  {
    BeginOk(w, start, limit, target);
  }

  /** Dropping a stale entry. */
  lemma ReadySkips(w: Weights, start: PeerId, limit: Option<real>, target: PeerId, s: Search, labels: map<PeerId,
                   seq<PeerId>>,
                   done: set<PeerId>, expanded: seq<PeerId>, cur: PeerId, at: real, top: SearchState)
    requires Ready(w, start, limit, target, s, labels, done, expanded, cur, at) && top in s.heap
    requires top.node in s.dist && top.cost > s.dist[top.node]
    ensures Ready(w, start, limit, target, Popped(s, top), labels, done, expanded, cur, at)
    ensures Improvable(w, start, Popped(s, top)) == Improvable(w, start, s)
  {
    SkipKeeps(w, start, limit, target, s, top, labels, cur, at);
    HeapIsIrrelevant(w, start, limit, s, Popped(s, top), labels);
    if NonNegative(w) {
      PopSkips(s, top, done);
    }
  }

  /** Starting to expand the node of a current entry. */
  lemma ReadyExpands(w: Weights, start: PeerId, limit: Option<real>, target: PeerId, s: Search, labels: map<PeerId,
                     seq<PeerId>>,
                     done: set<PeerId>, expanded: seq<PeerId>, cur: PeerId, at: real,
                     top: SearchState, todo: set<PeerId>)
    requires Ready(w, start, limit, target, s, labels, done, expanded, cur, at) && IsLeast(top, s.heap)
    requires top.node in s.dist && top.cost <= s.dist[top.node]
    requires top.node != target && Within(top.cost, limit) && forall v | Edge(w, top.node, v) :: v in todo
    ensures Scanning(w, start, limit, target, Popped(s, top), labels, done + {top.node}, top.node, top.cost, todo)
    ensures Improvable(w, start, Popped(s, top)) == Improvable(w, start, s)
    ensures NonNegative(w) ==> top.node !in done
  {
    assert top.node in labels;
    PopKeeps(w, start, limit, target, s, top, labels, cur, at, todo);
    HeapIsIrrelevant(w, start, limit, s, Popped(s, top), labels);
    if NonNegative(w) {
      PopExpands(s, top, done);
    }
  }

  lemma ScanEnds(w: Weights, start: PeerId, limit: Option<real>, target: PeerId, s: Search, labels: map<PeerId,
                 seq<PeerId>>,
                 done: set<PeerId>, expanded: seq<PeerId>, node: PeerId, cost: real)
    requires Scanning(w, start, limit, target, s, labels, done + {node}, node, cost, {})
    requires NonNegative(w) ==> NoRepeats(expanded) && node !in done && forall x | x in expanded :: x in done
    ensures Ready(w, start, limit, target, s, labels, done + {node}, expanded + [node], node, cost)
  {
  }

  // ----- The target's own links play no part

  /** `w'` has some of the links of `w`, at the same costs. */
  ghost predicate SomeLinksOf(w': Weights, w: Weights) {
    forall u, v | Edge(w', u, v) :: Edge(w, u, v) && w[u][v] == w'[u][v]
  }

  lemma {:induction false} WalkInMore(w': Weights, w: Weights, p: seq<PeerId>)
    requires SomeLinksOf(w', w) && IsWalk(w', p)
    ensures IsWalk(w, p) && WalkCost(w, p) == WalkCost(w', p)
    decreases |p|
  {
    if |p| > 1 {
      WalkInMore(w', w, p[..|p| - 1]);
    }
  }

  /** A walk to the target, up to where it first meets it, does not use the target's links. */
  lemma {:induction false} FirstArrival(w: Weights, p: seq<PeerId>, target: PeerId) returns (i: nat)
    requires IsWalk(w, p) && target in p
    ensures i < |p| && p[i] == target && IsWalk(w - {target}, p[..i + 1]) && IsWalk(w, p[..i + 1])
    ensures WalkCost(w - {target}, p[..i + 1]) == WalkCost(w, p[..i + 1])
    decreases |p|
  {
    var before := p[..|p| - 1];
    if target in before {
      i := FirstArrival(w, before, target);
      assert before[..i + 1] == p[..i + 1];
    } else {
      i := |p| - 1;
      assert p[..i + 1] == p;
      WithoutTarget(w, p, target);
    }
  }

  lemma {:induction false} WithoutTarget(w: Weights, p: seq<PeerId>, target: PeerId)
    requires IsWalk(w, p) && target !in p[..|p| - 1]
    ensures IsWalk(w - {target}, p) && WalkCost(w - {target}, p) == WalkCost(w, p)
    decreases |p|
  {
    if |p| > 1 {
      var before := p[..|p| - 1];
      assert forall x | x in before[..|before| - 1] :: x in before;
      WithoutTarget(w, before, target);
      assert p[|p| - 2] in before;
    }
  }

  lemma ReachIgnoresTargetLinks(w: Weights, start: PeerId, target: PeerId)
    ensures CanReach(w, start, target) <==> CanReach(w - {target}, start, target)
  {
    if p :| WalkBetween(w, p, start, target) {
      var i := FirstArrival(w, p, target);
      assert WalkBetween(w - {target}, p[..i + 1], start, target);
    }
    if p :| WalkBetween(w - {target}, p, start, target) {
      WalkInMore(w - {target}, w, p);
      assert WalkBetween(w, p, start, target);
    }
  }

  /** A walk to the target has a beginning that does not use the target's links, under the same peak. */
  lemma PeakIgnoresTargetLinks(w: Weights, p: seq<PeerId>, start: PeerId, target: PeerId, limit: Option<real>)
    returns (q: seq<PeerId>)
    requires PeakWithin(w, p, limit) && WalkBetween(w, p, start, target)
    ensures PeakWithin(w - {target}, q, limit) && WalkBetween(w - {target}, q, start, target)
  {
    var i := FirstArrival(w, p, target);
    q := p[..i + 1];
    PeakOfPrefix(w, p, limit, i);
    PeakInLess(w - {target}, w, q, limit);
  }

  lemma {:induction false} PeakInLess(w': Weights, w: Weights, p: seq<PeerId>, limit: Option<real>)
    requires SomeLinksOf(w', w) && IsWalk(w', p) && PeakWithin(w, p, limit)
    ensures PeakWithin(w', p, limit)
    decreases |p|
  {
    WalkInMore(w', w, p);
    if |p| > 1 {
      PeakInLess(w', w, p[..|p| - 1], limit);
    }
  }

  lemma {:induction false} RelaxAllIgnoresTarget(w: Weights, target: PeerId, s: Search, node: PeerId, cost: real,
                                                 order: seq<PeerId>)
    requires node != target && forall v | v in order :: Edge(w, node, v)
    ensures RelaxAll(w, s, node, cost, order) == RelaxAll(w - {target}, s, node, cost, order)
    decreases |order|
  {
    if order != [] {
      assert forall v | v in order[1..] :: v in order;
      assert RelaxLink(w, s, node, cost, order[0]) == RelaxLink(w - {target}, s, node, cost, order[0]);
      RelaxAllIgnoresTarget(w, target, RelaxLink(w, s, node, cost, order[0]), node, cost, order[1..]);
    }
  }

  lemma OrderIgnoresTarget(w: Weights, target: PeerId, node: PeerId, order: seq<PeerId>)
    requires node != target
    ensures IsOrder(w - {target}, node, order) <==> IsOrder(w, node, order)
  {
    assert forall v :: Edge(w, node, v) <==> Edge(w - {target}, node, v);
  }

  lemma TurnIgnoresTarget(w: Weights, target: PeerId, s: Search, top: SearchState, order: seq<PeerId>, s': Search)
    ensures Turn(w - {target}, target, s, top, order, s') <==> Turn(w, target, s, top, order, s')
  {
    if top.node != target {
      OrderIgnoresTarget(w, target, top.node, order);
      if IsOrder(w, top.node, order) {
        RelaxAllIgnoresTarget(w, target, Popped(s, top), top.node, top.cost, order);
      }
    }
  }

  lemma CanTurnIgnoresTarget(w: Weights, target: PeerId, s: Search, s': Search)
    ensures CanTurn(w - {target}, target, s, s') <==> CanTurn(w, target, s, s')
  {
    forall top, order ensures Turn(w - {target}, target, s, top, order, s') <==> Turn(w, target, s, top, order, s') {
      TurnIgnoresTarget(w, target, s, top, order, s');
    }
  }

  lemma {:induction false} RunIgnoresTarget(w: Weights, start: PeerId, target: PeerId, run: seq<Search>)
    ensures IsRun(w - {target}, start, target, run) <==> IsRun(w, start, target, run)
    decreases |run|
  {
    if |run| > 1 {
      RunIgnoresTarget(w, start, target, run[..|run| - 1]);
      CanTurnIgnoresTarget(w, target, run[|run| - 2], run[|run| - 1]);
    }
  }

  /** The two exits of the search: nothing is left, or the target is on top and its path is read back. */
  ghost predicate Returns(s: Search, target: PeerId, path: Option<seq<PeerId>>) {
    match path
    case None => s.heap == multiset{}
    case Some(p) =>
      && (exists top :: IsLeast(top, s.heap) && top.node == target)
      && IsPredPath(s.pred, p) && p[0] !in s.pred && p[|p| - 1] == target
  }

  /** What the proof follows besides the state: labels, expanded nodes, and the node being expanded. */
  datatype Track = Track(
    labels: map<PeerId, seq<PeerId>>,
    done: set<PeerId>,
    expanded: seq<PeerId>,
    cur: PeerId,
    at: real)

  ghost predicate OnTrack(w: Weights, start: PeerId, limit: Option<real>, target: PeerId, s: Search, t: Track) {
    Ready(w, start, limit, target, s, t.labels, t.done, t.expanded, t.cur, t.at)
  }

  lemma HeapShrinks(w: Weights, start: PeerId, before: Search, s: Search, top: SearchState)
    requires top in before.heap
    requires Improvable(w, start, s) < Improvable(w, start, before) || s == Popped(before, top)
    ensures Improvable(w, start, s) < Improvable(w, start, before)
            || (Improvable(w, start, s) == Improvable(w, start, before) && |s.heap| < |before.heap|)
  {
    if s == Popped(before, top) {
      assert forall p :: WouldImprove(w, s, p) <==> WouldImprove(w, before, p);
    }
  }

  // ----- When every schedule ends

  /** The target can be reached within a limit within which no negative cycle can be gone round. */
  ghost predicate ReachedCalmly(w: Weights, start: PeerId, target: PeerId, p: seq<PeerId>, b: real) {
    PeakWithin(w, p, Some(b)) && WalkBetween(w, p, start, target) && Calm(w, start, Some(b))
  }

  /** No negative cycle can be reached, or the target can be reached below all of them. */
  ghost predicate Settles(w: Weights, start: PeerId, target: PeerId) {
    || NoNegativeCycle(w - {target}, start)
    || exists p, b :: ReachedCalmly(w - {target}, start, target, p, b)
  }

  /** A limit under which the search stays calm. */
  ghost function SearchLimit(w: Weights, start: PeerId, target: PeerId): (limit: Option<real>)
    requires Settles(w, start, target)
    ensures Calm(w - {target}, start, limit)
    ensures limit.Some? ==> exists p :: ReachedCalmly(w - {target}, start, target, p, limit.value)
  {
    CalmIff(w - {target}, start);
    if p, b :| ReachedCalmly(w - {target}, start, target, p, b) then Some(b) else None
  }

  /** Every popped cost is within the limit. */
  lemma PoppedIsWithin(w: Weights, start: PeerId, limit: Option<real>, target: PeerId, s: Search, cur: PeerId,
                       at: real, top: SearchState)
    requires QueueOk(w, start, target, s, cur, at, {}) && IsLeast(top, s.heap)
    requires limit.Some? ==> exists p :: ReachedCalmly(w, start, target, p, limit.value)
    ensures Within(top.cost, limit)
  {
    if limit.Some? {
      var p :| ReachedCalmly(w, start, target, p, limit.value);
      LeastIsBelowTargetPeak(w, start, target, s, cur, at, top, p, limit.value);
    }
  }

  /** The path costs no more than the peak of any walk to the target. */
  ghost predicate BelowPeaks(w: Weights, start: PeerId, target: PeerId, path: seq<PeerId>) {
    && IsWalk(w, path)
    && forall q, b | WalkBetween(w, q, start, target) && PeakWithin(w, q, Some(b)) :: WalkCost(w, path) <= b
  }

  lemma PoppedPathIsGood(w: Weights, start: PeerId, target: PeerId, s: Search, cur: PeerId, at: real,
                         top: SearchState, path: seq<PeerId>)
    requires QueueOk(w - {target}, start, target, s, cur, at, {})
    requires IsLeast(top, s.heap) && top.node == target && target in s.dist
    requires WalkBetween(w - {target}, path, start, target) && WalkCost(w - {target}, path) <= s.dist[target]
    ensures WalkBetween(w, path, start, target) && BelowPeaks(w, start, target, path)
    ensures NonNegative(w) ==> IsShortest(w, path, start, target)
  {
    WalkInMore(w - {target}, w, path);
    forall q, b | WalkBetween(w, q, start, target) && PeakWithin(w, q, Some(b)) ensures WalkCost(w, path) <= b {
      var q' := PeakIgnoresTargetLinks(w, q, start, target, Some(b));
      PoppedTargetIsBelowPeaks(w - {target}, start, target, s, cur, at, top, q', b);
    }
    if NonNegative(w) {
      forall q | WalkBetween(w, q, start, target) ensures WalkCost(w, path) <= WalkCost(w, q) {
        NonNegativePeak(w, q, Some(WalkCost(w, q)));
      }
    }
  }

  lemma NonNegativeSettles(w: Weights, start: PeerId, target: PeerId)
    requires NonNegative(w)
    ensures Settles(w, start, target)
  {
    NonNegativeHasNoNegativeCycle(w - {target}, start);
  }

  /** A directed, weighted topology, changed in place as links come and go. */
  class RouteGraph {
    var edges: Topology

    constructor ()
      ensures edges == map[]
    {
      edges := map[];
    }

    method AddLink(from: PeerId, to: PeerId, metrics: LinkMetrics)
      modifies this
      ensures edges == WithLink(old(edges), from, to, metrics)
      ensures LinkOf(edges, from, to) == Some(metrics)
      ensures forall u, v | (u, v) != (from, to) :: LinkOf(edges, u, v) == LinkOf(old(edges), u, v)
    {
      var neighbours := if from in edges then edges[from] else map[];
      edges := edges[from := neighbours[to := metrics]];
    }

    method RemoveLink(from: PeerId, to: PeerId)
      modifies this
      ensures LinkOf(edges, from, to) == None
      ensures forall u, v | (u, v) != (from, to) :: LinkOf(edges, u, v) == LinkOf(old(edges), u, v)
      ensures forall u | u in edges && edges[u] == map[] :: u in old(edges) && old(edges)[u] == map[]
    {
      if from in edges {
        var neighbours := edges[from] - {to};
        assert to !in neighbours;
        if neighbours == map[] {
          assert forall v | v in edges[from] :: v == to || v in neighbours;
          edges := edges - {from};
        } else {
          edges := edges[from := neighbours];
        }
      }
    }

    method GetLink(from: PeerId, to: PeerId) returns (r: Option<LinkMetrics>)
      ensures r.Some? <==> from in edges && to in edges[from]
      ensures r.Some? ==> r.value == edges[from][to]
    {
      if from !in edges {
        return None;
      }
      var neighbours := edges[from];
      r := if to in neighbours then Some(neighbours[to]) else None;
    }

    static method CostOf(neighbours: map<PeerId, LinkMetrics>, v: PeerId, ghost g: Topology, ghost w: Weights,
                         ghost node: PeerId, ghost target: PeerId)
      returns (cost: real)
      requires node in g && neighbours == g[node] && v in neighbours && w == WeightsOf(g) - {target} && node != target
      ensures Edge(w, node, v) && cost == w[node][v]
    {
      cost := neighbours[v].Cost();
    }

    /** One link of the node being expanded. */
    static method RelaxNeighbour(node: PeerId, cost: real, v: PeerId, linkCost: real, s0: Search, ghost w: Weights)
      returns (s: Search)
      requires Edge(w, node, v) && linkCost == w[node][v]
      ensures s == RelaxLink(w, s0, node, cost, v)
    {
      s := s0;
      var next := cost + linkCost;
      if v !in s.dist || next < s.dist[v] {
        s := Improved(s, node, v, next);
      }
    }

    /** The scan over one node's neighbours, in any order. */
    method RelaxNeighbours(node: PeerId, cost: real, s0: Search, ghost w: Weights, ghost start: PeerId,
                           ghost limit: Option<real>, ghost target: PeerId,
                           ghost labels0: map<PeerId, seq<PeerId>>, ghost done: set<PeerId>)
      returns (s: Search, ghost labels: map<PeerId, seq<PeerId>>, ghost order: seq<PeerId>)
      requires node in edges && w == WeightsOf(edges) - {target} && node != target
      requires Scanning(w, start, limit, target, s0, labels0, done, node, cost, edges[node].Keys)
      ensures IsOrder(w, node, order) && s == RelaxAll(w, s0, node, cost, order)
      ensures Scanning(w, start, limit, target, s, labels, done, node, cost, {})
      ensures s == s0 || Improvable(w, start, s) < Improvable(w, start, s0)
    {
      s, order := s0, [];
      var neighbours := edges[node];
      var todo := neighbours.Keys;
      assert neighbours.Keys == w[node].Keys;
      while todo != {}
        invariant todo <= neighbours.Keys
        invariant NoRepeats(order) && forall x :: x in order <==> x in neighbours && x !in todo
        invariant s == RelaxAll(w, s0, node, cost, order)
      {
        var v :| v in todo;
        var linkCost := CostOf(neighbours, v, edges, w, node, target);
        RelaxAllAppend(w, s0, node, cost, order, v);
        s := RelaxNeighbour(node, cost, v, linkCost, s, w);
        order, todo := order + [v], todo - {v};
      }
      labels := ScanAll(w, start, limit, target, s0, labels0, done, node, cost, edges[node].Keys, order);
    }

    /** Follows predecessors back from the target, then reverses what was collected. */
    static method Reconstruct(pred: map<PeerId, PeerId>, target: PeerId) returns (path: seq<PeerId>)
      requires Ends(pred, target)
      ensures IsPredPath(pred, path) && path[0] !in pred && path[|path| - 1] == target
      ensures NoRepeats(path)
    {
      var current := target;
      var collected := [current];
      ghost var root, n: nat :| Above(pred, root, target, n) && root !in pred;
      while current in pred
        invariant IsPredPath(pred, Reversed(collected)) && Reversed(collected)[0] == current
        invariant Reversed(collected)[|Reversed(collected)| - 1] == target
        invariant Above(pred, root, current, n)
        decreases n
      {
        PrependPred(pred, Reversed(collected));
        current, n := pred[current], n - 1;
        assert (collected + [current])[..|collected|] == collected;
        collected := collected + [current];
      }
      path := Reversed(collected);
      PredPathHasNoRepeats(pred, path);
    }

    /** The chosen path out of a search that has popped its target. */
    static method ChosenPath(s: Search, target: PeerId, ghost w: Weights, ghost start: PeerId,
                             ghost limit: Option<real>)
      returns (path: seq<PeerId>)
      requires TreeOk(w, start, limit, s) && target in s.dist
      ensures WalkBetween(w, path, start, target) && NoRepeats(path) && WalkCost(w, path) <= s.dist[target]
      ensures IsPredPath(s.pred, path) && path[0] !in s.pred
    {
      TreeEnds(w, start, limit, s, target);
      path := Reconstruct(s.pred, target);
      ReadBackIsWalk(w, start, limit, s, path);
    }

    /** One turn of the main loop: a popped entry that is not stale is expanded. */
    method Expand(top: SearchState, before: Search, ghost w: Weights, ghost start: PeerId, ghost limit: Option<real>,
                  ghost target: PeerId, ghost labels0: map<PeerId, seq<PeerId>>, ghost done: set<PeerId>,
                  ghost expanded: seq<PeerId>, ghost cur: PeerId, ghost at: real)
      returns (s: Search, ghost labels: map<PeerId, seq<PeerId>>, ghost order: seq<PeerId>)
      requires w == WeightsOf(edges) - {target}
      requires Ready(w, start, limit, target, before, labels0, done, expanded, cur, at)
      requires IsLeast(top, before.heap) && top.node != target && Within(top.cost, limit)
      requires top.node in before.dist && top.cost <= before.dist[top.node]
      ensures Turn(w, target, before, top, order, s)
      ensures Ready(w, start, limit, target, s, labels, done + {top.node}, expanded + [top.node], top.node, top.cost)
      ensures Improvable(w, start, s) < Improvable(w, start, before) || s == Popped(before, top)
    {
      s, labels, order := Popped(before, top), labels0, [];
      ghost var todo := if top.node in edges then edges[top.node].Keys else {};
      ReadyExpands(w, start, limit, target, before, labels, done, expanded, cur, at, top, todo);
      if top.node in edges {
        s, labels, order := RelaxNeighbours(top.node, top.cost, s, w, start, limit, target, labels, done + {top.node});
      }
      ScanEnds(w, start, limit, target, s, labels, done, expanded, top.node, top.cost);
    }

    /**
     * Whatever order the neighbours come in and however the heap breaks ties: the search ends if the
     * target can be reached below every negative round, or there is none, and finds a path without
     * repeated nodes exactly when there is one. The path never costs more than the peak of any walk;
     * with non-negative costs it is therefore a cheapest route, although the target is tested before
     * staleness, and no node is expanded twice. `run` lists the states the search went through.
     */
    method FindShortestPath(start: PeerId, target: PeerId)
      returns (path: Option<seq<PeerId>>, ghost expanded: seq<PeerId>, ghost run: seq<Search>)
      requires Settles(WeightsOf(edges), start, target)
      ensures path.None? <==> !exists q :: RouteBetween(edges, q, start, target)
      ensures path.Some? ==> RouteBetween(edges, path.value, start, target) && NoRepeats(path.value)
      ensures path.Some? && NoNegativeLink(edges) ==> IsCheapestRoute(edges, path.value, start, target)
      ensures NoNegativeLink(edges) ==> NoRepeats(expanded)
      ensures path.Some? ==> BelowPeaks(WeightsOf(edges), start, target, path.value)
      ensures IsRun(WeightsOf(edges), start, target, run) && Returns(run[|run| - 1], target, path)
    {
      path, expanded, run := SearchLoop(start, target);
      ghost var w := WeightsOf(edges);
      RoutableIsReachable(edges, start, target);
      NoNegativeLinkIff(edges);
      if path.Some? {
        RoutesAreWalks(edges, w, path.value);
        CheapestIsShortest(edges, w, path.value, start, target);
      }
      RunIgnoresTarget(w, start, target, run);
    }

    /** One turn of the main loop: a popped entry is skipped if it is stale, and expanded otherwise. */
    method TakeTurn(top: SearchState, before: Search, ghost w: Weights, ghost start: PeerId, ghost limit: Option<real>,
                    ghost target: PeerId, ghost track: Track)
      returns (s: Search, ghost track': Track, ghost order: seq<PeerId>)
      requires w == WeightsOf(edges) - {target} && OnTrack(w, start, limit, target, before, track)
      requires IsLeast(top, before.heap) && top.node != target && Within(top.cost, limit)
      ensures Turn(w, target, before, top, order, s) && OnTrack(w, start, limit, target, s, track')
      ensures Improvable(w, start, s) < Improvable(w, start, before)
              || (Improvable(w, start, s) == Improvable(w, start, before) && |s.heap| < |before.heap|)
    {
      assert before.heap[top] > 0;
      s := Popped(before, top);
      if top.node in s.dist && top.cost > s.dist[top.node] {
        ReadySkips(w, start, limit, target, before, track.labels, track.done, track.expanded, track.cur, track.at, top);
        track' := track;
        order := OrderExists(if top.node in w then w[top.node].Keys else {});
      } else {
        ghost var labels;
        s, labels, order := Expand(top, before, w, start, limit, target, track.labels, track.done, track.expanded,
                                   track.cur, track.at);
        track' := Track(labels, track.done + {top.node}, track.expanded + [top.node], top.node, top.cost);
        HeapShrinks(w, start, before, s, top);
      }
    }

    /** The loop, with the results stated on the weighted graph. */
    method SearchLoop(start: PeerId, target: PeerId)
      returns (path: Option<seq<PeerId>>, ghost expanded: seq<PeerId>, ghost run: seq<Search>)
      requires Settles(WeightsOf(edges), start, target)
      ensures path.None? <==> !CanReach(WeightsOf(edges), start, target)
      ensures path.Some? ==> WalkBetween(WeightsOf(edges), path.value, start, target) && NoRepeats(path.value)
      ensures path.Some? ==> BelowPeaks(WeightsOf(edges), start, target, path.value)
      ensures NonNegative(WeightsOf(edges)) && path.Some? ==> IsShortest(WeightsOf(edges), path.value, start, target)
      ensures NonNegative(WeightsOf(edges)) ==> NoRepeats(expanded)
      ensures IsRun(WeightsOf(edges) - {target}, start, target, run) && Returns(run[|run| - 1], target, path)
    {
      ghost var w := WeightsOf(edges) - {target};
      ghost var limit := SearchLimit(WeightsOf(edges), start, target);
      ghost var track, order := Track(map[start := [start]], {}, [], start, 0.0), [];
      var s := Begin(start);
      run := [s];
      ReadyAtBegin(w, start, limit, target);
      while s.heap != multiset{}
        invariant OnTrack(w, start, limit, target, s, track)
        invariant IsRun(w, start, target, run) && run[|run| - 1] == s
        decreases Improvable(w, start, s), |s.heap|
      {
        LeastExists(s.heap);
        var top :| IsLeast(top, s.heap);
        if top.node == target {
          assert s.heap[top] > 0;
          var p := ChosenPath(s, target, w, start, limit);
          PoppedPathIsGood(WeightsOf(edges), start, target, s, track.cur, track.at, top, p);
          return Some(p), track.expanded, run;
        }
        PoppedIsWithin(w, start, limit, target, s, track.cur, track.at, top);
        s, track, order := TakeTurn(top, s, w, start, limit, target, track);
        RunGrows(w, start, target, run, top, order, s);
        run := run + [s];
      }
      ExhaustedMeansUnreachable(w, start, target, s, track.cur, track.at);
      ReachIgnoresTargetLinks(WeightsOf(edges), start, target);
      path, expanded := None, track.expanded;
    }
  }
}
