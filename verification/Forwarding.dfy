/** Hop-by-hop forwarding: every router decides alone, and packets still arrive without loops. */
module Forwarding {
  import opened MeshTypes
  import opened Walks
  import opened ShortestPath
  import opened Routing

  /** Each node of the trail handed the packet to the first hop of some shortest path of its own. */
  ghost predicate IsTrail(w: Weights, trail: seq<PeerId>, target: PeerId) {
    && trail != []
    && (|trail| > 1 ==>
          && IsTrail(w, trail[..|trail| - 1], target)
          && ShortestFirstHop(w, trail[|trail| - 2], target, trail[|trail| - 1]))
  }

  /** `rest` finishes the trail, and the whole is a shortest walk. */
  ghost predicate Completes(w: Weights, trail: seq<PeerId>, target: PeerId, rest: seq<PeerId>)
  {
    && trail != []
    && IsShortest(w, rest, trail[|trail| - 1], target)
    && IsShortest(w, trail[..|trail| - 1] + rest, trail[0], target)
  }

  /** Whatever ties each router broke, the trail so far is the beginning of a shortest walk. */
  lemma {:induction false} TrailsStayShortest(w: Weights, trail: seq<PeerId>, target: PeerId)
    requires IsTrail(w, trail, target) && |trail| > 1
    ensures exists rest :: Completes(w, trail, target, rest)
    decreases |trail|
  {
    var n := |trail|;
    var at, hop := trail[n - 2], trail[n - 1];
    var p :| IsShortest(w, p, at, target) && |p| > 1 && p[1] == hop;
    ShortestTail(w, p, at, target);
    assert trail[..n - 1] + p[1..] == trail[..n - 2] + p by {
      assert p == [at] + p[1..];
    }
    if n == 2 {
      assert trail[..0] + p == p;
    } else {
      TrailsStayShortest(w, trail[..n - 1], target);
      var rest :| Completes(w, trail[..n - 1], target, rest);
      assert trail[..n - 1][..n - 2] == trail[..n - 2];
      SwapTail(w, trail[..n - 2], rest, p, trail[0], target);
    }
    assert Completes(w, trail, target, p[1..]);
  }

  /** Replacing a shortest tail by another shortest tail leaves the walk shortest. */
  lemma SwapTail(w: Weights, head: seq<PeerId>, a: seq<PeerId>, b: seq<PeerId>, s: PeerId, t: PeerId)
    requires a != [] && IsShortest(w, head + a, s, t) && IsShortest(w, a, a[0], t) && IsShortest(w, b, a[0], t)
    ensures IsShortest(w, head + b, s, t)
  {
    assert WalkCost(w, a) == WalkCost(w, b);
    assert IsWalk(w, head + [a[0]]) && WalkCost(w, head + a) == WalkCost(w, head + [a[0]]) + WalkCost(w, a) by {
      SplitAt(w, head, a);
    }
    assert IsWalk(w, head + b) && WalkCost(w, head + b) == WalkCost(w, head + a) by {
      GlueAt(w, head, b);
    }
    assert (head + b)[0] == (head + a)[0];
  }

  /** No trail under positive costs meets a node twice, and one that arrives is a shortest path. */
  lemma TrailsAreLoopFree(w: Weights, trail: seq<PeerId>, target: PeerId)
    requires Positive(w) && IsTrail(w, trail, target)
    ensures NoRepeats(trail)
    ensures trail[|trail| - 1] == target ==> IsShortest(w, trail, trail[0], target)
  {
    if |trail| == 1 {
      StayingIsShortest(w, trail[0]);
    } else {
      TrailsStayShortest(w, trail, target);
      var rest :| Completes(w, trail, target, rest);
      CompletedTrailIsLoopFree(w, trail, target, rest);
    }
  }

  lemma CompletedTrailIsLoopFree(w: Weights, trail: seq<PeerId>, target: PeerId, rest: seq<PeerId>)
    requires Positive(w) && Completes(w, trail, target, rest)
    ensures NoRepeats(trail)
    ensures trail[|trail| - 1] == target ==> IsShortest(w, trail, trail[0], target)
  {
    var whole := trail[..|trail| - 1] + rest;
    ShortestHasNoRepeats(w, whole, trail[0], target);
    assert trail <= whole;
    if trail[|trail| - 1] == target {
      assert rest == [target] by {
        ShortestHasNoRepeats(w, rest, target, target);
      }
      assert whole == trail;
    }
  }

  lemma StayingIsShortest(w: Weights, s: PeerId)
    requires Positive(w)
    ensures IsShortest(w, [s], s, s)
  {
    forall q | WalkBetween(w, q, s, s) ensures WalkCost(w, [s]) <= WalkCost(w, q) {
      WalkCostNonNegative(w, q);
    }
  }

  /** A router's next hop extends the trail to a new node from which the target is still reachable. */
  lemma HopExtendsTrail(w: Weights, trail: seq<PeerId>, target: PeerId, hop: PeerId)
    requires Positive(w) && IsTrail(w, trail, target)
    requires ShortestFirstHop(w, trail[|trail| - 1], target, hop)
    ensures IsTrail(w, trail + [hop], target)
    ensures hop !in trail && hop in Nodes(w) && CanReach(w, hop, target)
  {
    var at := trail[|trail| - 1];
    var p :| IsShortest(w, p, at, target) && |p| > 1 && p[1] == hop;
    ShortestTail(w, p, at, target);
    var longer := trail + [hop];
    assert longer[..|longer| - 1] == trail;
    TrailsAreLoopFree(w, longer, target);
    forall i | 0 <= i < |trail| ensures trail[i] != hop {
      assert longer[i] != longer[|trail|];
    }
  }

  /** Every router holds the same topology and sits at its own node. */
  ghost predicate SameView(routers: map<PeerId, Router>, w: Weights)
    reads set p | p in routers :: routers[p].graph
  {
    forall p | p in routers :: routers[p].localPeerId == p && WeightsOf(routers[p].graph.edges) == w
  }

  method HopOf(router: Router, ghost w: Weights, target: PeerId) returns (hop: Option<PeerId>)
    requires Positive(w) && WeightsOf(router.graph.edges) == w
    ensures hop.None? <==> target == router.localPeerId || !CanReach(w, router.localPeerId, target)
    ensures hop.Some? ==> ShortestFirstHop(w, router.localPeerId, target, hop.value)
  {
    NonNegativeSettles(w, router.localPeerId, target);
    hop := router.NextHop(target);
    RoutableIsReachable(router.graph.edges, router.localPeerId, target);
    NoNegativeLinkIff(router.graph.edges);
    if hop.Some? {
      CheapestHopIsShortest(router.graph.edges, router.localPeerId, target, hop.value);
    }
  }

  /** The routers that the trail has not met. */
  ghost function Unmet(routers: set<PeerId>, trail: seq<PeerId>): (rest: set<PeerId>) {
    set x | x in routers && x !in trail
  }

  /** The packet is at a router that can still reach the target. */
  ghost predicate OnItsWay(w: Weights, routers: set<PeerId>, trail: seq<PeerId>, target: PeerId) {
    IsTrail(w, trail, target) && trail[|trail| - 1] in routers && CanReach(w, trail[|trail| - 1], target)
  }

  /** The router at the end of the trail passes the packet on. */
  method PassOn(routers: map<PeerId, Router>, ghost w: Weights, trail: seq<PeerId>, target: PeerId)
    returns (longer: seq<PeerId>)
    requires Positive(w) && SameView(routers, w) && Nodes(w) <= routers.Keys
    requires OnItsWay(w, routers.Keys, trail, target) && trail[|trail| - 1] != target
    ensures OnItsWay(w, routers.Keys, longer, target) && longer[0] == trail[0]
    ensures Unmet(routers.Keys, longer) < Unmet(routers.Keys, trail)
  {
    var hop := HopOf(routers[trail[|trail| - 1]], w, target);
    HopExtendsTrail(w, trail, target, hop.value);
    longer := trail + [hop.value];
    assert hop.value in Unmet(routers.Keys, trail);
  }

  /** A packet is handed from router to router by `NextHop` until it arrives: it always does. */
  method Forward(routers: map<PeerId, Router>, ghost w: Weights, from: PeerId, target: PeerId)
    returns (trail: seq<PeerId>)
    requires Positive(w) && SameView(routers, w)
    requires from in routers && Nodes(w) <= routers.Keys
    requires CanReach(w, from, target)
    ensures IsTrail(w, trail, target)
    ensures IsShortest(w, trail, from, target) && NoRepeats(trail)
  {
    trail := [from];
    while trail[|trail| - 1] != target
      invariant OnItsWay(w, routers.Keys, trail, target) && trail[0] == from
      decreases Unmet(routers.Keys, trail)
    {
      trail := PassOn(routers, w, trail, target);
    }
    TrailsAreLoopFree(w, trail, target);
  }
}
