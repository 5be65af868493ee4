/**
 * Forwarding where every router decides on its own partial view: it knows the links of the sources it
 * hears, and updates are not passed on.
 */
module LocalViews {
  import opened MeshTypes
  import opened Walks
  import opened Routing

  /** Routers at rest: what each one knows, who sends to whom, and the cost of every measured link. */
  datatype Net = Net(
    views: map<PeerId, Weights>,
    sessions: set<(PeerId, PeerId)>,
    costs: map<Link, real>)

  /** `w` has exactly the links of the sources that `i` hears, at their costs. */
  ghost predicate Sees(net: Net, i: PeerId, w: Weights) {
    && (forall u, v {:trigger Edge(w, u, v)} {:trigger (u, v) in net.costs} ::
          Edge(w, u, v) <==> (u, v) in net.costs && Hears(net.sessions, i, u))
    && (forall u, v {:trigger Edge(w, u, v)} | Edge(w, u, v) :: w[u][v] == net.costs[(u, v)])
  }

  ghost predicate NetOk(net: Net) {
    && (forall i {:trigger net.views[i]} | i in net.views :: Sees(net, i, net.views[i]))
    && (forall l {:trigger l in net.costs} | l in net.costs ::
          net.costs[l] > 0.0 && l in net.sessions && l.0 in net.views)
  }

  /** A route that router `at` may choose: cheapest in its own view, and with a first hop. */
  ghost predicate IsRoute(net: Net, at: PeerId, target: PeerId, route: seq<PeerId>) {
    at in net.views && |route| > 1 && IsShortest(net.views[at], route, at, target)
  }

  /** Every node of the trail but the last handed the packet to the first hop of a route of its own. */
  ghost predicate IsMeshTrail(net: Net, trail: seq<PeerId>, routes: seq<seq<PeerId>>, target: PeerId) {
    && |trail| == |routes| + 1
    && forall k {:trigger routes[k]} | 0 <= k < |routes| ::
         IsRoute(net, trail[k], target, routes[k]) && routes[k][1] == trail[k + 1]
  }

  /** The first hop hears every router that the rest of the route goes through. */
  ghost predicate Carried(sessions: set<(PeerId, PeerId)>, route: seq<PeerId>) {
    forall k | 1 <= k < |route| - 1 :: Hears(sessions, route[1], route[k])
  }

  lemma ViewIsPositive(net: Net, i: PeerId)
    requires NetOk(net) && i in net.views
    ensures Positive(net.views[i]) && NonNegative(net.views[i])
  {
    var w := net.views[i];
    assert Sees(net, i, w);
    forall u, v | Edge(w, u, v) ensures w[u][v] > 0.0 {
      assert (u, v) in net.costs;
    }
  }

  // ----- One hop

  /** The link was measured by a router that `i` hears. */
  ghost predicate HeardLink(net: Net, i: PeerId, u: PeerId, v: PeerId) {
    (u, v) in net.costs && Hears(net.sessions, i, u)
  }

  /** Every link of the sequence was measured by a router that `i` hears. */
  ghost predicate HeardAlong(net: Net, i: PeerId, p: seq<PeerId>) {
    forall k, n {:trigger p[k], p[n]} | 0 <= k < |p| && n == k + 1 < |p| :: HeardLink(net, i, p[k], p[n])
  }

  lemma WalkIsHeard(net: Net, i: PeerId, p: seq<PeerId>)
    requires p != [] && i in net.views && Sees(net, i, net.views[i])
    ensures IsWalk(net.views[i], p) <==> HeardAlong(net, i, p)
  {
    var w := net.views[i];
    WalkLinks(w, p);
    LinkedIsHeard(net, i, w, p);
  }

  lemma LinkedIsHeard(net: Net, i: PeerId, w: Weights, p: seq<PeerId>)
    requires Sees(net, i, w)
    ensures Linked(w, p) <==> HeardAlong(net, i, p)
  {
    forall k, n {:trigger p[k], p[n]} | 0 <= k < |p| && n == k + 1 < |p|
      ensures Edge(w, p[k], p[n]) <==> HeardLink(net, i, p[k], p[n])
    {
      SeenLink(net, i, w, p[k], p[n]);
    }
  }

  lemma SeenLink(net: Net, i: PeerId, w: Weights, u: PeerId, v: PeerId)
    requires Sees(net, i, w)
    ensures Edge(w, u, v) <==> HeardLink(net, i, u, v)
    ensures Edge(w, u, v) ==> w[u][v] == net.costs[(u, v)]
  {
  }

  /** Two routers that both know a walk agree on its cost. */
  lemma CommonWalkCost(net: Net, i: PeerId, j: PeerId, p: seq<PeerId>)
    requires i in net.views && j in net.views && Sees(net, i, net.views[i]) && Sees(net, j, net.views[j])
    requires IsWalk(net.views[i], p) && IsWalk(net.views[j], p)
    ensures WalkCost(net.views[i], p) == WalkCost(net.views[j], p)
  {
    var w, w' := net.views[i], net.views[j];
    WalkLinks(w, p);
    WalkLinks(w', p);
    forall k, n {:trigger p[k], p[n]} | 0 <= k < |p| && n == k + 1 < |p|
      ensures Edge(w, p[k], p[n]) && Edge(w', p[k], p[n]) && w[p[k]][p[n]] == w'[p[k]][p[n]]
    {
      SeenLink(net, i, w, p[k], p[n]);
      SeenLink(net, j, w', p[k], p[n]);
    }
    SharedWalk(w, w', p);
  }

  lemma TailIsHeardIff(net: Net, at: PeerId, route: seq<PeerId>)
    requires |route| > 1 && HeardAlong(net, at, route)
    ensures HeardAlong(net, route[1], route[1..]) <==> Carried(net.sessions, route)
  {
    var tail := route[1..];
    if Carried(net.sessions, route) {
      forall k, n {:trigger tail[k], tail[n]} | 0 <= k < |tail| && n == k + 1 < |tail|
        ensures HeardLink(net, route[1], tail[k], tail[n])
      {
        assert tail[k] == route[k + 1] && tail[n] == route[n + 1];
      }
    }
    if HeardAlong(net, route[1], tail) {
      forall k | 1 <= k < |route| - 1 ensures Hears(net.sessions, route[1], route[k]) {
        assert route[k] == tail[k - 1] && route[k + 1] == tail[k];
      }
    }
  }

  /** The router a route goes to next knows the rest of it exactly when the route is carried. */
  lemma TailIsKnownIff(net: Net, at: PeerId, target: PeerId, route: seq<PeerId>)
    requires NetOk(net) && IsRoute(net, at, target, route) && route[1] in net.views
    ensures IsWalk(net.views[route[1]], route[1..]) <==> Carried(net.sessions, route)
  {
    assert Sees(net, at, net.views[at]) && Sees(net, route[1], net.views[route[1]]);
    WalkIsHeard(net, at, route);
    WalkIsHeard(net, route[1], route[1..]);
    TailIsHeardIff(net, at, route);
  }

  /** A carried hop brings the packet closer by the cost of the link, in the next router's own view. */
  lemma CarriedHopDescends(net: Net, at: PeerId, target: PeerId, route: seq<PeerId>)
    requires NetOk(net) && IsRoute(net, at, target, route) && route[1] in net.views && Carried(net.sessions, route)
    ensures (at, route[1]) in net.costs && WalkBetween(net.views[route[1]], route[1..], route[1], target)
    ensures WalkCost(net.views[route[1]], route[1..]) + net.costs[(at, route[1])] == WalkCost(net.views[at], route)
  {
    var w := net.views[at];
    FirstLinkCost(w, route);
    TailIsKnownIff(net, at, target, route);
    CommonWalkCost(net, at, route[1], route[1..]);
    assert Sees(net, at, w) && Edge(w, at, route[1]);
  }

  lemma HopCost(net: Net, at: PeerId, target: PeerId, route: seq<PeerId>)
    requires NetOk(net) && IsRoute(net, at, target, route)
    ensures (at, route[1]) in net.costs && IsWalk(net.views[at], route[1..])
    ensures WalkCost(net.views[at], route) == net.costs[(at, route[1])] + WalkCost(net.views[at], route[1..])
    ensures WalkCost(net.views[at], route[1..]) >= 0.0
  {
    FirstLinkCost(net.views[at], route);
    assert Sees(net, at, net.views[at]) && Edge(net.views[at], at, route[1]);
    ViewIsPositive(net, at);
    WalkCostNonNegative(net.views[at], route[1..]);
  }

  // ----- Whole trails

  ghost predicate AllCarried(sessions: set<(PeerId, PeerId)>, routes: seq<seq<PeerId>>) {
    forall k {:trigger routes[k]} | 0 <= k < |routes| :: Carried(sessions, routes[k])
  }

  /** Where a trail has come to, the rest of the previous router's route is a way to the target. */
  lemma HopLeavesAWay(net: Net, trail: seq<PeerId>, routes: seq<seq<PeerId>>, target: PeerId, k: nat)
    requires NetOk(net) && IsMeshTrail(net, trail, routes, target) && AllCarried(net.sessions, routes)
    requires k < |routes| && trail[k + 1] in net.views
    ensures (trail[k], trail[k + 1]) in net.costs && net.costs[(trail[k], trail[k + 1])] > 0.0
    ensures WalkBetween(net.views[trail[k + 1]], routes[k][1..], trail[k + 1], target)
    ensures WalkCost(net.views[trail[k + 1]], routes[k][1..]) + net.costs[(trail[k], trail[k + 1])]
            == WalkCost(net.views[trail[k]], routes[k])
  {
    var route := routes[k];
    CarriedHopDescends(net, trail[k], target, route);
  }

  lemma TrailFacts(net: Net, trail: seq<PeerId>, routes: seq<seq<PeerId>>, target: PeerId, k: nat)
    requires IsMeshTrail(net, trail, routes, target) && k < |routes|
    ensures IsRoute(net, trail[k], target, routes[k]) && routes[k][1] == trail[k + 1]
  {
    var route := routes[k];
  }

  /** How far each router of the trail is from the target, in its own view. */
  ghost function Distances(net: Net, trail: seq<PeerId>, routes: seq<seq<PeerId>>, target: PeerId): (ds: seq<real>)
    requires IsMeshTrail(net, trail, routes, target)
    ensures |ds| == |routes|
  {
    seq(|routes|, k requires 0 <= k < |routes| =>
          TrailFacts(net, trail, routes, target, k); WalkCost(net.views[trail[k]], routes[k]))
  }

  lemma DistanceAt(net: Net, trail: seq<PeerId>, routes: seq<seq<PeerId>>, target: PeerId, k: nat)
    requires IsMeshTrail(net, trail, routes, target) && k < |routes|
    ensures IsRoute(net, trail[k], target, routes[k]) && routes[k][1] == trail[k + 1]
    ensures Distances(net, trail, routes, target)[k] == WalkCost(net.views[trail[k]], routes[k])
  {
    TrailFacts(net, trail, routes, target, k);
  }

  ghost predicate Falling(ds: seq<real>) {
    forall a, b | 0 <= a < b < |ds| :: ds[b] < ds[a]
  }

  lemma {:induction false} StepsFall(ds: seq<real>, a: nat, b: nat)
    requires a < b < |ds| && forall k, n {:trigger ds[k], ds[n]} | 0 <= k < |ds| && n == k + 1 < |ds| :: ds[n] < ds[k]
    ensures ds[b] < ds[a]
    decreases b
  {
    if a < b - 1 {
      StepsFall(ds, a, b - 1);
    }
  }

  /** The next router finds a route at least as good as the rest of the one it was chosen for. */
  lemma NextRouteIsNoDearer(net: Net, trail: seq<PeerId>, routes: seq<seq<PeerId>>, target: PeerId, k: nat)
    requires NetOk(net) && IsMeshTrail(net, trail, routes, target) && AllCarried(net.sessions, routes)
    requires k + 1 < |routes|
    ensures IsRoute(net, trail[k], target, routes[k]) && IsRoute(net, trail[k + 1], target, routes[k + 1])
    ensures IsWalk(net.views[trail[k]], routes[k][1..])
    ensures WalkCost(net.views[trail[k + 1]], routes[k + 1]) <= WalkCost(net.views[trail[k]], routes[k][1..])
    ensures WalkCost(net.views[trail[k + 1]], routes[k + 1]) < WalkCost(net.views[trail[k]], routes[k])
  {
    TrailFacts(net, trail, routes, target, k);
    TrailFacts(net, trail, routes, target, k + 1);
    HopLeavesAWay(net, trail, routes, target, k);
    HopCost(net, trail[k], target, routes[k]);
  }

  /** Along a carried trail each router's own distance to the target is smaller than any before. */
  lemma DistanceFalls(net: Net, trail: seq<PeerId>, routes: seq<seq<PeerId>>, target: PeerId)
    requires NetOk(net) && IsMeshTrail(net, trail, routes, target) && AllCarried(net.sessions, routes)
    ensures Falling(Distances(net, trail, routes, target))
  {
    var ds := Distances(net, trail, routes, target);
    forall k, n {:trigger ds[k], ds[n]} | 0 <= k < |ds| && n == k + 1 < |ds| ensures ds[n] < ds[k] {
      DistanceAt(net, trail, routes, target, k);
      DistanceAt(net, trail, routes, target, n);
      NextRouteIsNoDearer(net, trail, routes, target, k);
    }
    forall a, b | 0 <= a < b < |ds| ensures ds[b] < ds[a] {
      StepsFall(ds, a, b);
    }
  }

  /** Whatever route router `at` chooses is cheaper than `d`. */
  ghost predicate CloserThan(net: Net, at: PeerId, target: PeerId, d: real) {
    forall route | IsRoute(net, at, target, route) :: WalkCost(net.views[at], route) < d
  }

  lemma HopIsCloser(net: Net, trail: seq<PeerId>, routes: seq<seq<PeerId>>, target: PeerId, k: nat)
    requires NetOk(net) && IsMeshTrail(net, trail, routes, target) && AllCarried(net.sessions, routes) && k < |routes|
    ensures CloserThan(net, trail[k + 1], target, Distances(net, trail, routes, target)[k])
  {
    var at := trail[k + 1];
    DistanceAt(net, trail, routes, target, k);
    forall route | IsRoute(net, at, target, route)
      ensures WalkCost(net.views[at], route) < WalkCost(net.views[trail[k]], routes[k])
    {
      HopLeavesAWay(net, trail, routes, target, k);
    }
  }

  /** A router on a falling trail is not the place the trail has come to. */
  lemma LastIsNew(net: Net, trail: seq<PeerId>, routes: seq<seq<PeerId>>, target: PeerId, a: nat)
    requires IsMeshTrail(net, trail, routes, target) && a < |routes|
    requires Falling(Distances(net, trail, routes, target))
    requires CloserThan(net, trail[|routes|], target, Distances(net, trail, routes, target)[|routes| - 1])
    ensures trail[a] != trail[|routes|]
  {
    DistanceAt(net, trail, routes, target, a);
  }

  lemma SameRouterSameDistance(net: Net, trail: seq<PeerId>, routes: seq<seq<PeerId>>, target: PeerId, a: nat, b: nat)
    requires IsMeshTrail(net, trail, routes, target) && a < b < |routes| && trail[a] == trail[b]
    ensures Distances(net, trail, routes, target)[a] == Distances(net, trail, routes, target)[b]
  {
    DistanceAt(net, trail, routes, target, a);
    DistanceAt(net, trail, routes, target, b);
  }

  lemma FallingHasNoLoops(net: Net, trail: seq<PeerId>, routes: seq<seq<PeerId>>, target: PeerId)
    requires IsMeshTrail(net, trail, routes, target) && Falling(Distances(net, trail, routes, target)) && routes != []
    requires CloserThan(net, trail[|routes|], target, Distances(net, trail, routes, target)[|routes| - 1])
    ensures NoRepeats(trail)
  {
    forall a, b | 0 <= a < b < |trail| ensures trail[a] != trail[b] {
      if b == |routes| {
        LastIsNew(net, trail, routes, target, a);
      } else if trail[a] == trail[b] {
        SameRouterSameDistance(net, trail, routes, target, a, b);
      }
    }
  }

  /** A carried trail meets no router twice. */
  lemma CarriedTrailHasNoLoops(net: Net, trail: seq<PeerId>, routes: seq<seq<PeerId>>, target: PeerId)
    requires NetOk(net) && IsMeshTrail(net, trail, routes, target) && AllCarried(net.sessions, routes)
    ensures NoRepeats(trail)
  {
    if routes != [] {
      DistanceFalls(net, trail, routes, target);
      HopIsCloser(net, trail, routes, target, |routes| - 1);
      FallingHasNoLoops(net, trail, routes, target);
    }
  }

  /** The router cannot pass the packet on: it is not one, or it has no route. */
  ghost predicate Stuck(net: Net, at: PeerId, target: PeerId) {
    forall route :: !IsRoute(net, at, target, route)
  }

  lemma WayMeansRoute(net: Net, at: PeerId, target: PeerId) returns (route: seq<PeerId>)
    requires NetOk(net) && at in net.views && at != target && CanReach(net.views[at], at, target)
    ensures IsRoute(net, at, target, route)
  {
    ViewIsPositive(net, at);
    NonNegativeHasNoNegativeCycle(net.views[at], at);
    route := ShortestExists(net.views[at], at, target);
  }

  /** A packet stops only where it was sent to. */
  lemma CarriedTrailArrives(net: Net, trail: seq<PeerId>, routes: seq<seq<PeerId>>, target: PeerId)
    requires NetOk(net) && IsMeshTrail(net, trail, routes, target) && AllCarried(net.sessions, routes)
    requires trail[0] in net.views && CanReach(net.views[trail[0]], trail[0], target)
    requires Stuck(net, trail[|trail| - 1], target)
    ensures trail[|trail| - 1] == target
  {
    var k := |routes|;
    var last := trail[k];
    if last != target {
      if k == 0 {
        var route := WayMeansRoute(net, last, target);
      } else {
        NextHopIsRouter(net, trail[k - 1], target, routes[k - 1]);
        HopLeavesAWay(net, trail, routes, target, k - 1);
        var route := WayMeansRoute(net, last, target);
      }
    }
  }

  /** A hop that is not the target itself has links of its own, so it is a router. */
  lemma NextHopIsRouter(net: Net, at: PeerId, target: PeerId, route: seq<PeerId>)
    requires NetOk(net) && IsRoute(net, at, target, route) && route[1] != target
    ensures route[1] in net.views
  {
    assert Sees(net, at, net.views[at]);
    WalkIsHeard(net, at, route);
    assert (route[1], route[2]) in net.costs;
  }

  /** What the links of a trail cost together. */
  ghost function TrailCost(net: Net, trail: seq<PeerId>): (cost: real) {
    if |trail| < 2 then 0.0
    else TrailCost(net, trail[..|trail| - 1]) + GetOr(net.costs, (trail[|trail| - 2], trail[|trail| - 1]), 0.0)
  }

  /** Hop `k` costs no more than it brings the packet closer by. */
  ghost predicate Pays(net: Net, trail: seq<PeerId>, ds: seq<real>, k: nat) {
    && k < |ds| < |trail|
    && GetOr(net.costs, (trail[k], trail[k + 1]), 0.0) <= ds[k] - if k + 1 < |ds| then ds[k + 1] else 0.0
  }

  lemma HopPays(net: Net, trail: seq<PeerId>, routes: seq<seq<PeerId>>, target: PeerId, k: nat)
    requires NetOk(net) && IsMeshTrail(net, trail, routes, target) && AllCarried(net.sessions, routes) && k < |routes|
    ensures Pays(net, trail, Distances(net, trail, routes, target), k)
  {
    DistanceAt(net, trail, routes, target, k);
    HopCost(net, trail[k], target, routes[k]);
    if k + 1 < |routes| {
      DistanceAt(net, trail, routes, target, k + 1);
      NextRouteIsNoDearer(net, trail, routes, target, k);
    }
  }

  lemma {:induction false} SpendingIsBounded(net: Net, trail: seq<PeerId>, ds: seq<real>, k: nat)
    requires k < |ds| < |trail| && forall i {:trigger Pays(net, trail, ds, i)} | 0 <= i <= k :: Pays(net, trail, ds, i)
    ensures TrailCost(net, trail[..k + 2]) + (if k + 1 < |ds| then ds[k + 1] else 0.0) <= ds[0]
    decreases k
  {
    assert trail[..k + 2][..k + 1] == trail[..k + 1];
    assert Pays(net, trail, ds, k);
    if k > 0 {
      SpendingIsBounded(net, trail, ds, k - 1);
    }
  }

  /** A carried packet never spends more than the cost its first router expected. */
  lemma CarriedTrailCost(net: Net, trail: seq<PeerId>, routes: seq<seq<PeerId>>, target: PeerId)
    requires NetOk(net) && IsMeshTrail(net, trail, routes, target) && AllCarried(net.sessions, routes) && routes != []
    ensures TrailCost(net, trail) <= Distances(net, trail, routes, target)[0]
  {
    var ds, n := Distances(net, trail, routes, target), |routes| - 1;
    forall k {:trigger Pays(net, trail, ds, k)} | 0 <= k <= n ensures Pays(net, trail, ds, k) {
      HopPays(net, trail, routes, target, k);
    }
    assert trail[..n + 2] == trail;
    SpendingIsBounded(net, trail, ds, n);
  }

  lemma TrailStaysAmongRouters(net: Net, trail: seq<PeerId>, routes: seq<seq<PeerId>>, target: PeerId)
    requires IsMeshTrail(net, trail, routes, target) && NoRepeats(trail)
    ensures |trail| <= |net.views| + 1
  {
    var n := |routes|;
    forall x | x in trail[..n] ensures x in net.views.Keys {
      var k :| 0 <= k < n && trail[k] == x;
      var route := routes[k];
    }
    NoRepeatsFits(trail[..n], net.views.Keys);
  }

  lemma CarriedTrailIsBounded(net: Net, trail: seq<PeerId>, routes: seq<seq<PeerId>>, target: PeerId)
    requires NetOk(net) && IsMeshTrail(net, trail, routes, target) && AllCarried(net.sessions, routes) && routes != []
    ensures NoRepeats(trail) && |trail| <= |net.views| + 1
    ensures trail[0] in net.views && IsWalk(net.views[trail[0]], routes[0])
    ensures TrailCost(net, trail) <= WalkCost(net.views[trail[0]], routes[0])
  {
    CarriedTrailHasNoLoops(net, trail, routes, target);
    TrailStaysAmongRouters(net, trail, routes, target);
    CarriedTrailCost(net, trail, routes, target);
    DistanceAt(net, trail, routes, target, 0);
  }

  // ----- The sessions for which every packet arrives

  /** A route that its first node could come to know and choose. */
  ghost predicate InEarshot(peers: set<PeerId>, sessions: set<(PeerId, PeerId)>, p: seq<PeerId>) {
    && |p| > 1 && NoRepeats(p)
    && forall k, n {:trigger p[k], p[n]} | 0 <= k < |p| && n == k + 1 < |p| ::
         (p[k], p[n]) in sessions && p[k] in peers && Hears(sessions, p[0], p[k])
  }

  /** Whoever is handed a packet hears every router on the way that the sender had in mind. */
  ghost predicate Relayed(peers: set<PeerId>, sessions: set<(PeerId, PeerId)>) {
    forall p | InEarshot(peers, sessions, p) :: Carried(sessions, p)
  }

  /** No packet that its first router can route meets a router twice or stops short of its target. */
  ghost predicate Delivers(net: Net) {
    forall trail, routes, target {:trigger IsMeshTrail(net, trail, routes, target)}
      | IsMeshTrail(net, trail, routes, target)
        && trail[0] in net.views && CanReach(net.views[trail[0]], trail[0], target) ::
      NoRepeats(trail) && (Stuck(net, trail[|trail| - 1], target) ==> trail[|trail| - 1] == target)
  }

  lemma RouteIsInEarshot(net: Net, at: PeerId, target: PeerId, route: seq<PeerId>)
    requires NetOk(net) && IsRoute(net, at, target, route)
    ensures InEarshot(net.views.Keys, net.sessions, route)
  {
    ViewIsPositive(net, at);
    ShortestHasNoRepeats(net.views[at], route, at, target);
    assert Sees(net, at, net.views[at]);
    WalkIsHeard(net, at, route);
    forall k, n {:trigger route[k], route[n]} | 0 <= k < |route| && n == k + 1 < |route|
      ensures (route[k], route[n]) in net.sessions && route[k] in net.views.Keys
      ensures Hears(net.sessions, route[0], route[k])
    {
      assert (route[k], route[n]) in net.costs;
    }
  }

  lemma RelayedCarriesAll(net: Net, trail: seq<PeerId>, routes: seq<seq<PeerId>>, target: PeerId)
    requires NetOk(net) && Relayed(net.views.Keys, net.sessions) && IsMeshTrail(net, trail, routes, target)
    ensures AllCarried(net.sessions, routes)
  {
    forall k | 0 <= k < |routes| ensures Carried(net.sessions, routes[k]) {
      RouteIsInEarshot(net, trail[k], target, routes[k]);
    }
  }

  lemma RelayedDelivers(net: Net)
    requires NetOk(net) && Relayed(net.views.Keys, net.sessions)
    ensures Delivers(net)
  {
    forall trail, routes, target | IsMeshTrail(net, trail, routes, target)
        && trail[0] in net.views && CanReach(net.views[trail[0]], trail[0], target)
      ensures NoRepeats(trail) && (Stuck(net, trail[|trail| - 1], target) ==> trail[|trail| - 1] == target)
    {
      RelayedCarriesAll(net, trail, routes, target);
      CarriedTrailHasNoLoops(net, trail, routes, target);
      if Stuck(net, trail[|trail| - 1], target) {
        CarriedTrailArrives(net, trail, routes, target);
      }
    }
  }

  // ----- Where the sessions are not relayed, some packet is lost

  /** The links of a path. */
  ghost function PathLinks(p: seq<PeerId>): (links: set<Link>) {
    set k, n {:trigger p[k], p[n]} | 0 <= k < |p| && 0 <= n < |p| && n == k + 1 :: (p[k], p[n])
  }

  /** The only measured links are those of `p`, and the first hop does not hear `p[j]`. */
  ghost predicate BrokenAt(net: Net, p: seq<PeerId>, j: nat) {
    && NetOk(net) && InEarshot(net.views.Keys, net.sessions, p) && net.costs.Keys == PathLinks(p)
    && 1 <= j < |p| - 1 && !Hears(net.sessions, p[1], p[j])
  }

  lemma LinkOfPath(p: seq<PeerId>, k: nat, v: PeerId)
    requires NoRepeats(p) && k < |p| && (p[k], v) in PathLinks(p)
    ensures k + 1 < |p| && v == p[k + 1]
  {
  }

  lemma HeardLinkOfPath(net: Net, p: seq<PeerId>, j: nat, w: Weights, a: nat, v: PeerId)
    requires NoRepeats(p) && net.costs.Keys == PathLinks(p) && 1 <= a <= j < |p| - 1
    requires !Hears(net.sessions, p[1], p[j]) && Sees(net, p[1], w) && Edge(w, p[a], v)
    ensures a < j && v == p[a + 1]
  {
    LinkOfPath(p, a, v);
  }

  /** What the first hop can reach ends at the router it does not hear. */
  lemma {:induction false} WalksStopBehind(net: Net, p: seq<PeerId>, j: nat, w: Weights, r: seq<PeerId>)
    returns (a: nat)
    requires NoRepeats(p) && net.costs.Keys == PathLinks(p) && 1 <= j < |p| - 1
    requires !Hears(net.sessions, p[1], p[j]) && Sees(net, p[1], w) && IsWalk(w, r) && r[0] == p[1]
    ensures 1 <= a <= j && r[|r| - 1] == p[a]
    decreases |r|
  {
    a := 1;
    if |r| > 1 {
      a := WalksStopBehind(net, p, j, w, r[..|r| - 1]);
      HeardLinkOfPath(net, p, j, w, a, r[|r| - 1]);
      a := a + 1;
    }
  }

  lemma FirstHopIsStuck(net: Net, p: seq<PeerId>, j: nat)
    requires BrokenAt(net, p, j)
    ensures Stuck(net, p[1], p[|p| - 1])
  {
    var at, target := p[1], p[|p| - 1];
    forall route | IsRoute(net, at, target, route) ensures false {
      var a := WalksStopBehind(net, p, j, net.views[at], route);
    }
  }

  lemma PathIsHeard(net: Net, p: seq<PeerId>)
    requires InEarshot(net.views.Keys, net.sessions, p) && net.costs.Keys == PathLinks(p)
    ensures HeardAlong(net, p[0], p) && p[0] in net.views
  {
    assert p[0] in net.views by { assert p[1] == p[1]; }
    forall k, n {:trigger p[k], p[n]} | 0 <= k < |p| && n == k + 1 < |p|
      ensures HeardLink(net, p[0], p[k], p[n])
    {
      assert (p[k], p[n]) in PathLinks(p);
    }
  }

  lemma PathIsWalk(net: Net, p: seq<PeerId>, j: nat)
    requires BrokenAt(net, p, j)
    ensures p[0] in net.views && WalkBetween(net.views[p[0]], p, p[0], p[|p| - 1])
  {
    PathIsHeard(net, p);
    assert Sees(net, p[0], net.views[p[0]]);
    WalkIsHeard(net, p[0], p);
  }

  lemma BrokenPathFails(net: Net, p: seq<PeerId>, j: nat)
    requires BrokenAt(net, p, j)
    ensures !Delivers(net)
  {
    var x, target := p[0], p[|p| - 1];
    PathIsWalk(net, p, j);
    var route := WayMeansRoute(net, x, target);
    assert route[1] == p[1] by {
      HopCost(net, x, target, route);
      LinkOfPath(p, 0, route[1]);
    }
    FirstHopIsStuck(net, p, j);
    assert IsMeshTrail(net, [x, p[1]], [route], target);
  }

  // ----- Sessions that are relayed

  ghost predicate Transitive(sessions: set<(PeerId, PeerId)>) {
    forall a, b, c | (a, b) in sessions && (b, c) in sessions && a != c :: (a, c) in sessions
  }

  ghost predicate Symmetric(sessions: set<(PeerId, PeerId)>) {
    forall a, b | (a, b) in sessions :: (b, a) in sessions
  }

  ghost predicate Complete(peers: set<PeerId>, sessions: set<(PeerId, PeerId)>) {
    forall a, b | a in peers && b in peers && a != b :: (a, b) in sessions
  }

  lemma TransitiveIsRelayed(peers: set<PeerId>, sessions: set<(PeerId, PeerId)>)
    requires Transitive(sessions)
    ensures Relayed(peers, sessions)
  {
    forall p | InEarshot(peers, sessions, p) ensures Carried(sessions, p) {
      forall k | 1 <= k < |p| - 1 ensures Hears(sessions, p[1], p[k]) {
        assert (p[k], p[k + 1]) in sessions && p[0] != p[k];
        assert (p[k], p[0]) in sessions && (p[0], p[1]) in sessions;
      }
    }
  }

  lemma CompleteIsRelayed(peers: set<PeerId>, sessions: set<(PeerId, PeerId)>)
    requires Complete(peers, sessions)
    ensures Relayed(peers, sessions)
  {
    forall p | InEarshot(peers, sessions, p) ensures Carried(sessions, p) {
      forall k | 1 <= k < |p| - 1 ensures Hears(sessions, p[1], p[k]) {
        assert p[1] in peers by { assert p[2] == p[2]; }
        assert p[k] in peers by { assert p[k + 1] == p[k + 1]; }
      }
    }
  }

  /** Over two-way sessions, routes of at most three links are carried whatever the sessions. */
  lemma ShortRouteIsCarried(peers: set<PeerId>, sessions: set<(PeerId, PeerId)>, p: seq<PeerId>)
    requires Symmetric(sessions) && InEarshot(peers, sessions, p) && |p| <= 4
    ensures Carried(sessions, p)
  {
    if |p| == 4 {
      assert (p[1], p[2]) in sessions;
    }
  }
}
