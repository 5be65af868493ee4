/** A mesh of five routers, at rest, in which a packet goes back and forth between two of them. */
module PartialMesh {
  import opened MeshTypes
  import opened Metrics
  import opened Walks
  import opened Routing
  import opened Gossip
  import opened GossipGuarantees
  import opened Settling
  import opened LocalViews
  import opened MeshForwarding

  // ----- A line of four cheap links, and dear links from its first router to all others

  predicate Near(a: nat, b: nat) {
    a + 1 == b || b + 1 == a
  }

  predicate Joined(a: nat, b: nat) {
    a < 5 && b < 5 && a != b && (a == 0 || b == 0 || Near(a, b))
  }

  function Peers(): (peers: set<PeerId>) {
    set a | 0 <= a < 5 :: PeerId(a)
  }

  function Sessions(): (sessions: set<(PeerId, PeerId)>)
    ensures forall l :: l in sessions <==> Joined(l.0.id, l.1.id)
  {
    set a, b | 0 <= a < 5 && 0 <= b < 5 && Joined(a, b) :: (PeerId(a), PeerId(b))
  }

  function Plan(): (plan: map<Link, Sample>) {
    map l | l in Sessions() :: if Near(l.0.id, l.1.id) then Latency(10.0) else Latency(4960.0)
  }

  lemma SubsetIsSmaller<T>(s: set<T>, t: set<T>)
    requires s <= t
    ensures |s| <= |t|
  {
    assert t == s + (t - s);
  }

  lemma PlanIsPlan()
    ensures IsPlan(Peers(), Sessions(), Plan())
  {
    forall i | i in Peers() ensures 1 + |LinksFrom(Plan().Keys, i)| < U64_MODULUS {
      SubsetIsSmaller(LinksFrom(Plan().Keys, i),
                      {(i, PeerId(0)), (i, PeerId(1)), (i, PeerId(2)), (i, PeerId(3)), (i, PeerId(4))});
    }
  }

  /** The cost of a link after one latency measurement. */
  lemma CostAfterOne(x: real)
    ensures MeasureAll(DEFAULT_METRICS, [Latency(x)]).Cost() == (0.2 * x + 8.0) / 10.0
  {
    assert [Latency(x)][1..] == [];
  }

  ghost predicate IsLineNet(net: Net) {
    && NetOk(net) && net.views.Keys == Peers() && net.sessions == Sessions() && net.costs.Keys == Sessions()
    && forall l | l in net.costs :: net.costs[l] == if Near(l.0.id, l.1.id) then 1.0 else 100.0
  }

  lemma LineCosts(m: Mesh)
    requires m.samples == SamplesOf(Plan())
    ensures NetOf(m).costs.Keys == Sessions()
    ensures forall l | l in NetOf(m).costs :: NetOf(m).costs[l] == if Near(l.0.id, l.1.id) then 1.0 else 100.0
  {
    assert NetOf(m).costs.Keys == Sessions();
    forall l | l in m.samples
      ensures NetOf(m).costs[l] == if Near(l.0.id, l.1.id) then 1.0 else 100.0
    {
      CostAfterOne(Plan()[l].ms);
      assert m.samples[l][..1] == [Plan()[l]];
    }
  }

  lemma LineMesh() returns (m: Mesh)
    ensures Reachable(m) && Quiet(m) && IsLineNet(NetOf(m))
  {
    PlanIsPlan();
    m := RestExists(Peers(), Sessions(), Plan());
    assert NetOk(NetOf(m)) && NetOf(m).views.Keys == Peers() by { QuietMeshIsNet(m); }
    LineCosts(m);
  }

  // ----- The two routes

  lemma AppendCost(w: Weights, p: seq<PeerId>, v: PeerId, longer: seq<PeerId>)
    requires IsWalk(w, p) && Edge(w, p[|p| - 1], v) && longer == p + [v]
    ensures IsWalk(w, longer) && WalkCost(w, longer) == WalkCost(w, p) + w[p[|p| - 1]][v]
  {
    assert longer[..|p|] == p;
  }

  const LONG_WAY := [PeerId(0), PeerId(1), PeerId(2), PeerId(3), PeerId(4)]
  const WAY_BACK := [PeerId(1), PeerId(0), PeerId(4)]

  lemma LinkSeen(net: Net, i: nat, a: nat, b: nat)
    requires IsLineNet(net) && i < 5 && Joined(a, b) && Hears(Sessions(), PeerId(i), PeerId(a))
    ensures PeerId(i) in net.views && Edge(net.views[PeerId(i)], PeerId(a), PeerId(b))
    ensures net.views[PeerId(i)][PeerId(a)][PeerId(b)] == if Near(a, b) then 1.0 else 100.0
  {
    assert PeerId(i) in Peers();
    assert Sees(net, PeerId(i), net.views[PeerId(i)]) && (PeerId(a), PeerId(b)) in net.costs;
  }

  /** A potential for the links that one router sees. */
  ghost predicate IsPotential(i: PeerId, h: PeerId -> real) {
    forall a, b | Joined(a, b) && Hears(Sessions(), i, PeerId(a)) ::
      h(PeerId(b)) <= h(PeerId(a)) + if Near(a, b) then 1.0 else 100.0
  }

  lemma PotentialHolds(net: Net, i: PeerId, h: PeerId -> real)
    requires IsLineNet(net) && i in net.views && IsPotential(i, h)
    ensures forall u, v | Edge(net.views[i], u, v) :: h(v) <= h(u) + net.views[i][u][v]
  {
    var w := net.views[i];
    assert Sees(net, i, w);
    forall u, v | Edge(w, u, v) ensures h(v) <= h(u) + w[u][v] {
      assert (u, v) in net.costs && Joined(u.id, v.id);
      assert u == PeerId(u.id) && v == PeerId(v.id);
    }
  }

  lemma PotentialMakesShortest(net: Net, i: PeerId, h: PeerId -> real, p: seq<PeerId>)
    requires IsLineNet(net) && i in net.views && IsPotential(i, h)
    requires IsWalk(net.views[i], p) && p[0] == i && WalkCost(net.views[i], p) == h(p[|p| - 1]) - h(i)
    ensures IsShortest(net.views[i], p, i, p[|p| - 1])
  {
    var w := net.views[i];
    PotentialHolds(net, i, h);
    forall q | WalkBetween(w, q, i, p[|p| - 1]) ensures WalkCost(w, p) <= WalkCost(w, q) {
      PotentialBound(w, h, q);
    }
  }

  ghost predicate HasLink(w: Weights, a: nat, b: nat, cost: real) {
    Edge(w, PeerId(a), PeerId(b)) && w[PeerId(a)][PeerId(b)] == cost
  }

  function AlongLine(x: PeerId): (h: real) {
    x.id as real
  }

  /** Minus the distance to the last router, as the second one sees it. */
  function FromSecond(x: PeerId): (h: real) {
    if x.id == 4 then 0.0 else if x.id < 3 then -100.0 - x.id as real else -1000.0
  }

  lemma LongWayCost(w: Weights)
    requires HasLink(w, 0, 1, 1.0) && HasLink(w, 1, 2, 1.0) && HasLink(w, 2, 3, 1.0) && HasLink(w, 3, 4, 1.0)
    ensures IsWalk(w, LONG_WAY) && WalkCost(w, LONG_WAY) == 4.0
  {
    AppendCost(w, LONG_WAY[..1], PeerId(1), LONG_WAY[..2]);
    AppendCost(w, LONG_WAY[..2], PeerId(2), LONG_WAY[..3]);
    AppendCost(w, LONG_WAY[..3], PeerId(3), LONG_WAY[..4]);
    AppendCost(w, LONG_WAY[..4], PeerId(4), LONG_WAY);
  }

  lemma WayBackCost(w: Weights)
    requires HasLink(w, 1, 0, 1.0) && HasLink(w, 0, 4, 100.0)
    ensures IsWalk(w, WAY_BACK) && WalkCost(w, WAY_BACK) == 101.0
  {
    AppendCost(w, WAY_BACK[..1], PeerId(0), WAY_BACK[..2]);
    AppendCost(w, WAY_BACK[..2], PeerId(4), WAY_BACK);
  }

  lemma PotentialsFit()
    ensures IsPotential(PeerId(0), AlongLine) && IsPotential(PeerId(1), FromSecond)
  {
  }

  lemma LongWayCosts(net: Net)
    requires IsLineNet(net)
    ensures PeerId(0) in net.views && WalkBetween(net.views[PeerId(0)], LONG_WAY, PeerId(0), PeerId(4))
    ensures WalkCost(net.views[PeerId(0)], LONG_WAY) == 4.0
  {
    LinkSeen(net, 0, 0, 1);
    LinkSeen(net, 0, 1, 2);
    LinkSeen(net, 0, 2, 3);
    LinkSeen(net, 0, 3, 4);
    LongWayCost(net.views[PeerId(0)]);
  }

  lemma WayBackCosts(net: Net)
    requires IsLineNet(net)
    ensures PeerId(1) in net.views && WalkBetween(net.views[PeerId(1)], WAY_BACK, PeerId(1), PeerId(4))
    ensures WalkCost(net.views[PeerId(1)], WAY_BACK) == 101.0
  {
    LinkSeen(net, 1, 1, 0);
    LinkSeen(net, 1, 0, 4);
    WayBackCost(net.views[PeerId(1)]);
  }

  /** The first router hears all others and goes along the line. */
  lemma LongWayIsRoute(net: Net)
    requires IsLineNet(net)
    ensures IsRoute(net, PeerId(0), PeerId(4), LONG_WAY)
  {
    LongWayCosts(net);
    PotentialsFit();
    assert AlongLine(LONG_WAY[4]) - AlongLine(PeerId(0)) == 4.0;
    PotentialMakesShortest(net, PeerId(0), AlongLine, LONG_WAY);
  }

  /** The second router does not hear the fourth, whose link ends the line, and sends the packet back. */
  lemma WayBackIsRoute(net: Net)
    requires IsLineNet(net)
    ensures IsRoute(net, PeerId(1), PeerId(4), WAY_BACK)
  {
    WayBackCosts(net);
    PotentialsFit();
    assert FromSecond(WAY_BACK[2]) - FromSecond(PeerId(1)) == 101.0;
    PotentialMakesShortest(net, PeerId(1), FromSecond, WAY_BACK);
  }

  /** A chosen route, split at its first link, against any other way. */
  lemma RouteBeats(net: Net, at: PeerId, target: PeerId, route: seq<PeerId>, way: seq<PeerId>)
    requires NetOk(net) && IsRoute(net, at, target, route) && WalkBetween(net.views[at], way, at, target)
    ensures (at, route[1]) in net.costs && WalkBetween(net.views[at], route[1..], route[1], target)
    ensures 0.0 <= WalkCost(net.views[at], route[1..]) <= WalkCost(net.views[at], way) - net.costs[(at, route[1])]
  {
    HopCost(net, at, target, route);
  }

  lemma LineCost(net: Net, l: Link)
    requires IsLineNet(net) && l in net.costs
    ensures Joined(l.0.id, l.1.id) && net.costs[l] == if Near(l.0.id, l.1.id) then 1.0 else 100.0
  {
  }

  /** Every cheapest route of the first router starts along the line. */
  lemma FirstGoesAlong(net: Net, route: seq<PeerId>)
    requires IsLineNet(net) && IsRoute(net, PeerId(0), PeerId(4), route)
    ensures route[1] == PeerId(1)
  {
    var w, l := net.views[PeerId(0)], (PeerId(0), route[1]);
    assert WalkBetween(w, LONG_WAY, PeerId(0), PeerId(4)) && WalkCost(w, LONG_WAY) == 4.0 by { LongWayCosts(net); }
    assert l in net.costs && net.costs[l] <= 4.0 by { RouteBeats(net, PeerId(0), PeerId(4), route, LONG_WAY); }
    assert Near(0, route[1].id) by { LineCost(net, l); }
  }

  /** What the third router's links lead to is too far for the second: the line is cut behind it. */
  lemma ThirdIsFar(net: Net, p: seq<PeerId>)
    requires IsLineNet(net) && PeerId(1) in net.views && WalkBetween(net.views[PeerId(1)], p, PeerId(2), PeerId(4))
    ensures WalkCost(net.views[PeerId(1)], p) >= 102.0
  {
    PotentialsFit();
    PotentialHolds(net, PeerId(1), FromSecond);
    PotentialBound(net.views[PeerId(1)], FromSecond, p);
    assert FromSecond(PeerId(4)) - FromSecond(PeerId(2)) == 102.0;
  }

  /** Every cheapest route of the second router goes back to the first. */
  lemma SecondGoesBack(net: Net, route: seq<PeerId>)
    requires IsLineNet(net) && IsRoute(net, PeerId(1), PeerId(4), route)
    ensures route[1] == PeerId(0)
  {
    var w, l := net.views[PeerId(1)], (PeerId(1), route[1]);
    assert WalkBetween(w, WAY_BACK, PeerId(1), PeerId(4)) && WalkCost(w, WAY_BACK) == 101.0 by { WayBackCosts(net); }
    assert l in net.costs && WalkBetween(w, route[1..], route[1], PeerId(4))
           && WalkCost(w, route[1..]) <= 101.0 - net.costs[l] by {
      RouteBeats(net, PeerId(1), PeerId(4), route, WAY_BACK);
    }
    assert Joined(1, route[1].id) && net.costs[l] > 0.0 by { LineCost(net, l); }
    assert route[1] != PeerId(2) by {
      if route[1] == PeerId(2) {
        ThirdIsFar(net, route[1..]);
      }
    }
  }

  // ----- The loop

  function BackAndForth(hops: nat): (trail: seq<PeerId>) {
    seq(hops + 1, k => PeerId(k % 2))
  }

  function LoopRoutes(hops: nat): (routes: seq<seq<PeerId>>) {
    seq(hops, k => if k % 2 == 0 then LONG_WAY else WAY_BACK)
  }

  lemma LoopIsTrail(net: Net, hops: nat)
    requires IsRoute(net, PeerId(0), PeerId(4), LONG_WAY) && IsRoute(net, PeerId(1), PeerId(4), WAY_BACK)
    ensures IsMeshTrail(net, BackAndForth(hops), LoopRoutes(hops), PeerId(4))
  {
    var trail, routes := BackAndForth(hops), LoopRoutes(hops);
    forall k | 0 <= k < hops
      ensures IsRoute(net, trail[k], PeerId(4), routes[k]) && routes[k][1] == trail[k + 1]
    {
      assert (k + 1) % 2 == 1 - k % 2;
    }
  }

  /** Every cheapest route of each of the two routers goes to the other. */
  ghost predicate Forced(net: Net) {
    && (forall route | IsRoute(net, PeerId(0), PeerId(4), route) :: route[1] == PeerId(1))
    && (forall route | IsRoute(net, PeerId(1), PeerId(4), route) :: route[1] == PeerId(0))
  }

  lemma LineIsForced(net: Net)
    requires IsLineNet(net)
    ensures Forced(net)
  {
    forall route | IsRoute(net, PeerId(0), PeerId(4), route) ensures route[1] == PeerId(1) {
      FirstGoesAlong(net, route);
    }
    forall route | IsRoute(net, PeerId(1), PeerId(4), route) ensures route[1] == PeerId(0) {
      SecondGoesBack(net, route);
    }
  }

  lemma {:induction false} PlaceIsForced(net: Net, trail: seq<PeerId>, routes: seq<seq<PeerId>>, k: nat)
    requires Forced(net) && IsMeshTrail(net, trail, routes, PeerId(4)) && trail[0] == PeerId(0) && k < |trail|
    ensures trail[k] == PeerId(k % 2)
    decreases k
  {
    if k > 0 {
      PlaceIsForced(net, trail, routes, k - 1);
      TrailFacts(net, trail, routes, PeerId(4), k - 1);
      assert (k - 1) % 2 == 0 || (k - 1) % 2 == 1;
    }
  }

  /** Whatever ties the routers break, the packet takes these hops and no others. */
  lemma LoopIsForced(net: Net, trail: seq<PeerId>, routes: seq<seq<PeerId>>)
    requires Forced(net) && IsMeshTrail(net, trail, routes, PeerId(4)) && trail[0] == PeerId(0)
    ensures trail == BackAndForth(|routes|)
  {
    forall k | 0 <= k < |trail| ensures trail[k] == BackAndForth(|routes|)[k] {
      PlaceIsForced(net, trail, routes, k);
    }
  }

  lemma SessionsAreTwoWay()
    ensures Symmetric(Sessions()) && (PeerId(0), PeerId(4)) in Sessions()
  {
  }

  lemma LineNetLoops(net: Net)
    requires IsLineNet(net)
    ensures forall hops :: IsMeshTrail(net, BackAndForth(hops), LoopRoutes(hops), PeerId(4))
    ensures forall trail, routes | IsMeshTrail(net, trail, routes, PeerId(4)) && trail[0] == PeerId(0) ::
              trail == BackAndForth(|routes|)
  {
    assert Forced(net) by { LineIsForced(net); }
    forall trail, routes | IsMeshTrail(net, trail, routes, PeerId(4)) && trail[0] == PeerId(0)
      ensures trail == BackAndForth(|routes|)
    {
      LoopIsForced(net, trail, routes);
    }
    assert IsRoute(net, PeerId(0), PeerId(4), LONG_WAY) by { LongWayIsRoute(net); }
    assert IsRoute(net, PeerId(1), PeerId(4), WAY_BACK) by { WayBackIsRoute(net); }
    forall hops ensures IsMeshTrail(net, BackAndForth(hops), LoopRoutes(hops), PeerId(4)) {
      LoopIsTrail(net, hops);
    }
  }

  /**
   * Forwarding without loops is not to be had in every mesh: in some mesh at rest, over two-way
   * sessions, a packet that could take one link to its target is passed between two routers for ever,
   * whatever ties they break.
   */
  lemma PartialMeshLoops() returns (m: Mesh)
    ensures Reachable(m) && Quiet(m) && Symmetric(m.sessions)
    ensures (PeerId(0), PeerId(4)) in m.sessions
    ensures forall hops :: IsMeshTrail(NetOf(m), BackAndForth(hops), LoopRoutes(hops), PeerId(4))
    ensures forall trail, routes | IsMeshTrail(NetOf(m), trail, routes, PeerId(4)) && trail[0] == PeerId(0) ::
              trail == BackAndForth(|routes|)
  {
    m := LineMesh();
    SessionsAreTwoWay();
    LineNetLoops(NetOf(m));
  }
}
