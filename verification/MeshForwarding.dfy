/** Gossip and forwarding together: which meshes at rest deliver their packets, and which do not. */
module MeshForwarding {
  import opened MeshTypes
  import opened Metrics
  import opened Walks
  import opened ShortestPath
  import opened Routing
  import opened Gossip
  import opened GossipGuarantees
  import opened Settling
  import opened Forwarding
  import opened LocalViews

  /** What the routers of a mesh know, their sessions, and the links as their sources measured them. */
  ghost function NetOf(m: Mesh): (net: Net) {
    Net(map i | i in m.nodes :: WeightsOf(m.nodes[i].r.graph),
        m.sessions,
        map l | l in m.samples :: MetricsAt(m, l, Taken(m, l)).Cost())
  }

  lemma QuietViewSees(m: Mesh, i: PeerId)
    requires Reachable(m) && Quiet(m) && i in m.nodes
    ensures Sees(NetOf(m), i, NetOf(m).views[i])
  {
    var w := NetOf(m).views[i];
    forall u, v
      ensures Edge(w, u, v) <==> (u, v) in m.samples && Hears(m.sessions, i, u)
      ensures Edge(w, u, v) ==> w[u][v] == MetricsAt(m, (u, v), Taken(m, (u, v))).Cost()
    {
      QuietLink(m, i, (u, v));
    }
  }

  lemma MeasuredLinkIsSound(m: Mesh, l: Link)
    requires Reachable(m) && l in m.samples
    ensures NetOf(m).costs[l] > 0.0 && l in m.sessions && l.0 in m.nodes
  {
    ReachableIsOk(m);
    MetricsAtIsSound(m, l, Taken(m, l));
    SoundCostIsPositive(MetricsAt(m, l, Taken(m, l)));
  }

  /** A mesh at rest is a net of local views. */
  lemma QuietMeshIsNet(m: Mesh)
    requires Reachable(m) && Quiet(m)
    ensures NetOk(NetOf(m)) && NetOf(m).views.Keys == m.nodes.Keys
  {
    var net := NetOf(m);
    assert net.views.Keys == m.nodes.Keys;
    forall i | i in net.views ensures Sees(net, i, net.views[i]) {
      QuietViewSees(m, i);
    }
    forall l | l in net.costs ensures net.costs[l] > 0.0 && l in net.sessions && l.0 in net.views {
      MeasuredLinkIsSound(m, l);
    }
  }

  // ----- When every packet arrives

  ghost predicate RestsWith(m: Mesh, peers: set<PeerId>, sessions: set<(PeerId, PeerId)>) {
    Reachable(m) && Quiet(m) && m.nodes.Keys == peers && m.sessions == sessions
  }

  /** The same measurement of every link of a path. */
  function PathPlan(p: seq<PeerId>): (plan: map<Link, Sample>) {
    map k, n {:trigger p[k], p[n]} | 0 <= k < |p| && 0 <= n < |p| && n == k + 1 :: (p[k], p[n]) := Latency(10.0)
  }

  lemma PathPlanIsPlan(peers: set<PeerId>, sessions: set<(PeerId, PeerId)>, p: seq<PeerId>)
    requires InEarshot(peers, sessions, p)
    ensures IsPlan(peers, sessions, PathPlan(p)) && PathPlan(p).Keys == PathLinks(p)
  {
    var plan := PathPlan(p);
    assert plan.Keys == PathLinks(p);
    forall i | i in peers ensures 1 + |LinksFrom(plan.Keys, i)| < U64_MODULUS {
      OneLinkFromEach(p, i);
    }
  }

  lemma OneLinkFromEach(p: seq<PeerId>, i: PeerId)
    requires NoRepeats(p)
    ensures |LinksFrom(PathLinks(p), i)| <= 1
  {
    var ls := LinksFrom(PathLinks(p), i);
    if ls != {} {
      var l :| l in ls;
      assert ls == {l};
    }
  }

  /** Sessions that are not relayed admit a mesh at rest that loses a packet. */
  lemma UnrelayedMeshFails(peers: set<PeerId>, sessions: set<(PeerId, PeerId)>, p: seq<PeerId>) returns (m: Mesh)
    requires InEarshot(peers, sessions, p) && !Carried(sessions, p)
    ensures RestsWith(m, peers, sessions) && !Delivers(NetOf(m))
  {
    PathPlanIsPlan(peers, sessions, p);
    m := RestExists(peers, sessions, PathPlan(p));
    QuietMeshIsNet(m);
    var j :| 1 <= j < |p| - 1 && !Hears(sessions, p[1], p[j]);
    assert BrokenAt(NetOf(m), p, j);
    BrokenPathFails(NetOf(m), p, j);
  }

  /**
   * Whether the routers of a mesh can rely on hop-by-hop forwarding depends on their sessions alone:
   * every mesh at rest delivers every packet, without loops, if and only if the sessions are relayed.
   */
  lemma AlwaysDeliversIff(peers: set<PeerId>, sessions: set<(PeerId, PeerId)>)
    ensures (forall m {:trigger NetOf(m)} | RestsWith(m, peers, sessions) :: Delivers(NetOf(m)))
            <==> Relayed(peers, sessions)
  {
    if Relayed(peers, sessions) {
      forall m | RestsWith(m, peers, sessions) ensures Delivers(NetOf(m)) {
        QuietMeshIsNet(m);
        RelayedDelivers(NetOf(m));
      }
    } else {
      var p :| InEarshot(peers, sessions, p) && !Carried(sessions, p);
      var m := UnrelayedMeshFails(peers, sessions, p);
    }
  }

  /** A packet in a relayed mesh at rest passes few routers and spends no more than its sender expected. */
  lemma RelayedTrailsAreBounded(m: Mesh, trail: seq<PeerId>, routes: seq<seq<PeerId>>, target: PeerId)
    requires Reachable(m) && Quiet(m) && Relayed(m.nodes.Keys, m.sessions)
    requires IsMeshTrail(NetOf(m), trail, routes, target) && routes != []
    ensures NoRepeats(trail) && |trail| <= |m.nodes| + 1
    ensures trail[0] in m.nodes && IsWalk(NetOf(m).views[trail[0]], routes[0])
    ensures TrailCost(NetOf(m), trail) <= WalkCost(NetOf(m).views[trail[0]], routes[0])
  {
    QuietMeshIsNet(m);
    RelayedCarriesAll(NetOf(m), trail, routes, target);
    CarriedTrailIsBounded(NetOf(m), trail, routes, target);
  }

  /**
   * Over two-way sessions, packets whose routers all chose routes of at most three links do not loop,
   * and stop only at their target.
   */
  lemma ShortRoutesDoNotLoop(m: Mesh, trail: seq<PeerId>, routes: seq<seq<PeerId>>, target: PeerId)
    requires Reachable(m) && Quiet(m) && Symmetric(m.sessions)
    requires IsMeshTrail(NetOf(m), trail, routes, target) && forall r | r in routes :: |r| <= 4
    requires trail[0] in m.nodes && CanReach(NetOf(m).views[trail[0]], trail[0], target)
    ensures NoRepeats(trail)
    ensures Stuck(NetOf(m), trail[|trail| - 1], target) ==> trail[|trail| - 1] == target
  {
    var net := NetOf(m);
    QuietMeshIsNet(m);
    forall k | 0 <= k < |routes| ensures Carried(m.sessions, routes[k]) {
      RouteIsInEarshot(net, trail[k], target, routes[k]);
      ShortRouteIsCarried(m.nodes.Keys, m.sessions, routes[k]);
    }
    CarriedTrailHasNoLoops(net, trail, routes, target);
    if Stuck(net, trail[|trail| - 1], target) {
      CarriedTrailArrives(net, trail, routes, target);
    }
  }

  // ----- Fully connected meshes

  lemma {:induction false} QuietTrailsShareOneGraph(m: Mesh, w: Weights, trail: seq<PeerId>, routes: seq<seq<PeerId>>,
                                                    target: PeerId)
    requires IsMeshTrail(NetOf(m), trail, routes, target)
    requires forall i {:trigger NetOf(m).views[i]} | i in m.nodes :: NetOf(m).views[i] == w
    ensures IsTrail(w, trail, target)
    decreases |trail|
  {
    var n := |routes|;
    if n > 0 {
      var rest := routes[..n - 1];
      assert forall k | 0 <= k < n - 1 :: rest[k] == routes[k];
      QuietTrailsShareOneGraph(m, w, trail[..n], rest, target);
      assert IsRoute(NetOf(m), trail[n - 1], target, routes[n - 1]);
    }
  }

  /**
   * With sessions between all routers, in every quiet state any run of the protocol can reach, packets
   * visit no node twice, stop only at their target, and have then taken a cheapest path.
   */
  lemma QuietMeshForwardsWithoutLoops(m: Mesh, trail: seq<PeerId>, routes: seq<seq<PeerId>>, target: PeerId)
    requires Reachable(m) && Quiet(m) && FullyConnected(m)
    requires IsMeshTrail(NetOf(m), trail, routes, target) && trail[0] in m.nodes
    ensures Delivers(NetOf(m)) && NoRepeats(trail)
    ensures trail[|trail| - 1] == target ==>
              IsShortest(WeightsOf(m.nodes[trail[0]].r.graph), trail, trail[0], target)
  {
    QuietMeshIsNet(m);
    CompleteIsRelayed(m.nodes.Keys, m.sessions);
    RelayedDelivers(NetOf(m));
    var w := WeightsOf(m.nodes[trail[0]].r.graph);
    forall i | i in m.nodes ensures NetOf(m).views[i] == w {
      QuietMeshAgrees(m, trail[0], i);
    }
    QuietTrailsShareOneGraph(m, w, trail, routes, target);
    EveryGraphIsSearchable(m, trail[0]);
    TrailsAreLoopFree(w, trail, target);
  }
}
