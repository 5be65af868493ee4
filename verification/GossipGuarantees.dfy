/** What the gossip protocol guarantees in every run, derived from the mesh invariant. */
module GossipGuarantees {
  import opened MeshTypes
  import opened Metrics
  import opened Walks
  import opened ShortestPath
  import opened Routing
  import opened Gossip

  // ----- Local links

  /**
   * In every interleaving of measurements the graph's own link to a peer equals that peer's tracker,
   * unless some measurement of that peer has written the tracker and not yet the graph.
   */
  lemma GraphFollowsTrackers(m: Mesh, i: PeerId, p: PeerId)
    requires Reachable(m) && i in m.nodes && !HalfDone(m.nodes[i], p)
    ensures m.nodes[i].r.AgreesOn(p)
  {
    ReachableIsOk(m);
    var n := m.nodes[i];
    NodeFacts(m, i);
    assert n.r.AgreesOn(p) || HalfDone(n, p);
  }

  /**
   * Why a router must not process its own updates: an accepted update leaves the graph in agreement
   * with the trackers exactly when it is about another router's link or echoes the current metrics.
   */
  lemma EchoKeepsAgreementIff(r: RouterState, u: LinkStateUpdate)
    requires (forall p :: r.AgreesOn(p)) && r.Accepts(u)
    ensures (forall p :: r.Sequenced(u).Linked(u).AgreesOn(p)) <==>
            (u.source != r.local || (u.destination in r.trackers && r.trackers[u.destination] == u.metrics))
  {
    var r' := r.Sequenced(u).Linked(u);
    LinkLookup(r.graph, u.source, u.destination, u.metrics);
    if u.source == r.local && r'.AgreesOn(u.destination) {
      assert LinkOf(r'.graph, r.local, u.destination) == Some(u.metrics);
    }
    forall p | r.AgreesOn(p) && (r.local, p) != (u.source, u.destination) ensures r'.AgreesOn(p) {
      assert LinkOf(r'.graph, r.local, p) == LinkOf(r.graph, r.local, p);
    }
  }

  /** The update a router issues for a tracked peer. */
  function IssuedBy(r: RouterState, peer: PeerId, now: nat): (u: LinkStateUpdate)
    requires peer in r.trackers
  {
    LinkStateUpdate(r.local, peer, r.trackers[peer], r.nextSeq, now)
  }

  /**
   * A router whose graph agrees with its trackers issues an update and then measures the link again.
   * If the update comes back, it is accepted, and the graph agrees with the tracker afterwards exactly
   * when the measurement changed nothing.
   */
  lemma EchoAfterMeasurement(r: RouterState, peer: PeerId, s: Sample, now: nat)
    requires (forall p :: r.AgreesOn(p)) && peer in r.trackers && r.nextSeq > GetOr(r.seqs, (r.local, peer), 0)
    ensures var u, r' := IssuedBy(r, peer, now), r.Counted().Measured(peer, s).Published(peer);
            && (forall p :: r'.AgreesOn(p)) && r'.Accepts(u)
            && (r'.Sequenced(u).Linked(u).AgreesOn(peer) <==> Measure(r.trackers[peer], s) == r.trackers[peer])
  {
    var u, r' := IssuedBy(r, peer, now), r.Counted().Measured(peer, s).Published(peer);
    LinkLookup(r.graph, r.local, peer, r'.trackers[peer]);
    forall p ensures r'.AgreesOn(p) {
      assert r.AgreesOn(p);
      if p != peer {
        assert LinkOf(r'.graph, r.local, p) == LinkOf(r.graph, r.local, p);
      }
    }
    LinkLookup(r'.graph, r.local, peer, u.metrics);
  }

  /** A fresh router that measures 0 ms twice, with its first update coming back in between. */
  lemma EchoBreaksAgreement(me: PeerId, peer: PeerId)
    ensures var r := RouterState(me, map[], map[], map[], 1).Measured(peer, Latency(0.0)).Published(peer);
            var r' := r.Counted().Measured(peer, Latency(0.0)).Published(peer);
            var u := IssuedBy(r, peer, 0);
            && (forall p :: r'.AgreesOn(p)) && r'.Accepts(u)
            && !r'.Sequenced(u).Linked(u).AgreesOn(peer)
  {
    var r0 := RouterState(me, map[], map[], map[], 1);
    var r := r0.Measured(peer, Latency(0.0)).Published(peer);
    assert r.trackers[peer].latencyMs == 8.0;
    LinkLookup(r0.graph, me, peer, r.trackers[peer]);
    forall p ensures r.AgreesOn(p) {
      assert LinkOf(r0.graph, me, p) == None;
    }
    EchoAfterMeasurement(r, peer, Latency(0.0), 0);
    assert Measure(r.trackers[peer], Latency(0.0)).latencyMs == 6.4;
  }

  // ----- Remote links

  /** A router shows a remote link only with metrics its source really had. */
  lemma ShownMetricsAreGenuine(m: Mesh, i: PeerId, l: Link)
    requires MeshOk(m) && i in m.nodes && l.0 != i && LinkOf(m.nodes[i].r.graph, l.0, l.1).Some?
    ensures l in m.nodes[i].shown && HasIssue(m, l, m.nodes[i].shown[l])
    ensures var issue := m.issues[(l.0, m.nodes[i].shown[l])];
            && issue.at <= Taken(m, l)
            && LinkOf(m.nodes[i].r.graph, l.0, l.1) == Some(MetricsAt(m, l, issue.at))
  {
    var n := m.nodes[i];
    NodeFacts(m, i);
    LinkFacts(m, i, n, l);
    IssueFacts(m, (l.0, n.shown[l]));
  }

  /** One step never replaces a shown update by one with a smaller number. */
  lemma ActionShowsNothingOlder(m: Mesh, n: Node, a: Action, l: Link)
    requires LinkViewOk(m, n, l) && l in n.shown
    requires (a.Snapshot? || a.Read? ==> a.p in n.r.trackers) && (a.Apply? ==> a.l in n.applying)
    ensures l in After(n, a).shown && n.shown[l] <= After(n, a).shown[l]
  {
  }

  lemma StepShowsNothingOlder(m: Mesh, e: Event, i: PeerId, l: Link)
    requires MeshOk(m) && Enabled(m, e) && i in m.nodes && l.0 != i && l in m.nodes[i].shown
    ensures i in Step(m, e).nodes && l in Step(m, e).nodes[i].shown
    ensures m.nodes[i].shown[l] <= Step(m, e).nodes[i].shown[l]
  {
    var n := m.nodes[i];
    assert LinkViewOk(m, n, l) by {
      NodeFacts(m, i);
    }
    OnlyActorMoves(m, e);
    if e.i == i {
      ActionShowsNothingOlder(m, n, e.a, l);
    }
  }

  lemma {:induction false} RunShowsNothingOlder(m: Mesh, es: seq<Event>, m': Mesh, i: PeerId, l: Link)
    requires MeshOk(m) && Runs(m, es, m') && i in m.nodes && l.0 != i && l in m.nodes[i].shown
    ensures MeshOk(m') && IssuesGrow(m, m')
    ensures i in m'.nodes && l in m'.nodes[i].shown && m.nodes[i].shown[l] <= m'.nodes[i].shown[l]
    decreases |es|
  {
    if es != [] {
      var next := Step(m, es[0]);
      StepKeepsMesh(m, es[0]);
      StepShowsNothingOlder(m, es[0], i, l);
      RunShowsNothingOlder(next, es[1..], m', i, l);
      forall k | k in m.issues ensures k in m'.issues && m'.issues[k] == m.issues[k] {
        assert k in next.issues;
      }
    }
  }

  /**
   * Gossip never goes back in time. Between any two moments of any run, what a router shows for a
   * remote link moves from the source's metrics after `a` measurements to those after `b`, `a <= b`.
   */
  lemma GossipNeverGoesBack(m: Mesh, es: seq<Event>, m': Mesh, i: PeerId, l: Link)
    requires Reachable(m) && Runs(m, es, m') && i in m.nodes && l.0 != i
    requires LinkOf(m.nodes[i].r.graph, l.0, l.1).Some?
    ensures i in m'.nodes && l in m.nodes[i].shown && l in m'.nodes[i].shown
    ensures (l.0, m.nodes[i].shown[l]) in m.issues && (l.0, m'.nodes[i].shown[l]) in m'.issues
    ensures var a := m.issues[(l.0, m.nodes[i].shown[l])].at;
            var b := m'.issues[(l.0, m'.nodes[i].shown[l])].at;
            && a <= b <= Taken(m', l)
            && LinkOf(m.nodes[i].r.graph, l.0, l.1) == Some(MetricsAt(m', l, a))
            && LinkOf(m'.nodes[i].r.graph, l.0, l.1) == Some(MetricsAt(m', l, b))
  {
    ReachableIsOk(m);
    ShownMetricsAreGenuine(m, i, l);
    RunShowsNothingOlder(m, es, m', i, l);
    var q, q' := m.nodes[i].shown[l], m'.nodes[i].shown[l];
    IssueStays(m, m', l, q);
    ShownIsIssued(m, i, l);
    ShownIsIssued(m', i, l);
    ShownMetricsAreGenuine(m', i, l);
    IssuesOfLinkAreOrdered(m', l, q, q');
  }

  lemma ShownIsIssued(m: Mesh, i: PeerId, l: Link)
    requires MeshOk(m) && i in m.nodes && l.0 != i && l in m.nodes[i].shown
    ensures HasIssue(m, l, m.nodes[i].shown[l])
    ensures LinkOf(m.nodes[i].r.graph, l.0, l.1) == Some(m.issues[(l.0, m.nodes[i].shown[l])].update.metrics)
  {
    NodeFacts(m, i);
    LinkFacts(m, i, m.nodes[i], l);
  }

  lemma IssuesOfLinkAreOrdered(m: Mesh, l: Link, q: nat, q': nat)
    requires LedgerOk(m) && HasIssue(m, l, q) && HasIssue(m, l, q') && q <= q'
    ensures m.issues[(l.0, q)].at <= m.issues[(l.0, q')].at <= Taken(m, l)
    ensures m.issues[(l.0, q)].update.metrics == MetricsAt(m, l, m.issues[(l.0, q)].at)
  {
    IssueFacts(m, (l.0, q));
    IssueFacts(m, (l.0, q'));
    assert InOrder(m, (l.0, q), (l.0, q'));
  }

  /** The update of link `l` with the highest number among those processed. */
  ghost predicate IsNewest(n: Node, l: Link, u: LinkStateUpdate) {
    && u in n.processed && u.Key() == l
    && forall x | x in n.processed && x.Key() == l :: x.sequence <= u.sequence
  }

  /** A settled remote link shows exactly the newest update processed; the first is never lost. */
  lemma SettledLinkShowsNewest(m: Mesh, i: PeerId, l: Link)
    requires Reachable(m) && i in m.nodes && l.0 != i && l !in m.nodes[i].applying
    ensures var n := m.nodes[i];
            if exists u :: u in n.processed && u.Key() == l
            then exists u :: && IsNewest(n, l, u) && LinkOf(n.r.graph, l.0, l.1) == Some(u.metrics)
                             && GetOr(n.r.seqs, l, 0) == u.sequence
            else LinkOf(n.r.graph, l.0, l.1) == None && GetOr(n.r.seqs, l, 0) == 0
  {
    ReachableIsOk(m);
    var n := m.nodes[i];
    NodeFacts(m, i);
    LinkFacts(m, i, n, l);
    var q := GetOr(n.r.seqs, l, 0);
    if q > 0 {
      IssueFacts(m, (l.0, q));
      assert IsNewest(n, l, m.issues[(l.0, q)].update);
    }
    forall u | u in n.processed && u.Key() == l ensures u.sequence > 0 {
      IssueFacts(m, (u.source, u.sequence));
    }
  }

  /**
   * Convergence: two routers that processed the same updates of a link, in any orders and with any
   * duplicates, agree on it.
   */
  lemma Convergence(m: Mesh, i: PeerId, j: PeerId, l: Link)
    requires Reachable(m) && i in m.nodes && j in m.nodes && l.0 != i && l.0 != j
    requires l !in m.nodes[i].applying && l !in m.nodes[j].applying
    requires forall u: LinkStateUpdate | u.Key() == l :: u in m.nodes[i].processed <==> u in m.nodes[j].processed
    ensures LinkOf(m.nodes[i].r.graph, l.0, l.1) == LinkOf(m.nodes[j].r.graph, l.0, l.1)
    ensures GetOr(m.nodes[i].r.seqs, l, 0) == GetOr(m.nodes[j].r.seqs, l, 0)
  {
    SettledLinkShowsNewest(m, i, l);
    SettledLinkShowsNewest(m, j, l);
    var a, b := m.nodes[i], m.nodes[j];
    forall u, x | IsNewest(a, l, u) && IsNewest(b, l, x) ensures u == x {
      NumberIdentifiesUpdate(m, i, u, j, x);
    }
  }

  /** Two processed updates of one link with one number are the same update. */
  lemma NumberIdentifiesUpdate(m: Mesh, i: PeerId, u: LinkStateUpdate, j: PeerId, x: LinkStateUpdate)
    requires Reachable(m) && i in m.nodes && j in m.nodes
    requires u in m.nodes[i].processed && x in m.nodes[j].processed
    requires u.source == x.source && u.sequence == x.sequence
    ensures u == x
  {
    ReachableIsOk(m);
    NodeFacts(m, i);
    NodeFacts(m, j);
  }

  /** Numbers are never skipped: a router has sent exactly the updates numbered 1 up to its counter. */
  lemma NumbersAreConsecutive(m: Mesh, i: PeerId, q: nat)
    requires Reachable(m) && i in m.nodes
    ensures 0 < q < m.nodes[i].r.nextSeq <==> exists u :: u in m.net && u.source == i && u.sequence == q
  {
    ReachableIsOk(m);
    NodeFacts(m, i);
    if 0 < q < m.nodes[i].r.nextSeq {
      assert (i, q) in m.issues;
      IssueFacts(m, (i, q));
    }
  }

  // ----- Costs

  /** Every topology any router ever holds meets the search's precondition, with room to spare. */
  lemma EveryGraphIsSearchable(m: Mesh, i: PeerId)
    requires Reachable(m) && i in m.nodes
    ensures Positive(WeightsOf(m.nodes[i].r.graph)) && NonNegative(WeightsOf(m.nodes[i].r.graph))
  {
    ReachableIsOk(m);
    var n := m.nodes[i];
    NodeFacts(m, i);
    var w := WeightsOf(n.r.graph);
    forall u, v | Edge(w, u, v) ensures w[u][v] > 0.0 {
      assert LinkOf(n.r.graph, u, v) == Some(n.r.graph[u][v]);
      SoundCostIsPositive(n.r.graph[u][v]);
    }
  }

  // ----- Meshes at rest

  /** The router has processed an update that reports the link's latest measurement. */
  ghost predicate UpToDate(m: Mesh, n: Node, l: Link) {
    exists u :: && u in n.processed && u.Key() == l && (u.source, u.sequence) in m.issues
                && m.issues[(u.source, u.sequence)].at == Taken(m, l)
  }

  /**
   * No call is under way, and every router has processed an update with the latest measurement of each
   * link whose source it hears; which of the earlier updates arrived does not matter.
   */
  ghost predicate Quiet(m: Mesh) {
    && (forall i | i in m.nodes ::
          m.nodes[i].publishing == multiset{} && m.nodes[i].reading == multiset{} && m.nodes[i].applying == map[])
    && (forall i, l {:trigger UpToDate(m, m.nodes[i], l)} |
          i in m.nodes && l in m.samples && l.0 != i && Hears(m.sessions, i, l.0) ::
          UpToDate(m, m.nodes[i], l))
  }

  /** What has been processed is what is shown, or older. */
  lemma ShownIsNotOlder(m: Mesh, i: PeerId, n: Node, u: LinkStateUpdate)
    requires ViewOk(m, i, n) && u in n.processed && u.source != i && u.Key() !in n.applying && u.sequence > 0
    ensures u.Key() in n.shown && u.sequence <= n.shown[u.Key()]
  {
    LinkFacts(m, i, n, u.Key());
  }

  lemma QuietRemoteLink(m: Mesh, i: PeerId, n: Node, l: Link, u: LinkStateUpdate)
    requires LedgerOk(m) && ViewOk(m, i, n) && l.0 != i && l !in n.applying
    requires u in n.processed && u.Key() == l && u.sequence > 0
    requires HasIssue(m, l, u.sequence) && m.issues[(l.0, u.sequence)].at == Taken(m, l)
    ensures LinkOf(n.r.graph, l.0, l.1) == Some(MetricsAt(m, l, Taken(m, l)))
  {
    ShownIsNotOlder(m, i, n, u);
    LinkFacts(m, i, n, l);
    IssuesOfLinkAreOrdered(m, l, u.sequence, n.shown[l]);
    IssuesOfLinkAreOrdered(m, l, n.shown[l], n.shown[l]);
  }

  lemma QuietLocalLink(m: Mesh, i: PeerId, n: Node, p: PeerId)
    requires TrackersOk(m, i, n) && LocalOk(i, n) && n.publishing == multiset{} && n.reading == multiset{}
    ensures LinkOf(n.r.graph, i, p) ==
            if (i, p) in m.samples then Some(MetricsAt(m, (i, p), Taken(m, (i, p)))) else None
  {
    assert n.r.AgreesOn(p) || HalfDone(n, p);
  }

  /** A remote link that was never measured, or whose source is not heard, is not shown. */
  lemma UnheardLinkIsAbsent(m: Mesh, i: PeerId, l: Link)
    requires MeshOk(m) && i in m.nodes && l.0 != i && (l !in m.samples || !Hears(m.sessions, i, l.0))
    ensures LinkOf(m.nodes[i].r.graph, l.0, l.1) == None
  {
    var n := m.nodes[i];
    NodeFacts(m, i);
    LinkFacts(m, i, n, l);
    if GetOr(n.r.seqs, l, 0) > 0 {
      IssueFacts(m, (l.0, GetOr(n.r.seqs, l, 0)));
    }
  }

  /**
   * The exact view at rest: a router shows a link exactly when it was measured and its source is the
   * router itself or has a session with it; and then with the source's current metrics.
   */
  lemma QuietLink(m: Mesh, i: PeerId, l: Link)
    requires Reachable(m) && Quiet(m) && i in m.nodes
    ensures LinkOf(m.nodes[i].r.graph, l.0, l.1) ==
            if l in m.samples && Hears(m.sessions, i, l.0) then Some(MetricsAt(m, l, Taken(m, l))) else None
  {
    ReachableIsOk(m);
    if l.0 == i {
      NodeFacts(m, i);
      QuietLocalLink(m, i, m.nodes[i], l.1);
    } else if l in m.samples && Hears(m.sessions, i, l.0) {
      assert UpToDate(m, m.nodes[i], l);
      var u :| && u in m.nodes[i].processed && u.Key() == l && (u.source, u.sequence) in m.issues
               && m.issues[(u.source, u.sequence)].at == Taken(m, l);
      NodeFacts(m, i);
      IssueFacts(m, (u.source, u.sequence));
      QuietRemoteLink(m, i, m.nodes[i], l, u);
    } else {
      UnheardLinkIsAbsent(m, i, l);
    }
  }

  lemma RowIsShared(g: Topology, h: Topology, u: PeerId)
    requires NoEmptyRow(g) && u in g && forall v :: LinkOf(g, u, v) == LinkOf(h, u, v)
    ensures u in h && g[u] == h[u]
  {
    var v :| v in g[u];
    assert LinkOf(g, u, v) == LinkOf(h, u, v);
    forall x ensures (x in g[u] <==> x in h[u]) && (x in g[u] ==> g[u][x] == h[u][x]) {
      assert LinkOf(g, u, x) == LinkOf(h, u, x);
    }
  }

  lemma SameLinksSameGraph(g: Topology, h: Topology)
    requires NoEmptyRow(g) && NoEmptyRow(h)
    requires forall u, v :: LinkOf(g, u, v) == LinkOf(h, u, v)
    ensures g == h
  {
    forall u | u in g ensures u in h && g[u] == h[u] {
      RowIsShared(g, h, u);
    }
    forall u | u in h ensures u in g {
      RowIsShared(h, g, u);
    }
  }

  lemma QuietGraphHasNoEmptyRow(m: Mesh, i: PeerId)
    requires Reachable(m) && i in m.nodes
    ensures NoEmptyRow(m.nodes[i].r.graph)
  {
    ReachableIsOk(m);
    NodeFacts(m, i);
  }

  /**
   * At rest two routers hold the same topology exactly when they hear the same sources of measured
   * links: with sessions between all routers every pair does, in a partial mesh most do not.
   */
  lemma QuietMeshAgreesIff(m: Mesh, i: PeerId, j: PeerId)
    requires Reachable(m) && Quiet(m) && i in m.nodes && j in m.nodes
    ensures m.nodes[i].r.graph == m.nodes[j].r.graph <==>
            forall l: Link | l in m.samples :: Hears(m.sessions, i, l.0) <==> Hears(m.sessions, j, l.0)
  {
    var g, h := m.nodes[i].r.graph, m.nodes[j].r.graph;
    if forall l: Link | l in m.samples :: Hears(m.sessions, i, l.0) <==> Hears(m.sessions, j, l.0) {
      forall u, v ensures LinkOf(g, u, v) == LinkOf(h, u, v) {
        QuietLink(m, i, (u, v));
        QuietLink(m, j, (u, v));
      }
      QuietGraphHasNoEmptyRow(m, i);
      QuietGraphHasNoEmptyRow(m, j);
      SameLinksSameGraph(g, h);
    }
    if g == h {
      forall l: Link | l in m.samples ensures Hears(m.sessions, i, l.0) <==> Hears(m.sessions, j, l.0) {
        QuietLink(m, i, l);
        QuietLink(m, j, l);
      }
    }
  }

  /** Every router of the mesh has a session with every other. */
  ghost predicate FullyConnected(m: Mesh) {
    forall i, j | i in m.nodes && j in m.nodes && i != j :: (i, j) in m.sessions
  }

  /** With sessions between all routers, a mesh at rest has converged to one topology. */
  lemma QuietMeshAgrees(m: Mesh, i: PeerId, j: PeerId)
    requires Reachable(m) && Quiet(m) && FullyConnected(m) && i in m.nodes && j in m.nodes
    ensures m.nodes[i].r.graph == m.nodes[j].r.graph
  {
    assert forall l: Link | l in m.samples :: l.0 in m.nodes by { ReachableIsOk(m); }
    QuietMeshAgreesIff(m, i, j);
  }
}
