/** One router: its trackers, its topology, and its handling of link-state gossip. */
module Routing {
  import opened MeshTypes
  import opened Metrics
  import opened Walks
  import opened ShortestPath

  /** A directed link, source first. */
  type Link = (PeerId, PeerId)

  datatype LinkStateUpdate = LinkStateUpdate(
    source: PeerId,
    destination: PeerId,
    metrics: LinkMetrics,
    sequence: nat,
    timestamp: nat)
  {
    function Key(): (r: Link) { (source, destination) }
  }

  /** The value of a router. */
  datatype RouterState = RouterState(
    local: PeerId,
    trackers: map<PeerId, LinkMetrics>,
    graph: Topology,
    seqs: map<Link, nat>,
    nextSeq: nat)
  {
    /** Under the tracker's write guard: one measurement. */
    function Measured(p: PeerId, s: Sample): (r: RouterState) {
      this.(trackers := trackers[p := Measure(GetOr(trackers, p, DEFAULT_METRICS), s)])
    }

    /** Metrics of a local link enter the graph. */
    function Showing(p: PeerId, m: LinkMetrics): (r: RouterState) {
      this.(graph := WithLink(graph, local, p, m))
    }

    /** Under the tracker's read guard: the tracked metrics become the graph's local link. */
    function Published(p: PeerId): (r: RouterState) {
      if p in trackers then Showing(p, trackers[p]) else this
    }

    /** The counter of outgoing updates after one `fetch_add`. */
    function Counted(): (r: RouterState) {
      this.(nextSeq := (nextSeq + 1) % U64_MODULUS)
    }

    predicate Accepts(u: LinkStateUpdate) {
      u.sequence > GetOr(seqs, u.Key(), 0)
    }

    /** Under the sequence entry's guard: the entry exists and holds the higher number. */
    function Sequenced(u: LinkStateUpdate): (r: RouterState) {
      this.(seqs := seqs[u.Key() := if Accepts(u) then u.sequence else GetOr(seqs, u.Key(), 0)])
    }

    /** Still under that guard: the accepted link enters the graph. */
    function Linked(u: LinkStateUpdate): (r: RouterState) {
      this.(graph := WithLink(graph, u.source, u.destination, u.metrics))
    }

    /** The graph's link to `p` is exactly what the tracker of `p` says. */
    predicate AgreesOn(p: PeerId) {
      LinkOf(graph, local, p) == if p in trackers then Some(trackers[p]) else None
    }
  }

  /** Router `i` learns the links of source `s`: its own, or those of a router with a session to it. */
  predicate Hears(sessions: set<(PeerId, PeerId)>, i: PeerId, s: PeerId) {
    s == i || (s, i) in sessions
  }

  // ----- What one call changes, and what it leaves alone

  /** Only the link from `from` to `to` may differ. */
  ghost predicate OnlyLink(g: Topology, g': Topology, from: PeerId, to: PeerId) {
    forall u, v | (u, v) != (from, to) :: LinkOf(g', u, v) == LinkOf(g, u, v)
  }

  /**
   * After a measurement the peer's tracker has taken in the sample, from defaults of 10 ms, 10 Mbps, no
   * loss and no relay cost if there was none, and the graph shows it. Nothing else has changed: no
   * other tracker, no other link, whoever it was learned from, and no number.
   */
  ghost predicate TookSample(r: RouterState, r': RouterState, peer: PeerId, s: Sample) {
    && peer in r'.trackers
    && r'.trackers[peer] == Measure(GetOr(r.trackers, peer, LinkMetrics(10.0, 10000.0, 0.0, 0.0)), s)
    && LinkOf(r'.graph, r.local, peer) == Some(r'.trackers[peer])
    && (forall p | p != peer :: (p in r'.trackers <==> p in r.trackers))
    && (forall p | p != peer && p in r.trackers :: r'.trackers[p] == r.trackers[p])
    && OnlyLink(r.graph, r'.graph, r.local, peer)
    && r'.seqs == r.seqs && r'.nextSeq == r.nextSeq && r'.local == r.local
  }

  lemma MeasuringMeasures(r: RouterState, peer: PeerId, s: Sample)
    ensures TookSample(r, r.Measured(peer, s).Published(peer), peer, s)
  {
    var r' := r.Measured(peer, s);
    LinkLookup(r.graph, r.local, peer, r'.trackers[peer]);
  }

  /** After an accepted update the graph shows its link and its number is stored; nothing else has changed. */
  ghost predicate HasAccepted(r: RouterState, r': RouterState, u: LinkStateUpdate) {
    && LinkOf(r'.graph, u.source, u.destination) == Some(u.metrics)
    && OnlyLink(r.graph, r'.graph, u.source, u.destination)
    && (u.source, u.destination) in r'.seqs && r'.seqs[(u.source, u.destination)] == u.sequence
    && (forall l | l != (u.source, u.destination) :: GetOr(r'.seqs, l, 0) == GetOr(r.seqs, l, 0))
    && r'.trackers == r.trackers && r'.nextSeq == r.nextSeq && r'.local == r.local
  }

  /** A refused update changes nothing that can be seen. */
  ghost predicate HasRefused(r: RouterState, r': RouterState) {
    && (forall l: Link :: GetOr(r'.seqs, l, 0) == GetOr(r.seqs, l, 0))
    && r'.graph == r.graph && r'.trackers == r.trackers && r'.nextSeq == r.nextSeq && r'.local == r.local
  }

  lemma AcceptingAccepts(r: RouterState, u: LinkStateUpdate)
    ensures r.Accepts(u) ==> HasAccepted(r, r.Sequenced(u).Linked(u), u)
    ensures !r.Accepts(u) ==> HasRefused(r, r.Sequenced(u))
  {
    LinkLookup(r.graph, u.source, u.destination, u.metrics);
  }

  /** `hop` starts some route to the target that meets no node twice. */
  ghost predicate FirstHop(g: Topology, from: PeerId, target: PeerId, hop: PeerId) {
    exists p :: RouteBetween(g, p, from, target) && NoRepeats(p) && |p| > 1 && p[1] == hop
  }

  /** `hop` starts some cheapest route to the target. */
  ghost predicate CheapestFirstHop(g: Topology, from: PeerId, target: PeerId, hop: PeerId) {
    exists p :: IsCheapestRoute(g, p, from, target) && |p| > 1 && p[1] == hop
  }

  /** The same on the weighted graph. */
  ghost predicate ShortestFirstHop(w: Weights, from: PeerId, target: PeerId, hop: PeerId) {
    exists p :: IsShortest(w, p, from, target) && |p| > 1 && p[1] == hop
  }

  lemma CheapestHopIsShortest(g: Topology, from: PeerId, target: PeerId, hop: PeerId)
    ensures CheapestFirstHop(g, from, target, hop) <==> ShortestFirstHop(WeightsOf(g), from, target, hop)
  {
    var w := WeightsOf(g);
    forall p ensures IsCheapestRoute(g, p, from, target) <==> IsShortest(w, p, from, target) {
      CheapestIsShortest(g, w, p, from, target);
    }
  }

  class Router {
    const localPeerId: PeerId
    var localTrackers: map<PeerId, LinkMetricTracker>
    const graph: RouteGraph
    var gossipSequences: map<Link, nat>
    var sequenceGenerator: nat

    /** Trackers are owned by their own peer's entry only. */
    ghost predicate Valid()
      reads this
    {
      && sequenceGenerator < U64_MODULUS
      && forall p, q | p in localTrackers && q in localTrackers && p != q :: localTrackers[p] != localTrackers[q]
    }

    ghost function State(): (r: RouterState)
      reads this, graph, localTrackers.Values
    {
      RouterState(localPeerId, map p | p in localTrackers :: localTrackers[p].Metrics(),
                  graph.edges, gossipSequences, sequenceGenerator)
    }

    constructor (localPeerId: PeerId)
      ensures Valid() && State() == RouterState(localPeerId, map[], map[], map[], 1)
      ensures fresh(graph)
    {
      this.localPeerId := localPeerId;
      localTrackers := map[];
      graph := new RouteGraph();
      gossipSequences := map[];
      sequenceGenerator := 1;
    }

    /** The entry of `peer`, created with default metrics when missing. */
    method TrackerFor(peer: PeerId) returns (t: LinkMetricTracker)
      requires Valid()
      modifies this`localTrackers
      ensures Valid() && peer in localTrackers && localTrackers[peer] == t
      ensures t in old(localTrackers.Values) || fresh(t)
      ensures localTrackers.Values <= old(localTrackers.Values) + {t}
      ensures State() == old(State()).(trackers := old(State()).trackers[peer := t.Metrics()])
      ensures t.Metrics() == GetOr(old(State()).trackers, peer, DEFAULT_METRICS)
    {
      ghost var before := State().trackers;
      if peer !in localTrackers {
        var tracker := new LinkMetricTracker(DEFAULT_METRICS);
        localTrackers := localTrackers[peer := tracker];
      }
      t := localTrackers[peer];
      assert State().trackers == before[peer := t.Metrics()];
    }

    /** The tracker's own update for one kind of measurement. */
    static method RecordSample(t: LinkMetricTracker, s: Sample)
      modifies t
      ensures t.Metrics() == Measure(old(t.Metrics()), s)
    {
      match s
      case Latency(x) => t.RecordLatency(x);
      case Bandwidth(x) => t.RecordBandwidth(x);
      case Loss(x) => t.RecordLossRate(x);
    }

    /** One measurement of an existing entry. */
    method RecordIn(peer: PeerId, s: Sample)
      requires Valid() && peer in localTrackers
      modifies localTrackers[peer]
      ensures Valid()
      ensures State() == old(State()).(
                trackers := old(State()).trackers[peer := Measure(old(State()).trackers[peer], s)])
    {
      var t := localTrackers[peer];
      RecordSample(t, s);
      assert State().trackers == old(State()).trackers[peer := t.Metrics()] by {
        assert forall p | p in localTrackers && p != peer :: localTrackers[p] != t;
      }
    }

    /** One measurement under the entry's guard; the graph is not touched yet. */
    method MeasureTracker(peer: PeerId, s: Sample)
      requires Valid()
      modifies this`localTrackers, localTrackers.Values
      ensures Valid() && fresh(localTrackers.Values - old(localTrackers.Values))
      ensures State() == old(State()).Measured(peer, s)
    {
      var t := TrackerFor(peer);
      RecordIn(peer, s);
    }

    method RecordLatency(peer: PeerId, latencyMs: real)
      requires Valid()
      modifies this, graph, localTrackers.Values
      ensures Valid() && fresh(localTrackers.Values - old(localTrackers.Values))
      ensures State() == old(State()).Measured(peer, Latency(latencyMs)).Published(peer)
      ensures TookSample(old(State()), State(), peer, Latency(latencyMs))
    {
      MeasureTracker(peer, Latency(latencyMs));
      UpdateGraphLink(peer);
      MeasuringMeasures(old(State()), peer, Latency(latencyMs));
    }

    method RecordBandwidth(peer: PeerId, bandwidthKbps: real)
      requires Valid()
      modifies this, graph, localTrackers.Values
      ensures Valid() && fresh(localTrackers.Values - old(localTrackers.Values))
      ensures State() == old(State()).Measured(peer, Bandwidth(bandwidthKbps)).Published(peer)
      ensures TookSample(old(State()), State(), peer, Bandwidth(bandwidthKbps))
    {
      MeasureTracker(peer, Bandwidth(bandwidthKbps));
      UpdateGraphLink(peer);
      MeasuringMeasures(old(State()), peer, Bandwidth(bandwidthKbps));
    }

    method RecordLossRate(peer: PeerId, lossRate: real)
      requires Valid()
      modifies this, graph, localTrackers.Values
      ensures Valid() && fresh(localTrackers.Values - old(localTrackers.Values))
      ensures State() == old(State()).Measured(peer, Loss(lossRate)).Published(peer)
      ensures TookSample(old(State()), State(), peer, Loss(lossRate))
    {
      MeasureTracker(peer, Loss(lossRate));
      UpdateGraphLink(peer);
      MeasuringMeasures(old(State()), peer, Loss(lossRate));
    }

    method UpdateGraphLink(peer: PeerId)
      requires Valid()
      modifies graph
      ensures State() == old(State()).Published(peer)
      ensures OnlyLink(old(State()).graph, State().graph, localPeerId, peer)
      ensures LinkOf(graph.edges, localPeerId, peer) ==
              if peer in localTrackers then Some(localTrackers[peer].Metrics())
              else old(LinkOf(graph.edges, localPeerId, peer))
    {
      if peer in localTrackers {
        var metrics := localTrackers[peer].Metrics();
        graph.AddLink(localPeerId, peer, metrics);
      }
    }

    method GetLinkStateUpdate(peer: PeerId, now: nat) returns (update: Option<LinkStateUpdate>)
      requires Valid()
      modifies this`sequenceGenerator
      ensures Valid()
      ensures update.Some? ==> sequenceGenerator == (old(sequenceGenerator) + 1) % 0x1_0000_0000_0000_0000
      ensures update.None? <==> peer !in old(localTrackers)
      ensures update.None? ==> State() == old(State())
      ensures update.Some? ==>
                && State() == old(State()).Counted()
                && update.value == LinkStateUpdate(localPeerId, peer, old(State()).trackers[peer],
                                                   old(sequenceGenerator), now)
    {
      if peer !in localTrackers {
        return None;
      }
      var metrics := localTrackers[peer].Metrics();
      var sequence := sequenceGenerator;
      sequenceGenerator := (sequenceGenerator + 1) % U64_MODULUS;
      update := Some(LinkStateUpdate(localPeerId, peer, metrics, sequence, now));
    }

    method ProcessLinkStateUpdate(update: LinkStateUpdate) returns (applied: bool)
      requires Valid()
      modifies this`gossipSequences, graph
      ensures Valid()
      ensures applied <==> update.sequence > GetOr(old(gossipSequences), (update.source, update.destination), 0)
      ensures applied ==> HasAccepted(old(State()), State(), update)
      ensures !applied ==> HasRefused(old(State()), State())
      ensures State() == if applied then old(State()).Sequenced(update).Linked(update)
                         else old(State()).Sequenced(update)
    {
      AcceptingAccepts(State(), update);
      var key := (update.source, update.destination);
      if key !in gossipSequences {
        gossipSequences := gossipSequences[key := 0];
      }
      if update.sequence <= gossipSequences[key] {
        assert State().seqs == old(State()).Sequenced(update).seqs;
        return false;
      }
      gossipSequences := gossipSequences[key := update.sequence];
      graph.AddLink(update.source, update.destination, update.metrics);
      assert State().seqs == old(State()).Sequenced(update).seqs;
      applied := true;
    }

    method FindRoute(target: PeerId) returns (route: Option<seq<PeerId>>)
      requires Settles(WeightsOf(graph.edges), localPeerId, target)
      ensures route.None? <==> !exists q :: RouteBetween(graph.edges, q, localPeerId, target)
      ensures route.Some? ==> RouteBetween(graph.edges, route.value, localPeerId, target) && NoRepeats(route.value)
      ensures NoNegativeLink(graph.edges) && route.Some? ==>
                IsCheapestRoute(graph.edges, route.value, localPeerId, target)
    {
      ghost var expanded, run;
      route, expanded, run := graph.FindShortestPath(localPeerId, target);
    }

    method NextHop(target: PeerId) returns (hop: Option<PeerId>)
      requires Settles(WeightsOf(graph.edges), localPeerId, target)
      ensures hop.None? <==> target == localPeerId || !exists q :: RouteBetween(graph.edges, q, localPeerId, target)
      ensures hop.Some? ==> FirstHop(graph.edges, localPeerId, target, hop.value)
      ensures NoNegativeLink(graph.edges) && hop.Some? ==>
                CheapestFirstHop(graph.edges, localPeerId, target, hop.value)
    {
      var route := FindRoute(target);
      if route.Some? && |route.value| > 1 {
        assert route.value[0] != route.value[|route.value| - 1];
        return Some(route.value[1]);
      }
      hop := None;
    }
  }
}
