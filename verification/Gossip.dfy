/**
 * Many routers, a network that duplicates, reorders and drops, and calls that interleave inside
 * each router at the granularity of the guards they hold.
 */
module Gossip {
  import opened MeshTypes
  import opened Metrics
  import opened ShortestPath
  import opened Routing

  /** A router together with the calls that are under way inside it. */
  datatype Node = Node(
    r: RouterState,
    // measurements whose tracker is written and not yet read back
    publishing: multiset<PeerId>,
    // graph updates holding a tracker's read guard: the peer and the metrics read
    reading: multiset<(PeerId, LinkMetrics)>,
    // outgoing updates holding a tracker's read guard: the peer and the metrics read
    snapshots: multiset<(PeerId, LinkMetrics)>,
    // incoming updates holding a sequence entry's guard
    applying: map<Link, LinkStateUpdate>,
    // every update processed so far
    processed: set<LinkStateUpdate>,
    // the sequence number of the update whose metrics the graph shows for a remote link
    shown: map<Link, nat>)

  /** An update and how many measurements of its link had been made when it was issued. */
  datatype Issue = Issue(update: LinkStateUpdate, at: nat)

  datatype Mesh = Mesh(
    nodes: map<PeerId, Node>,
    // (i, j): router i has a session with j; sessions are only ever added
    sessions: set<(PeerId, PeerId)>,
    // every update ever sent; it may reach any router its source has a session with, any number of times, or never
    net: set<LinkStateUpdate>,
    // all measurements of each link, in order
    samples: map<Link, seq<Sample>>,
    // every update issued, by source and sequence number
    issues: map<(PeerId, nat), Issue>)

  /** What a router does in one guarded step. */
  datatype Action =
    | Connect(p: PeerId)
    | Take(p: PeerId, s: Sample)
    | Read(p: PeerId)
    | Write(p: PeerId, metrics: LinkMetrics)
    | Snapshot(p: PeerId)
    | Send(p: PeerId, metrics: LinkMetrics, now: nat)
    | Receive(u: LinkStateUpdate)
    | Apply(l: Link)

  datatype Event = Event(i: PeerId, a: Action)

  ghost predicate Enabled(m: Mesh, e: Event) {
    && e.i in m.nodes
    && var n := m.nodes[e.i];
    match e.a
    case Connect(p) => true
    case Take(p, s) =>
      && (e.i, p) in m.sessions && PlausibleSample(s)
      && (forall x | x in n.snapshots :: x.0 != p) && (forall x | x in n.reading :: x.0 != p)
    case Read(p) => p in n.publishing && p in n.r.trackers
    case Write(p, metrics) => (p, metrics) in n.reading
    case Snapshot(p) => p in n.r.trackers
    case Send(p, metrics, now) => (p, metrics) in n.snapshots && n.r.nextSeq < U64_MODULUS - 1
    case Receive(u) => u in m.net && u.source != e.i && (u.source, e.i) in m.sessions && u.Key() !in n.applying
    case Apply(l) => l in n.applying
  }

  function Outgoing(n: Node, p: PeerId, metrics: LinkMetrics, now: nat): (r: LinkStateUpdate) {
    LinkStateUpdate(n.r.local, p, metrics, n.r.nextSeq, now)
  }

  ghost function After(n: Node, a: Action): (r: Node)
    requires a.Snapshot? || a.Read? ==> a.p in n.r.trackers
    requires a.Apply? ==> a.l in n.applying
  {
    match a
    case Connect(p) => n
    case Take(p, s) => n.(r := n.r.Measured(p, s), publishing := n.publishing + multiset{p})
    case Read(p) =>
      n.(publishing := n.publishing - multiset{p}, reading := n.reading + multiset{(p, n.r.trackers[p])})
    case Write(p, metrics) =>
      n.(r := n.r.Showing(p, metrics), reading := n.reading - multiset{(p, metrics)})
    case Snapshot(p) => n.(snapshots := n.snapshots + multiset{(p, n.r.trackers[p])})
    case Send(p, metrics, now) => n.(r := n.r.Counted(), snapshots := n.snapshots - multiset{(p, metrics)})
    case Receive(u) =>
      n.(r := n.r.Sequenced(u),
         applying := if n.r.Accepts(u) then n.applying[u.Key() := u] else n.applying,
         processed := n.processed + {u})
    case Apply(l) =>
      var u := n.applying[l];
      n.(r := n.r.Linked(u), applying := n.applying - {l}, shown := n.shown[l := u.sequence])
  }

  // ----- A call is the run of its guarded steps

  /** A measurement with nothing in between. */
  lemma MeasurementIsItsSteps(n: Node, p: PeerId, s: Sample)
    ensures var a := After(n, Take(p, s));
            && p in a.r.trackers
            && var b := After(After(a, Read(p)), Write(p, a.r.trackers[p]));
               b == n.(r := n.r.Measured(p, s).Published(p))
  {
  }

  /** An outgoing update with nothing in between. */
  lemma IssuingIsItsSteps(n: Node, p: PeerId, now: nat)
    requires p in n.r.trackers
    ensures After(After(n, Snapshot(p)), Send(p, n.r.trackers[p], now)) == n.(r := n.r.Counted())
    ensures Outgoing(n, p, n.r.trackers[p], now)
            == LinkStateUpdate(n.r.local, p, n.r.trackers[p], n.r.nextSeq, now)
  {
  }

  /** An incoming update with nothing in between. */
  lemma ProcessingIsItsSteps(n: Node, u: LinkStateUpdate)
    requires u.Key() !in n.applying
    ensures var a := After(n, Receive(u));
            if n.r.Accepts(u)
            then u.Key() in a.applying
                 && var b := After(a, Apply(u.Key()));
                    b.r == n.r.Sequenced(u).Linked(u) && b.applying == n.applying
            else a.r == n.r.Sequenced(u) && a.applying == n.applying
  {
    assert n.applying[u.Key() := u] - {u.Key()} == n.applying;
  }

  ghost function Step(m: Mesh, e: Event): (r: Mesh)
    requires Enabled(m, e)
  {
    var n := m.nodes[e.i];
    var m' := m.(nodes := m.nodes[e.i := After(n, e.a)]);
    match e.a
    case Connect(p) => m'.(sessions := m.sessions + {(e.i, p)})
    case Take(p, s) =>
      m'.(samples := m.samples[(e.i, p) := GetOr(m.samples, (e.i, p), []) + [s]])
    case Send(p, metrics, now) =>
      var u := Outgoing(n, p, metrics, now);
      m'.(net := m.net + {u},
          issues := m.issues[(e.i, u.sequence) := Issue(u, |GetOr(m.samples, (e.i, p), [])|)])
    case _ => m'
  }

  function FreshNode(i: PeerId): (n: Node) {
    Node(RouterState(i, map[], map[], map[], 1), multiset{}, multiset{}, multiset{}, map[], {}, map[])
  }

  ghost predicate Initial(m: Mesh) {
    && m.net == {} && m.samples == map[] && m.issues == map[]
    && forall i | i in m.nodes :: m.nodes[i] == FreshNode(i)
  }

  /** `m'` is reached from `m` by the events `es`, whatever their order and origin. */
  ghost predicate Runs(m: Mesh, es: seq<Event>, m': Mesh)
    decreases |es|
  {
    if es == [] then m' == m else Enabled(m, es[0]) && Runs(Step(m, es[0]), es[1..], m')
  }

  // ----- The invariant

  /** The metrics of link `l` after its first `k` measurements. */
  ghost function MetricsAt(m: Mesh, l: Link, k: nat): (r: LinkMetrics) {
    MeasureAll(DEFAULT_METRICS, if l in m.samples && k <= |m.samples[l]| then m.samples[l][..k] else [])
  }

  ghost function Taken(m: Mesh, l: Link): (r: nat) {
    |GetOr(m.samples, l, [])|
  }

  ghost predicate HasIssue(m: Mesh, l: Link, q: nat) {
    (l.0, q) in m.issues && m.issues[(l.0, q)].update.destination == l.1
  }

  ghost predicate IssueOk(m: Mesh, k: (PeerId, nat)) {
    && k in m.issues
    && var u, at := m.issues[k].update, m.issues[k].at;
    && k == (u.source, u.sequence) && u.sequence > 0 && u in m.net
    && u.Key() in m.samples && at <= Taken(m, u.Key())
    && u.metrics == MetricsAt(m, u.Key(), at)
  }

  /** Numbers of one link grow with the measurements they report. */
  ghost predicate InOrder(m: Mesh, k: (PeerId, nat), k': (PeerId, nat)) {
    k in m.issues && k' in m.issues && k.0 == k'.0 && k.1 < k'.1
    && m.issues[k].update.destination == m.issues[k'].update.destination
    ==> m.issues[k].at <= m.issues[k'].at
  }

  ghost predicate LedgerOk(m: Mesh) {
    && (forall k {:trigger IssueOk(m, k)} | k in m.issues :: IssueOk(m, k))
    && (forall k, k' {:trigger InOrder(m, k, k')} :: InOrder(m, k, k'))
    && (forall u {:trigger u in m.net} | u in m.net ::
          (u.source, u.sequence) in m.issues && m.issues[(u.source, u.sequence)].update == u)
    && (forall l, s | l in m.samples && s in m.samples[l] :: PlausibleSample(s))
    && (forall l {:trigger l in m.samples} | l in m.samples :: l in m.sessions && l.0 in m.nodes)
  }

  /** Trackers hold exactly what was measured. */
  ghost predicate TrackersOk(m: Mesh, i: PeerId, n: Node) {
    && n.r.local == i
    && (forall p {:trigger (i, p) in m.samples} :: (i, p) in m.samples ==> p in n.r.trackers)
    && (forall p {:trigger p in n.r.trackers} | p in n.r.trackers ::
          (i, p) in m.samples && n.r.trackers[p] == MetricsAt(m, (i, p), Taken(m, (i, p))))
  }

  /** A held guard keeps what was read under it current. */
  ghost predicate GuardsOk(n: Node) {
    && (forall x | x in n.snapshots :: x.0 in n.r.trackers && x.1 == n.r.trackers[x.0])
    && (forall x | x in n.reading :: x.0 in n.r.trackers && x.1 == n.r.trackers[x.0])
  }

  /** A router has issued exactly the numbers from 1 up to its counter. */
  ghost predicate CounterOk(m: Mesh, i: PeerId, n: Node) {
    && 0 < n.r.nextSeq < U64_MODULUS
    && forall q: nat {:trigger (i, q) in m.issues} :: (i, q) in m.issues <==> 0 < q < n.r.nextSeq
  }

  /** What a router believes of a link that is not its own. */
  ghost predicate LinkViewOk(m: Mesh, n: Node, l: Link) {
    var q := GetOr(n.r.seqs, l, 0);
    && (forall u | u in n.processed && u.Key() == l :: u.sequence <= q)
    && (q > 0 ==> HasIssue(m, l, q) && m.issues[(l.0, q)].update in n.processed)
    && (l in n.shown ==>
          && n.shown[l] > 0 && HasIssue(m, l, n.shown[l])
          && LinkOf(n.r.graph, l.0, l.1) == Some(m.issues[(l.0, n.shown[l])].update.metrics))
    && (l !in n.shown ==> LinkOf(n.r.graph, l.0, l.1) == None)
    && (if l in n.applying then
          && GetOr(n.shown, l, 0) < q
          && n.applying[l].Key() == l && n.applying[l].sequence == q
          && n.applying[l] == m.issues[(l.0, q)].update
        else GetOr(n.shown, l, 0) == q)
  }

  ghost predicate ViewOk(m: Mesh, i: PeerId, n: Node) {
    && (forall u | u in n.processed :: u in m.net && u.source != i && (u.source, i) in m.sessions)
    && (forall l | l in n.applying :: l.0 != i)
    && (forall l: Link {:trigger LinkViewOk(m, n, l)} | l.0 != i :: LinkViewOk(m, n, l))
  }

  /** Some measurement of `p` has written the tracker and not yet the graph. */
  ghost predicate HalfDone(n: Node, p: PeerId) {
    p in n.publishing || (p in n.r.trackers && (p, n.r.trackers[p]) in n.reading)
  }

  /** The graph's own links agree with the trackers, unless a measurement is half done. */
  ghost predicate LocalOk(i: PeerId, n: Node) {
    && n.r.local == i
    && (forall p | p in n.publishing :: p in n.r.trackers)
    && (forall p {:trigger n.r.AgreesOn(p)} :: n.r.AgreesOn(p) || HalfDone(n, p))
  }

  /** Every metrics value that reached the graph is sound, and no node is listed without a link. */
  ghost predicate GraphSound(n: Node) {
    && (forall u, v | LinkOf(n.r.graph, u, v).Some? :: LinkOf(n.r.graph, u, v).value.Sound())
    && NoEmptyRow(n.r.graph)
  }

  ghost predicate NodeOk(m: Mesh, i: PeerId, n: Node) {
    && TrackersOk(m, i, n) && GuardsOk(n) && CounterOk(m, i, n)
    && ViewOk(m, i, n) && LocalOk(i, n) && GraphSound(n)
  }

  ghost predicate MeshOk(m: Mesh) {
    LedgerOk(m) && forall i {:trigger m.nodes[i]} | i in m.nodes :: NodeOk(m, i, m.nodes[i])
  }

  lemma IssueFacts(m: Mesh, k: (PeerId, nat))
    requires LedgerOk(m) && k in m.issues
    ensures IssueOk(m, k)
  {
  }

  lemma NodeFacts(m: Mesh, i: PeerId)
    requires MeshOk(m) && i in m.nodes
    ensures NodeOk(m, i, m.nodes[i])
  {
  }

  lemma LinkFacts(m: Mesh, i: PeerId, n: Node, l: Link)
    requires ViewOk(m, i, n) && l.0 != i
    ensures LinkViewOk(m, n, l)
  {
  }

  // ----- Frames: what a step leaves alone

  ghost predicate IssuesGrow(m: Mesh, m': Mesh) {
    && m.net <= m'.net && m.sessions <= m'.sessions
    && forall k {:trigger k in m'.issues} | k in m.issues :: k in m'.issues && m'.issues[k] == m.issues[k]
  }

  ghost predicate SameSamples(m: Mesh, m': Mesh, i: PeerId) {
    forall p {:trigger (i, p) in m.samples} {:trigger (i, p) in m'.samples} ::
      ((i, p) in m.samples <==> (i, p) in m'.samples)
      && ((i, p) in m.samples ==> m.samples[(i, p)] == m'.samples[(i, p)])
  }

  lemma TrackersFrame(m: Mesh, m': Mesh, i: PeerId, n: Node, n': Node)
    requires TrackersOk(m, i, n) && SameSamples(m, m', i)
    requires n'.r.local == n.r.local && n'.r.trackers == n.r.trackers
    ensures TrackersOk(m', i, n')
  {
    forall p | p in n'.r.trackers
      ensures (i, p) in m'.samples && n'.r.trackers[p] == MetricsAt(m', (i, p), Taken(m', (i, p)))
    {
      assert p in n.r.trackers && (i, p) in m.samples;
    }
  }

  lemma GuardsFrame(n: Node, n': Node)
    requires GuardsOk(n) && n'.r.trackers == n.r.trackers
    requires n'.snapshots <= n.snapshots && n'.reading <= n.reading
    ensures GuardsOk(n')
  {
    assert forall x | x in n'.snapshots :: x in n.snapshots;
    assert forall x | x in n'.reading :: x in n.reading;
  }

  ghost predicate ViewUnchanged(i: PeerId, n: Node, n': Node) {
    && n'.r.seqs == n.r.seqs && n'.processed == n.processed && n'.applying == n.applying && n'.shown == n.shown
    && forall l: Link {:trigger LinkOf(n'.r.graph, l.0, l.1)} | l.0 != i ::
         LinkOf(n'.r.graph, l.0, l.1) == LinkOf(n.r.graph, l.0, l.1)
  }

  lemma ViewFrame(m: Mesh, m': Mesh, i: PeerId, n: Node, n': Node)
    requires ViewOk(m, i, n) && IssuesGrow(m, m') && ViewUnchanged(i, n, n')
    ensures ViewOk(m', i, n')
  {
    forall l: Link | l.0 != i ensures LinkViewOk(m', n', l) {
      LinkFacts(m, i, n, l);
      assert LinkOf(n'.r.graph, l.0, l.1) == LinkOf(n.r.graph, l.0, l.1);
      IssueStays(m, m', l, GetOr(n.r.seqs, l, 0));
      IssueStays(m, m', l, GetOr(n.shown, l, 0));
    }
  }

  lemma IssueStays(m: Mesh, m': Mesh, l: Link, q: nat)
    requires IssuesGrow(m, m')
    ensures HasIssue(m, l, q) ==> HasIssue(m', l, q) && m'.issues[(l.0, q)] == m.issues[(l.0, q)]
  {
    if HasIssue(m, l, q) {
      assert (l.0, q) in m'.issues;
    }
  }

  lemma CounterFrame(m: Mesh, m': Mesh, i: PeerId, n: Node, n': Node)
    requires CounterOk(m, i, n) && n'.r.nextSeq == n.r.nextSeq && IssuesGrow(m, m')
    requires forall k | k in m'.issues && k.0 == i :: k in m.issues
    ensures CounterOk(m', i, n')
  {
    forall q: nat ensures (i, q) in m'.issues <==> 0 < q < n'.r.nextSeq {
      assert (i, q) in m.issues ==> (i, q) in m'.issues;
      assert (i, q) in m'.issues ==> (i, q) in m.issues;
    }
  }

  /** A router is not disturbed by a step of another. */
  lemma OthersUndisturbed(m: Mesh, m': Mesh, j: PeerId, n: Node)
    requires NodeOk(m, j, n) && IssuesGrow(m, m') && SameSamples(m, m', j)
    requires forall k | k in m'.issues && k.0 == j :: k in m.issues
    ensures NodeOk(m', j, n)
  {
    TrackersFrame(m, m', j, n, n);
    CounterFrame(m, m', j, n, n);
    ViewFrame(m, m', j, n, n);
  }

  // ----- Each action keeps the acting router and the ledger in order

  lemma TrackerIsSound(m: Mesh, i: PeerId, n: Node, p: PeerId)
    requires LedgerOk(m) && TrackersOk(m, i, n) && p in n.r.trackers
    ensures n.r.trackers[p].Sound()
  {
    MetricsAtIsSound(m, (i, p), Taken(m, (i, p)));
  }

  lemma MetricsAtIsSound(m: Mesh, l: Link, k: nat)
    requires LedgerOk(m)
    ensures MetricsAt(m, l, k).Sound()
  {
    var ss := if l in m.samples && k <= |m.samples[l]| then m.samples[l][..k] else [];
    forall s | s in ss ensures PlausibleSample(s) {
      assert s in m.samples[l];
    }
    EveryRunKeepsCostPositive(DEFAULT_METRICS, ss);
  }

  /** Earlier metrics of a link do not change when another measurement is appended. */
  lemma PastIsFixed(m: Mesh, m': Mesh, l: Link, k: nat)
    requires k <= Taken(m, l) && (l in m.samples ==> l in m'.samples && m.samples[l] <= m'.samples[l])
    requires l !in m.samples ==> k == 0
    ensures MetricsAt(m', l, k) == MetricsAt(m, l, k) && k <= Taken(m', l)
  {
    if l in m.samples {
      assert m'.samples[l][..k] == m.samples[l][..k];
    } else {
      assert l in m'.samples ==> m'.samples[l][..k] == [];
    }
  }

  /** `m'` differs from `m` by one more measurement of link `l`. */
  ghost predicate OneMoreSample(m: Mesh, m': Mesh, l: Link, s: Sample) {
    && m'.issues == m.issues && m'.net == m.net && m'.sessions == m.sessions && m'.nodes.Keys == m.nodes.Keys
    && l in m.sessions && l.0 in m.nodes
    && m'.samples == m.samples[l := GetOr(m.samples, l, []) + [s]]
  }

  lemma TakeKeepsLedger(m: Mesh, m': Mesh, l: Link, s: Sample)
    requires LedgerOk(m) && OneMoreSample(m, m', l, s) && PlausibleSample(s)
    ensures LedgerOk(m')
  {
    forall k | k in m'.issues ensures IssueOk(m', k) {
      IssueFacts(m, k);
      PastIsFixed(m, m', m.issues[k].update.Key(), m.issues[k].at);
    }
    forall k, k' ensures InOrder(m', k, k') {
      assert InOrder(m, k, k');
    }
  }

  lemma TakeKeepsNode(m: Mesh, m': Mesh, i: PeerId, p: PeerId, s: Sample, n: Node, n': Node)
    requires NodeOk(m, i, n) && OneMoreSample(m, m', (i, p), s) && n' == After(n, Take(p, s))
    requires (forall x | x in n.snapshots :: x.0 != p) && (forall x | x in n.reading :: x.0 != p)
    ensures NodeOk(m', i, n')
  {
    assert TrackersOk(m', i, n') by { TakeKeepsTrackers(m, m', i, p, s, n, n'); }
    assert CounterOk(m', i, n') by { CounterFrame(m, m', i, n, n'); }
    assert ViewOk(m', i, n') by { ViewFrame(m, m', i, n, n'); }
    assert LocalOk(i, n') by { TakeKeepsLocal(i, n, n', p, s); }
  }

  lemma TakeKeepsLocal(i: PeerId, n: Node, n': Node, p: PeerId, s: Sample)
    requires LocalOk(i, n) && n' == After(n, Take(p, s))
    ensures LocalOk(i, n')
  {
    forall q ensures n'.r.AgreesOn(q) || HalfDone(n', q) {
      assert n.r.AgreesOn(q) || HalfDone(n, q);
    }
  }

  lemma TakeKeepsTrackers(m: Mesh, m': Mesh, i: PeerId, p: PeerId, s: Sample, n: Node, n': Node)
    requires TrackersOk(m, i, n) && OneMoreSample(m, m', (i, p), s) && n'.r == n.r.Measured(p, s)
    ensures TrackersOk(m', i, n')
  {
    var past := GetOr(m.samples, (i, p), []);
    TrackerIsMeasured(m, i, n, p);
    MeasureAllAppend(DEFAULT_METRICS, past, s);
    assert (past + [s])[..|past| + 1] == past + [s];
    forall q | q in n'.r.trackers
      ensures (i, q) in m'.samples && n'.r.trackers[q] == MetricsAt(m', (i, q), Taken(m', (i, q)))
    {
      if q != p {
        assert q in n.r.trackers && (i, q) != (i, p);
      }
    }
    forall q | (i, q) in m'.samples ensures q in n'.r.trackers {
      assert q != p ==> (i, q) in m.samples;
    }
  }

  lemma TrackerIsMeasured(m: Mesh, i: PeerId, n: Node, p: PeerId)
    requires TrackersOk(m, i, n)
    ensures GetOr(n.r.trackers, p, DEFAULT_METRICS) == MeasureAll(DEFAULT_METRICS, GetOr(m.samples, (i, p), []))
  {
    var past := GetOr(m.samples, (i, p), []);
    assert past[..|past|] == past;
    if p !in n.r.trackers {
      assert (i, p) !in m.samples;
    }
  }

  lemma LocalFrame(i: PeerId, n: Node, n': Node)
    requires LocalOk(i, n) && n'.r.local == i && n'.r.trackers == n.r.trackers
    requires n'.publishing == n.publishing && n'.reading == n.reading
    requires forall p :: LinkOf(n'.r.graph, i, p) == LinkOf(n.r.graph, i, p)
    ensures LocalOk(i, n')
  {
    forall p ensures n'.r.AgreesOn(p) || HalfDone(n', p) {
      assert n.r.AgreesOn(p) || HalfDone(n, p);
    }
  }

  lemma ReadKeepsNode(m: Mesh, i: PeerId, n: Node, n': Node, p: PeerId)
    requires NodeOk(m, i, n) && p in n.publishing && p in n.r.trackers && n' == After(n, Read(p))
    ensures NodeOk(m, i, n')
  {
    assert LocalOk(i, n') by {
      forall q ensures n'.r.AgreesOn(q) || HalfDone(n', q) {
        assert n.r.AgreesOn(q) || HalfDone(n, q);
      }
    }
    assert GuardsOk(n') by {
      forall x | x in n'.reading ensures x.0 in n'.r.trackers && x.1 == n'.r.trackers[x.0] {
        assert x in n.reading || x == (p, n.r.trackers[p]);
      }
    }
    assert TrackersOk(m, i, n') by { TrackersFrame(m, m, i, n, n'); }
    assert ViewOk(m, i, n') by { ViewFrame(m, m, i, n, n'); }
  }

  /** The guard kept the tracker still, so what was read is what the tracker says. */
  lemma WriteKeepsLocal(i: PeerId, n: Node, n': Node, p: PeerId, metrics: LinkMetrics)
    requires LocalOk(i, n) && GuardsOk(n) && (p, metrics) in n.reading && n' == After(n, Write(p, metrics))
    ensures LocalOk(i, n') && p in n.r.trackers && metrics == n.r.trackers[p]
  {
    LinkLookup(n.r.graph, i, p, metrics);
    assert p in n.r.trackers && metrics == n.r.trackers[p];
    forall q ensures n'.r.AgreesOn(q) || HalfDone(n', q) {
      assert n.r.AgreesOn(q) || HalfDone(n, q);
    }
  }

  lemma SoundLinkKeepsSound(n: Node, n': Node, from: PeerId, to: PeerId, metrics: LinkMetrics)
    requires GraphSound(n) && metrics.Sound() && n'.r.graph == WithLink(n.r.graph, from, to, metrics)
    ensures GraphSound(n')
  {
    LinkLookup(n.r.graph, from, to, metrics);
    forall u, v | LinkOf(n'.r.graph, u, v).Some? ensures LinkOf(n'.r.graph, u, v).value.Sound() {
      assert (u, v) != (from, to) ==> LinkOf(n'.r.graph, u, v) == LinkOf(n.r.graph, u, v);
    }
  }

  lemma OwnLinkKeepsView(i: PeerId, n: Node, n': Node, p: PeerId, metrics: LinkMetrics)
    requires n' == After(n, Write(p, metrics)) && n.r.local == i
    ensures ViewUnchanged(i, n, n')
  {
    LinkLookup(n.r.graph, i, p, metrics);
  }

  lemma WriteKeepsNode(m: Mesh, i: PeerId, n: Node, n': Node, p: PeerId, metrics: LinkMetrics)
    requires LedgerOk(m) && NodeOk(m, i, n) && (p, metrics) in n.reading && n' == After(n, Write(p, metrics))
    ensures NodeOk(m, i, n')
  {
    assert LocalOk(i, n') && p in n.r.trackers && metrics == n.r.trackers[p] by {
      WriteKeepsLocal(i, n, n', p, metrics);
    }
    assert TrackersOk(m, i, n') by { TrackersFrame(m, m, i, n, n'); }
    assert GuardsOk(n') by { GuardsFrame(n, n'); }
    assert GraphSound(n') by {
      TrackerIsSound(m, i, n, p);
      SoundLinkKeepsSound(n, n', i, p, metrics);
    }
    assert ViewOk(m, i, n') by {
      OwnLinkKeepsView(i, n, n', p, metrics);
      ViewFrame(m, m, i, n, n');
    }
  }

  lemma SnapshotKeepsNode(m: Mesh, i: PeerId, n: Node, n': Node, p: PeerId)
    requires NodeOk(m, i, n) && p in n.r.trackers && n' == After(n, Snapshot(p))
    ensures NodeOk(m, i, n')
  {
    LocalFrame(i, n, n');
    ViewFrame(m, m, i, n, n');
    forall x | x in n'.snapshots ensures x.0 in n'.r.trackers && x.1 == n'.r.trackers[x.0] {
      assert x in n.snapshots || x == (p, n.r.trackers[p]);
    }
  }

  /** `m'` differs from `m` by one more update of router `i`. */
  ghost predicate OneMoreIssue(m: Mesh, m': Mesh, i: PeerId, n: Node, u: LinkStateUpdate) {
    && m'.samples == m.samples && m'.net == m.net + {u} && m'.sessions == m.sessions && m'.nodes.Keys == m.nodes.Keys
    && u.source == i && u.sequence == n.r.nextSeq
    && m'.issues == m.issues[(i, u.sequence) := Issue(u, Taken(m, u.Key()))]
  }

  /** The number is new, and no update of the link reported more measurements. */
  lemma SendKeepsLedger(m: Mesh, m': Mesh, i: PeerId, n: Node, u: LinkStateUpdate)
    requires LedgerOk(m) && CounterOk(m, i, n) && OneMoreIssue(m, m', i, n, u)
    requires u.Key() in m.samples && u.metrics == MetricsAt(m, u.Key(), Taken(m, u.Key()))
    ensures LedgerOk(m') && IssuesGrow(m, m')
  {
    var key := (i, u.sequence);
    assert key !in m.issues;
    forall k | k in m'.issues ensures IssueOk(m', k) {
      if k != key { IssueFacts(m, k); }
    }
    forall k, k' ensures InOrder(m', k, k') {
      assert InOrder(m, k, k');
      if k in m.issues {
        IssueFacts(m, k);
      }
    }
  }

  lemma SendKeepsCounter(m: Mesh, m': Mesh, i: PeerId, n: Node, n': Node, p: PeerId, metrics: LinkMetrics, now: nat)
    requires CounterOk(m, i, n) && n.r.nextSeq < U64_MODULUS - 1 && n'.r == n.r.Counted()
    requires OneMoreIssue(m, m', i, n, Outgoing(n, p, metrics, now))
    ensures CounterOk(m', i, n')
  {
  }

  lemma SendKeepsNode(m: Mesh, m': Mesh, i: PeerId, n: Node, n': Node, p: PeerId, metrics: LinkMetrics, now: nat)
    requires NodeOk(m, i, n) && (p, metrics) in n.snapshots && n.r.nextSeq < U64_MODULUS - 1
    requires n' == After(n, Send(p, metrics, now))
    requires OneMoreIssue(m, m', i, n, Outgoing(n, p, metrics, now)) && IssuesGrow(m, m')
    ensures NodeOk(m', i, n')
  {
    assert CounterOk(m', i, n') by { SendKeepsCounter(m, m', i, n, n', p, metrics, now); }
    assert TrackersOk(m', i, n') by { TrackersFrame(m, m', i, n, n'); }
    assert GuardsOk(n') by { GuardsFrame(n, n'); }
    assert LocalOk(i, n') by { LocalFrame(i, n, n'); }
    assert ViewOk(m', i, n') by { ViewFrame(m, m', i, n, n'); }
  }

  /** Sequence test and sequence write happen under one guard, so the entry holds the maximum. */
  lemma ReceiveKeepsView(m: Mesh, i: PeerId, n: Node, n': Node, u: LinkStateUpdate)
    requires LedgerOk(m) && ViewOk(m, i, n) && u in m.net && u.Key() !in n.applying
    requires u.source != i && (u.source, i) in m.sessions
    requires n' == After(n, Receive(u))
    ensures ViewOk(m, i, n')
  {
    IssueFacts(m, (u.source, u.sequence));
    forall l: Link | l.0 != i ensures LinkViewOk(m, n', l) {
      LinkFacts(m, i, n, l);
    }
  }

  lemma ReceiveKeepsNode(m: Mesh, i: PeerId, n: Node, n': Node, u: LinkStateUpdate)
    requires LedgerOk(m) && NodeOk(m, i, n) && u in m.net && u.Key() !in n.applying
    requires u.source != i && (u.source, i) in m.sessions
    requires n' == After(n, Receive(u))
    ensures NodeOk(m, i, n')
  {
    assert ViewOk(m, i, n') by { ReceiveKeepsView(m, i, n, n', u); }
    assert TrackersOk(m, i, n') by { TrackersFrame(m, m, i, n, n'); }
    assert LocalOk(i, n') by { LocalFrame(i, n, n'); }
  }

  lemma ApplyKeepsView(m: Mesh, i: PeerId, n: Node, n': Node, l: Link)
    requires LedgerOk(m) && ViewOk(m, i, n) && l in n.applying
    requires n' == After(n, Apply(l))
    ensures ViewOk(m, i, n')
    ensures n.applying[l].Key() == l && n.applying[l].metrics.Sound()
  {
    var u := n.applying[l];
    LinkFacts(m, i, n, l);
    LinkLookup(n.r.graph, u.source, u.destination, u.metrics);
    IssueFacts(m, (l.0, u.sequence));
    MetricsAtIsSound(m, u.Key(), m.issues[(l.0, u.sequence)].at);
    forall x: Link | x.0 != i ensures LinkViewOk(m, n', x) {
      LinkFacts(m, i, n, x);
    }
  }

  lemma ApplyKeepsNode(m: Mesh, i: PeerId, n: Node, n': Node, l: Link)
    requires LedgerOk(m) && NodeOk(m, i, n) && l in n.applying && n' == After(n, Apply(l))
    ensures NodeOk(m, i, n')
  {
    var u := n.applying[l];
    assert ViewOk(m, i, n') && u.Key() == l && u.metrics.Sound() by { ApplyKeepsView(m, i, n, n', l); }
    assert GraphSound(n') by { SoundLinkKeepsSound(n, n', u.source, u.destination, u.metrics); }
    assert TrackersOk(m, i, n') by { TrackersFrame(m, m, i, n, n'); }
    assert LocalOk(i, n') by {
      LinkLookup(n.r.graph, u.source, u.destination, u.metrics);
      LocalFrame(i, n, n');
    }
  }

  // ----- The invariant over whole runs

  /** The acting router and the ledger are in order after the step. */
  ghost predicate ActorOk(m: Mesh, m': Mesh, i: PeerId) {
    && LedgerOk(m') && IssuesGrow(m, m')
    && i in m'.nodes && NodeOk(m', i, m'.nodes[i])
  }

  lemma TakeShape(m: Mesh, i: PeerId, p: PeerId, s: Sample)
    requires Enabled(m, Event(i, Take(p, s)))
    ensures var m' := Step(m, Event(i, Take(p, s)));
            && i in m'.nodes && m'.nodes[i] == After(m.nodes[i], Take(p, s))
            && OneMoreSample(m, m', (i, p), s)
  {
  }

  lemma TakeStep(m: Mesh, i: PeerId, p: PeerId, s: Sample)
    requires MeshOk(m) && Enabled(m, Event(i, Take(p, s)))
    ensures ActorOk(m, Step(m, Event(i, Take(p, s))), i)
  {
    var m' := Step(m, Event(i, Take(p, s)));
    TakeShape(m, i, p, s);
    NodeFacts(m, i);
    TakeKeepsLedger(m, m', (i, p), s);
    TakeKeepsNode(m, m', i, p, s, m.nodes[i], m'.nodes[i]);
  }

  lemma SendShape(m: Mesh, i: PeerId, p: PeerId, metrics: LinkMetrics, now: nat)
    requires Enabled(m, Event(i, Send(p, metrics, now))) && m.nodes[i].r.local == i
    ensures var m' := Step(m, Event(i, Send(p, metrics, now)));
            && OneMoreIssue(m, m', i, m.nodes[i], Outgoing(m.nodes[i], p, metrics, now))
            && i in m'.nodes && m'.nodes[i] == After(m.nodes[i], Send(p, metrics, now))
  {
  }

  lemma SendStep(m: Mesh, i: PeerId, p: PeerId, metrics: LinkMetrics, now: nat)
    requires MeshOk(m) && Enabled(m, Event(i, Send(p, metrics, now)))
    ensures ActorOk(m, Step(m, Event(i, Send(p, metrics, now))), i)
  {
    NodeFacts(m, i);
    SendShape(m, i, p, metrics, now);
    SendOk(m, Step(m, Event(i, Send(p, metrics, now))), i, m.nodes[i], p, metrics, now);
  }

  lemma SendOk(m: Mesh, m': Mesh, i: PeerId, n: Node, p: PeerId, metrics: LinkMetrics, now: nat)
    requires LedgerOk(m) && NodeOk(m, i, n) && (p, metrics) in n.snapshots && n.r.nextSeq < U64_MODULUS - 1
    requires OneMoreIssue(m, m', i, n, Outgoing(n, p, metrics, now))
    requires i in m'.nodes && m'.nodes[i] == After(n, Send(p, metrics, now))
    ensures ActorOk(m, m', i)
  {
    assert p in n.r.trackers && metrics == n.r.trackers[p];
    SendKeepsLedger(m, m', i, n, Outgoing(n, p, metrics, now));
    SendKeepsNode(m, m', i, n, m'.nodes[i], p, metrics, now);
  }

  lemma QuietActor(m: Mesh, e: Event)
    requires MeshOk(m) && Enabled(m, e) && !e.a.Take? && !e.a.Send?
    ensures NodeOk(m, e.i, After(m.nodes[e.i], e.a))
  {
    var i, n, n' := e.i, m.nodes[e.i], After(m.nodes[e.i], e.a);
    NodeFacts(m, i);
    match e.a
    case Connect(p) =>
    case Read(p) => ReadKeepsNode(m, i, n, n', p);
    case Write(p, metrics) => WriteKeepsNode(m, i, n, n', p, metrics);
    case Snapshot(p) => SnapshotKeepsNode(m, i, n, n', p);
    case Receive(u) => ReceiveKeepsNode(m, i, n, n', u);
    case Apply(l) => ApplyKeepsNode(m, i, n, n', l);
  }

  lemma QuietShape(m: Mesh, e: Event)
    requires Enabled(m, e) && !e.a.Take? && !e.a.Send?
    ensures var m' := Step(m, e);
            && m'.net == m.net && m'.issues == m.issues && m'.samples == m.samples
            && m.sessions <= m'.sessions && m'.nodes.Keys == m.nodes.Keys
            && m'.nodes[e.i] == After(m.nodes[e.i], e.a)
  {
  }

  lemma QuietStep(m: Mesh, e: Event)
    requires MeshOk(m) && Enabled(m, e) && !e.a.Take? && !e.a.Send?
    ensures ActorOk(m, Step(m, e), e.i)
  {
    QuietActor(m, e);
    QuietShape(m, e);
    OnlyNodesChanged(m, Step(m, e), e.i, After(m.nodes[e.i], e.a));
  }

  lemma OnlyNodesChanged(m: Mesh, m': Mesh, i: PeerId, n: Node)
    requires LedgerOk(m) && NodeOk(m, i, n)
    requires m'.net == m.net && m'.issues == m.issues && m'.samples == m.samples
    requires m.sessions <= m'.sessions && m'.nodes.Keys == m.nodes.Keys
    ensures LedgerOk(m') && IssuesGrow(m, m') && NodeOk(m', i, n)
  {
    OthersUndisturbed(m, m', i, n);
    forall k | k in m'.issues ensures IssueOk(m', k) {
      IssueFacts(m, k);
    }
    forall k, k' ensures InOrder(m', k, k') {
      assert InOrder(m, k, k');
    }
  }

  lemma StepLeavesOthers(m: Mesh, e: Event, j: PeerId)
    requires Enabled(m, e) && j != e.i
    ensures SameSamples(m, Step(m, e), j)
    ensures forall k | k in Step(m, e).issues && k.0 == j :: k in m.issues
  {
  }

  lemma OthersStay(m: Mesh, e: Event)
    requires MeshOk(m) && Enabled(m, e) && IssuesGrow(m, Step(m, e))
    ensures forall j {:trigger m.nodes[j]} | j in m.nodes && j != e.i :: NodeOk(Step(m, e), j, m.nodes[j])
  {
    forall j | j in m.nodes && j != e.i ensures NodeOk(Step(m, e), j, m.nodes[j]) {
      NodeFacts(m, j);
      StepLeavesOthers(m, e, j);
      OthersUndisturbed(m, Step(m, e), j, m.nodes[j]);
    }
  }

  lemma ActorStep(m: Mesh, e: Event)
    requires MeshOk(m) && Enabled(m, e)
    ensures ActorOk(m, Step(m, e), e.i)
  {
    match e.a
    case Take(p, s) => TakeStep(m, e.i, p, s);
    case Send(p, metrics, now) => SendStep(m, e.i, p, metrics, now);
    case _ => QuietStep(m, e);
  }

  lemma OnlyActorMoves(m: Mesh, e: Event)
    requires Enabled(m, e)
    ensures Step(m, e).nodes == m.nodes[e.i := After(m.nodes[e.i], e.a)]
    ensures Step(m, e).nodes.Keys == m.nodes.Keys
  {
  }

  /** Every guarded step of every router keeps the whole mesh in order. */
  lemma StepKeepsMesh(m: Mesh, e: Event)
    requires MeshOk(m) && Enabled(m, e)
    ensures MeshOk(Step(m, e)) && IssuesGrow(m, Step(m, e))
  {
    ActorStep(m, e);
    OthersStay(m, e);
    OnlyActorMoves(m, e);
  }

  lemma InitialIsOk(m: Mesh)
    requires Initial(m)
    ensures MeshOk(m)
  {
    forall i | i in m.nodes ensures NodeOk(m, i, m.nodes[i]) {
      var n := m.nodes[i];
      assert forall p :: n.r.AgreesOn(p);
      assert forall l: Link :: LinkViewOk(m, n, l);
    }
  }

  lemma {:induction false} RunKeepsMesh(m: Mesh, es: seq<Event>, m': Mesh)
    requires MeshOk(m) && Runs(m, es, m')
    ensures MeshOk(m')
    decreases |es|
  {
    if es != [] {
      StepKeepsMesh(m, es[0]);
      RunKeepsMesh(Step(m, es[0]), es[1..], m');
    }
  }

  ghost predicate Reachable(m: Mesh) {
    exists m0, es :: Initial(m0) && Runs(m0, es, m)
  }

  lemma ReachableIsOk(m: Mesh)
    requires Reachable(m)
    ensures MeshOk(m)
  {
    var m0, es :| Initial(m0) && Runs(m0, es, m);
    InitialIsOk(m0);
    RunKeepsMesh(m0, es, m);
  }
}
