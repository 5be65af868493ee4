/** From every state of every run, the calls under way can finish and the mesh can come to rest. */
module Settling {
  import opened MeshTypes
  import opened Metrics
  import opened Routing
  import opened Gossip
  import opened GossipGuarantees

  // ----- Runs compose

  /** Some run leads from `m` to `m'`. */
  ghost predicate Leads(m: Mesh, m': Mesh) {
    exists es :: Runs(m, es, m')
  }

  lemma Stays(m: Mesh)
    ensures Leads(m, m)
  {
    assert Runs(m, [], m);
  }

  lemma {:induction false} RunsAppend(m: Mesh, es: seq<Event>, m': Mesh, e: Event)
    requires Runs(m, es, m') && Enabled(m', e)
    ensures Runs(m, es + [e], Step(m', e))
    decreases |es|
  {
    if es != [] {
      RunsAppend(Step(m, es[0]), es[1..], m', e);
      assert (es + [e])[1..] == es[1..] + [e];
    }
  }

  lemma LeadsOn(m: Mesh, m': Mesh, e: Event)
    requires Leads(m, m') && Enabled(m', e)
    ensures Leads(m, Step(m', e))
  {
    var es :| Runs(m, es, m');
    RunsAppend(m, es, m', e);
  }

  lemma {:induction false} RunsReachable(m0: Mesh, es: seq<Event>, m: Mesh, m': Mesh, es': seq<Event>)
    requires Runs(m0, es, m) && Runs(m, es', m')
    ensures Leads(m0, m')
    decreases |es'|
  {
    if es' != [] {
      RunsAppend(m0, es, m, es'[0]);
      RunsReachable(m0, es + [es'[0]], Step(m, es'[0]), m', es'[1..]);
    }
  }

  lemma LeadsFromReachable(m: Mesh, m': Mesh)
    requires Reachable(m) && Leads(m, m')
    ensures Reachable(m')
  {
    var m0, es :| Initial(m0) && Runs(m0, es, m);
    var es' :| Runs(m, es', m');
    RunsReachable(m0, es, m, m', es');
  }

  lemma LeadsOk(m: Mesh, m': Mesh)
    requires Reachable(m) && Leads(m, m')
    ensures MeshOk(m')
  {
    LeadsFromReachable(m, m');
    ReachableIsOk(m');
  }

  // ----- Finishing the calls of one router

  ghost predicate Finished(n: Node) {
    n.publishing == multiset{} && n.reading == multiset{} && n.applying == map[]
  }

  /** What finishing calls and delivering updates leave alone in a router. */
  ghost predicate SameCounter(n: Node, n': Node) {
    n'.r.nextSeq == n.r.nextSeq && n.processed <= n'.processed
  }

  /** Only router `i` differs, and it is now `n`. */
  ghost predicate OnlyNode(m: Mesh, m': Mesh, i: PeerId, n: Node) {
    i in m.nodes && m' == m.(nodes := m.nodes[i := n])
  }

  /** Calls that are still under way; a read leaves its write to be done. */
  ghost function Pending(n: Node): (k: nat) {
    2 * |n.publishing| + |n.reading| + |n.applying|
  }

  /** The next event that brings a router closer to rest. */
  lemma NextFinish(m: Mesh, i: PeerId, n: Node) returns (a: Action)
    requires LocalOk(i, n) && i in m.nodes && m.nodes[i] == n && !Finished(n)
    ensures Enabled(m, Event(i, a)) && OnlyNode(m, Step(m, Event(i, a)), i, After(n, a))
    ensures SameCounter(n, After(n, a)) && Pending(After(n, a)) < Pending(n)
  {
    if n.reading != multiset{} {
      var x :| x in n.reading;
      a := Write(x.0, x.1);
    } else if n.publishing != multiset{} {
      var p :| p in n.publishing;
      a := Read(p);
    } else {
      var l :| l in n.applying;
      a := Apply(l);
      assert n.applying.Keys - {l} == (n.applying - {l}).Keys;
    }
  }

  lemma FinishOne(m: Mesh, m': Mesh, i: PeerId) returns (next: Mesh)
    requires Reachable(m) && Leads(m, m') && i in m'.nodes && !Finished(m'.nodes[i])
    ensures Leads(m, next) && i in next.nodes && OnlyNode(m', next, i, next.nodes[i])
    ensures SameCounter(m'.nodes[i], next.nodes[i]) && Pending(next.nodes[i]) < Pending(m'.nodes[i])
  {
    assert LocalOk(i, m'.nodes[i]) by { LeadsOk(m, m'); NodeFacts(m', i); }
    var a := NextFinish(m', i, m'.nodes[i]);
    LeadsOn(m, m', Event(i, a));
    next := Step(m', Event(i, a));
  }

  lemma {:induction false} FinishNode(m: Mesh, m': Mesh, i: PeerId) returns (m'': Mesh)
    requires Reachable(m) && Leads(m, m') && i in m'.nodes
    ensures Leads(m, m'') && i in m''.nodes && OnlyNode(m', m'', i, m''.nodes[i])
    ensures Finished(m''.nodes[i]) && SameCounter(m'.nodes[i], m''.nodes[i])
    decreases Pending(m'.nodes[i])
  {
    var n := m'.nodes[i];
    if Finished(n) {
      assert m'.nodes[i := n] == m'.nodes;
      return m';
    }
    var next := FinishOne(m, m', i);
    m'' := FinishNode(m, next, i);
    assert next.nodes[i := m''.nodes[i]] == m'.nodes[i := m''.nodes[i]];
  }

  // ----- Finishing the calls of all routers

  /** Everything but the routers' insides is as before, and no router lost anything. */
  ghost predicate SameTraffic(m: Mesh, m': Mesh) {
    && m'.samples == m.samples && m'.sessions == m.sessions && m'.net == m.net && m'.issues == m.issues
    && m'.nodes.Keys == m.nodes.Keys
    && forall i {:trigger m.nodes[i]} {:trigger m'.nodes[i]} | i in m.nodes :: SameCounter(m.nodes[i], m'.nodes[i])
  }

  ghost predicate AllFinished(m: Mesh, done: set<PeerId>) {
    forall i {:trigger m.nodes[i]} | i in m.nodes && i in done :: Finished(m.nodes[i])
  }

  lemma OneNodeKeepsTraffic(m: Mesh, mid: Mesh, m': Mesh, i: PeerId, n: Node, done: set<PeerId>)
    requires SameTraffic(m, mid) && OnlyNode(mid, m', i, n) && SameCounter(mid.nodes[i], n) && Finished(n)
    requires AllFinished(mid, done)
    ensures SameTraffic(m, m') && AllFinished(m', done + {i})
  {
    forall j | j in m.nodes ensures SameCounter(m.nodes[j], m'.nodes[j]) {
      assert SameCounter(m.nodes[j], mid.nodes[j]);
      assert m'.nodes[j] == if j == i then n else mid.nodes[j];
    }
  }

  lemma {:induction false} FinishAll(m: Mesh, todo: set<PeerId>) returns (m': Mesh)
    requires Reachable(m) && todo <= m.nodes.Keys
    ensures Leads(m, m') && SameTraffic(m, m') && AllFinished(m', todo)
    decreases |todo|
  {
    if todo == {} {
      Stays(m);
      return m;
    }
    var i :| i in todo;
    var mid := FinishAll(m, todo - {i});
    m' := FinishNode(m, mid, i);
    OneNodeKeepsTraffic(m, mid, m', i, m'.nodes[i], todo - {i});
    assert todo - {i} + {i} == todo;
  }

  // ----- Announcing every measured link

  function LinksFrom(links: set<Link>, i: PeerId): (ls: set<Link>) {
    set l | l in links && l.0 == i
  }

  /** Every router still has a number for each of the links it is to announce. */
  ghost predicate HasRoom(m: Mesh, links: set<Link>) {
    forall i {:trigger m.nodes[i]} | i in m.nodes :: m.nodes[i].r.nextSeq + |LinksFrom(links, i)| < U64_MODULUS
  }

  lemma RoomForOne(links: set<Link>, l: Link, i: PeerId)
    requires l in links
    ensures |LinksFrom(links, i)| == |LinksFrom(links - {l}, i)| + if i == l.0 then 1 else 0
  {
    if i == l.0 {
      assert LinksFrom(links, i) == LinksFrom(links - {l}, i) + {l};
    } else {
      assert LinksFrom(links, i) == LinksFrom(links - {l}, i);
    }
  }

  /** Router `l.0` has one update more, of link `l`, that reports every measurement so far. */
  ghost predicate OneMoreUpdate(m: Mesh, m': Mesh, l: Link, u: LinkStateUpdate) {
    && l.0 in m.nodes && l.0 in m'.nodes && m'.nodes == m.nodes[l.0 := m'.nodes[l.0]]
    && m'.samples == m.samples && m'.sessions == m.sessions && m'.net == m.net + {u}
    && u.Key() == l && u.sequence == m.nodes[l.0].r.nextSeq
    && m'.issues == m.issues[(l.0, u.sequence) := Issue(u, Taken(m, l))]
    && m'.nodes[l.0].r.nextSeq == m.nodes[l.0].r.nextSeq + 1
  }

  lemma SnapshotThenSend(m: Mesh, l: Link, n: Node, e: Event, e': Event)
    requires l.0 in m.nodes && m.nodes[l.0] == n && l.1 in n.r.trackers && n.r.local == l.0
    requires n.r.nextSeq < U64_MODULUS - 1
    requires e == Event(l.0, Snapshot(l.1)) && e' == Event(l.0, Send(l.1, n.r.trackers[l.1], 0))
    ensures Enabled(m, e) && Enabled(Step(m, e), e')
    ensures var m' := Step(Step(m, e), e');
            && OneMoreUpdate(m, m', l, Outgoing(n, l.1, n.r.trackers[l.1], 0))
            && (Finished(n) ==> Finished(m'.nodes[l.0])) && m'.nodes[l.0].processed == n.processed
  {
  }

  /** The link's latest measurement is in some update that was sent. */
  ghost predicate Announced(m: Mesh, l: Link) {
    exists u :: && u in m.net && u.Key() == l && (u.source, u.sequence) in m.issues
                && m.issues[(u.source, u.sequence)].at == Taken(m, l)
  }

  lemma AnnouncedStays(m: Mesh, m': Mesh, l: Link)
    requires Announced(m, l) && IssuesGrow(m, m') && m'.samples == m.samples
    ensures Announced(m', l)
  {
    var u :| && u in m.net && u.Key() == l && (u.source, u.sequence) in m.issues
             && m.issues[(u.source, u.sequence)].at == Taken(m, l);
    assert (u.source, u.sequence) in m'.issues;
  }

  lemma UpdateAnnounces(m: Mesh, m': Mesh, l: Link, u: LinkStateUpdate)
    requires OneMoreUpdate(m, m', l, u) && CounterOk(m, l.0, m.nodes[l.0])
    ensures Announced(m', l) && IssuesGrow(m, m')
  {
    assert (l.0, u.sequence) !in m.issues;
    assert u in m'.net && m'.issues[(u.source, u.sequence)].at == Taken(m', l);
  }

  /** What announcing leaves alone. */
  ghost predicate SameMeasurements(m: Mesh, m': Mesh) {
    && m'.samples == m.samples && m'.sessions == m.sessions && m'.nodes.Keys == m.nodes.Keys && IssuesGrow(m, m')
  }

  /** `next` is `m` with link `l` announced. */
  ghost predicate LinkAnnounced(m: Mesh, next: Mesh, l: Link) {
    && SameMeasurements(m, next) && Announced(next, l) && AllFinished(next, next.nodes.Keys)
    && l.0 in next.nodes && next.nodes == m.nodes[l.0 := next.nodes[l.0]] && l.0 in m.nodes
    && next.nodes[l.0].r.nextSeq == m.nodes[l.0].r.nextSeq + 1
  }

  lemma AnnounceShape(m: Mesh, next: Mesh, l: Link, n: Node, u: LinkStateUpdate)
    requires l.0 in m.nodes && m.nodes[l.0] == n && CounterOk(m, l.0, n) && AllFinished(m, m.nodes.Keys)
    requires OneMoreUpdate(m, next, l, u) && (Finished(n) ==> Finished(next.nodes[l.0]))
    ensures LinkAnnounced(m, next, l)
  {
    UpdateAnnounces(m, next, l, u);
    assert Finished(n);
    forall i | i in next.nodes ensures Finished(next.nodes[i]) {
      assert i != l.0 ==> next.nodes[i] == m.nodes[i];
    }
  }

  lemma AnnounceOne(m: Mesh, m': Mesh, l: Link) returns (next: Mesh)
    requires Reachable(m) && Leads(m, m') && l in m'.samples && AllFinished(m', m'.nodes.Keys)
    requires l.0 in m'.nodes && m'.nodes[l.0].r.nextSeq < U64_MODULUS - 1
    ensures Leads(m, next) && LinkAnnounced(m', next, l)
  {
    var n := m'.nodes[l.0];
    assert l.1 in n.r.trackers && n.r.local == l.0 && CounterOk(m', l.0, n) by {
      LeadsOk(m, m');
      NodeFacts(m', l.0);
    }
    var e, e' := Event(l.0, Snapshot(l.1)), Event(l.0, Send(l.1, n.r.trackers[l.1], 0));
    SnapshotThenSend(m', l, n, e, e');
    next := Step(Step(m', e), e');
    assert Leads(m, next) by {
      LeadsOn(m, m', e);
      LeadsOn(m, Step(m', e), e');
    }
    assert LinkAnnounced(m', next, l) by {
      AnnounceShape(m', next, l, n, Outgoing(n, l.1, n.r.trackers[l.1], 0));
    }
  }

  lemma RoomAfterOne(m: Mesh, next: Mesh, l: Link, todo: set<Link>)
    requires HasRoom(m, todo) && l in todo && LinkAnnounced(m, next, l)
    ensures HasRoom(next, todo - {l})
  {
    forall i | i in next.nodes ensures next.nodes[i].r.nextSeq + |LinksFrom(todo - {l}, i)| < U64_MODULUS {
      RoomForOne(todo, l, i);
      assert m.nodes[i].r.nextSeq + |LinksFrom(todo, i)| < U64_MODULUS;
    }
  }

  lemma RoomForFirst(m: Mesh, l: Link, todo: set<Link>)
    requires HasRoom(m, todo) && l in todo && l.0 in m.nodes
    ensures m.nodes[l.0].r.nextSeq < U64_MODULUS - 1
  {
    RoomForOne(todo, l, l.0);
  }

  lemma SameMeasurementsTwice(m: Mesh, m': Mesh, m'': Mesh)
    requires SameMeasurements(m, m') && SameMeasurements(m', m'')
    ensures SameMeasurements(m, m'')
  {
    forall k | k in m.issues ensures k in m''.issues && m''.issues[k] == m.issues[k] {
      assert k in m'.issues;
    }
  }

  ghost predicate AllAnnounced(m: Mesh, links: set<Link>) {
    forall l {:trigger Announced(m, l)} | l in links :: Announced(m, l)
  }

  lemma {:induction false} AnnounceAll(m: Mesh, m': Mesh, todo: set<Link>) returns (m'': Mesh)
    requires Reachable(m) && Leads(m, m') && todo <= m'.samples.Keys
    requires AllFinished(m', m'.nodes.Keys) && HasRoom(m', todo)
    ensures Leads(m, m'') && SameMeasurements(m', m'') && AllFinished(m'', m''.nodes.Keys) && AllAnnounced(m'', todo)
    decreases |todo|
  {
    if todo == {} {
      return m';
    }
    var l :| l in todo;
    assert l.0 in m'.nodes by { LeadsOk(m, m'); }
    RoomForFirst(m', l, todo);
    var next := AnnounceOne(m, m', l);
    RoomAfterOne(m', next, l, todo);
    m'' := AnnounceAll(m, next, todo - {l});
    SameMeasurementsTwice(m', next, m'');
    AnnouncedStays(next, m'', l);
  }

  // ----- Delivering every update

  type Delivery = (PeerId, LinkStateUpdate)

  ghost predicate Deliverable(m: Mesh, d: Delivery) {
    d.0 in m.nodes && d.1 in m.net && d.1.source != d.0 && (d.1.source, d.0) in m.sessions
  }

  /** Every update together with every router that has to get it. */
  ghost function Deliveries(m: Mesh): (ds: set<Delivery>)
    ensures forall d :: d in ds <==> Deliverable(m, d)
  {
    set i, u | i in m.nodes && u in m.net && Deliverable(m, (i, u)) :: (i, u)
  }

  lemma ReceiveShape(m: Mesh, d: Delivery, n: Node, e: Event)
    requires Deliverable(m, d) && m.nodes[d.0] == n && Finished(n) && e == Event(d.0, Receive(d.1))
    ensures Enabled(m, e) && OnlyNode(m, Step(m, e), d.0, After(n, e.a))
    ensures SameCounter(n, After(n, e.a)) && d.1 in After(n, e.a).processed
    ensures if n.r.Accepts(d.1) then After(n, e.a) == After(n, e.a).(publishing := multiset{}, reading := multiset{},
                                                                     applying := map[d.1.Key() := d.1])
            else Finished(After(n, e.a))
  {
  }

  lemma ApplyShape(m: Mesh, i: PeerId, n: Node, l: Link, u: LinkStateUpdate, e: Event)
    requires i in m.nodes && m.nodes[i] == n && n.publishing == multiset{} && n.reading == multiset{}
    requires n.applying == map[l := u] && e == Event(i, Apply(l))
    ensures Enabled(m, e) && OnlyNode(m, Step(m, e), i, After(n, e.a))
    ensures SameCounter(n, After(n, e.a)) && Finished(After(n, e.a))
  {
    assert n.applying - {l} == map[];
  }

  /** `next` is `m` with the delivery made. */
  ghost predicate Delivered(m: Mesh, next: Mesh, d: Delivery) {
    && d.0 in next.nodes && OnlyNode(m, next, d.0, next.nodes[d.0])
    && Finished(next.nodes[d.0]) && SameCounter(m.nodes[d.0], next.nodes[d.0])
    && d.1 in next.nodes[d.0].processed
  }

  lemma DeliverOne(m: Mesh, m': Mesh, d: Delivery) returns (next: Mesh)
    requires Leads(m, m') && Deliverable(m', d) && Finished(m'.nodes[d.0])
    ensures Leads(m, next) && Delivered(m', next, d)
  {
    var n, e := m'.nodes[d.0], Event(d.0, Receive(d.1));
    ReceiveShape(m', d, n, e);
    LeadsOn(m, m', e);
    next := Step(m', e);
    if n.r.Accepts(d.1) {
      var mid, e' := next, Event(d.0, Apply(d.1.Key()));
      ApplyShape(mid, d.0, After(n, e.a), d.1.Key(), d.1, e');
      LeadsOn(m, mid, e');
      next := Step(mid, e');
      assert m'.nodes[d.0 := After(n, e.a)][d.0 := next.nodes[d.0]] == m'.nodes[d.0 := next.nodes[d.0]];
    }
  }

  ghost predicate AllDelivered(m: Mesh, ds: set<Delivery>) {
    forall d {:trigger d in ds} | d in ds :: d.0 in m.nodes && d.1 in m.nodes[d.0].processed
  }

  lemma DeliveriesStay(m: Mesh, mid: Mesh, m': Mesh, d: Delivery, ds: set<Delivery>)
    requires SameTraffic(m, mid) && AllFinished(mid, m.nodes.Keys) && AllDelivered(mid, ds) && Delivered(mid, m', d)
    ensures SameTraffic(m, m') && AllFinished(m', m.nodes.Keys) && AllDelivered(m', ds + {d})
  {
    OneNodeKeepsTraffic(m, mid, m', d.0, m'.nodes[d.0], m.nodes.Keys);
    forall x | x in ds ensures x.0 in m'.nodes && x.1 in m'.nodes[x.0].processed {
      assert x.1 in mid.nodes[x.0].processed;
    }
  }

  lemma DeliverableStays(m: Mesh, m': Mesh, d: Delivery)
    requires SameTraffic(m, m') && Deliverable(m, d)
    ensures Deliverable(m', d)
  {
  }

  lemma {:induction false} DeliverAll(m: Mesh, m': Mesh, todo: set<Delivery>) returns (m'': Mesh)
    requires Leads(m, m') && AllFinished(m', m'.nodes.Keys)
    requires forall d | d in todo :: Deliverable(m', d)
    ensures Leads(m, m'') && SameTraffic(m', m'') && AllFinished(m'', m'.nodes.Keys) && AllDelivered(m'', todo)
    decreases |todo|
  {
    if todo == {} {
      return m';
    }
    var d :| d in todo;
    var mid := DeliverAll(m, m', todo - {d});
    DeliverableStays(m', mid, d);
    m'' := DeliverOne(m, mid, d);
    DeliveriesStay(m', mid, m'', d, todo - {d});
    assert todo - {d} + {d} == todo;
  }

  // ----- Coming to rest

  lemma DeliveredIsQuiet(m: Mesh)
    requires AllFinished(m, m.nodes.Keys)
    requires forall d | Deliverable(m, d) :: d.1 in m.nodes[d.0].processed
    requires AllAnnounced(m, m.samples.Keys)
    ensures Quiet(m)
  {
    forall i, l | i in m.nodes && l in m.samples && l.0 != i && Hears(m.sessions, i, l.0)
      ensures UpToDate(m, m.nodes[i], l)
    {
      assert Announced(m, l);
      var u :| && u in m.net && u.Key() == l && (u.source, u.sequence) in m.issues
               && m.issues[(u.source, u.sequence)].at == Taken(m, l);
      assert Deliverable(m, (i, u));
    }
  }

  /**
   * The mesh can always come to rest: from every state of every run, as long as the counters have
   * room for one announcement per measured link, some run without measurements ends in a quiet mesh.
   */
  lemma RestIsAlwaysAhead(m: Mesh) returns (m': Mesh)
    requires Reachable(m) && HasRoom(m, m.samples.Keys)
    ensures Leads(m, m') && Quiet(m')
    ensures m'.samples == m.samples && m'.sessions == m.sessions && m'.nodes.Keys == m.nodes.Keys
  {
    var a := FinishAll(m, m.nodes.Keys);
    assert HasRoom(a, a.samples.Keys) by {
      assert forall i | i in a.nodes :: SameCounter(m.nodes[i], a.nodes[i]);
    }
    var b := AnnounceAll(m, a, a.samples.Keys);
    m' := DeliverAll(m, b, Deliveries(b));
    forall l | l in m'.samples ensures Announced(m', l) {
      assert Announced(b, l);
      AnnouncedStays(b, m', l);
    }
    forall d | Deliverable(m', d) ensures d.1 in m'.nodes[d.0].processed {
      assert Deliverable(b, d);
    }
    DeliveredIsQuiet(m');
  }

  // ----- Sessions

  lemma ConnectOne(m: Mesh, l: (PeerId, PeerId), e: Event)
    requires l.0 in m.nodes && e == Event(l.0, Connect(l.1))
    ensures Enabled(m, e) && Step(m, e) == m.(sessions := m.sessions + {l})
  {
    assert m.nodes[l.0 := m.nodes[l.0]] == m.nodes;
  }

  /** Routers can open any sessions at any time, and that changes nothing else. */
  lemma {:induction false} SessionsCanGrow(m: Mesh, wanted: set<(PeerId, PeerId)>) returns (m': Mesh)
    requires forall l | l in wanted :: l.0 in m.nodes
    ensures Leads(m, m') && m' == m.(sessions := m.sessions + wanted)
    decreases |wanted|
  {
    if wanted == {} {
      Stays(m);
      assert m.sessions + wanted == m.sessions;
      return m;
    }
    var l :| l in wanted;
    m' := SessionsCanGrow(m, wanted - {l});
    var e := Event(l.0, Connect(l.1));
    ConnectOne(m', l, e);
    LeadsOn(m, m', e);
    m' := Step(m', e);
    assert m.sessions + (wanted - {l}) + {l} == m.sessions + wanted;
  }

  // ----- Every plan of measurements is met by some mesh at rest

  function FreshMesh(peers: set<PeerId>, sessions: set<(PeerId, PeerId)>): (m: Mesh) {
    Mesh(map i | i in peers :: FreshNode(i), sessions, {}, map[], map[])
  }

  /** The measurements of a mesh in which each planned one was made once. */
  function SamplesOf(plan: map<Link, Sample>): (samples: map<Link, seq<Sample>>) {
    map l | l in plan :: [plan[l]]
  }

  /** One measurement to be made of each of some links, each by a router over a session of its own. */
  ghost predicate IsPlan(peers: set<PeerId>, sessions: set<(PeerId, PeerId)>, plan: map<Link, Sample>) {
    && (forall l | l in plan :: l in sessions && l.0 in peers && PlausibleSample(plan[l]))
    && (forall i | i in peers :: 1 + |LinksFrom(plan.Keys, i)| < U64_MODULUS)
  }

  ghost predicate HasMeasured(m: Mesh, peers: set<PeerId>, sessions: set<(PeerId, PeerId)>, plan: map<Link, Sample>) {
    && m.nodes.Keys == peers && m.sessions == sessions && m.samples == SamplesOf(plan)
    && forall i {:trigger m.nodes[i]} | i in m.nodes ::
         m.nodes[i].reading == multiset{} && m.nodes[i].snapshots == multiset{} && m.nodes[i].r.nextSeq == 1
  }

  lemma MeasureOne(m: Mesh, peers: set<PeerId>, sessions: set<(PeerId, PeerId)>,
                   plan: map<Link, Sample>, l: Link, e: Event)
    requires l in plan && HasMeasured(m, peers, sessions, plan - {l})
    requires l in sessions && l.0 in peers && PlausibleSample(plan[l]) && e == Event(l.0, Take(l.1, plan[l]))
    ensures Enabled(m, e) && HasMeasured(Step(m, e), peers, sessions, plan)
  {
    var m' := Step(m, e);
    assert l !in m.samples && [] + [plan[l]] == [plan[l]];
    assert m'.samples == m.samples[l := [plan[l]]];
    OneMorePlanned(plan, l);
  }

  lemma OneMorePlanned(plan: map<Link, Sample>, l: Link)
    requires l in plan
    ensures SamplesOf(plan) == SamplesOf(plan - {l})[l := [plan[l]]]
  {
  }

  lemma {:induction false} MeasureEach(m0: Mesh, peers: set<PeerId>, sessions: set<(PeerId, PeerId)>,
                                       plan: map<Link, Sample>) returns (m: Mesh)
    requires m0 == FreshMesh(peers, sessions)
    requires forall l | l in plan :: l in sessions && l.0 in peers && PlausibleSample(plan[l])
    ensures Leads(m0, m) && HasMeasured(m, peers, sessions, plan)
    decreases |plan|
  {
    if plan == map[] {
      Stays(m0);
      return m0;
    }
    var l :| l in plan;
    assert (plan - {l}).Keys == plan.Keys - {l};
    m := MeasureEach(m0, peers, sessions, plan - {l});
    var e := Event(l.0, Take(l.1, plan[l]));
    MeasureOne(m, peers, sessions, plan, l, e);
    LeadsOn(m0, m, e);
    m := Step(m, e);
  }

  /** Whatever the routers, their sessions and one measurement per link, some run ends at rest with them. */
  lemma RestExists(peers: set<PeerId>, sessions: set<(PeerId, PeerId)>, plan: map<Link, Sample>) returns (m: Mesh)
    requires IsPlan(peers, sessions, plan)
    ensures Reachable(m) && Quiet(m) && m.nodes.Keys == peers && m.sessions == sessions
    ensures m.samples == SamplesOf(plan)
  {
    var m0 := FreshMesh(peers, sessions);
    var busy := MeasureEach(m0, peers, sessions, plan);
    assert Reachable(m0) by {
      assert Initial(m0) && Runs(m0, [], m0);
    }
    LeadsFromReachable(m0, busy);
    assert HasRoom(busy, busy.samples.Keys) by {
      assert busy.samples.Keys == plan.Keys;
    }
    m := RestIsAlwaysAhead(busy);
    LeadsFromReachable(busy, m);
  }
}
