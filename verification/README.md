# OmniMesh: routing, gossip and session protocols in Dafny

This project models the parts of OmniMesh that decide where packets go and whether two peers
agree, and proves what they guarantee in every run:

- **Shortest paths** (`Walks`, `SearchQueue`, `LabelSearch`, `ReadBack`, `ShortestPath`,
  `SearchRuns`): Dijkstra with lazy deletion, an early exit at the first pop of the target, any
  neighbour order and any tie-break. The heap is a multiset whose pop returns any least entry; a
  missing distance is a missing map key. `SearchQueue` holds what the heap means for any costs,
  `LabelSearch` why the search ends, `ReadBack` the path, `ShortestPath` the object, and `SearchRuns`
  what negative costs do to it.
- **Routers and forwarding** (`Metrics`, `Routing`, `Forwarding`): the tracker, the router as an
  object, and packets handed from router to router.
- **Gossip** (`Gossip`, `GossipGuarantees`, `Settling`): any number of routers with any sessions over a
  network that loses, repeats and reorders, with the calls inside each router interleaved at the
  granularity of the guards they hold.
- **Gossip and forwarding together** (`LocalViews`, `MeshForwarding`, `PartialMesh`): packets handed on
  by routers that each know only the links of the peers they hear. `AlwaysDeliversIff` says exactly
  for which sessions they all arrive, and `PartialMeshLoops` is a mesh where one never does.
- **Sessions** (`Handshake`, `SecureChannel`): the Noise_XX driver at both ends, and the ratchet.
- **Tables and streams** (`AddressCache`, `Rpc`, `Framing`, `Retry`).

State that the program updates in place is a class whose methods are proved against functions on
values (`Router.State()` and the functions of `RouterState`, and so on); the theorems about runs are
about those functions. `dafny verify dfyconfig.toml` checks everything.

## Hypotheses

- Costs, intervals and averages are exact reals.
- The search ends whatever the schedule when it `Settles`: no negative cycle can be reached, or the
  target can be reached by a walk whose highest running cost, its peak, stays below the peak of going
  round any of them. It never ends, whatever the schedule, when it `Strays`: some negative cycle can be
  gone round below the peak of every walk to the target. For a target that cannot be reached these are
  complementary (`UnreachableStraysIff`). Where the lowest peaks are equal, more than peaks decides;
  `PoppedButNeverReadBack` is such a graph. For any costs the result costs no more than the peak of any
  walk; with non-negative costs that makes it cheapest, and `NegativeLinkIsMissed` shows that otherwise
  it need not be. The gossip results show that every graph a router can reach has positive costs,
  provided latency samples are round-trip times (crates/omnimesh-sdk/src/lib.rs:495-497) and so not
  negative.
- A router measures only peers it has a session with, and sends its updates to its own sessions only
  (crates/omnimesh-sdk/src/lib.rs:568). Receivers do not pass them on
  (crates/omnimesh-sdk/src/lib.rs:461), so a router knows the links of its session peers and no
  others, and forwarding is loop-free only under the conditions proved. Sessions may be any relation,
  and are only added (crates/omnimesh-sdk/src/lib.rs:182 and 338) until shutdown.
- Only the source of a link issues updates for it, and no router processes its own update.
  `EchoKeepsAgreementIff` says exactly what would happen otherwise.
- 64-bit counters wrap in the model. The theorems about runs assume that a router stops issuing
  before its counter wraps, and that a counter is not restarted.
- The cryptographic primitives are arbitrary functions with the laws of `SecureChannel.Ideal`, and
  the keys of the two chains of a session are pairwise different. `EverythingCanArrive` also takes
  sealing never to fail. `SomeSuiteIsIdeal` shows that all three can hold together.

Where the documentation and the code differ, the model follows the code. docs/routing.md gives the
cost without the lower bound on bandwidth that the code applies. It also describes packet TTLs,
path vectors, split horizon and dampening, none of which exist in the code; loop freedom, where it
holds, is proved from the search and the sessions alone. The comment on `process_link_state_update`
says the caller should gossip an accepted update further; the only caller drops the result.

## Model

| member | source | states |
|---|---|---|
| `ShortestPath.RouteGraph.FindShortestPath` | crates/omnimesh-routing/src/graph.rs:74-128 | on every graph that settles (no reachable negative cycle, or a way to the target below all of them), whatever the neighbour order and the tie-breaks, the search ends; it returns nothing exactly when no route exists, and otherwise a route without repeated nodes that costs no more than the peak of any walk to the target; if no link has a negative cost, no other route has a smaller sum of link costs, and no node is expanded twice; the states it went through form a run (`IsRun`) that ends at one of the two exits |
| `ShortestPath.WeightsAreLinkCosts` | crates/omnimesh-routing/src/graph.rs:109-111 | for every topology: the search sees exactly its links, each at a cost that, less its relay cost, times its bandwidth counted as at least 100 Kbps, is a thousand times latency times (1 + loss) |
| `ShortestPath.CheapestIsShortest` | crates/omnimesh-routing/src/graph.rs:70-73 | a route is cheapest by the metrics of its links exactly when it is a shortest walk of the weighted graph |
| `ShortestPath.RouteGraph.TakeTurn` | crates/omnimesh-routing/src/graph.rs:86-125 | one pass of the main loop is a turn of the run relation (pop any least entry, skip it if stale, else relax its links in some order), and uses up an improvable walk or an entry of the heap |
| `ShortestPath.RouteGraph.Reconstruct` | crates/omnimesh-routing/src/graph.rs:89-98 | for every predecessor map on which the loop ends, it returns the chain of predecessors from a node without one down to the target, and no node is on it twice |
| `ReadBack.EndsIff` | crates/omnimesh-routing/src/graph.rs:93-96 | the loop over predecessors ends exactly when they cannot be followed for ever |
| `ReadBack.ReadBackIsWalk` | crates/omnimesh-routing/src/graph.rs:89-98 | in a search that settles, the chain read back leads from start to the target along existing links, at no more than the recorded distance |
| `LabelSearch.ImprovedIsNotAbove` | crates/omnimesh-routing/src/graph.rs:115-118 | there a new predecessor never makes a node its own ancestor: that would go round a negative cycle |
| `ShortestPath.RouteGraph.RelaxNeighbours` | crates/omnimesh-routing/src/graph.rs:109-124 | scanning one node's neighbours in any order relaxes each link exactly once, keeps distances, labels, predecessor tree and heap consistent, and uses up an improvable walk whenever it changes anything |
| `SearchQueue.WalksRespectDistances` | crates/omnimesh-routing/src/graph.rs:86-125 | for any costs and at any time, a walk from start that always stayed cheaper than everything in the heap leads only to nodes whose recorded distance it does not beat |
| `SearchQueue.PoppedTargetIsBelowPeaks` | crates/omnimesh-routing/src/graph.rs:86-99 | for any costs, a target at the top of the heap has a recorded distance no higher than the peak of any walk to it, although it is tested before staleness |
| `SearchQueue.LeastIsBelowTargetPeak` | crates/omnimesh-routing/src/graph.rs:86-125 | for any costs, nothing is popped above the peak of a walk to the target |
| `SearchQueue.PoppedTargetIsOptimal` | crates/omnimesh-routing/src/graph.rs:86-99 | with non-negative costs that distance is minimal |
| `SearchQueue.ExhaustedMeansUnreachable` | crates/omnimesh-routing/src/graph.rs:86-127 | an empty heap before the target was popped means that no walk reaches it |
| `SearchQueue.ExhaustedMeansNoNegativeCycle` | crates/omnimesh-routing/src/graph.rs:86-127 | an empty heap before the target was popped also means that no negative cycle can be reached |
| `LabelSearch.ImprovedLinkKeeps` | crates/omnimesh-routing/src/graph.rs:115-122 | while nothing is popped above a limit within which no negative cycle can be gone round, an improvement never closes a cycle, keeps everything the search relies on, and leaves strictly fewer simple walks that could still improve a distance |
| `SearchRuns.NegativeCycleNeverExhausts` | crates/omnimesh-routing/src/graph.rs:86-127 | while a negative cycle can be reached no schedule ever empties the heap |
| `SearchRuns.StrayingNeverExits` | crates/omnimesh-routing/src/graph.rs:86-127 | if some negative cycle can be gone round below the peak of every walk to the target, no schedule ever empties the heap or pops the target |
| `SearchRuns.StrayingNeverEnds` | crates/omnimesh-routing/src/graph.rs:86-127 | and there are runs of every length |
| `SearchRuns.StrayingDoesNotSettle` | crates/omnimesh-routing/src/graph.rs:86-127 | no graph both settles and strays |
| `SearchRuns.UnreachableStraysIff` | crates/omnimesh-routing/src/graph.rs:86-127 | for an unreachable target, settling is exactly the absence and straying exactly the presence of a reachable negative cycle |
| `SearchRuns.NegativeCycleNeverEnds` | crates/omnimesh-routing/src/graph.rs:86-127 | in particular, while a negative cycle can be reached, a search for an unreachable target has runs of every length and never returns |
| `SearchRuns.ExhaustedRunHasNoNegativeCycle` | crates/omnimesh-routing/src/graph.rs:86-127 | a run that ends without a path shows both that the target is unreachable and that no negative cycle can be reached |
| `SearchRuns.NegativePairNeverEnds` | crates/omnimesh-routing/src/graph.rs:86-127 | two peers with links of cost -1 each way, and a third as target: the search runs for ever |
| `SearchRuns.NegativeLinkIsMissed` | crates/omnimesh-routing/src/graph.rs:86-99 | a graph with one negative link and no cycle in which the target can be popped at 1 although a walk of cost 0 reaches it |
| `SearchRuns.PoppedButNeverReadBack` | crates/omnimesh-routing/src/graph.rs:86-98 | a graph with a negative cycle in which the target is popped after two turns while its predecessors go round, so that reading them back never ends |
| `ShortestPath.LeastCurrentIsOpen` | crates/omnimesh-routing/src/graph.rs:101-106 | a least entry that is not stale belongs to a node never expanded before, and is its only current entry |
| `ShortestPath.ExpandedIsFinal` | crates/omnimesh-routing/src/graph.rs:110-123 | an expanded node's distance is never improved again |
| `ShortestPath.RouteGraph.AddLink` | crates/omnimesh-routing/src/graph.rs:51-53 | that link has the given metrics and every other link is as before |
| `ShortestPath.LinkLookup` | crates/omnimesh-routing/src/graph.rs:51-53 | after adding a link that link has the given metrics, every other link is as before, and no node is listed without links |
| `ShortestPath.RouteGraph.RemoveLink` | crates/omnimesh-routing/src/graph.rs:56-63 | the link is gone, every other link is as before, and no empty neighbour map is left behind |
| `ShortestPath.RouteGraph.GetLink` | crates/omnimesh-routing/src/graph.rs:66-68 | the metrics of the link, or nothing |
| `Walks.WalkLinks` | crates/omnimesh-routing/src/graph.rs:70-73 | a walk is exactly a nonempty node sequence whose consecutive nodes are linked |
| `Walks.ShortestTail` | crates/omnimesh-routing/src/graph.rs:70-73 | every tail of a cheapest path is a cheapest path |
| `Walks.ShortestHasNoRepeats` | crates/omnimesh-routing/src/graph.rs:70-73 | with positive costs no cheapest walk meets a node twice |
| `Walks.ShortestExists` | crates/omnimesh-routing/src/graph.rs:70-73 | where no reachable cycle is negative, every reachable node has a cheapest walk to it, and one without repeated nodes |
| `Metrics.SoundCostIsPositive` | crates/omnimesh-routing/src/metrics.rs:43-46 | positive latency, a loss rate in [0,1] and a non-negative relay cost give a positive cost for any bandwidth, even a negative one |
| `Metrics.CostTimesBandwidth` | crates/omnimesh-routing/src/metrics.rs:37-46 | cost without relay cost, times bandwidth counted as at least 100 Kbps, is a thousand times latency times (1 + loss) |
| `Metrics.BetterLinkCostsNoMore` | crates/omnimesh-routing/src/metrics.rs:37-46 | a link no worse in every metric costs no more |
| `Metrics.ClampIsNearest` | crates/omnimesh-routing/src/metrics.rs:92-95 | a loss sample enters the average as the one rate in [0,1] nearest to it, so a sample that is a rate enters unchanged |
| `Metrics.EveryRunKeepsCostPositive` | crates/omnimesh-routing/src/metrics.rs:82-96 | any mix of non-negative latency, arbitrary bandwidth and arbitrary loss samples keeps the metrics sound and the cost positive |
| `Metrics.MetricsAreIndependentAverages` | crates/omnimesh-routing/src/metrics.rs:82-111 | after interleaved samples each metric is the moving average of its own (clamped) samples |
| `Metrics.EmaClosedForm` | crates/omnimesh-routing/src/metrics.rs:10-96 | after n samples the average is 0.8^n times the start plus the geometrically weighted samples |
| `Metrics.EmaStaysInHull` | crates/omnimesh-routing/src/metrics.rs:82-96 | the average never leaves the interval of its start and its samples |
| `Metrics.EmaForgetsItsStart` | crates/omnimesh-routing/src/metrics.rs:82-96 | two averages fed the same n samples differ by exactly 0.8^n times their initial difference |
| `Metrics.EmaConvergesToConstantInput` | crates/omnimesh-routing/src/metrics.rs:82-96 | under constant input the error shrinks by exactly 0.8 per sample |
| `Metrics.LinkMetricTracker.constructor` | crates/omnimesh-routing/src/metrics.rs:72-79 | a tracker starts with the metrics given |
| `Metrics.LinkMetricTracker.RecordLatency` | crates/omnimesh-routing/src/metrics.rs:82-84 | latency becomes 0.2 of the sample and 0.8 of itself; nothing else moves |
| `Metrics.LinkMetricTracker.RecordBandwidth` | crates/omnimesh-routing/src/metrics.rs:87-89 | the same for bandwidth |
| `Metrics.LinkMetricTracker.RecordLossRate` | crates/omnimesh-routing/src/metrics.rs:92-96 | the same for the loss rate, by the clamped sample |
| `Metrics.LinkMetricTracker.SetRelayCost` | crates/omnimesh-routing/src/metrics.rs:99-101 | only the relay cost moves, and the link cost by the same amount |
| `Routing.Router.constructor` | crates/omnimesh-routing/src/router.rs:45-53 | an empty router whose first sequence number is 1 |
| `Routing.Router.RecordLatency` | crates/omnimesh-routing/src/router.rs:56-64 | the peer's tracker takes in the sample, from 10 ms, 10 Mbps, no loss and no relay cost if it was missing, and the graph's local link shows it; no other tracker, no other link, whoever it was learned from, and no number changes |
| `Routing.Router.RecordBandwidth` | crates/omnimesh-routing/src/router.rs:67-75 | the same for bandwidth |
| `Routing.Router.RecordLossRate` | crates/omnimesh-routing/src/router.rs:78-86 | the same for loss |
| `Routing.MeasuringMeasures` | crates/omnimesh-routing/src/router.rs:56-95 | what any of the three calls changes and leaves alone, as said above, for every router state |
| `Routing.Router.UpdateGraphLink` | crates/omnimesh-routing/src/router.rs:89-95 | the graph's local link becomes the tracked metrics, every other link stays; nothing happens without a tracker |
| `Routing.Router.GetLinkStateUpdate` | crates/omnimesh-routing/src/router.rs:98-114 | nothing exactly when the peer is not tracked; otherwise current metrics with the current number, and the counter advanced by one modulo 2^64 |
| `Routing.Router.ProcessLinkStateUpdate` | crates/omnimesh-routing/src/router.rs:120-136 | applied exactly when the number exceeds the one stored for the link (0 if none); then that link and that number are stored and every other link, number and tracker stays; otherwise nothing that can be seen changes |
| `Routing.AcceptingAccepts` | crates/omnimesh-routing/src/router.rs:120-136 | the same for every router state and update |
| `Routing.Router.FindRoute` | crates/omnimesh-routing/src/router.rs:141-144 | on every graph that settles, a route from this router without repeated nodes, of the smallest sum of link costs if none is negative, or nothing exactly when there is no route |
| `Routing.Router.NextHop` | crates/omnimesh-routing/src/router.rs:147-155 | on every graph that settles, nothing exactly when the target is this router or unreachable; otherwise the first hop of a route, of a cheapest one if no link cost is negative |
| `Forwarding.TrailsStayShortest` | crates/omnimesh-routing/src/router.rs:141-155 | whatever ties each router breaks, the hops taken so far begin a cheapest walk |
| `Forwarding.TrailsAreLoopFree` | crates/omnimesh-routing/src/router.rs:141-155 | with positive costs no trail of next hops repeats a node, and one that arrives is a cheapest path |
| `Forwarding.HopExtendsTrail` | crates/omnimesh-routing/src/router.rs:147-155 | a next hop is a node not visited before, from which the target is still reachable |
| `Forwarding.Forward` | crates/omnimesh-routing/src/router.rs:147-155 | routers that hold the same positive topology and each ask their own `NextHop` deliver every packet whose target is reachable, along a cheapest path |
| `Gossip.StepKeepsMesh` | crates/omnimesh-routing/src/router.rs:56-136 | every guarded step of every router keeps trackers, counters, remote views, local links and the ledger of issued updates in order |
| `Gossip.RunKeepsMesh` | crates/omnimesh-routing/src/router.rs:56-136 | hence so does every run |
| `Gossip.MeasurementIsItsSteps` | crates/omnimesh-routing/src/router.rs:56-95 | a measurement with nothing in between is the run of its three guarded steps in the mesh |
| `Gossip.IssuingIsItsSteps` | crates/omnimesh-routing/src/router.rs:98-114 | the same for an outgoing update and its two steps |
| `Gossip.ProcessingIsItsSteps` | crates/omnimesh-routing/src/router.rs:120-136 | the same for an incoming update and its one or two steps |
| `Gossip.SendKeepsLedger` | crates/omnimesh-routing/src/router.rs:98-114 | because the tracker's guard spans snapshot and `fetch_add`, a new number reports at least as many measurements as every earlier number of its link |
| `Gossip.ReceiveKeepsView` | crates/omnimesh-routing/src/router.rs:120-130 | because test and write of the stored number share a guard, the stored number is the maximum processed |
| `Gossip.ApplyKeepsView` | crates/omnimesh-routing/src/router.rs:132-135 | because that guard also covers the graph write, the graph shows the metrics that belong to the stored number |
| `Gossip.WriteKeepsLocal` | crates/omnimesh-routing/src/router.rs:89-95 | because the tracker's guard spans read and graph write, what is written is what the tracker says at that moment, however many measurements interleave |
| `GossipGuarantees.GraphFollowsTrackers` | crates/omnimesh-routing/src/router.rs:56-95 | in every interleaving, also between the read and the write of the graph update, the graph's link to a peer equals the peer's tracker unless a measurement of that peer has written the tracker and not yet the graph |
| `GossipGuarantees.EchoKeepsAgreementIff` | crates/omnimesh-routing/src/router.rs:120-136 | an accepted update keeps local links and trackers in agreement exactly when it is another router's or repeats the current metrics |
| `GossipGuarantees.EchoAfterMeasurement` | crates/omnimesh-routing/src/router.rs:98-136 | a router that issued an update and then measured the link again accepts the update if it comes back, and graph and tracker still agree exactly when the measurement changed nothing |
| `GossipGuarantees.EchoBreaksAgreement` | crates/omnimesh-routing/src/router.rs:120-136 | a fresh router that measures 0 ms, issues an update and measures 0 ms again accepts that update, and its graph then disagrees with its tracker |
| `GossipGuarantees.ShownMetricsAreGenuine` | crates/omnimesh-routing/src/router.rs:120-136 | a router shows a remote link only with metrics the source's tracker had after some number of measurements |
| `GossipGuarantees.GossipNeverGoesBack` | crates/omnimesh-routing/src/router.rs:98-136 | between any two moments of any run, what a router shows for a remote link moves forward in the source's measurement history, never back, and never disappears |
| `GossipGuarantees.SettledLinkShowsNewest` | crates/omnimesh-routing/src/router.rs:51-136 | a remote link shows exactly the processed update with the highest number; the first one is never lost |
| `GossipGuarantees.Convergence` | crates/omnimesh-routing/src/router.rs:120-136 | two routers that processed the same updates of a link, in any orders with any duplicates, hold the same metrics and number for it |
| `GossipGuarantees.NumbersAreConsecutive` | crates/omnimesh-routing/src/router.rs:98-101 | in every run a router has sent exactly the updates numbered 1 up to its counter, none skipped |
| `GossipGuarantees.EveryGraphIsSearchable` | crates/omnimesh-sdk/src/lib.rs:490-498 | every graph any router reaches in any run has positive costs, which is what the search requires |
| `GossipGuarantees.QuietLink` | crates/omnimesh-sdk/src/lib.rs:561-586 | once all calls are done and every router has processed an update with the latest measurement of each link it hears of, a router shows a link exactly when it was measured and its source is the router itself or has a session with it, and then with the source's current metrics |
| `GossipGuarantees.QuietMeshAgreesIff` | crates/omnimesh-sdk/src/lib.rs:561-586 | two routers then hold the same topology exactly when they hear the same sources of measured links |
| `GossipGuarantees.QuietMeshAgrees` | crates/omnimesh-sdk/src/lib.rs:561-586 | with sessions between all routers, all of them then hold one and the same topology |
| `Settling.RestIsAlwaysAhead` | crates/omnimesh-sdk/src/lib.rs:561-586 | from every state of every run, if the counters have room for one number per measured link, some run without measurements or new sessions finishes all calls and ends in a quiet mesh |
| `Settling.SessionsCanGrow` | crates/omnimesh-sdk/src/lib.rs:182 | routers can open any sessions at any time, which changes nothing else |
| `Settling.RestExists` | crates/omnimesh-sdk/src/lib.rs:561-586 | for any routers, any sessions and any one measurement per link, some run ends in a quiet mesh with exactly these |
| `LocalViews.TailIsKnownIff` | crates/omnimesh-routing/src/router.rs:141-155 | the router a route goes to next knows the rest of it exactly when it hears every router on it |
| `LocalViews.CarriedHopDescends` | crates/omnimesh-routing/src/router.rs:147-155 | then the packet is closer to its target by exactly the cost of the link, in the next router's own view |
| `LocalViews.DistanceFalls` | crates/omnimesh-routing/src/router.rs:147-155 | along such hops each router's own distance to the target is smaller than every earlier one |
| `LocalViews.CarriedTrailHasNoLoops` | crates/omnimesh-routing/src/router.rs:147-155 | so no router is met twice, although every router decides on a different graph |
| `LocalViews.CarriedTrailArrives` | crates/omnimesh-routing/src/router.rs:147-155 | and a packet that its first router can route stops nowhere but at its target |
| `LocalViews.BrokenPathFails` | crates/omnimesh-routing/src/router.rs:147-155 | if only the links of one path are measured and the first hop does not hear some router on it, the packet is stuck there |
| `LocalViews.TransitiveIsRelayed` | crates/omnimesh-routing/src/router.rs:147-155 | transitive sessions are relayed: whoever is handed a packet hears all routers the sender had in mind |
| `LocalViews.CompleteIsRelayed` | crates/omnimesh-routing/src/router.rs:147-155 | sessions between all routers are relayed |
| `MeshForwarding.QuietMeshIsNet` | crates/omnimesh-sdk/src/lib.rs:561-586 | every quiet state of every run is one in which each router's graph has exactly the links it hears of, at positive costs |
| `MeshForwarding.AlwaysDeliversIff` | crates/omnimesh-routing/src/router.rs:141-155 | for any routers and sessions: every quiet mesh with them delivers every packet without loops if and only if the sessions are relayed |
| `MeshForwarding.RelayedTrailsAreBounded` | crates/omnimesh-routing/src/router.rs:141-155 | over relayed sessions a packet passes at most as many routers as there are and spends no more than the cost its first router computed |
| `MeshForwarding.ShortRoutesDoNotLoop` | crates/omnimesh-routing/src/router.rs:141-155 | over two-way sessions of any shape, packets whose routers choose routes of at most three links do not loop and stop only at their target |
| `PartialMesh.PartialMeshLoops` | crates/omnimesh-routing/src/router.rs:141-155 | a quiet mesh of five routers, reached by a run, with two-way sessions, in which every trail of a packet to one of them, of any length and whatever ties are broken, goes back and forth between two routers, although the first of them has a direct link to the target |
| `MeshForwarding.QuietMeshForwardsWithoutLoops` | crates/omnimesh-routing/src/router.rs:141-155 | with sessions between all routers, in every quiet state of every run, packets visit no node twice, stop only at their target, and have then taken a cheapest path |
| `Handshake.EveryRunEndsInAgreement` | crates/omnimesh-sdk/src/lib.rs:602-694 | every interleaving of both loops stops after exactly seven moves and three messages with each end holding the other's peer id and static key over one transcript, or, exactly when the major versions differ, after four moves and one message with both ends failed; it cannot stop anywhere else |
| `Handshake.NeverOutOfTurn` | crates/omnimesh-crypto/src/noise.rs:92-156 | in no interleaving does an end write or read out of turn, meet an unreadable message, or finish without a peer id; the only failures are version refusal and its consequence |
| `Handshake.InitiatorAgainstAnyone` | crates/omnimesh-sdk/src/lib.rs:617-649 | whatever the other side is and sends, the initiator finishes exactly if the message it waits for comes, can be read and has its major version, and then holds that sender's peer id and static key; otherwise it fails with the first reason that applies |
| `Handshake.ResponderAgainstAnyone` | crates/omnimesh-sdk/src/lib.rs:650-682 | the same for the responder, whose answer needs the first message to pass and whose success the third as well |
| `Handshake.FinishedEndsAgree` | crates/omnimesh-sdk/src/lib.rs:602-694 | although the network may put in anything: if both finish and the responder's last message is the initiator's, all messages arrived as sent and each holds the other's peer id and static key, with equal major versions |
| `Handshake.RunBoth` | crates/omnimesh-sdk/src/lib.rs:610-684 | under any scheduler both loops finish |
| `Handshake.ResponderReceives` | crates/omnimesh-sdk/src/lib.rs:650-682 | the responder's move on the first message (answer or refuse by version) and on the third (finish) |
| `Handshake.InitiatorStep` | crates/omnimesh-sdk/src/lib.rs:616-649 | each move of the initiator is the next one of the pattern |
| `SecureChannel.SecureChannel.constructor` | crates/omnimesh-crypto/src/channel.rs:48-63 | the two ends get the two derived keys crosswise, and zero counters |
| `SecureChannel.SecureChannel.Encrypt` | crates/omnimesh-crypto/src/channel.rs:66-80 | refused for rekeying exactly from 1,000,000 messages on; otherwise accepted exactly if the current key seals, then ratcheted once and counted; if not accepted nothing changes; the receiving side never does |
| `SecureChannel.SecureChannel.Decrypt` | crates/omnimesh-crypto/src/channel.rs:83-97 | the same for receiving |
| `SecureChannel.SecureChannel.MessagesRemaining` | crates/omnimesh-crypto/src/channel.rs:110-112 | the largest number of messages that can certainly still be sent and received, zero exactly when a direction is exhausted; no sequence of that many sends, and none of that many receives, is refused for rekeying |
| `SecureChannel.PrefixDelivery` | crates/omnimesh-crypto/src/channel.rs:48-97 | for every schedule with loss, duplication, reordering, reflection and forgeries, accepted plaintexts are a prefix of what the peer sent, every key is the counter-th ratchet of its base, and received <= sent <= 1,000,000 |
| `SecureChannel.AcceptsOnlyTheNext` | crates/omnimesh-crypto/src/channel.rs:83-97 | an end accepts a sent ciphertext exactly when it is its peer's next one, yields that plaintext, and otherwise does not change |
| `SecureChannel.LossBlocksTheLane` | crates/omnimesh-crypto/src/channel.rs:83-97 | in every reachable state a delivery changes the session exactly when it is the peer's first unaccepted ciphertext, so a lost one blocks all later ones |
| `SecureChannel.SendSucceedsIff` | crates/omnimesh-crypto/src/channel.rs:66-80 | for any suite, in every run: a message is sent exactly if fewer than 1,000,000 were sent by that end and the counter-th ratchet of its base key seals it; otherwise the session does not change |
| `SecureChannel.EverythingCanArrive` | crates/omnimesh-crypto/src/channel.rs:48-97 | from every session any run can reach, and for any messages up to 1,000,000 in all, some run ends with the peer holding all that was sent before and all of them, in order |
| `SecureChannel.CatchUp` | crates/omnimesh-crypto/src/channel.rs:83-97 | whatever was lost, repeated or reordered, the receiver can still get exactly what was sent |
| `SecureChannel.SomeSuiteIsIdeal` | crates/omnimesh-crypto/src/channel.rs:48-63 | the two hypotheses of these results can hold together, for every secret |
| `AddressCache.PeerAddressCache.InsertWithTtl` | crates/omnimesh-discovery/src/cache.rs:44-51 | the peer's entries of other addresses stay as and where they are, the address is last with its new expiry, other peers are untouched; lookups list it exactly until it expires |
| `AddressCache.PeerAddressCache.Insert` | crates/omnimesh-discovery/src/cache.rs:40-42 | the same for 1800 seconds |
| `AddressCache.PeerAddressCache.InsertMany` | crates/omnimesh-discovery/src/cache.rs:54-58 | the peer holds its entries of other addresses and one entry per address given, from its last place in the list and for 1800 seconds from that clock reading; other peers are untouched |
| `AddressCache.PeerAddressCache.Lookup` | crates/omnimesh-discovery/src/cache.rs:61-73 | the addresses of exactly the entries of the peer that have not expired, in the order of the list |
| `AddressCache.PeerAddressCache.Remove` | crates/omnimesh-discovery/src/cache.rs:76-78 | the peer's records are gone, others untouched |
| `AddressCache.PeerAddressCache.Prune` | crates/omnimesh-discovery/src/cache.rs:81-87 | after filtering the peers one by one, in any order, each keeps exactly its entries that expire later than now, in their order, and the peers left are exactly those that have one |
| `AddressCache.PeerAddressCache.AllPeers` | crates/omnimesh-discovery/src/cache.rs:90-106 | exactly the peers whose lookup is not empty, with that lookup |
| `AddressCache.LookupIsLastInserted` | crates/omnimesh-discovery/src/cache.rs:44-73 | after any history a lookup lists, without duplicates and in insertion order, exactly the addresses whose latest insertion is neither overridden, nor removed, nor expired |
| `AddressCache.CacheFollowsHistory` | crates/omnimesh-discovery/src/cache.rs:44-87 | the live part of the cache is the live part of the history's surviving insertions |
| `AddressCache.PruningIsInvisible` | crates/omnimesh-discovery/src/cache.rs:80-106 | prunes placed anywhere in a history change no later lookup of any peer and no later listing of all peers |
| `AddressCache.PruneLeavesWhatIsInForce` | crates/omnimesh-discovery/src/cache.rs:81-87 | after any history and a prune the cache holds exactly the insertions in force, with their expiry and oldest first, and only peers that have one |
| `Rpc.RpcService.CreateRequest` | crates/omnimesh-service/src/lib.rs:160-175 | a request message with the next number, a fresh channel waiting under that number, and the counter advanced |
| `Rpc.RpcService.HandleResponse` | crates/omnimesh-service/src/lib.rs:215-223 | a waiting caller gets the reply and leaves the table; a response nobody waits for changes nothing |
| `Rpc.RpcService.HandleRequest` | crates/omnimesh-service/src/lib.rs:189-213 | one response goes back to the caller, under the request's number, with what the handler returned for exactly that caller, name and payload |
| `Rpc.FirstResponseWins` | crates/omnimesh-service/src/lib.rs:149-225 | in any environment calls are numbered 1, 2, ...; a call waits exactly until the first response with its number that arrives after it, and gets that one |
| `Rpc.RepliesMatchCalls` | crates/omnimesh-service/src/lib.rs:184-225 | among honest peers, in every run, a caller is handed only what the called peer's handler returned for exactly that call; only issued calls wait |
| `Rpc.WaitingCallCanComplete` | crates/omnimesh-service/src/lib.rs:184-225 | in every run, a call that waits and whose request was sent to a peer of the world can complete with any result its handler may return |
| `Rpc.NewCallCanComplete` | crates/omnimesh-service/src/lib.rs:149-225 | in every run, a new call to any peer can be made, sent, served and answered |
| `Rpc.CompletedOnce` | crates/omnimesh-service/src/lib.rs:215-223 | once completed, a call keeps its reply for the rest of the run |
| `Rpc.NumbersAreFresh` | crates/omnimesh-service/src/lib.rs:165-172 | in every run the next number is one the peer has never given out, so no two of its calls share one |
| `Framing.QuicConnection.Send` | crates/omnimesh-transport/src/quic.rs:232-264 | appends header and body, or nothing when not connected |
| `Framing.QuicConnection.Recv` | crates/omnimesh-transport/src/quic.rs:266-308 | takes one frame; ends on a short header, breaks on a short body |
| `Framing.QuicConnection.Drain` | crates/omnimesh-sdk/src/lib.rs:387-411 | receiving until the stream ends yields what decoding the stream yields |
| `Framing.FrameRoundTripIff` | crates/omnimesh-transport/src/quic.rs:252-307 | a framed message is received unchanged exactly when it is shorter than 2^32 bytes |
| `Framing.FrameLayout` | crates/omnimesh-transport/src/quic.rs:252-261 | a frame is four bytes holding the length modulo 2^32 and then the whole message, however long |
| `Framing.ReceiveTakesOneFrame` | crates/omnimesh-transport/src/quic.rs:286-307 | on any bytes whatever: a message is received exactly if the stream begins with a whole frame, which is taken off; the stream counts as closed exactly if fewer than four bytes are left |
| `Framing.BigEndianRoundTrip` | crates/omnimesh-transport/src/quic.rs:253-298 | a number that fits its digits is read back from its big-endian bytes |
| `Framing.HeaderIsBigEndian` | crates/omnimesh-transport/src/quic.rs:253 | the header is four bytes, the most significant first |
| `Framing.PrefixDecoding` | crates/omnimesh-transport/src/quic.rs:286-307 | decoding any prefix of a framed list yields the fully contained messages, then end of stream if cut at a boundary or in a header, or an error if cut in a body |
| `Framing.ContainedIsExact` | crates/omnimesh-transport/src/quic.rs:286-307 | the number of contained messages is the one whose frames fit and whose successor's do not |
| `Framing.EveryStreamIsCutFrames` | crates/omnimesh-transport/src/quic.rs:286-307 | every stream of bytes is some list of frames cut off somewhere, so that what is received from it is known |
| `Framing.StreamRoundTripIff` | crates/omnimesh-transport/src/quic.rs:252-307 | decoding the whole stream yields the whole list exactly when every message is shorter than 2^32 bytes |
| `Retry.RetryAsync` | crates/omnimesh-core/src/retry.rs:92-133 | at most max_retries + 1 runs; all but the last ended in a connection, timeout, transport, discovery or input/output error; if the last did too, it was the last allowed; the first wait is the initial interval and each later one the smaller of the cap and the one before times the multiplier |
| `Retry.BackoffIsTextbookIff` | crates/omnimesh-core/src/retry.rs:118-120 | every wait after the first is min(initial * multiplier^k, max) exactly when the multiplier is at least 1, or the first step stays within the cap, or the cap is zero |
| `Retry.CappedTooEarly` | crates/omnimesh-core/src/retry.rs:118-120 | otherwise the second wait is already too short |
| `Retry.TotalWaitIsBounded` | crates/omnimesh-core/src/retry.rs:103-121 | total waiting is at most the initial interval plus (max_retries - 1) times the cap |

## Left out

- Rounding, NaN, infinities and the `f64::MAX` sentinel of the search; nanosecond rounding of intervals.
- The binary heap inside the standard library: a multiset whose pop returns any least entry.
- FindShortestPath: requires the graph to settle, because the search does not end on a graph that strays; not specified in between, where a walk to the target and a negative round have equal lowest peaks. There the target may be popped or not, depending on ties, and popping it does not mean that the path can be read back. The same goes for FindRoute and NextHop, which call it.
- Reconstruct: requires the predecessors to end, because the loop does not end otherwise.
- RestIsAlwaysAhead: the run it gives may use any session of the source for any of its updates, also one opened after the update was sent; the next gossip round sends the program's peers an equal one.
- Sessions that a peer loses; the program keeps the entry until shutdown.
- Ciphers, hashes, signatures, key stores and the serialisation formats; the handshake model is symbolic, with messages that open only for an equal transcript.
- perform_handshake is modelled as the stretches between its waits, which is what an interleaving of two of them needs; logging is dropped. A failed peer appears to the other end as the end of the stream.
- Connections that fail for other reasons than a refused version, and cancellation of a receive halfway.
- Opening and accepting QUIC streams and stream resets: the framing model starts with an open stream that the peer has finished.
- Concurrent senders on one session: encryption and queueing are separate steps in the program, so the order on the wire is not fixed.
- `LinkMetricTracker::set_relay_cost` as a step of the mesh: no router calls it, so relay costs other than zero occur in the search and the tracker, not in runs of the gossip protocol. The retry policies' constants; `ConnectionPool`, `VirtualIp`, `Config`, chat, publish/subscribe and the command line: only easy members.
- The RPC caller that is cancelled while waiting; its pending entry stays as in the program.
- Discovery through Kademlia and mDNS, TLS and the swarm: input and output.
