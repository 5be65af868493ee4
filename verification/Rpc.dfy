/** Remote procedure calls: request numbers, the table of waiting callers, and honest peers. */
module Rpc {
  import opened MeshTypes

  datatype Reply = Ok(bytes: Bytes) | Err(text: string)

  datatype Message = Request(id: nat, name: string, payload: Bytes) | Response(id: nat, reply: Reply)

  datatype Packet = Packet(from: PeerId, to: PeerId, msg: Message)

  /** The response to a request. */
  function AnswerTo(p: Packet, reply: Reply): (r: Packet)
    requires p.msg.Request?
  {
    Packet(p.to, p.from, Response(p.msg.id, reply))
  }

  /** The caller's table: the next number, who still waits, and what has been handed to callers. */
  datatype Table = Table(next: nat, pending: set<nat>, delivered: map<nat, Reply>) {
    /** The number `next` now stands for the new caller. */
    function Created(): (r: Table) {
      Table((next + 1) % U64_MODULUS, pending + {next}, delivered - {next})
    }

    /** The first response takes the caller out of the table; later ones find nobody. */
    function Answered(id: nat, reply: Reply): (r: Table) {
      if id in pending then this.(pending := pending - {id}, delivered := delivered[id := reply]) else this
    }
  }

  const EMPTY_TABLE := Table(1, {}, map[])

  /** The one-shot channel a caller waits on. */
  class OneShot {
    var value: Option<Reply>

    constructor ()
      ensures value == None
    {
      value := None;
    }
  }

  /** What has been handed to callers. */
  ghost function Replies(channels: map<nat, OneShot>): (r: map<nat, Reply>)
    reads channels.Values
  {
    map i | i in channels && channels[i].value.Some? :: channels[i].value.value
  }

  lemma RepliesWithNew(channels: map<nat, OneShot>, id: nat, rx: OneShot)
    requires rx.value.None?
    ensures Replies(channels[id := rx]) == Replies(channels) - {id}
  {
  }

  class RpcService {
    var pendingRequests: map<nat, OneShot>
    var nextRequestId: nat
    // every channel ever made, by request number
    ghost var channels: map<nat, OneShot>

    ghost predicate Valid()
      reads this, channels.Values
    {
      && nextRequestId < U64_MODULUS
      && (forall i, j | i in channels && j in channels && i != j :: channels[i] != channels[j])
      && (forall i | i in pendingRequests ::
            i in channels && pendingRequests[i] == channels[i] && channels[i].value.None?)
    }

    ghost function State(): (r: Table)
      reads this, channels.Values
    {
      Table(nextRequestId, pendingRequests.Keys, Replies(channels))
    }

    constructor ()
      ensures Valid() && State() == EMPTY_TABLE && channels == map[]
    {
      pendingRequests, nextRequestId, channels := map[], 1, map[];
    }

    method CreateRequest(name: string, payload: Bytes) returns (request: Message, rx: OneShot)
      requires Valid()
      modifies this
      ensures request == Request(old(nextRequestId), name, payload)
      ensures Valid() && fresh(rx) && channels == old(channels)[request.id := rx]
      ensures State() == old(State()).Created()
      ensures nextRequestId == (old(nextRequestId) + 1) % 0x1_0000_0000_0000_0000
      ensures pendingRequests.Keys == old(pendingRequests).Keys + {request.id} && pendingRequests[request.id] == rx
    {
      var id := nextRequestId;
      nextRequestId := (nextRequestId + 1) % U64_MODULUS;
      rx := new OneShot();
      pendingRequests := pendingRequests[id := rx];
      assert Replies(channels) == old(Replies(channels));
      RepliesWithNew(channels, id, rx);
      channels := channels[id := rx];
      assert Replies(channels) == old(Replies(channels)) - {id};
      assert pendingRequests.Keys == old(pendingRequests.Keys) + {id};
      request := Request(id, name, payload);
    }

    /** The request arm: the handler's result goes back to the caller, under the caller's number. */
    static method HandleRequest(local: PeerId, from: PeerId, request: Message,
                                handler: (PeerId, string, Bytes) -> Reply)
      returns (response: Packet)
      requires request.Request?
      ensures response.from == local && response.to == from && response.msg.Response?
      ensures response.msg.id == request.id && response.msg.reply == handler(from, request.name, request.payload)
      ensures response == AnswerTo(Packet(from, local, request), handler(from, request.name, request.payload))
    {
      var result := handler(from, request.name, request.payload);
      response := Packet(local, from, Response(request.id, result));
    }

    /** The response arm of the message handler. */
    method HandleResponse(id: nat, reply: Reply)
      requires Valid()
      modifies this, channels.Values
      ensures Valid() && channels == old(channels)
      ensures State() == old(State()).Answered(id, reply)
      ensures pendingRequests.Keys == old(pendingRequests).Keys - {id} && nextRequestId == old(nextRequestId)
      ensures id in old(pendingRequests) ==> channels[id].value == Some(reply)
      ensures forall i | i in channels && (i != id || id !in old(pendingRequests)) ::
                channels[i].value == old(channels[i].value)
    {
      if id in pendingRequests {
        var tx := pendingRequests[id];
        pendingRequests := pendingRequests - {id};
        tx.value := Some(reply);
        assert forall i | i in channels && i != id :: channels[i] != tx;
        assert State().delivered == old(State()).Answered(id, reply).delivered;
      }
    }
  }

  // ----- One service in any environment

  datatype Event = Called | Responded(id: nat, reply: Reply)

  function Run(es: seq<Event>): (r: Table) {
    if es == [] then EMPTY_TABLE
    else
      var t, e := Run(es[..|es| - 1]), es[|es| - 1];
      if e.Called? then t.Created() else t.Answered(e.id, e.reply)
  }

  function Calls(es: seq<Event>): (r: nat) {
    if es == [] then 0 else Calls(es[..|es| - 1]) + if es[|es| - 1].Called? then 1 else 0
  }

  /** Event `j` is the first response to call number `id` that arrives after the call. */
  ghost predicate IsFirst(es: seq<Event>, j: nat, id: nat) {
    && Responds(es, j, id)
    && forall k | 0 <= k < j :: !Responds(es, k, id)
  }

  ghost predicate Responds(es: seq<Event>, j: nat, id: nat) {
    j < |es| && es[j].Responded? && es[j].id == id && 1 <= id <= Calls(es[..j])
  }

  lemma RespondsAppend(es: seq<Event>, e: Event, j: nat, id: nat)
    ensures j < |es| ==> (Responds(es + [e], j, id) <==> Responds(es, j, id))
    ensures j == |es| ==> (Responds(es + [e], j, id) <==> e.Responded? && e.id == id && 1 <= id <= Calls(es))
  {
    if j <= |es| {
      assert (es + [e])[..j] == es[..j];
      assert es[..|es|] == es;
    }
  }

  /** The first response before one more event is still the first after it. */
  lemma FirstAppend(es: seq<Event>, e: Event, j: nat, id: nat)
    ensures j < |es| ==> (IsFirst(es + [e], j, id) <==> IsFirst(es, j, id))
    ensures j == |es| ==> (IsFirst(es + [e], j, id) <==>
                             Responds(es + [e], j, id) && forall k: nat :: !Responds(es, k, id))
  {
    RespondsAppend(es, e, j, id);
    forall k: nat | k < j ensures k < |es| ==> (Responds(es + [e], k, id) <==> Responds(es, k, id)) {
      RespondsAppend(es, e, k, id);
    }
  }

  /** What the table says of number `id` is what the history says. */
  ghost predicate Tells(t: Table, es: seq<Event>, id: nat) {
    && t.next == Calls(es) + 1
    && (id in t.pending <==> 1 <= id <= Calls(es) && forall j: nat :: !Responds(es, j, id))
    && (id in t.delivered <==> exists j: nat :: Responds(es, j, id))
    && (forall j: nat | IsFirst(es, j, id) :: id in t.delivered && t.delivered[id] == es[j].reply)
  }

  lemma HistoryAppend(es: seq<Event>, e: Event, id: nat)
    ensures Calls(es + [e]) == Calls(es) + if e.Called? then 1 else 0
    ensures forall j: nat ::
              Responds(es + [e], j, id) <==>
              Responds(es, j, id) || (j == |es| && e.Responded? && e.id == id && 1 <= id <= Calls(es))
    ensures forall j: nat ::
              IsFirst(es + [e], j, id) <==>
              IsFirst(es, j, id) || (j == |es| && Responds(es + [e], j, id) && forall k: nat :: !Responds(es, k, id))
  {
    assert (es + [e])[..|es|] == es;
    forall j: nat
      ensures Responds(es + [e], j, id) <==>
              Responds(es, j, id) || (j == |es| && e.Responded? && e.id == id && 1 <= id <= Calls(es))
    {
      RespondsAppend(es, e, j, id);
    }
    forall j: nat
      ensures IsFirst(es + [e], j, id) <==>
              IsFirst(es, j, id) || (j == |es| && Responds(es + [e], j, id) && forall k: nat :: !Responds(es, k, id))
    {
      FirstAppend(es, e, j, id);
    }
  }

  /** Nobody can respond to a number that has not been given out. */
  lemma NoResponseBeforeCall(es: seq<Event>, id: nat)
    requires id > Calls(es)
    ensures forall j: nat :: !Responds(es, j, id)
  {
    forall j: nat ensures !Responds(es, j, id) {
      CallsArePrefixMonotone(es, j);
    }
  }

  lemma CallTells(t: Table, es: seq<Event>, id: nat)
    requires Tells(t, es, id) && Calls(es) + 1 < U64_MODULUS - 1
    ensures Tells(t.Created(), es + [Called], id)
  {
    HistoryAppend(es, Called, id);
    assert t.Created().next == t.next + 1;
    if id == t.next {
      NoResponseBeforeCall(es, id);
    }
  }

  lemma {:induction false} CallsArePrefixMonotone(es: seq<Event>, j: nat)
    ensures j <= |es| ==> Calls(es[..j]) <= Calls(es)
    decreases |es|
  {
    if j < |es| {
      CallsArePrefixMonotone(es[..|es| - 1], j);
      assert es[..|es| - 1][..j] == es[..j];
    } else if j == |es| {
      assert es[..j] == es;
    }
  }

  lemma ResponseTells(t: Table, es: seq<Event>, e: Event, id: nat)
    requires Tells(t, es, id) && e.Responded?
    ensures Tells(t.Answered(e.id, e.reply), es + [e], id)
  {
    HistoryAppend(es, e, id);
    if e.id == id && id in t.pending {
      assert Responds(es + [e], |es|, id);
    }
  }

  /**
   * Whatever responses arrive, in whatever order and however often: the calls are numbered 1, 2, ...,
   * a caller waits exactly until the first response with its number, and gets that one.
   */
  lemma {:induction false} FirstResponseWins(es: seq<Event>, id: nat)
    requires Calls(es) < U64_MODULUS - 1
    ensures Tells(Run(es), es, id)
    decreases |es|
  {
    if es != [] {
      var before, e := es[..|es| - 1], es[|es| - 1];
      assert es == before + [e];
      FirstResponseWins(before, id);
      if e.Called? {
        CallTells(Run(before), before, id);
      } else {
        ResponseTells(Run(before), before, e, id);
      }
    }
  }

  // ----- Many honest peers over a network that repeats, reorders and drops

  /** A call as its caller made it. */
  datatype Call = Call(to: PeerId, name: string, payload: Bytes)

  /** A request that a peer's handler really processed, and what it returned. */
  datatype Handling = Handling(server: PeerId, from: PeerId, name: string, payload: Bytes, reply: Reply)

  datatype World = World(
    tables: map<PeerId, Table>,
    // every packet ever sent; any may arrive any number of times, or never
    net: set<Packet>,
    calls: map<(PeerId, nat), Call>,
    handled: set<Handling>)

  datatype Action =
    // a call whose request may fail to be sent
    | MakeCall(from: PeerId, call: Call, sent: bool)
    // a handler's result for an arriving request; handlers may answer differently each time
    | Serve(request: Packet, reply: Reply)
    | Complete(response: Packet)

  ghost predicate Enabled(w: World, a: Action) {
    match a
    case MakeCall(from, call, sent) => from in w.tables && w.tables[from].next < U64_MODULUS - 1
    case Serve(p, reply) => p in w.net && p.msg.Request? && p.to in w.tables
    case Complete(p) => p in w.net && p.msg.Response? && p.to in w.tables
  }

  ghost function Step(w: World, a: Action): (r: World)
    requires Enabled(w, a)
  {
    match a
    case MakeCall(from, call, sent) =>
      var id := w.tables[from].next;
      w.(tables := w.tables[from := w.tables[from].Created()],
         calls := w.calls[(from, id) := call],
         net := if sent then w.net + {Packet(from, call.to, Request(id, call.name, call.payload))} else w.net)
    case Serve(p, reply) =>
      w.(handled := w.handled + {Handling(p.to, p.from, p.msg.name, p.msg.payload, reply)},
         net := w.net + {AnswerTo(p, reply)})
    case Complete(p) =>
      w.(tables := w.tables[p.to := w.tables[p.to].Answered(p.msg.id, p.msg.reply)])
  }

  ghost predicate Initial(w: World) {
    w.net == {} && w.calls == map[] && w.handled == {} && forall p | p in w.tables :: w.tables[p] == EMPTY_TABLE
  }

  ghost predicate Runs(w: World, acts: seq<Action>, w': World)
    decreases |acts|
  {
    if acts == [] then w' == w else Enabled(w, acts[0]) && Runs(Step(w, acts[0]), acts[1..], w')
  }

  /** `reply` is what the called peer's handler returned for exactly the request of call `id`. */
  ghost predicate Genuine(w: World, caller: PeerId, id: nat, reply: Reply) {
    && (caller, id) in w.calls
    && var c := w.calls[(caller, id)];
    Handling(c.to, caller, c.name, c.payload, reply) in w.handled
  }

  ghost predicate PacketOk(w: World, p: Packet) {
    match p.msg
    case Request(id, name, payload) =>
      (p.from, id) in w.calls && w.calls[(p.from, id)] == Call(p.to, name, payload)
    case Response(id, reply) => Genuine(w, p.to, id, reply)
  }

  ghost predicate TableOk(w: World, p: PeerId, t: Table) {
    && 0 < t.next < U64_MODULUS
    && (forall id: nat {:trigger (p, id) in w.calls} :: (p, id) in w.calls ==> id < t.next)
    && (forall id {:trigger id in t.pending} | id in t.pending :: (p, id) in w.calls && id !in t.delivered)
    && (forall id {:trigger id in t.delivered} | id in t.delivered :: Genuine(w, p, id, t.delivered[id]))
  }

  ghost predicate WorldOk(w: World) {
    && (forall p {:trigger PacketOk(w, p)} | p in w.net :: PacketOk(w, p))
    && (forall p {:trigger w.tables[p]} | p in w.tables :: TableOk(w, p, w.tables[p]))
  }

  /** More calls and more handled requests never take a reply's justification away. */
  ghost predicate Grows(w: World, w': World) {
    && w.handled <= w'.handled
    && forall k {:trigger k in w'.calls} | k in w.calls :: k in w'.calls && w'.calls[k] == w.calls[k]
  }

  lemma GenuineGrows(w: World, w': World, caller: PeerId, id: nat, reply: Reply)
    requires Grows(w, w') && Genuine(w, caller, id, reply)
    ensures Genuine(w', caller, id, reply)
  {
    assert (caller, id) in w'.calls;
  }

  lemma PacketsGrow(w: World, w': World, p: Packet)
    requires Grows(w, w') && PacketOk(w, p)
    ensures PacketOk(w', p)
  {
    match p.msg
    case Request(id, name, payload) => assert (p.from, id) in w'.calls;
    case Response(id, reply) => GenuineGrows(w, w', p.to, id, reply);
  }

  lemma TableGrows(w: World, w': World, p: PeerId, t: Table)
    requires TableOk(w, p, t) && Grows(w, w')
    requires forall id: nat | (p, id) in w'.calls :: (p, id) in w.calls
    ensures TableOk(w', p, t)
  {
    forall id | id in t.delivered ensures Genuine(w', p, id, t.delivered[id]) {
      GenuineGrows(w, w', p, id, t.delivered[id]);
    }
    forall id | id in t.pending ensures (p, id) in w'.calls && id !in t.delivered {
      assert (p, id) in w.calls;
    }
  }

  lemma MakeCallKeeps(w: World, a: Action)
    requires WorldOk(w) && Enabled(w, a) && a.MakeCall?
    ensures WorldOk(Step(w, a)) && Grows(w, Step(w, a))
  {
    var w', from := Step(w, a), a.from;
    var t := w.tables[from];
    assert TableOk(w, from, t);
    assert (from, t.next) !in w.calls;
    forall p | p in w'.net ensures PacketOk(w', p) {
      if p in w.net {
        PacketsGrow(w, w', p);
      }
    }
    forall p | p in w'.tables ensures TableOk(w', p, w'.tables[p]) {
      if p == from {
        CallerKeeps(w, w', from, t, a.call);
      } else {
        TableGrows(w, w', p, w.tables[p]);
      }
    }
  }

  lemma CallerKeeps(w: World, w': World, p: PeerId, t: Table, call: Call)
    requires TableOk(w, p, t) && Grows(w, w') && t.next < U64_MODULUS - 1
    requires w'.calls == w.calls[(p, t.next) := call]
    ensures TableOk(w', p, t.Created())
  {
    var t' := t.Created();
    assert t.next in t.delivered ==> (p, t.next) in w.calls;
    forall id | id in t'.delivered ensures Genuine(w', p, id, t'.delivered[id]) {
      GenuineGrows(w, w', p, id, t.delivered[id]);
    }
    forall id | id in t'.pending ensures (p, id) in w'.calls && id !in t'.delivered {
      assert id != t.next ==> id in t.pending && (p, id) in w.calls;
    }
  }

  lemma ServeKeeps(w: World, a: Action)
    requires WorldOk(w) && Enabled(w, a) && a.Serve?
    ensures WorldOk(Step(w, a)) && Grows(w, Step(w, a))
  {
    var w' := Step(w, a);
    assert PacketOk(w, a.request);
    forall p | p in w'.net ensures PacketOk(w', p) {
      if p in w.net {
        PacketsGrow(w, w', p);
      }
    }
    forall p | p in w'.tables ensures TableOk(w', p, w'.tables[p]) {
      TableGrows(w, w', p, w.tables[p]);
    }
  }

  lemma CompleteKeeps(w: World, a: Action)
    requires WorldOk(w) && Enabled(w, a) && a.Complete?
    ensures WorldOk(Step(w, a)) && Grows(w, Step(w, a))
  {
    var w', r := Step(w, a), a.response;
    assert PacketOk(w, r);
    forall p | p in w'.net ensures PacketOk(w', p) {
      PacketsGrow(w, w', p);
    }
    forall p | p in w'.tables ensures TableOk(w', p, w'.tables[p]) {
      TableGrows(w, w', p, w.tables[p]);
      if p == r.to {
        var t, t' := w.tables[p], w'.tables[p];
        forall id | id in t'.delivered ensures Genuine(w', p, id, t'.delivered[id]) {
          if id in t.delivered && t'.delivered[id] == t.delivered[id] {
            GenuineGrows(w, w', p, id, t.delivered[id]);
          }
        }
      }
    }
  }

  lemma StepKeeps(w: World, a: Action)
    requires WorldOk(w) && Enabled(w, a)
    ensures WorldOk(Step(w, a)) && Grows(w, Step(w, a))
  {
    match a
    case MakeCall(_, _, _) => MakeCallKeeps(w, a);
    case Serve(_, _) => ServeKeeps(w, a);
    case Complete(_) => CompleteKeeps(w, a);
  }

  lemma {:induction false} RunKeeps(w: World, acts: seq<Action>, w': World)
    requires WorldOk(w) && Runs(w, acts, w')
    ensures WorldOk(w') && Grows(w, w')
    decreases |acts|
  {
    if acts != [] {
      var mid := Step(w, acts[0]);
      StepKeeps(w, acts[0]);
      RunKeeps(mid, acts[1..], w');
      forall k | k in w.calls ensures k in w'.calls && w'.calls[k] == w.calls[k] {
        assert k in mid.calls;
      }
    }
  }

  /**
   * Matching: in every run, what a caller is handed for call number `id` is a result the called
   * peer's handler returned for exactly that request, and only issued calls can be waiting.
   */
  lemma RepliesMatchCalls(w0: World, acts: seq<Action>, w: World, p: PeerId, id: nat)
    requires Initial(w0) && Runs(w0, acts, w) && p in w.tables
    ensures id in w.tables[p].delivered ==> Genuine(w, p, id, w.tables[p].delivered[id])
    ensures id in w.tables[p].pending ==> (p, id) in w.calls && id !in w.tables[p].delivered
  {
    RunKeeps(w0, acts, w);
    assert TableOk(w, p, w.tables[p]);
  }

  /** A new call never reuses a number, so all numbers a peer gave out are different. */
  lemma NumbersAreFresh(w0: World, acts: seq<Action>, w: World, p: PeerId)
    requires Initial(w0) && Runs(w0, acts, w) && p in w.tables
    ensures (p, w.tables[p].next) !in w.calls
    ensures w.tables[p].next !in w.tables[p].pending && w.tables[p].next !in w.tables[p].delivered
  {
    RunKeeps(w0, acts, w);
    var t := w.tables[p];
    assert TableOk(w, p, t);
    assert t.next in t.delivered ==> Genuine(w, p, t.next, t.delivered[t.next]);
  }

  /** No step changes the reply of a completed call. */
  lemma StepKeepsReply(w: World, a: Action, p: PeerId, id: nat)
    requires WorldOk(w) && Enabled(w, a) && p in w.tables && id in w.tables[p].delivered
    ensures p in Step(w, a).tables && id in Step(w, a).tables[p].delivered
    ensures Step(w, a).tables[p].delivered[id] == w.tables[p].delivered[id]
  {
    assert TableOk(w, p, w.tables[p]);
    assert Genuine(w, p, id, w.tables[p].delivered[id]);
  }

  lemma {:induction false} RunKeepsReply(w: World, acts: seq<Action>, w': World, p: PeerId, id: nat)
    requires WorldOk(w) && Runs(w, acts, w') && p in w.tables && id in w.tables[p].delivered
    ensures p in w'.tables && id in w'.tables[p].delivered
    ensures w'.tables[p].delivered[id] == w.tables[p].delivered[id]
    decreases |acts|
  {
    if acts != [] {
      StepKeeps(w, acts[0]);
      StepKeepsReply(w, acts[0], p, id);
      RunKeepsReply(Step(w, acts[0]), acts[1..], w', p, id);
    }
  }

  /** Once completed, a call stays completed with the same reply for the rest of the run. */
  lemma CompletedOnce(w0: World, acts: seq<Action>, w: World, more: seq<Action>, w': World, p: PeerId, id: nat)
    requires Initial(w0) && Runs(w0, acts, w) && Runs(w, more, w')
    requires p in w.tables && id in w.tables[p].delivered
    ensures p in w'.tables && id in w'.tables[p].delivered
    ensures w'.tables[p].delivered[id] == w.tables[p].delivered[id]
  {
    RunKeeps(w0, acts, w);
    RunKeepsReply(w, more, w', p, id);
  }

  // ----- Calls that can complete

  /** A run of the world leads from `w` to `w'`. */
  ghost predicate Leads(w: World, w': World) {
    exists acts :: Runs(w, acts, w')
  }

  lemma LeadsByTwo(w: World, a: Action, b: Action)
    requires Enabled(w, a) && Enabled(Step(w, a), b)
    ensures Leads(w, Step(Step(w, a), b))
  {
    assert [a, b][1..] == [b] && [b][1..] == [];
    assert Runs(Step(w, a), [b], Step(Step(w, a), b));
    assert Runs(w, [a, b], Step(Step(w, a), b));
  }

  lemma LeadsByOneMore(w: World, a: Action, w': World)
    requires Enabled(w, a) && Leads(Step(w, a), w')
    ensures Leads(w, w')
  {
    var acts :| Runs(Step(w, a), acts, w');
    assert ([a] + acts)[0] == a && ([a] + acts)[1..] == acts;
    assert Runs(w, [a] + acts, w');
  }

  /** The request of a call, as its caller put it on the net. */
  ghost function RequestOf(w: World, p: PeerId, id: nat): (r: Packet)
    requires (p, id) in w.calls
  {
    var c := w.calls[(p, id)];
    Packet(p, c.to, Request(id, c.name, c.payload))
  }

  /** Served and answered, a waiting call completes with whatever the called peer's handler returned. */
  lemma ServedCallCompletes(w: World, p: PeerId, id: nat, reply: Reply) returns (w': World)
    requires p in w.tables && id in w.tables[p].pending && (p, id) in w.calls
    requires RequestOf(w, p, id) in w.net && w.calls[(p, id)].to in w.tables
    ensures Leads(w, w') && p in w'.tables && id in w'.tables[p].delivered && w'.tables[p].delivered[id] == reply
    ensures id !in w'.tables[p].pending && Genuine(w', p, id, reply)
  {
    var request := RequestOf(w, p, id);
    var serve, complete := Serve(request, reply), Complete(AnswerTo(request, reply));
    LeadsByTwo(w, serve, complete);
    w' := Step(Step(w, serve), complete);
  }

  /**
   * Progress: in every run, a call that waits and whose request was sent to a peer of the world can
   * complete, with any reply the handler of that peer may return.
   */
  lemma WaitingCallCanComplete(w0: World, acts: seq<Action>, w: World, p: PeerId, id: nat, reply: Reply)
    returns (w': World)
    requires Initial(w0) && Runs(w0, acts, w) && p in w.tables && id in w.tables[p].pending
    requires (p, id) in w.calls ==> RequestOf(w, p, id) in w.net && w.calls[(p, id)].to in w.tables
    ensures Leads(w, w') && p in w'.tables && id in w'.tables[p].delivered && w'.tables[p].delivered[id] == reply
    ensures id !in w'.tables[p].pending && Genuine(w', p, id, reply)
  {
    RepliesMatchCalls(w0, acts, w, p, id);
    w' := ServedCallCompletes(w, p, id, reply);
  }

  /** And a new call to any peer of the world can be made, sent, served and answered. */
  lemma NewCallCanComplete(w0: World, acts: seq<Action>, w: World, p: PeerId, call: Call, reply: Reply)
    returns (w': World)
    requires Initial(w0) && Runs(w0, acts, w) && p in w.tables && call.to in w.tables
    requires w.tables[p].next < U64_MODULUS - 1
    ensures Leads(w, w') && p in w'.tables && (p, w.tables[p].next) in w'.calls
    ensures w'.calls[(p, w.tables[p].next)] == call
    ensures w.tables[p].next in w'.tables[p].delivered && w'.tables[p].delivered[w.tables[p].next] == reply
  {
    var id, make := w.tables[p].next, MakeCall(p, call, true);
    var mid := Step(w, make);
    NumbersAreFresh(w0, acts, w, p);
    var request := RequestOf(mid, p, id);
    var serve, complete := Serve(request, reply), Complete(AnswerTo(request, reply));
    LeadsByTwo(mid, serve, complete);
    w' := Step(Step(mid, serve), complete);
    LeadsByOneMore(w, make, w');
  }
}
