/** The cache of peer addresses, whose entries expire and are pruned. */
module AddressCache {
  import opened MeshTypes

  /** Seconds; the program's default lifetime of an address. */
  const DEFAULT_TTL: nat := 1800

  datatype SocketAddr = SocketAddr(id: nat)

  datatype CachedAddress = CachedAddress(addr: SocketAddr, expiresAt: int)

  type Inner = map<PeerId, seq<CachedAddress>>

  function Without(list: seq<CachedAddress>, addr: SocketAddr): (r: seq<CachedAddress>) {
    if list == [] then []
    else (if list[0].addr != addr then [list[0]] else []) + Without(list[1..], addr)
  }

  function Live(list: seq<CachedAddress>, now: int): (r: seq<CachedAddress>) {
    if list == [] then []
    else (if list[0].expiresAt > now then [list[0]] else []) + Live(list[1..], now)
  }

  function Addrs(list: seq<CachedAddress>): (r: seq<SocketAddr>) {
    seq(|list|, i requires 0 <= i < |list| => list[i].addr)
  }

  /** What changes the cache, with the clock reading of the call. */
  datatype Op =
    | Insert(at: int, peer: PeerId, addr: SocketAddr, ttl: nat)
    | Remove(at: int, peer: PeerId)
    | Prune(at: int)

  function Apply(c: Inner, op: Op): (r: Inner) {
    match op
    case Insert(at, peer, addr, ttl) =>
      c[peer := Without(GetOr(c, peer, []), addr) + [CachedAddress(addr, at + ttl)]]
    case Remove(at, peer) => c - {peer}
    case Prune(at) => map p | p in c && Live(c[p], at) != [] :: Live(c[p], at)
  }

  /** Every peer with a live address. */
  function Listed(c: Inner, now: int): (peers: map<PeerId, seq<SocketAddr>>) {
    map p | p in c && Live(c[p], now) != [] :: Addrs(Live(c[p], now))
  }

  function Found(c: Inner, peer: PeerId, now: int): (r: seq<SocketAddr>) {
    Addrs(Live(GetOr(c, peer, []), now))
  }

  // ----- What it means to keep some entries of a list

  /** What a call keeps. */
  datatype Filter = Unexpired(now: int) | OtherThan(addr: SocketAddr) {
    predicate Keeps(e: CachedAddress) {
      match this
      case Unexpired(now) => e.expiresAt > now
      case OtherThan(addr) => e.addr != addr
    }
  }

  /** `kept` lists, in their order, exactly the entries of `list` that pass; `at` says where they stood. */
  ghost predicate Selects(list: seq<CachedAddress>, kept: seq<CachedAddress>, f: Filter, at: seq<nat>) {
    && |at| == |kept|
    && (forall k {:trigger at[k]} | 0 <= k < |at| :: PassesAt(list, f, at[k]) && kept[k] == list[at[k]])
    && (forall a, b | 0 <= a < b < |at| :: at[a] < at[b])
    && (forall i {:trigger PassesAt(list, f, i)} | PassesAt(list, f, i) :: i in at)
  }

  ghost predicate PassesAt(list: seq<CachedAddress>, f: Filter, i: nat) {
    i < |list| && f.Keeps(list[i])
  }

  ghost predicate IsSelection(list: seq<CachedAddress>, kept: seq<CachedAddress>, f: Filter) {
    exists at :: Selects(list, kept, f, at)
  }

  function Shifted(at: seq<nat>): (r: seq<nat>)
    ensures |r| == |at| && forall k | 0 <= k < |at| :: r[k] == at[k] + 1
  {
    seq(|at|, k requires 0 <= k < |at| => at[k] + 1)
  }

  lemma PassesLater(list: seq<CachedAddress>, f: Filter, i: nat)
    requires list != []
    ensures PassesAt(list, f, i + 1) <==> PassesAt(list[1..], f, i)
  {
  }

  lemma ShiftedHas(at: seq<nat>, i: nat)
    ensures i + 1 in Shifted(at) <==> i in at
  {
    if i in at {
      var k :| 0 <= k < |at| && at[k] == i;
      assert Shifted(at)[k] == i + 1;
    }
  }

  lemma SkipFirst(list: seq<CachedAddress>, kept: seq<CachedAddress>, f: Filter, at: seq<nat>, more: seq<nat>)
    requires list != [] && Selects(list[1..], kept, f, at) && !f.Keeps(list[0]) && more == Shifted(at)
    ensures Selects(list, kept, f, more)
  {
    forall k | 0 <= k < |more| ensures PassesAt(list, f, more[k]) && kept[k] == list[more[k]] {
      PassesLater(list, f, at[k]);
    }
    forall i: nat | PassesAt(list, f, i) ensures i in more {
      PassesLater(list, f, i - 1);
      ShiftedHas(at, i - 1);
    }
  }

  lemma KeepFirst(list: seq<CachedAddress>, kept: seq<CachedAddress>, f: Filter, at: seq<nat>,
                  kept': seq<CachedAddress>, more: seq<nat>)
    requires list != [] && Selects(list[1..], kept, f, at) && f.Keeps(list[0])
    requires kept' == [list[0]] + kept && more == [0] + Shifted(at)
    ensures Selects(list, kept', f, more)
  {
    forall k | 0 <= k < |more| ensures PassesAt(list, f, more[k]) && kept'[k] == list[more[k]] {
      if k > 0 {
        assert more[k] == at[k - 1] + 1;
        PassesLater(list, f, at[k - 1]);
      }
    }
    forall i: nat | PassesAt(list, f, i) ensures i in more {
      if i == 0 {
        assert more[0] == 0;
      } else {
        PassesLater(list, f, i - 1);
        ShiftedHas(at, i - 1);
      }
    }
  }

  lemma SelectMore(list: seq<CachedAddress>, kept: seq<CachedAddress>, f: Filter, kept': seq<CachedAddress>)
    requires list != [] && IsSelection(list[1..], kept, f)
    requires kept' == if f.Keeps(list[0]) then [list[0]] + kept else kept
    ensures IsSelection(list, kept', f)
  {
    var at :| Selects(list[1..], kept, f, at);
    if f.Keeps(list[0]) {
      KeepFirst(list, kept, f, at, kept', [0] + Shifted(at));
    } else {
      SkipFirst(list, kept, f, at, Shifted(at));
    }
  }

  lemma {:induction false} LiveSelects(list: seq<CachedAddress>, now: int)
    ensures IsSelection(list, Live(list, now), Unexpired(now))
    decreases |list|
  {
    if list == [] {
      assert Selects(list, [], Unexpired(now), []);
    } else {
      LiveSelects(list[1..], now);
      SelectMore(list, Live(list[1..], now), Unexpired(now), Live(list, now));
    }
  }

  lemma {:induction false} WithoutSelects(list: seq<CachedAddress>, addr: SocketAddr)
    ensures IsSelection(list, Without(list, addr), OtherThan(addr))
    decreases |list|
  {
    if list == [] {
      assert Selects(list, [], OtherThan(addr), []);
    } else {
      WithoutSelects(list[1..], addr);
      SelectMore(list, Without(list[1..], addr), OtherThan(addr), Without(list, addr));
    }
  }

  /** What is kept of a list is determined by what passes: the entries that pass, and no others. */
  lemma SelectionMembers(list: seq<CachedAddress>, kept: seq<CachedAddress>, f: Filter)
    requires IsSelection(list, kept, f)
    ensures forall e :: e in kept <==> e in list && f.Keeps(e)
  {
    var at :| Selects(list, kept, f, at);
    forall e ensures e in kept <==> e in list && f.Keeps(e) {
      if e in kept {
        var k :| 0 <= k < |kept| && kept[k] == e;
        assert PassesAt(list, f, at[k]);
      }
      if e in list && f.Keeps(e) {
        var i :| 0 <= i < |list| && list[i] == e;
        assert PassesAt(list, f, i);
        var k :| 0 <= k < |at| && at[k] == i;
        assert kept[k] == e;
      }
    }
  }

  /** The list of a peer after an insertion: all entries of other addresses as before, then the new one. */
  ghost predicate HasInserted(c: Inner, c': Inner, peer: PeerId, e: CachedAddress) {
    && peer in c' && c'[peer] != [] && c'[peer][|c'[peer]| - 1] == e
    && IsSelection(GetOr(c, peer, []), c'[peer][..|c'[peer]| - 1], OtherThan(e.addr))
    && forall p | p != peer :: (p in c' <==> p in c) && GetOr(c', p, []) == GetOr(c, p, [])
  }

  /** After a prune each peer keeps exactly its unexpired entries, in order, and no peer is left without one. */
  ghost predicate HasPruned(c: Inner, c': Inner, now: int) {
    && (forall p :: p in c' <==> p in c && exists e :: e in c[p] && e.expiresAt > now)
    && (forall p | p in c' && p in c :: c'[p] != [] && IsSelection(c[p], c'[p], Unexpired(now)))
  }

  lemma AllButLast(list: seq<CachedAddress>, e: CachedAddress)
    ensures (list + [e])[..|list + [e]| - 1] == list && (list + [e])[|list + [e]| - 1] == e
  {
  }

  lemma InsertedListing(list: seq<CachedAddress>, addr: SocketAddr, e: CachedAddress, t: int)
    requires e.addr == addr
    ensures addr in Addrs(Live(Without(list, addr) + [e], t)) <==> t < e.expiresAt
  {
    var list' := Without(list, addr) + [e];
    WithoutSelects(list, addr);
    SelectionMembers(list, Without(list, addr), OtherThan(addr));
    LiveMembers(list', t);
    assert e in list';
  }

  lemma InsertingInserts(c: Inner, at: int, peer: PeerId, addr: SocketAddr, ttl: nat)
    ensures HasInserted(c, Apply(c, Insert(at, peer, addr, ttl)), peer, CachedAddress(addr, at + ttl))
  {
    var list := GetOr(c, peer, []);
    AllButLast(Without(list, addr), CachedAddress(addr, at + ttl));
    WithoutSelects(list, addr);
  }

  lemma InsertedUntil(c: Inner, at: int, peer: PeerId, addr: SocketAddr, ttl: nat)
    ensures forall t :: addr in Found(Apply(c, Insert(at, peer, addr, ttl)), peer, t) <==> t < at + ttl
  {
    forall t ensures addr in Found(Apply(c, Insert(at, peer, addr, ttl)), peer, t) <==> t < at + ttl {
      InsertedListing(GetOr(c, peer, []), addr, CachedAddress(addr, at + ttl), t);
    }
  }

  lemma PruningPrunes(c: Inner, now: int)
    ensures HasPruned(c, Apply(c, Prune(now)), now)
  {
    var c' := Apply(c, Prune(now));
    forall p | p in c
      ensures IsSelection(c[p], Live(c[p], now), Unexpired(now))
      ensures p in c' <==> exists e :: e in c[p] && e.expiresAt > now
    {
      LiveSelects(c[p], now);
      LiveMembers(c[p], now);
      if p in c' {
        assert Live(c[p], now)[0] in Live(c[p], now);
      }
    }
  }

  class PeerAddressCache {
    var inner: Inner

    constructor ()
      ensures inner == map[]
    {
      inner := map[];
    }

    method Insert(peer: PeerId, addr: SocketAddr, now: int)
      modifies this
      ensures inner == Apply(old(inner), Op.Insert(now, peer, addr, DEFAULT_TTL))
      ensures HasInserted(old(inner), inner, peer, CachedAddress(addr, now + 1800))
      ensures forall t :: addr in Found(inner, peer, t) <==> t < now + 1800
    {
      InsertWithTtl(peer, addr, DEFAULT_TTL, now);
    }

    method InsertWithTtl(peer: PeerId, addr: SocketAddr, ttl: nat, now: int)
      modifies this
      ensures inner == Apply(old(inner), Op.Insert(now, peer, addr, ttl))
      ensures HasInserted(old(inner), inner, peer, CachedAddress(addr, now + ttl))
      ensures forall t :: addr in Found(inner, peer, t) <==> t < now + ttl
    {
      InsertingInserts(inner, now, peer, addr, ttl);
      InsertedUntil(inner, now, peer, addr, ttl);
      var list := if peer in inner then inner[peer] else [];
      list := Without(list, addr);
      list := list + [CachedAddress(addr, now + ttl)];
      inner := inner[peer := list];
    }

    /** Each insertion reads the clock for itself. */
    method InsertMany(peer: PeerId, addrs: seq<SocketAddr>, clock: seq<int>)
      requires |clock| == |addrs|
      modifies this
      ensures inner == ApplyAll(old(inner), ManyInserts(peer, addrs, clock))
      ensures HasInsertedMany(old(inner), inner, peer, addrs, clock)
    {
      ghost var ops := ManyInserts(peer, addrs, clock);
      for i := 0 to |addrs|
        invariant inner == ApplyAll(old(inner), ops[..i])
        invariant HasInsertedMany(old(inner), inner, peer, addrs[..i], clock[..i])
      {
        ghost var before := inner;
        Insert(peer, addrs[i], clock[i]);
        PrefixGrows(ops, i);
        OneMoreInserted(old(inner), before, inner, peer, addrs, clock, i);
      }
      assert ops[..|addrs|] == ops && addrs[..|addrs|] == addrs && clock[..|addrs|] == clock;
    }

    method Lookup(peer: PeerId, now: int) returns (addrs: seq<SocketAddr>)
      ensures addrs == Found(inner, peer, now)
      ensures forall a :: a in addrs <==>
                peer in inner && exists e :: e in inner[peer] && e.addr == a && e.expiresAt > now
      ensures exists kept :: IsSelection(GetOr(inner, peer, []), kept, Unexpired(now)) && addrs == Addrs(kept)
    {
      LiveSelects(GetOr(inner, peer, []), now);
      LiveMembers(GetOr(inner, peer, []), now);
      if peer in inner {
        addrs := Addrs(Live(inner[peer], now));
      } else {
        addrs := [];
      }
    }

    method Remove(peer: PeerId, now: int)
      modifies this
      ensures inner == Apply(old(inner), Op.Remove(now, peer))
      ensures peer !in inner && forall p | p != peer :: GetOr(inner, p, []) == GetOr(old(inner), p, [])
    {
      inner := inner - {peer};
    }

    method Prune(now: int)
      modifies this
      ensures inner == Apply(old(inner), Op.Prune(now))
      ensures HasPruned(old(inner), inner, now)
    {
      var todo := inner.Keys;
      while todo != {}
        invariant todo <= inner.Keys <= old(inner).Keys
        invariant forall p | p in old(inner) ::
            if p in todo then inner[p] == old(inner)[p]
            else if Live(old(inner)[p], now) == [] then p !in inner
            else p in inner && inner[p] == Live(old(inner)[p], now)
        decreases |todo|
      {
        var p :| p in todo;
        var list := Live(inner[p], now);
        if list == [] {
          inner := inner - {p};
        } else {
          inner := inner[p := list];
        }
        todo := todo - {p};
      }
      assert inner == Apply(old(inner), Op.Prune(now));
      PruningPrunes(old(inner), now);
    }

    /** Every peer with a live address, in no particular order. */
    method AllPeers(now: int) returns (peers: map<PeerId, seq<SocketAddr>>)
      ensures peers == Listed(inner, now)
      ensures forall p :: p in peers <==> Found(inner, p, now) != []
      ensures forall p | p in peers :: peers[p] == Found(inner, p, now)
    {
      peers := map p | p in inner && Live(inner[p], now) != [] :: Addrs(Live(inner[p], now));
    }
  }

  /** `k` is the last place where its address stands. */
  ghost predicate LastAt(addrs: seq<SocketAddr>, k: nat) {
    k < |addrs| && addrs[k] !in addrs[k + 1..]
  }

  /** The entry of the last insertion of some address. */
  ghost predicate FromLast(e: CachedAddress, addrs: seq<SocketAddr>, clock: seq<int>)
    requires |clock| == |addrs|
  {
    exists k: nat {:trigger LastAt(addrs, k)} :: LastAt(addrs, k) && e == CachedAddress(addrs[k], clock[k] + 1800)
  }

  /** The entries of other addresses, and one for each of `addrs`, from its last insertion. */
  ghost predicate HoldsLatest(list: seq<CachedAddress>, list': seq<CachedAddress>, addrs: seq<SocketAddr>,
                              clock: seq<int>)
    requires |clock| == |addrs|
  {
    forall e :: e in list' <==> (e in list && e.addr !in addrs) || FromLast(e, addrs, clock)
  }

  lemma LastAtMore(addrs: seq<SocketAddr>, addr: SocketAddr, addrs': seq<SocketAddr>, k: nat)
    requires addrs' == addrs + [addr]
    ensures LastAt(addrs', k) <==> k == |addrs| || (LastAt(addrs, k) && addrs[k] != addr)
    ensures k < |addrs| ==> addrs'[k] == addrs[k]
  {
    if k < |addrs| {
      assert addrs'[k + 1..] == addrs[k + 1..] + [addr];
    }
  }

  lemma LastOfMore(addrs: seq<SocketAddr>, clock: seq<int>, addr: SocketAddr, now: int, e: CachedAddress)
    requires |clock| == |addrs|
    ensures FromLast(e, addrs + [addr], clock + [now])
            <==> e == CachedAddress(addr, now + 1800) || (FromLast(e, addrs, clock) && e.addr != addr)
  {
    var addrs', clock' := addrs + [addr], clock + [now];
    LastAtMore(addrs, addr, addrs', |addrs|);
    if k: nat :| LastAt(addrs', k) && e == CachedAddress(addrs'[k], clock'[k] + 1800) {
      LastAtMore(addrs, addr, addrs', k);
    }
    if k: nat :| LastAt(addrs, k) && e == CachedAddress(addrs[k], clock[k] + 1800) && e.addr != addr {
      LastAtMore(addrs, addr, addrs', k);
    }
  }

  lemma OneMoreLatest(list: seq<CachedAddress>, c: Inner, c': Inner, peer: PeerId, addrs: seq<SocketAddr>,
                      clock: seq<int>, addr: SocketAddr, now: int)
    requires |clock| == |addrs| && HoldsLatest(list, GetOr(c, peer, []), addrs, clock)
    requires HasInserted(c, c', peer, CachedAddress(addr, now + 1800))
    ensures HoldsLatest(list, c'[peer], addrs + [addr], clock + [now])
  {
    var before, after := GetOr(c, peer, []), c'[peer];
    var rest, last := after[..|after| - 1], after[|after| - 1];
    SelectionMembers(before, rest, OtherThan(addr));
    assert after == rest + [last];
    forall e
      ensures e in after <==> (e in list && e.addr !in addrs + [addr]) || FromLast(e, addrs + [addr], clock + [now])
    {
      LastOfMore(addrs, clock, addr, now, e);
    }
  }

  /** The peer's list holds the latest insertions, and no other peer is touched. */
  ghost predicate HasInsertedMany(c: Inner, c': Inner, peer: PeerId, addrs: seq<SocketAddr>, clock: seq<int>)
    requires |clock| == |addrs|
  {
    && HoldsLatest(GetOr(c, peer, []), GetOr(c', peer, []), addrs, clock)
    && forall p | p != peer :: (p in c' <==> p in c) && GetOr(c', p, []) == GetOr(c, p, [])
  }

  lemma OneMoreInserted(c0: Inner, c: Inner, c': Inner, peer: PeerId, addrs: seq<SocketAddr>, clock: seq<int>, i: nat)
    requires i < |addrs| == |clock| && HasInsertedMany(c0, c, peer, addrs[..i], clock[..i])
    requires HasInserted(c, c', peer, CachedAddress(addrs[i], clock[i] + 1800))
    ensures HasInsertedMany(c0, c', peer, addrs[..i + 1], clock[..i + 1])
  {
    OneMoreLatest(GetOr(c0, peer, []), c, c', peer, addrs[..i], clock[..i], addrs[i], clock[i]);
    assert addrs[..i + 1] == addrs[..i] + [addrs[i]] && clock[..i + 1] == clock[..i] + [clock[i]];
  }

  lemma PrefixGrows(ops: seq<Op>, i: nat)
    requires i < |ops|
    ensures ops[..i + 1][..i] == ops[..i] && ops[..i + 1][i] == ops[i]
  {
  }

  function ManyInserts(peer: PeerId, addrs: seq<SocketAddr>, clock: seq<int>): (r: seq<Op>)
    requires |clock| == |addrs|
  {
    seq(|addrs|, i requires 0 <= i < |addrs| => Insert(clock[i], peer, addrs[i], DEFAULT_TTL))
  }

  function ApplyAll(c: Inner, ops: seq<Op>): (r: Inner) {
    if ops == [] then c else Apply(ApplyAll(c, ops[..|ops| - 1]), ops[|ops| - 1])
  }

  /** An entry is live exactly when it has not expired. */
  lemma {:induction false} LiveMembers(list: seq<CachedAddress>, now: int)
    ensures forall e :: e in Live(list, now) <==> e in list && e.expiresAt > now
    ensures forall a :: a in Addrs(Live(list, now)) <==> exists e :: e in list && e.addr == a && e.expiresAt > now
    decreases |list|
  {
    if list != [] {
      LiveMembers(list[1..], now);
      assert list == [list[0]] + list[1..];
    }
    var live := Live(list, now);
    forall a ensures a in Addrs(live) <==> exists e :: e in live && e.addr == a {
      if e :| e in live && e.addr == a {
        var k :| 0 <= k < |live| && live[k] == e;
        assert Addrs(live)[k] == a;
      }
    }
  }

  // ----- The history the cache stands for

  /** A later call makes an insertion of `addr` irrelevant. */
  ghost predicate Overrides(op: Op, peer: PeerId, addr: SocketAddr) {
    (op.Insert? && op.peer == peer && op.addr == addr) || (op.Remove? && op.peer == peer)
  }

  ghost predicate Overridden(later: seq<Op>, peer: PeerId, addr: SocketAddr) {
    exists j | 0 <= j < |later| :: Overrides(later[j], peer, addr)
  }

  /** What `op` still contributes to `peer` after the later calls. */
  ghost function Survivor(op: Op, later: seq<Op>, peer: PeerId): (r: seq<CachedAddress>) {
    if op.Insert? && op.peer == peer && !Overridden(later, peer, op.addr)
    then [CachedAddress(op.addr, op.at + op.ttl)] else []
  }

  /** The insertions of `peer` that no later call overrides, oldest first. Prunes play no part. */
  ghost function Latest(ops: seq<Op>, peer: PeerId): (r: seq<CachedAddress>) {
    if ops == [] then [] else Survivor(ops[0], ops[1..], peer) + Latest(ops[1..], peer)
  }

  /** The clock does not go back: no call was made after `now`. */
  ghost predicate UpTo(ops: seq<Op>, now: int) {
    forall op | op in ops :: op.at <= now
  }

  lemma OverriddenAppend(later: seq<Op>, op: Op, peer: PeerId, addr: SocketAddr)
    ensures Overridden(later + [op], peer, addr) <==> Overridden(later, peer, addr) || Overrides(op, peer, addr)
  {
    var all := later + [op];
    assert all[|later|] == op;
    if j :| 0 <= j < |later| && Overrides(later[j], peer, addr) {
      assert all[j] == later[j];
    }
  }

  /** How a call changes a list of surviving insertions of `peer`. */
  ghost function Revised(list: seq<CachedAddress>, op: Op, peer: PeerId): (r: seq<CachedAddress>) {
    if op.Insert? && op.peer == peer then Without(list, op.addr)
    else if op.Remove? && op.peer == peer then [] else list
  }

  lemma SurvivorAppend(first: Op, later: seq<Op>, op: Op, peer: PeerId)
    ensures Survivor(first, later + [op], peer) == Revised(Survivor(first, later, peer), op, peer)
  {
    if first.Insert? && first.peer == peer {
      OverriddenAppend(later, op, peer, first.addr);
      var e := CachedAddress(first.addr, first.at + first.ttl);
      assert op.Insert? ==> Without([e], op.addr) == if e.addr != op.addr then [e] else [] by {
        assert [e][1..] == [];
      }
    }
  }

  lemma {:induction false} LatestAppend(ops: seq<Op>, op: Op, peer: PeerId)
    ensures Latest(ops + [op], peer) == Revised(Latest(ops, peer), op, peer) + Survivor(op, [], peer)
    decreases |ops|
  {
    var all := ops + [op];
    if ops == [] {
      assert all[1..] == [];
    } else {
      assert all[1..] == ops[1..] + [op];
      LatestAppend(ops[1..], op, peer);
      SurvivorAppend(ops[0], ops[1..], op, peer);
      if op.Insert? {
        WithoutConcat(Survivor(ops[0], ops[1..], peer), Latest(ops[1..], peer), op.addr);
      }
    }
  }

  lemma {:induction false} WithoutConcat(a: seq<CachedAddress>, b: seq<CachedAddress>, addr: SocketAddr)
    ensures Without(a + b, addr) == Without(a, addr) + Without(b, addr)
    decreases |a|
  {
    if a == [] {
      assert a + b == b;
    } else {
      assert (a + b)[1..] == a[1..] + b;
      WithoutConcat(a[1..], b, addr);
    }
  }

  lemma {:induction false} LiveConcat(a: seq<CachedAddress>, b: seq<CachedAddress>, now: int)
    ensures Live(a + b, now) == Live(a, now) + Live(b, now)
    decreases |a|
  {
    if a == [] {
      assert a + b == b;
    } else {
      assert (a + b)[1..] == a[1..] + b;
      LiveConcat(a[1..], b, now);
    }
  }

  /** Expiry and replacement commute. */
  lemma {:induction false} LiveWithout(list: seq<CachedAddress>, addr: SocketAddr, now: int)
    ensures Live(Without(list, addr), now) == Without(Live(list, now), addr)
    decreases |list|
  {
    if list != [] {
      LiveWithout(list[1..], addr, now);
      var keep := if list[0].addr != addr then [list[0]] else [];
      var live := if list[0].expiresAt > now then [list[0]] else [];
      LiveConcat(keep, Without(list[1..], addr), now);
      WithoutConcat(live, Live(list[1..], now), addr);
    }
  }

  /** What was already dropped at an earlier time would be dropped now as well. */
  lemma {:induction false} LiveTwice(list: seq<CachedAddress>, earlier: int, now: int)
    requires earlier <= now
    ensures Live(Live(list, earlier), now) == Live(list, now)
    decreases |list|
  {
    if list != [] {
      LiveTwice(list[1..], earlier, now);
      var live := if list[0].expiresAt > earlier then [list[0]] else [];
      LiveConcat(live, Live(list[1..], earlier), now);
    }
  }

  lemma InsertFollowsHistory(list: seq<CachedAddress>, l: seq<CachedAddress>, addr: SocketAddr, e: CachedAddress,
                             now: int)
    requires Live(list, now) == Live(l, now)
    ensures Live(Without(list, addr) + [e], now) == Live(Without(l, addr) + [e], now)
  {
    LiveConcat(Without(list, addr), [e], now);
    LiveConcat(Without(l, addr), [e], now);
    LiveWithout(list, addr, now);
    LiveWithout(l, addr, now);
  }

  /** One call changes the live part of the cache as it changes the history. */
  lemma CallFollowsHistory(c: Inner, l: seq<CachedAddress>, op: Op, peer: PeerId, now: int)
    requires Live(GetOr(c, peer, []), now) == Live(l, now) && op.at <= now
    ensures Live(GetOr(Apply(c, op), peer, []), now) == Live(Revised(l, op, peer) + Survivor(op, [], peer), now)
  {
    var list := GetOr(c, peer, []);
    if op.Insert? && op.peer == peer {
      InsertFollowsHistory(list, l, op.addr, CachedAddress(op.addr, op.at + op.ttl), now);
    } else {
      assert Revised(l, op, peer) + [] == Revised(l, op, peer);
      if op.Prune? {
        LiveTwice(list, op.at, now);
      }
    }
  }

  /** The live part of a cache is the live part of the history it stands for. */
  lemma {:induction false} CacheFollowsHistory(ops: seq<Op>, peer: PeerId, now: int)
    requires UpTo(ops, now)
    ensures Live(GetOr(ApplyAll(map[], ops), peer, []), now) == Live(Latest(ops, peer), now)
    decreases |ops|
  {
    if ops != [] {
      var before, op := ops[..|ops| - 1], ops[|ops| - 1];
      assert ops == before + [op];
      CacheFollowsHistory(before, peer, now);
      LatestAppend(before, op, peer);
      CallFollowsHistory(ApplyAll(map[], before), Latest(before, peer), op, peer, now);
    }
  }

  /** The history with its prunes left out. */
  ghost function Unpruned(ops: seq<Op>): (r: seq<Op>)
    ensures forall op | op in r :: op in ops
  {
    if ops == [] then []
    else Unpruned(ops[..|ops| - 1]) + if ops[|ops| - 1].Prune? then [] else [ops[|ops| - 1]]
  }

  lemma {:induction false} LatestIgnoresPrunes(ops: seq<Op>, peer: PeerId)
    ensures Latest(Unpruned(ops), peer) == Latest(ops, peer)
    decreases |ops|
  {
    if ops != [] {
      var before, op := ops[..|ops| - 1], ops[|ops| - 1];
      assert ops == before + [op];
      LatestIgnoresPrunes(before, peer);
      LatestAppend(before, op, peer);
      LatestAppend(Unpruned(before), op, peer);
      if op.Prune? {
        assert Latest(before, peer) + [] == Latest(before, peer) && Unpruned(before) + [] == Unpruned(before);
      }
    }
  }

  lemma LiveIgnoresPrunes(ops: seq<Op>, peer: PeerId, now: int)
    requires UpTo(ops, now)
    ensures Live(GetOr(ApplyAll(map[], ops), peer, []), now)
            == Live(GetOr(ApplyAll(map[], Unpruned(ops)), peer, []), now)
  {
    CacheFollowsHistory(ops, peer, now);
    CacheFollowsHistory(Unpruned(ops), peer, now);
    LatestIgnoresPrunes(ops, peer);
  }

  lemma SameLiveSameListing(c: Inner, c': Inner, now: int)
    requires forall p :: Live(GetOr(c, p, []), now) == Live(GetOr(c', p, []), now)
    ensures Listed(c, now) == Listed(c', now)
  {
    forall p ensures p in Listed(c, now) <==> p in Listed(c', now) {
      assert Live(GetOr(c, p, []), now) == Live(GetOr(c', p, []), now);
    }
    forall p | p in Listed(c, now) ensures Listed(c, now)[p] == Listed(c', now)[p] {
      assert Live(GetOr(c, p, []), now) == Live(GetOr(c', p, []), now);
    }
  }

  /**
   * Pruning cannot be observed: at any time after the last call, every lookup and the listing of all
   * peers are what they would be without it.
   */
  lemma PruningIsInvisible(ops: seq<Op>, now: int)
    requires UpTo(ops, now)
    ensures var c, c' := ApplyAll(map[], ops), ApplyAll(map[], Unpruned(ops));
            (forall peer :: Found(c, peer, now) == Found(c', peer, now)) && Listed(c, now) == Listed(c', now)
  {
    forall peer
      ensures Live(GetOr(ApplyAll(map[], ops), peer, []), now)
              == Live(GetOr(ApplyAll(map[], Unpruned(ops)), peer, []), now)
    {
      LiveIgnoresPrunes(ops, peer, now);
    }
    SameLiveSameListing(ApplyAll(map[], ops), ApplyAll(map[], Unpruned(ops)), now);
  }

  /** An insertion that is still in force at `now`. */
  ghost predicate InForce(ops: seq<Op>, i: nat, peer: PeerId, now: int) {
    && i < |ops| && ops[i].Insert? && ops[i].peer == peer
    && !Overridden(ops[i + 1..], peer, ops[i].addr)
    && ops[i].at + ops[i].ttl > now
  }

  /** The entry an insertion makes. */
  function EntryOf(op: Op): (e: CachedAddress)
    requires op.Insert?
  {
    CachedAddress(op.addr, op.at + op.ttl)
  }

  /** The positions of the insertions still in force, ascending. */
  ghost function Positions(ops: seq<Op>, peer: PeerId, now: int, from: nat): (r: seq<nat>)
    requires from <= |ops|
    decreases |ops| - from
  {
    if from == |ops| then []
    else (if InForce(ops, from, peer, now) then [from] else []) + Positions(ops, peer, now, from + 1)
  }

  lemma {:induction false} PositionsAreExact(ops: seq<Op>, peer: PeerId, now: int, from: nat)
    requires from <= |ops|
    ensures var ps := Positions(ops, peer, now, from);
            && (forall i :: i in ps <==> from <= i && InForce(ops, i, peer, now))
            && (forall a, b | 0 <= a < b < |ps| :: ps[a] < ps[b])
    decreases |ops| - from
  {
    if from < |ops| {
      PositionsAreExact(ops, peer, now, from + 1);
      var rest := Positions(ops, peer, now, from + 1);
      assert forall k | 0 <= k < |rest| :: rest[k] in rest;
    }
  }

  lemma {:induction false} LiveLatestArePositions(ops: seq<Op>, peer: PeerId, now: int, from: nat)
    requires from <= |ops|
    ensures var ps, live := Positions(ops, peer, now, from), Live(Latest(ops[from..], peer), now);
            && |live| == |ps|
            && forall k | 0 <= k < |ps| ::
                 ps[k] < |ops| && ops[ps[k]].Insert? && live[k] == EntryOf(ops[ps[k]])
    decreases |ops| - from
  {
    if from < |ops| {
      LiveLatestArePositions(ops, peer, now, from + 1);
      assert ops[from..][1..] == ops[from + 1..];
      var s := Survivor(ops[from], ops[from + 1..], peer);
      LiveConcat(s, Latest(ops[from + 1..], peer), now);
      if s != [] {
        assert s[1..] == [];
      }
    }
  }

  /**
   * A lookup lists exactly the addresses whose latest insertion is still in force, in the order of
   * those insertions and without duplicates.
   */
  lemma LookupIsLastInserted(ops: seq<Op>, peer: PeerId, now: int)
    requires UpTo(ops, now)
    ensures var found, ps := Found(ApplyAll(map[], ops), peer, now), Positions(ops, peer, now, 0);
            && |found| == |ps|
            && (forall k | 0 <= k < |ps| :: InForce(ops, ps[k], peer, now) && found[k] == ops[ps[k]].addr)
            && (forall i | InForce(ops, i, peer, now) :: i in ps)
            && (forall a, b | 0 <= a < b < |ps| :: ps[a] < ps[b])
            && NoRepeats(found)
  {
    CacheFollowsHistory(ops, peer, now);
    PositionsAreExact(ops, peer, now, 0);
    LiveLatestArePositions(ops, peer, now, 0);
    assert ops[0..] == ops;
    var found, ps := Found(ApplyAll(map[], ops), peer, now), Positions(ops, peer, now, 0);
    forall k | 0 <= k < |ps| ensures InForce(ops, ps[k], peer, now) && found[k] == ops[ps[k]].addr {
      assert ps[k] in ps;
    }
    forall a, b | 0 <= a < b < |ps| ensures found[a] != found[b] {
      assert ops[ps[a] + 1..][ps[b] - ps[a] - 1] == ops[ps[b]];
      assert found[a] == ops[ps[a]].addr && found[b] == ops[ps[b]].addr;
    }
  }

  /**
   * After any history and a prune, the cache holds exactly the insertions in force, oldest first, and
   * only peers that have one: nothing that expired, was replaced or was removed stays behind.
   */
  lemma PruneLeavesWhatIsInForce(ops: seq<Op>, now: int, peer: PeerId)
    requires UpTo(ops, now)
    ensures var c, ps := Apply(ApplyAll(map[], ops), Prune(now)), Positions(ops, peer, now, 0);
            && (peer in c <==> exists i :: InForce(ops, i, peer, now))
            && |GetOr(c, peer, [])| == |ps|
            && (forall k | 0 <= k < |ps| :: InForce(ops, ps[k], peer, now) && c[peer][k] == EntryOf(ops[ps[k]]))
            && (forall i | InForce(ops, i, peer, now) :: i in ps)
            && (forall a, b | 0 <= a < b < |ps| :: ps[a] < ps[b])
  {
    CacheFollowsHistory(ops, peer, now);
    PositionsAreExact(ops, peer, now, 0);
    LiveLatestArePositions(ops, peer, now, 0);
    assert ops[0..] == ops;
    var ps := Positions(ops, peer, now, 0);
    forall k | 0 <= k < |ps| ensures InForce(ops, ps[k], peer, now) {
      assert ps[k] in ps;
    }
    if ps != [] {
      assert InForce(ops, ps[0], peer, now);
    }
  }
}
