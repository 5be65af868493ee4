/** Weighted directed graphs, the walks in them, and what it means to be a shortest one. */
module Walks {
  import opened MeshTypes

  /** source -> (destination -> cost of the link) */
  type Weights = map<PeerId, map<PeerId, real>>

  predicate Edge(w: Weights, u: PeerId, v: PeerId) {
    u in w && v in w[u]
  }

  ghost predicate NonNegative(w: Weights) {
    forall u, v | Edge(w, u, v) :: w[u][v] >= 0.0
  }

  ghost predicate Positive(w: Weights) {
    forall u, v | Edge(w, u, v) :: w[u][v] > 0.0
  }

  /** A nonempty sequence of nodes, each linked to the next. */
  ghost predicate IsWalk(w: Weights, p: seq<PeerId>) {
    p != [] && (|p| > 1 ==> IsWalk(w, p[..|p| - 1]) && Edge(w, p[|p| - 2], p[|p| - 1]))
  }

  ghost predicate WalkBetween(w: Weights, p: seq<PeerId>, s: PeerId, t: PeerId) {
    IsWalk(w, p) && p[0] == s && p[|p| - 1] == t
  }

  ghost predicate CanReach(w: Weights, s: PeerId, t: PeerId) {
    exists p :: WalkBetween(w, p, s, t)
  }

  ghost function WalkCost(w: Weights, p: seq<PeerId>): (r: real)
    requires IsWalk(w, p)
  {
    if |p| == 1 then 0.0
    else WalkCost(w, p[..|p| - 1]) + w[p[|p| - 2]][p[|p| - 1]]
  }

  /** No walk from `s` to `t` is cheaper than `p`. */
  ghost predicate IsShortest(w: Weights, p: seq<PeerId>, s: PeerId, t: PeerId) {
    && WalkBetween(w, p, s, t)
    && forall q | WalkBetween(w, q, s, t) :: WalkCost(w, p) <= WalkCost(w, q)
  }

  /** Every node that is the source or the destination of a link. */
  ghost function Nodes(w: Weights): (r: set<PeerId>) {
    w.Keys + (set u, v | u in w && v in w[u] :: v)
  }

  lemma {:induction false} PrependCost(w: Weights, u: PeerId, p: seq<PeerId>)
    requires IsWalk(w, p) && Edge(w, u, p[0])
    ensures IsWalk(w, [u] + p)
    ensures WalkCost(w, [u] + p) == w[u][p[0]] + WalkCost(w, p)
    decreases |p|
  {
    var q := [u] + p;
    if |p| == 1 {
      assert q[..1] == [u];
    } else {
      PrependCost(w, u, p[..|p| - 1]);
      assert q[..|q| - 1] == [u] + p[..|p| - 1];
    }
  }

  /** Splitting a walk at its first link. */
  lemma {:induction false} FirstLinkCost(w: Weights, p: seq<PeerId>)
    requires IsWalk(w, p) && |p| > 1
    ensures Edge(w, p[0], p[1]) && IsWalk(w, p[1..])
    ensures WalkCost(w, p) == w[p[0]][p[1]] + WalkCost(w, p[1..])
    decreases |p|
  {
    if |p| == 2 {
      assert p[..1] == [p[0]] && p[1..] == [p[1]];
    } else {
      var p' := p[..|p| - 1];
      FirstLinkCost(w, p');
      assert p[1..][..|p| - 2] == p'[1..];
    }
  }

  lemma {:induction false} WalkCostNonNegative(w: Weights, p: seq<PeerId>)
    requires NonNegative(w) && IsWalk(w, p)
    ensures WalkCost(w, p) >= 0.0
    decreases |p|
  {
    if |p| > 1 {
      WalkCostNonNegative(w, p[..|p| - 1]);
    }
  }

  /** Consecutive nodes are linked. */
  ghost predicate Linked(w: Weights, p: seq<PeerId>) {
    forall i, j {:trigger p[i], p[j]} | 0 <= i < |p| && j == i + 1 < |p| :: Edge(w, p[i], p[j])
  }

  /** A walk is exactly a nonempty sequence whose consecutive nodes are linked. */
  lemma {:induction false} WalkLinks(w: Weights, p: seq<PeerId>)
    ensures IsWalk(w, p) <==> p != [] && Linked(w, p)
    decreases |p|
  {
    if |p| > 1 {
      WalkLinks(w, p[..|p| - 1]);
      LastLink(w, p);
    }
  }

  lemma LastLink(w: Weights, p: seq<PeerId>)
    requires |p| > 1
    ensures Linked(w, p) <==> Linked(w, p[..|p| - 1]) && Edge(w, p[|p| - 2], p[|p| - 1])
  {
    var p' := p[..|p| - 1];
    if Linked(w, p) {
      forall i, j {:trigger p'[i], p'[j]} | 0 <= i < |p'| && j == i + 1 < |p'| ensures Edge(w, p'[i], p'[j]) {
        assert p'[i] == p[i] && p'[j] == p[j];
      }
    }
    if Linked(w, p') && Edge(w, p[|p| - 2], p[|p| - 1]) {
      forall i, j {:trigger p[i], p[j]} | 0 <= i < |p| && j == i + 1 < |p| ensures Edge(w, p[i], p[j]) {
        if j < |p'| {
          assert p'[i] == p[i] && p'[j] == p[j];
        }
      }
    }
  }

  /** Walks that meet at a node can be joined, and their costs add up. */
  lemma {:induction false} JoinCost(w: Weights, a: seq<PeerId>, b: seq<PeerId>)
    requires IsWalk(w, a) && IsWalk(w, b) && a[|a| - 1] == b[0]
    ensures IsWalk(w, a + b[1..]) && WalkCost(w, a + b[1..]) == WalkCost(w, a) + WalkCost(w, b)
    ensures (a + b[1..])[|a + b[1..]| - 1] == b[|b| - 1]
    decreases |b|
  {
    if |b| == 1 {
      assert a + b[1..] == a;
    } else {
      var b' := b[..|b| - 1];
      JoinCost(w, a, b');
      assert (a + b[1..])[..|a + b[1..]| - 1] == a + b'[1..];
    }
  }

  /** A walk can be cut at any of its nodes. */
  lemma {:induction false} CutCost(w: Weights, p: seq<PeerId>, i: nat)
    requires IsWalk(w, p) && i < |p|
    ensures IsWalk(w, p[..i + 1]) && IsWalk(w, p[i..])
    ensures WalkCost(w, p) == WalkCost(w, p[..i + 1]) + WalkCost(w, p[i..])
    decreases |p|
  {
    if i == |p| - 1 {
      assert p[..i + 1] == p && p[i..] == [p[i]];
    } else {
      var p' := p[..|p| - 1];
      CutCost(w, p', i);
      assert p'[..i + 1] == p[..i + 1];
      assert p[i..][..|p| - i - 1] == p'[i..];
    }
  }

  /** Cutting and joining with the shared node written once. */
  lemma SplitAt(w: Weights, head: seq<PeerId>, a: seq<PeerId>)
    requires a != [] && IsWalk(w, head + a)
    ensures IsWalk(w, head + [a[0]]) && IsWalk(w, a)
    ensures WalkCost(w, head + a) == WalkCost(w, head + [a[0]]) + WalkCost(w, a)
  {
    CutCost(w, head + a, |head|);
    assert (head + a)[..|head| + 1] == head + [a[0]] && (head + a)[|head|..] == a;
  }

  lemma GlueAt(w: Weights, head: seq<PeerId>, b: seq<PeerId>)
    requires IsWalk(w, b) && IsWalk(w, head + [b[0]])
    ensures IsWalk(w, head + b)
    ensures WalkCost(w, head + b) == WalkCost(w, head + [b[0]]) + WalkCost(w, b)
  {
    JoinCost(w, head + [b[0]], b);
    assert head + [b[0]] + b[1..] == head + b;
  }

  lemma {:induction false} PositiveWalkCost(w: Weights, p: seq<PeerId>)
    requires Positive(w) && IsWalk(w, p) && |p| > 1
    ensures WalkCost(w, p) > 0.0
    decreases |p|
  {
    assert w[p[|p| - 2]][p[|p| - 1]] > 0.0;
    if |p| > 2 {
      PositiveWalkCost(w, p[..|p| - 1]);
    }
  }

  /** A walk that meets a node twice falls into a shorter walk and the cycle cut out of it. */
  lemma CutCycle(w: Weights, p: seq<PeerId>, i: nat, j: nat) returns (q: seq<PeerId>)
    requires IsWalk(w, p) && i < j < |p| && p[i] == p[j]
    ensures WalkBetween(w, q, p[0], p[|p| - 1]) && |q| < |p|
    ensures WalkBetween(w, p[i..j + 1], p[i], p[i]) && IsWalk(w, p[..i + 1])
    ensures WalkCost(w, p) == WalkCost(w, q) + WalkCost(w, p[i..j + 1])
  {
    CutCost(w, p, j);
    CutCost(w, p[..j + 1], i);
    var head, tail := p[..i + 1], p[j..];
    assert p[..j + 1][..i + 1] == head && p[..j + 1][i..] == p[i..j + 1];
    JoinCost(w, head, tail);
    q := head + tail[1..];
  }

  /** With positive costs a shortest walk visits no node twice. */
  lemma ShortestHasNoRepeats(w: Weights, p: seq<PeerId>, s: PeerId, t: PeerId)
    requires Positive(w) && IsShortest(w, p, s, t)
    ensures NoRepeats(p)
  {
    forall i, j | 0 <= i < j < |p| ensures p[i] != p[j] {
      if p[i] == p[j] {
        var q := CutCycle(w, p, i, j);
        PositiveWalkCost(w, p[i..j + 1]);
      }
    }
  }

  /** Every tail of a shortest walk is itself shortest. */
  lemma ShortestTail(w: Weights, p: seq<PeerId>, s: PeerId, t: PeerId)
    requires IsShortest(w, p, s, t) && |p| > 1
    ensures Edge(w, s, p[1]) && IsShortest(w, p[1..], p[1], t)
  {
    FirstLinkCost(w, p);
    forall q | WalkBetween(w, q, p[1], t) ensures WalkCost(w, p[1..]) <= WalkCost(w, q) {
      PrependCost(w, s, q);
      assert WalkBetween(w, [s] + q, s, t);
    }
  }

  // ----- Cycles, and walks without them

  ghost predicate IsCycle(w: Weights, c: seq<PeerId>) {
    IsWalk(w, c) && c[0] == c[|c| - 1]
  }

  /** No cycle that can be reached from `s` has a negative cost. */
  ghost predicate NoNegativeCycle(w: Weights, s: PeerId) {
    forall c | IsCycle(w, c) && CanReach(w, s, c[0]) :: WalkCost(w, c) >= 0.0
  }

  lemma NonNegativeHasNoNegativeCycle(w: Weights, s: PeerId)
    requires NonNegative(w)
    ensures NoNegativeCycle(w, s)
  {
    forall c | IsCycle(w, c) ensures WalkCost(w, c) >= 0.0 {
      WalkCostNonNegative(w, c);
    }
  }

  // ----- Peaks

  /** A cost that does not exceed the limit; without one every cost is within it. */
  predicate Within(cost: real, limit: Option<real>) {
    limit.Some? ==> cost <= limit.value
  }

  /** No beginning of the walk exceeds the limit. */
  ghost predicate PeakWithin(w: Weights, p: seq<PeerId>, limit: Option<real>) {
    IsWalk(w, p) && (|p| > 1 ==> PeakWithin(w, p[..|p| - 1], limit)) && Within(WalkCost(w, p), limit)
  }

  /** With non-negative costs a walk is never dearer than at its end. */
  lemma {:induction false} NonNegativePeak(w: Weights, p: seq<PeerId>, limit: Option<real>)
    requires NonNegative(w) && IsWalk(w, p) && Within(WalkCost(w, p), limit)
    ensures PeakWithin(w, p, limit)
    decreases |p|
  {
    if |p| > 1 {
      NonNegativePeak(w, p[..|p| - 1], limit);
    }
  }

  lemma {:induction false} PeakOfPrefix(w: Weights, p: seq<PeerId>, limit: Option<real>, i: nat)
    requires PeakWithin(w, p, limit) && i < |p|
    ensures PeakWithin(w, p[..i + 1], limit)
    decreases |p|
  {
    if i == |p| - 1 {
      assert p[..i + 1] == p;
    } else {
      PeakOfPrefix(w, p[..|p| - 1], limit, i);
      assert p[..|p| - 1][..i + 1] == p[..i + 1];
    }
  }

  lemma ExtendPeak(w: Weights, p: seq<PeerId>, limit: Option<real>, v: PeerId)
    requires PeakWithin(w, p, limit) && Edge(w, p[|p| - 1], v)
    requires Within(WalkCost(w, p) + w[p[|p| - 1]][v], limit)
    ensures PeakWithin(w, p + [v], limit) && WalkCost(w, p + [v]) == WalkCost(w, p) + w[p[|p| - 1]][v]
  {
    assert (p + [v])[..|p|] == p;
  }

  /** The walk ends by going round a cycle of negative cost, which it entered at `i`. */
  ghost predicate NegativeRound(w: Weights, q: seq<PeerId>, i: nat) {
    i < |q| - 1 && q[i] == q[|q| - 1] && IsWalk(w, q[i..]) && WalkCost(w, q[i..]) < 0.0
  }

  /** No negative cycle can be reached and gone round within the limit. */
  ghost predicate Calm(w: Weights, s: PeerId, limit: Option<real>) {
    forall q, i | PeakWithin(w, q, limit) && q[0] == s :: !NegativeRound(w, q, i)
  }

  lemma {:induction false} EveryPeakIsWithinNone(w: Weights, p: seq<PeerId>)
    requires IsWalk(w, p)
    ensures PeakWithin(w, p, None)
    decreases |p|
  {
    if |p| > 1 {
      EveryPeakIsWithinNone(w, p[..|p| - 1]);
    }
  }

  /** Without a limit, calm is the absence of negative cycles. */
  lemma CalmIff(w: Weights, s: PeerId)
    ensures Calm(w, s, None) <==> NoNegativeCycle(w, s)
  {
    if NoNegativeCycle(w, s) {
      forall q, i | PeakWithin(w, q, None) && q[0] == s && NegativeRound(w, q, i) ensures false {
        PrefixReaches(w, q, i);
        assert IsCycle(w, q[i..]);
      }
    } else {
      var c :| IsCycle(w, c) && CanReach(w, s, c[0]) && WalkCost(w, c) < 0.0;
      var p :| WalkBetween(w, p, s, c[0]);
      var q := p + c[1..];
      JoinCost(w, p, c);
      EveryPeakIsWithinNone(w, q);
      assert q[|p| - 1..] == c;
      assert NegativeRound(w, q, |p| - 1);
    }
  }

  lemma PrefixReaches(w: Weights, p: seq<PeerId>, i: nat)
    requires IsWalk(w, p) && i < |p|
    ensures CanReach(w, p[0], p[i])
  {
    CutCost(w, p, i);
    assert WalkBetween(w, p[..i + 1], p[0], p[i]);
  }

  /** Cutting out cycles never makes a walk dearer. */
  lemma {:induction false} Simplify(w: Weights, p: seq<PeerId>) returns (q: seq<PeerId>)
    requires IsWalk(w, p) && NoNegativeCycle(w, p[0])
    ensures WalkBetween(w, q, p[0], p[|p| - 1]) && NoRepeats(q) && WalkCost(w, q) <= WalkCost(w, p)
    decreases |p|
  {
    if NoRepeats(p) {
      return p;
    }
    var i, j :| 0 <= i < j < |p| && p[i] == p[j];
    q := CutCycle(w, p, i, j);
    PrefixReaches(w, p, i);
    assert IsCycle(w, p[i..j + 1]);
    q := Simplify(w, q);
  }

  /** All sequences over `nodes` of at most `n` elements. */
  ghost function Sequences(nodes: set<PeerId>, n: nat): (ps: set<seq<PeerId>>) {
    if n == 0 then {[]}
    else Sequences(nodes, n - 1) + (set p, x | p in Sequences(nodes, n - 1) && x in nodes :: p + [x])
  }

  lemma {:induction false} InSequences(nodes: set<PeerId>, n: nat, p: seq<PeerId>)
    requires |p| <= n && forall x | x in p :: x in nodes
    ensures p in Sequences(nodes, n)
    decreases n
  {
    if n > 0 {
      if p == [] {
        InSequences(nodes, n - 1, p);
      } else {
        var p' := p[..|p| - 1];
        InSequences(nodes, n - 1, p');
        assert p == p' + [p[|p| - 1]];
      }
    }
  }

  lemma {:induction false} NoRepeatsFits(p: seq<PeerId>, nodes: set<PeerId>)
    requires NoRepeats(p) && forall x | x in p :: x in nodes
    ensures |p| <= |nodes|
    decreases |p|
  {
    if p != [] {
      var x := p[|p| - 1];
      NoRepeatsFits(p[..|p| - 1], nodes - {x});
    }
  }

  lemma {:induction false} WalkStaysInNodes(w: Weights, p: seq<PeerId>)
    requires IsWalk(w, p)
    ensures forall x | x in p :: x == p[0] || x in Nodes(w)
    decreases |p|
  {
    if |p| > 1 {
      WalkStaysInNodes(w, p[..|p| - 1]);
      assert p[|p| - 1] in Nodes(w);
      assert p == p[..|p| - 1] + [p[|p| - 1]];
    }
  }

  /** The walks from `s` without repeated nodes; there are finitely many. */
  ghost function SimpleWalks(w: Weights, s: PeerId): (ps: set<seq<PeerId>>) {
    var nodes := Nodes(w) + {s};
    set p | p in Sequences(nodes, |nodes|) && IsWalk(w, p) && p[0] == s && NoRepeats(p)
  }

  lemma InSimpleWalks(w: Weights, s: PeerId, p: seq<PeerId>)
    requires IsWalk(w, p) && p[0] == s && NoRepeats(p)
    ensures p in SimpleWalks(w, s)
  {
    var nodes := Nodes(w) + {s};
    WalkStaysInNodes(w, p);
    NoRepeatsFits(p, nodes);
    InSequences(nodes, |nodes|, p);
  }

  lemma {:induction false} CheapestOf(w: Weights, ps: set<seq<PeerId>>) returns (best: seq<PeerId>)
    requires ps != {} && forall p | p in ps :: IsWalk(w, p)
    ensures best in ps && forall p | p in ps :: WalkCost(w, best) <= WalkCost(w, p)
    decreases |ps|
  {
    var first :| first in ps;
    var rest := ps - {first};
    assert forall p | p in ps :: p == first || p in rest;
    best := first;
    if rest != {} {
      var other := CheapestOf(w, rest);
      if WalkCost(w, other) < WalkCost(w, first) {
        best := other;
      }
    }
  }

  ghost function SimpleWalksTo(w: Weights, s: PeerId, t: PeerId): (ps: set<seq<PeerId>>)
    ensures forall p | p in ps :: WalkBetween(w, p, s, t) && NoRepeats(p)
  {
    set p | p in SimpleWalks(w, s) && p[|p| - 1] == t
  }

  /** Every walk is matched by one without repeated nodes that is no dearer. */
  lemma SimpleWalksSuffice(w: Weights, s: PeerId, t: PeerId, q: seq<PeerId>) returns (p: seq<PeerId>)
    requires WalkBetween(w, q, s, t) && NoNegativeCycle(w, s)
    ensures p in SimpleWalksTo(w, s, t) && WalkCost(w, p) <= WalkCost(w, q)
  {
    p := Simplify(w, q);
    InSimpleWalks(w, s, p);
  }

  /** Where no cycle is negative, every node that can be reached has a shortest walk to it. */
  lemma ShortestExists(w: Weights, s: PeerId, t: PeerId) returns (p: seq<PeerId>)
    requires CanReach(w, s, t) && NoNegativeCycle(w, s)
    ensures IsShortest(w, p, s, t) && NoRepeats(p)
  {
    var some :| WalkBetween(w, some, s, t);
    var simple := SimpleWalksSuffice(w, s, t, some);
    p := CheapestOf(w, SimpleWalksTo(w, s, t));
    forall q | WalkBetween(w, q, s, t) ensures WalkCost(w, p) <= WalkCost(w, q) {
      var q' := SimpleWalksSuffice(w, s, t, q);
    }
  }

  // ----- Comparing walks in different graphs

  /** `p` uses only links that the second graph has too, at the same costs. */
  ghost predicate SharedLinks(w: Weights, w': Weights, p: seq<PeerId>) {
    forall i, j {:trigger p[i], p[j]} | 0 <= i < |p| && j == i + 1 < |p| ::
      Edge(w, p[i], p[j]) && Edge(w', p[i], p[j]) && w[p[i]][p[j]] == w'[p[i]][p[j]]
  }

  lemma {:induction false} SharedWalk(w: Weights, w': Weights, p: seq<PeerId>)
    requires p != [] && SharedLinks(w, w', p)
    ensures IsWalk(w, p) && IsWalk(w', p) && WalkCost(w, p) == WalkCost(w', p)
    decreases |p|
  {
    if |p| > 1 {
      var p' := p[..|p| - 1];
      assert SharedLinks(w, w', p') by {
        forall i, j {:trigger p'[i], p'[j]} | 0 <= i < |p'| && j == i + 1 < |p'|
          ensures Edge(w, p'[i], p'[j]) && Edge(w', p'[i], p'[j]) && w[p'[i]][p'[j]] == w'[p'[i]][p'[j]]
        {
          assert p'[i] == p[i] && p'[j] == p[j];
        }
      }
      SharedWalk(w, w', p');
    }
  }

  /** A potential that no link overtakes bounds the cost of every walk from below. */
  lemma {:induction false} PotentialBound(w: Weights, h: PeerId -> real, p: seq<PeerId>)
    requires IsWalk(w, p) && forall u, v | Edge(w, u, v) :: h(v) <= h(u) + w[u][v]
    ensures h(p[|p| - 1]) - h(p[0]) <= WalkCost(w, p)
    decreases |p|
  {
    if |p| > 1 {
      PotentialBound(w, h, p[..|p| - 1]);
      assert Edge(w, p[|p| - 2], p[|p| - 1]);
    }
  }
}
