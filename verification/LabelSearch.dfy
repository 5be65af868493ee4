/**
 * The walks behind the distances of the path search, its predecessors, and why it ends. Costs may be
 * negative; what is asked is that nothing is popped above a limit within which no negative cycle can
 * be gone round.
 */
module LabelSearch {
  import opened MeshTypes
  import opened Walks
  import opened SearchQueue

  // ----- While all expansions are within a calm limit, every distance is the cost of a walk without repeats

  ghost predicate PrefixOk(w: Weights, s: Search, p: seq<PeerId>, i: nat) {
    i < |p| && IsWalk(w, p[..i + 1]) && p[i] in s.dist && s.dist[p[i]] <= WalkCost(w, p[..i + 1])
  }

  /** `p` is the walk behind the distance of `v`; no distance along it exceeds its own costs. */
  ghost predicate IsLabel(w: Weights, start: PeerId, limit: Option<real>, s: Search, v: PeerId, p: seq<PeerId>) {
    && WalkBetween(w, p, start, v) && NoRepeats(p)
    && v in s.dist && WalkCost(w, p) == s.dist[v] && (|p| > 1 ==> PeakWithin(w, p[..|p| - 1], limit))
    && forall i: nat {:trigger PrefixOk(w, s, p, i)} | i < |p| :: PrefixOk(w, s, p, i)
  }

  ghost predicate LabelsOk(w: Weights, start: PeerId, limit: Option<real>, s: Search, labels: map<PeerId,
                           seq<PeerId>>) {
    && start in s.dist && s.dist[start] == 0.0
    && forall v {:trigger v in s.dist} | v in s.dist :: v in labels && IsLabel(w, start, limit, s, v, labels[v])
  }

  lemma BeginLabels(w: Weights, start: PeerId, limit: Option<real>)
    ensures LabelsOk(w, start, limit, Begin(start), map[start := [start]])
  {
    var p := [start];
    assert p[..1] == p;
    assert PrefixOk(w, Begin(start), p, 0);
  }

  /** What holds when a link from a labelled node is found to be an improvement. */
  ghost predicate Improves(w: Weights, s: Search, s': Search, node: PeerId, v: PeerId) {
    && Edge(w, node, v) && node in s.dist
    && (v in s.dist ==> s.dist[node] + w[node][v] < s.dist[v])
    && s' == Improved(s, node, v, s.dist[node] + w[node][v])
  }

  lemma LabelIsWithin(w: Weights, start: PeerId, limit: Option<real>, s: Search, v: PeerId, p: seq<PeerId>)
    requires IsLabel(w, start, limit, s, v, p) && Within(s.dist[v], limit)
    ensures PeakWithin(w, p, limit)
  {
  }

  /** A walk within the limit whose next link closes a cycle, and does so at a gain: the cycle is negative. */
  lemma ReturnMakesRound(w: Weights, p: seq<PeerId>, limit: Option<real>, i: nat, v: PeerId)
    requires PeakWithin(w, p, limit) && i < |p| && p[i] == v && Edge(w, p[|p| - 1], v) && IsWalk(w, p[..i + 1])
    requires WalkCost(w, p) + w[p[|p| - 1]][v] < WalkCost(w, p[..i + 1])
    ensures PeakWithin(w, p + [v], limit) && NegativeRound(w, p + [v], i)
  {
    var q := p + [v];
    PeakOfPrefix(w, p, limit, i);
    ExtendPeak(w, p, limit, v);
    CutCost(w, q, i);
    assert q[..i + 1] == p[..i + 1];
  }

  /** An improvement never returns to a node of the walk it extends: that would go round a negative cycle. */
  lemma ImprovementIsNew(w: Weights, start: PeerId, limit: Option<real>, s: Search, s': Search, node: PeerId,
                         v: PeerId, p: seq<PeerId>)
    requires Calm(w, start, limit) && IsLabel(w, start, limit, s, node, p) && Within(s.dist[node], limit)
    requires Improves(w, s, s', node, v)
    ensures v !in p
  {
    LabelIsWithin(w, start, limit, s, node, p);
    forall i: nat | i < |p| ensures p[i] != v {
      assert PrefixOk(w, s, p, i);
      if p[i] == v {
        ReturnMakesRound(w, p, limit, i, v);
      }
    }
  }

  lemma LabelSurvives(w: Weights, start: PeerId, limit: Option<real>, s: Search, s': Search, v: PeerId, x: PeerId,
                      p: seq<PeerId>)
    requires IsLabel(w, start, limit, s, x, p) && x != v && v in s'.dist && s'.dist == s.dist[v := s'.dist[v]]
    requires v in s.dist ==> s'.dist[v] <= s.dist[v]
    ensures IsLabel(w, start, limit, s', x, p)
  {
    forall i: nat | i < |p| ensures PrefixOk(w, s', p, i) {
      assert PrefixOk(w, s, p, i);
    }
  }

  lemma NewLabel(w: Weights, start: PeerId, limit: Option<real>, s: Search, s': Search, node: PeerId, v: PeerId,
                 p: seq<PeerId>)
    requires Calm(w, start, limit) && IsLabel(w, start, limit, s, node, p) && Improves(w, s, s', node, v)
    requires Within(s.dist[node], limit)
    ensures IsLabel(w, start, limit, s', v, p + [v])
  {
    ImprovementIsNew(w, start, limit, s, s', node, v, p);
    LabelIsWithin(w, start, limit, s, node, p);
    var q := p + [v];
    assert q[..|p|] == p;
    forall i: nat | i < |q| ensures PrefixOk(w, s', q, i) {
      if i < |p| {
        assert PrefixOk(w, s, p, i);
        assert q[..i + 1] == p[..i + 1] && p[i] != v;
      } else {
        assert q[..i + 1] == q;
      }
    }
  }

  lemma ImprovementKeepsLabels(w: Weights, start: PeerId, limit: Option<real>, s: Search, s': Search, node: PeerId,
                               v: PeerId,
                               labels: map<PeerId, seq<PeerId>>)
    requires Calm(w, start, limit) && LabelsOk(w, start, limit, s, labels) && Improves(w, s, s', node, v)
    requires Within(s.dist[node], limit)
    ensures v != start && v != node
    ensures LabelsOk(w, start, limit, s', labels[v := labels[node] + [v]])
  {
    var p, labels' := labels[node], labels[v := labels[node] + [v]];
    ImprovementIsNew(w, start, limit, s, s', node, v, p);
    assert p[0] in p && p[|p| - 1] in p;
    NewLabel(w, start, limit, s, s', node, v, p);
    forall x | x in s'.dist ensures x in labels' && IsLabel(w, start, limit, s', x, labels'[x]) {
      if x != v {
        LabelSurvives(w, start, limit, s, s', v, x, labels[x]);
      }
    }
  }

  // ----- Why it ends

  ghost predicate WouldImprove(w: Weights, s: Search, p: seq<PeerId>) {
    IsWalk(w, p) && (p[|p| - 1] !in s.dist || WalkCost(w, p) < s.dist[p[|p| - 1]])
  }

  /** The walks without repeats that still beat a recorded distance. */
  ghost function Improvable(w: Weights, start: PeerId, s: Search): (ps: set<seq<PeerId>>) {
    set p | p in SimpleWalks(w, start) && WouldImprove(w, s, p)
  }

  /** Every improvement uses up one of finitely many walks. */
  lemma ImprovementShrinks(w: Weights, start: PeerId, limit: Option<real>, s: Search, s': Search, node: PeerId,
                           v: PeerId, p: seq<PeerId>)
    requires Calm(w, start, limit) && IsLabel(w, start, limit, s, node, p) && Improves(w, s, s', node, v)
    requires Within(s.dist[node], limit)
    ensures Improvable(w, start, s') < Improvable(w, start, s)
  {
    NewLabel(w, start, limit, s, s', node, v, p);
    InSimpleWalks(w, start, p + [v]);
    assert p + [v] in Improvable(w, start, s) && p + [v] !in Improvable(w, start, s');
    forall q | q in Improvable(w, start, s') ensures q in Improvable(w, start, s) {
    }
  }

  // ----- The predecessor map is a tree

  /** `v` is the `n`-th predecessor of `u`. */
  ghost predicate Above(pred: map<PeerId, PeerId>, v: PeerId, u: PeerId, n: nat)
    decreases n
  {
    if n == 0 then u == v else u in pred && Above(pred, v, pred[u], n - 1)
  }

  ghost predicate Rooted(pred: map<PeerId, PeerId>, start: PeerId, u: PeerId) {
    exists n: nat :: Above(pred, start, u, n)
  }

  /** The predecessor offers at least the recorded distance; it may have got better since. */
  ghost predicate ParentOk(w: Weights, limit: Option<real>, s: Search, v: PeerId) {
    && v in s.pred && v in s.dist
    && var u := s.pred[v];
    && u in s.dist && Edge(w, u, v) && s.dist[u] + w[u][v] <= s.dist[v] && Within(s.dist[u], limit)
  }

  ghost predicate TreeOk(w: Weights, start: PeerId, limit: Option<real>, s: Search) {
    && start !in s.pred && start in s.dist && s.dist[start] == 0.0
    && (forall v {:trigger ParentOk(w, limit, s, v)} :: v in s.pred ==> ParentOk(w, limit, s, v))
    && (forall v {:trigger Rooted(s.pred, start, v)} | v in s.dist :: Rooted(s.pred, start, v))
  }

  lemma BeginTree(w: Weights, start: PeerId, limit: Option<real>)
    ensures TreeOk(w, start, limit, Begin(start))
  {
    assert Above(Begin(start).pred, start, start, 0);
  }

  /** The chain of predecessors from `u` up to the start is a walk within the limit, no dearer than the distances. */
  lemma {:induction false} ChainWalk(w: Weights, start: PeerId, limit: Option<real>, s: Search, u: PeerId, n: nat)
    returns (p: seq<PeerId>)
    requires TreeOk(w, start, limit, s) && u in s.dist
    requires Within(s.dist[u], limit) && Above(s.pred, start, u, n)
    ensures PeakWithin(w, p, limit) && WalkBetween(w, p, start, u) && |p| == n + 1 && WalkCost(w, p) <= s.dist[u]
    ensures forall i: nat {:trigger ChainAt(w, s, p, u, i)} | i < |p| :: ChainAt(w, s, p, u, i)
    decreases n
  {
    if n == 0 {
      p := [u];
      assert ChainAt(w, s, p, u, 0);
    } else {
      assert ParentOk(w, limit, s, u);
      var q := ChainWalk(w, start, limit, s, s.pred[u], n - 1);
      p := q + [u];
      ExtendPeak(w, q, limit, u);
      ChainExtends(w, s, q, u);
    }
  }

  /** Node `i` of the chain is above `u` by the steps left, which cost no more than the distances say. */
  ghost predicate ChainAt(w: Weights, s: Search, p: seq<PeerId>, u: PeerId, i: nat) {
    && i < |p| && IsWalk(w, p) && IsWalk(w, p[..i + 1]) && u in s.dist && p[i] in s.dist
    && Above(s.pred, p[i], u, |p| - 1 - i)
    && WalkCost(w, p) - WalkCost(w, p[..i + 1]) <= s.dist[u] - s.dist[p[i]]
  }

  lemma ChainExtends(w: Weights, s: Search, q: seq<PeerId>, u: PeerId)
    requires IsWalk(w, q) && u in s.pred && u in s.dist && q[|q| - 1] == s.pred[u] && Edge(w, s.pred[u], u)
    requires s.pred[u] in s.dist && s.dist[s.pred[u]] + w[s.pred[u]][u] <= s.dist[u]
    requires forall i: nat {:trigger ChainAt(w, s, q, s.pred[u], i)} | i < |q| :: ChainAt(w, s, q, s.pred[u], i)
    ensures forall i: nat {:trigger ChainAt(w, s, q + [u], u, i)} | i < |q| + 1 :: ChainAt(w, s, q + [u], u, i)
  {
    var p := q + [u];
    assert p[..|q|] == q;
    forall i: nat | i < |p| ensures ChainAt(w, s, p, u, i) {
      if i < |q| {
        assert ChainAt(w, s, q, s.pred[u], i);
        assert p[..i + 1] == q[..i + 1];
      } else {
        assert p[..i + 1] == p;
      }
    }
  }

  lemma {:induction false} AboveIsUnique(pred: map<PeerId, PeerId>, a: PeerId, b: PeerId, u: PeerId, n: nat)
    requires Above(pred, a, u, n) && Above(pred, b, u, n)
    ensures a == b
    decreases n
  {
    if n > 0 {
      AboveIsUnique(pred, a, b, pred[u], n - 1);
    }
  }

  lemma {:induction false} NothingAboveTheRoot(pred: map<PeerId, PeerId>, root: PeerId, v: PeerId, u: PeerId, m: nat,
                                               n: nat)
    requires root !in pred && Above(pred, root, u, m) && Above(pred, v, u, n)
    ensures n <= m
    decreases n
  {
    if m > 0 && n > 0 {
      NothingAboveTheRoot(pred, root, v, pred[u], m - 1, n - 1);
    }
  }

  /** The improved node is not above the node that improves it: that would go round a negative cycle. */
  lemma ImprovedIsNotAbove(w: Weights, start: PeerId, limit: Option<real>, s: Search, s': Search, node: PeerId,
                           v: PeerId, n: nat)
    requires Calm(w, start, limit) && TreeOk(w, start, limit, s)
    requires Improves(w, s, s', node, v) && Within(s.dist[node], limit)
    ensures !Above(s.pred, v, node, n)
  {
    if Above(s.pred, v, node, n) {
      assert Rooted(s.pred, start, node);
      var m: nat :| Above(s.pred, start, node, m);
      NothingAboveTheRoot(s.pred, start, v, node, m, n);
      var p := ChainWalk(w, start, limit, s, node, m);
      assert ChainAt(w, s, p, node, m - n);
      AboveIsUnique(s.pred, p[m - n], v, node, n);
      ReturnMakesRound(w, p, limit, m - n, v);
    }
  }

  /** A chain that avoids `v` survives a change of `v`'s predecessor. */
  lemma {:induction false} ChainSurvives(pred: map<PeerId, PeerId>, v: PeerId, node: PeerId, top: PeerId, u: PeerId,
                                         n: nat)
    requires Above(pred, top, u, n) && forall k: nat :: !Above(pred, v, u, k)
    ensures Above(pred[v := node], top, u, n)
    decreases n
  {
    assert !Above(pred, v, u, 0);
    if n > 0 {
      forall k: nat ensures !Above(pred, v, pred[u], k) {
        assert !Above(pred, v, u, k + 1);
      }
      ChainSurvives(pred, v, node, top, pred[u], n - 1);
    }
  }

  lemma {:induction false} Reroot(pred: map<PeerId, PeerId>, start: PeerId, v: PeerId, node: PeerId, x: PeerId, n: nat)
    requires Above(pred, start, x, n) && v != start && Rooted(pred[v := node], start, node)
    ensures Rooted(pred[v := node], start, x)
    decreases n
  {
    var pred' := pred[v := node];
    if x == v {
      var k: nat :| Above(pred', start, node, k);
      assert Above(pred', start, v, k + 1);
    } else if n == 0 {
      assert Above(pred', start, x, 0);
    } else {
      Reroot(pred, start, v, node, pred[x], n - 1);
      var k: nat :| Above(pred', start, pred[x], k);
      assert Above(pred', start, x, k + 1);
    }
  }

  lemma ImprovementKeepsRoots(w: Weights, start: PeerId, limit: Option<real>, s: Search, s': Search, node: PeerId,
                              v: PeerId, x: PeerId)
    requires Calm(w, start, limit) && TreeOk(w, start, limit, s) && Improves(w, s, s', node, v)
    requires Within(s.dist[node], limit) && v != start
    requires x in s'.dist
    ensures Rooted(s'.pred, start, x)
  {
    assert Rooted(s.pred, start, node);
    var n: nat :| Above(s.pred, start, node, n);
    forall k: nat ensures !Above(s.pred, v, node, k) {
      ImprovedIsNotAbove(w, start, limit, s, s', node, v, k);
    }
    ChainSurvives(s.pred, v, node, start, node, n);
    assert Rooted(s'.pred, start, node);
    if x == v {
      assert Above(s'.pred, start, v, n + 1);
    } else {
      assert Rooted(s.pred, start, x);
      var m: nat :| Above(s.pred, start, x, m);
      Reroot(s.pred, start, v, node, x, m);
    }
  }

  lemma ImprovementKeepsTree(w: Weights, start: PeerId, limit: Option<real>, s: Search, s': Search, node: PeerId,
                             v: PeerId)
    requires Calm(w, start, limit) && TreeOk(w, start, limit, s) && Improves(w, s, s', node, v)
    requires Within(s.dist[node], limit)
    requires v != start && v != node
    ensures TreeOk(w, start, limit, s')
  {
    forall x | x in s'.dist ensures Rooted(s'.pred, start, x) {
      ImprovementKeepsRoots(w, start, limit, s, s', node, v, x);
    }
    forall x | x in s'.pred ensures ParentOk(w, limit, s', x) {
      assert x != v ==> ParentOk(w, limit, s, x);
    }
  }

  /** Everything the search keeps while `cur` is being expanded and its links to `todo` are unseen. */
  ghost predicate SearchOk(w: Weights, start: PeerId, limit: Option<real>, target: PeerId, s: Search,
                           labels: map<PeerId, seq<PeerId>>,
                           cur: PeerId, cost: real, todo: set<PeerId>)
  {
    && Calm(w, start, limit)
    && QueueOk(w, start, target, s, cur, cost, todo)
    && LabelsOk(w, start, limit, s, labels)
    && TreeOk(w, start, limit, s)
  }

  lemma ImprovementKeepsAll(w: Weights, start: PeerId, limit: Option<real>, s: Search, s': Search,
                            labels: map<PeerId, seq<PeerId>>, node: PeerId, v: PeerId)
    requires Calm(w, start, limit) && LabelsOk(w, start, limit, s, labels) && TreeOk(w, start, limit, s)
    requires node in labels
    requires Improves(w, s, s', node, v) && Within(s.dist[node], limit)
    ensures v != node && LabelsOk(w, start, limit, s', labels[v := labels[node] + [v]]) && TreeOk(w, start, limit, s')
    ensures Improvable(w, start, s') < Improvable(w, start, s)
  {
    assert IsLabel(w, start, limit, s, node, labels[node]);
    ImprovementKeepsLabels(w, start, limit, s, s', node, v, labels);
    ImprovementKeepsTree(w, start, limit, s, s', node, v);
    ImprovementShrinks(w, start, limit, s, s', node, v, labels[node]);
  }

  /** Relaxing a link that is an improvement keeps the search in order and uses up an improvable walk. */
  lemma ImprovedLinkKeeps(w: Weights, start: PeerId, limit: Option<real>, target: PeerId, s: Search, s': Search,
                          labels: map<PeerId, seq<PeerId>>, node: PeerId, cost: real, v: PeerId, todo: set<PeerId>)
    requires SearchOk(w, start, limit, target, s, labels, node, cost, todo) && Edge(w, node, v)
    requires node in s.dist && node in labels && s.dist[node] == cost && (v in s.dist ==> cost + w[node][v] < s.dist[v])
    requires s' == Improved(s, node, v, cost + w[node][v]) && Within(cost, limit)
    ensures v != node && SearchOk(w, start, limit, target, s', labels[v := labels[node] + [v]], node, cost, todo - {v})
    ensures Improvable(w, start, s') < Improvable(w, start, s)
  {
    RelaxLinkKeepsQueue(w, start, target, s, node, cost, v, todo);
    ImprovementKeepsAll(w, start, limit, s, s', labels, node, v);
  }

  /** A link that is none changes nothing. */
  lemma UselessLinkKeeps(w: Weights, start: PeerId, limit: Option<real>, target: PeerId, s: Search,
                         labels: map<PeerId, seq<PeerId>>, node: PeerId, cost: real, v: PeerId, todo: set<PeerId>)
    requires SearchOk(w, start, limit, target, s, labels, node, cost, todo) && Edge(w, node, v)
    requires node in s.dist && v in s.dist && cost + w[node][v] >= s.dist[v]
    ensures SearchOk(w, start, limit, target, s, labels, node, cost, todo - {v})
  {
    RelaxLinkKeepsQueue(w, start, target, s, node, cost, v, todo);
  }

  lemma SkipKeeps(w: Weights, start: PeerId, limit: Option<real>, target: PeerId, s: Search, top: SearchState,
                  labels: map<PeerId, seq<PeerId>>, cur: PeerId, cost: real)
    requires SearchOk(w, start, limit, target, s, labels, cur, cost, {}) && top in s.heap && top.cost > s.dist[top.node]
    ensures SearchOk(w, start, limit, target, Popped(s, top), labels, cur, cost, {})
  {
    SkipKeepsQueue(w, start, target, s, top, cur, cost);
    HeapIsIrrelevant(w, start, limit, s, Popped(s, top), labels);
  }

  lemma PopKeeps(w: Weights, start: PeerId, limit: Option<real>, target: PeerId, s: Search, top: SearchState,
                 labels: map<PeerId, seq<PeerId>>, cur: PeerId, cost: real, todo: set<PeerId>)
    requires SearchOk(w, start, limit, target, s, labels, cur, cost, {}) && top in s.heap
    requires top.cost <= s.dist[top.node]
    requires top.node != target && forall v | Edge(w, top.node, v) :: v in todo
    ensures top.cost == s.dist[top.node]
    ensures SearchOk(w, start, limit, target, Popped(s, top), labels, top.node, top.cost, todo)
  {
    PopKeepsQueue(w, start, target, s, top, cur, cost, todo);
    HeapIsIrrelevant(w, start, limit, s, Popped(s, top), labels);
  }

  lemma HeapIsIrrelevant(w: Weights, start: PeerId, limit: Option<real>, s: Search, s': Search, labels: map<PeerId,
                         seq<PeerId>>)
    requires LabelsOk(w, start, limit, s, labels) && TreeOk(w, start, limit, s) && s'.dist == s.dist
    requires s'.pred == s.pred
    ensures LabelsOk(w, start, limit, s', labels) && TreeOk(w, start, limit, s')
    ensures Improvable(w, start, s') == Improvable(w, start, s)
  {
    forall v | v in s'.dist ensures v in labels && IsLabel(w, start, limit, s', v, labels[v]) {
      forall i: nat | i < |labels[v]| ensures PrefixOk(w, s', labels[v], i) {
        assert PrefixOk(w, s, labels[v], i);
      }
    }
    forall v | v in s'.pred ensures ParentOk(w, limit, s', v) {
      assert ParentOk(w, limit, s, v);
    }
    assert forall p :: WouldImprove(w, s', p) <==> WouldImprove(w, s, p);
  }

  lemma BeginOk(w: Weights, start: PeerId, limit: Option<real>, target: PeerId)
    requires Calm(w, start, limit)
    ensures SearchOk(w, start, limit, target, Begin(start), map[start := [start]], start, 0.0, {})
  {
    BeginQueue(w, start, target);
    BeginLabels(w, start, limit);
    BeginTree(w, start, limit);
  }
}
