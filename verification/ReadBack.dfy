/** Reading a path back from the predecessors of a search: when it ends, and what it gives. */
module ReadBack {
  import opened MeshTypes
  import opened Walks
  import opened SearchQueue
  import opened LabelSearch

  lemma {:induction false} RootIsUnique(pred: map<PeerId, PeerId>, start: PeerId, u: PeerId, n: nat, m: nat)
    requires start !in pred && Above(pred, start, u, n) && Above(pred, start, u, m)
    ensures n == m
    decreases n
  {
    if n > 0 && m > 0 {
      RootIsUnique(pred, start, pred[u], n - 1, m - 1);
    }
  }

  /** `n` predecessors can be followed from `u`. */
  ghost predicate CanFollow(pred: map<PeerId, PeerId>, u: PeerId, n: nat)
    decreases n
  {
    n == 0 || (u in pred && CanFollow(pred, pred[u], n - 1))
  }

  /** Following predecessors from `u` comes to a node without one. */
  ghost predicate Ends(pred: map<PeerId, PeerId>, u: PeerId) {
    exists root, n: nat :: Above(pred, root, u, n) && root !in pred
  }

  /** The predecessors can be read back exactly when they cannot be followed for ever. */
  lemma EndsIff(pred: map<PeerId, PeerId>, u: PeerId)
    ensures Ends(pred, u) <==> exists n: nat :: !CanFollow(pred, u, n)
  {
    if Ends(pred, u) {
      var root, n: nat :| Above(pred, root, u, n) && root !in pred;
      StopsAtRoot(pred, root, u, n);
    }
    if n: nat :| !CanFollow(pred, u, n) {
      var root, m := FindRoot(pred, u, n);
    }
  }

  lemma {:induction false} StopsAtRoot(pred: map<PeerId, PeerId>, root: PeerId, u: PeerId, n: nat)
    requires Above(pred, root, u, n) && root !in pred
    ensures !CanFollow(pred, u, n + 1)
    decreases n
  {
    if n > 0 {
      StopsAtRoot(pred, root, pred[u], n - 1);
    }
  }

  lemma {:induction false} FindRoot(pred: map<PeerId, PeerId>, u: PeerId, n: nat) returns (root: PeerId, m: nat)
    requires !CanFollow(pred, u, n)
    ensures Above(pred, root, u, m) && root !in pred
    decreases n
  {
    if u !in pred {
      root, m := u, 0;
    } else {
      root, m := FindRoot(pred, pred[u], n - 1);
      m := m + 1;
    }
  }

  predicate IsPred(pred: map<PeerId, PeerId>, u: PeerId, v: PeerId) {
    v in pred && pred[v] == u
  }

  /** Each node of the path is the predecessor of the next. */
  ghost predicate IsPredPath(pred: map<PeerId, PeerId>, path: seq<PeerId>) {
    && path != []
    && forall i, j {:trigger path[i], path[j]} | 0 <= i < |path| && j == i + 1 < |path| ::
         IsPred(pred, path[i], path[j])
  }

  lemma PrependPred(pred: map<PeerId, PeerId>, path: seq<PeerId>)
    requires IsPredPath(pred, path) && path[0] in pred
    ensures IsPredPath(pred, [pred[path[0]]] + path)
  {
    var longer := [pred[path[0]]] + path;
    forall i, j {:trigger longer[i], longer[j]} | 0 <= i < |longer| && j == i + 1 < |longer|
      ensures IsPred(pred, longer[i], longer[j])
    {
      assert i > 0 ==> longer[i] == path[i - 1] && longer[j] == path[j - 1];
    }
  }

  lemma {:induction false} DepthOnPath(pred: map<PeerId, PeerId>, path: seq<PeerId>, i: nat)
    requires IsPredPath(pred, path) && i < |path|
    ensures Above(pred, path[0], path[i], i)
    decreases i
  {
    if i > 0 {
      DepthOnPath(pred, path, i - 1);
      assert IsPred(pred, path[i - 1], path[i]);
    }
  }

  /** A path back to a node without predecessor meets no node twice. */
  lemma PredPathHasNoRepeats(pred: map<PeerId, PeerId>, path: seq<PeerId>)
    requires IsPredPath(pred, path) && path[0] !in pred
    ensures NoRepeats(path)
  {
    forall i, j | 0 <= i < j < |path| ensures path[i] != path[j] {
      DepthOnPath(pred, path, i);
      DepthOnPath(pred, path, j);
      if path[i] == path[j] {
        RootIsUnique(pred, path[0], path[i], i, j);
      }
    }
  }

  /** The path that is read back leads from the start along existing links, at no more than the recorded distance. */
  lemma {:induction false} ReadBackIsWalk(w: Weights, start: PeerId, limit: Option<real>, s: Search, path: seq<PeerId>)
    requires TreeOk(w, start, limit, s) && IsPredPath(s.pred, path) && path[0] !in s.pred && path[|path| - 1] in s.dist
    ensures WalkBetween(w, path, start, path[|path| - 1]) && WalkCost(w, path) <= s.dist[path[|path| - 1]]
    decreases |path|
  {
    var x := path[|path| - 1];
    if |path| == 1 {
      assert Rooted(s.pred, start, x);
    } else {
      var before := path[..|path| - 1];
      assert IsPred(s.pred, path[|path| - 2], path[|path| - 1]);
      assert ParentOk(w, limit, s, x);
      assert IsPredPath(s.pred, before) by {
        forall i, j {:trigger before[i], before[j]} | 0 <= i < |before| && j == i + 1 < |before|
          ensures IsPred(s.pred, before[i], before[j])
        {
          assert before[i] == path[i] && before[j] == path[j];
        }
      }
      ReadBackIsWalk(w, start, limit, s, before);
    }
  }

  lemma TreeEnds(w: Weights, start: PeerId, limit: Option<real>, s: Search, u: PeerId)
    requires TreeOk(w, start, limit, s) && u in s.dist
    ensures Ends(s.pred, u)
  {
    assert Rooted(s.pred, start, u);
    var n: nat :| Above(s.pred, start, u, n);
  }
}
