/**
 * Admission of a dependency graph by layered removal: nodes whose dependencies are all gone
 * are removed, layer by layer, until nothing is left or nothing more can go.
 */
module TaskGraph {
  import opened Collections
  import opened Digraph

  /** Some node can be reached again after following at least one of its edges. */
  ghost predicate HasCycle<N(!new)>(g: Graph<N>) {
    exists u, w :: OnCycle(g, u, w)
  }

  ghost predicate OnCycle<N(!new)>(g: Graph<N>, u: N, w: N) {
    w in Succ(g, u) && Reach(g, w, u)
  }

  // ---- a finite set in which every node has a successor contains a cycle ----

  lemma DistinctFits<N(!new)>(p: seq<N>, s: set<N>)
    requires Distinct(p) && forall i | 0 <= i < |p| :: p[i] in s
    ensures |p| <= |s|
  {
    DistinctSize(p);
    SubsetSize(Elems(p), s);
  }

  /** Every node of s has an edge into s. */
  ghost predicate NoSink<N(!new)>(g: Graph<N>, s: set<N>) {
    forall u {:trigger Succ(g, u)} | u in s :: Succ(g, u) * s != {}
  }

  lemma {:induction false} WalkInside<N(!new)>(g: Graph<N>, s: set<N>, u: N, n: nat) returns (p: seq<N>)
    requires NoSink(g, s) && u in s
    ensures |p| == n + 1 && p[0] == u && forall i | 0 <= i < |p| :: p[i] in s
    ensures forall i | 0 <= i < n :: p[i + 1] in Succ(g, p[i])
  {
    if n == 0 {
      p := [u];
    } else {
      assert Succ(g, u) * s != {};
      var w :| w in Succ(g, u) * s;
      var q := WalkInside(g, s, w, n - 1);
      p := [u] + q;
    }
  }

  lemma NoSinkHasCycle<N(!new)>(g: Graph<N>, s: set<N>)
    requires NoSink(g, s) && s != {}
    ensures HasCycle(g)
  {
    hide NoSink, Reach;
    var u :| u in s;
    var p := WalkInside(g, s, u, |s|);
    if Distinct(p) {
      DistinctFits(p, s);
    }
    var i, j :| 0 <= i < j < |p| && p[i] == p[j];
    RepeatIsCycle(g, p, i, j);
  }

  lemma RepeatIsCycle<N(!new)>(g: Graph<N>, p: seq<N>, i: nat, j: nat)
    requires i < j < |p| && p[i] == p[j]
    requires forall k | 0 <= k < |p| - 1 :: p[k + 1] in Succ(g, p[k])
    ensures HasCycle(g)
  {
    assert IsPath(g, p[i + 1..j + 1], p[i + 1], p[j]);
    hide IsPath;
    assert OnCycle(g, p[i], p[i + 1]);
  }

  // ---- a ranking excludes cycles ----

  /** Every node of the closed set s outranks its successors. */
  ghost predicate Ranked<N(!new)>(g: Graph<N>, s: set<N>, rank: map<N, nat>) {
    && s <= rank.Keys && ClosedUnder(g, s)
    && forall u, w | u in s && w in Succ(g, u) :: w in s && rank[w] < rank[u]
  }

  lemma RankDescends<N(!new)>(g: Graph<N>, s: set<N>, rank: map<N, nat>, u: N, v: N)
    requires Ranked(g, s, rank) && u in s && Reach(g, u, v)
    ensures v in s && rank[v] <= rank[u]
  {
    var p :| IsPath(g, p, u, v);
    var i := 0;
    while i < |p| - 1
      invariant 0 <= i < |p| && p[i] in s && rank[p[i]] <= rank[u]
    {
      assert p[i + 1] in Succ(g, p[i]);
      i := i + 1;
    }
  }

  lemma RankedHasNoCycle<N(!new)>(g: Graph<N>, rank: map<N, nat>)
    requires Ranked(g, g.Keys, rank)
    ensures !HasCycle(g)
  {
    if HasCycle(g) {
      var u, w :| OnCycle(g, u, w);
      RankDescends(g, g.Keys, rank, w, u);
      assert false;
    }
  }

  // ---- the removal loop ----

  /** `pending` without the ready nodes, which also disappear from the others' dependencies. */
  function Drop<N(!new)>(pending: Graph<N>, ready: set<N>): (r: Graph<N>)
    ensures r.Keys == pending.Keys - ready
    ensures forall k, d | k in r :: d in r[k] <==> d in pending[k] && d !in ready
  {
    map k | k in pending && k !in ready :: pending[k] - ready
  }

  lemma DropShrinks<N(!new)>(pending: Graph<N>, ready: set<N>)
    requires ready != {} && ready <= pending.Keys
    ensures |Drop(pending, ready)| < |pending|
  {
  }

  /** The dependencies in `pending` are those of g without the nodes that are gone. */
  ghost predicate Lost<N(!new)>(g: Graph<N>, pending: Graph<N>, gone: set<N>)
    requires pending.Keys <= g.Keys
  {
    forall k, d | k in pending :: d in pending[k] <==> d in g[k] && d !in gone
  }

  /** What has been removed is closed and ranked by layer; the rest only lost removed nodes. */
  ghost predicate Layers<N(!new)>(g: Graph<N>, pending: Graph<N>, rank: map<N, nat>, layer: nat) {
    && pending.Keys <= g.Keys && rank.Keys == g.Keys - pending.Keys
    && Lost(g, pending, rank.Keys)
    && Ranked(g, rank.Keys, rank)
    && (forall k | k in rank :: rank[k] < layer)
  }

  /** Removes layers of nodes without dependencies. `stuck` is true exactly when the graph has a
      cycle or a dependency that is not a node. */
  method LayeredRemoval<N(==, !new)>(g: Graph<N>) returns (stuck: bool)
    ensures stuck <==> HasCycle(g) || !WellFormed(g)
  {
    hide HasCycle, WellFormed;
    var pending := g;
    ghost var rank: map<N, nat>, layer: nat := map[], 0;
    stuck := false;
    while |pending| > 0
      invariant Layers(g, pending, rank, layer)
      decreases |pending|
    {
      hide Layers;
      var ready := set k | k in pending && pending[k] == {};
      if ready == {} {
        stuck := true;
        StuckHasCycle(g, pending, rank, layer);
        return;
      }
      rank := NextLayer(g, pending, ready, rank, layer);
      DropShrinks(pending, ready);
      pending := Drop(pending, ready);
      layer := layer + 1;
    }
    NothingLeft(g, pending, rank, layer);
  }

  lemma NothingLeft<N(!new)>(g: Graph<N>, pending: Graph<N>, rank: map<N, nat>, layer: nat)
    requires Layers(g, pending, rank, layer) && |pending| == 0
    ensures WellFormed(g) && !HasCycle(g)
  {
    hide HasCycle, Reach;
    assert pending.Keys == {};
    assert rank.Keys == g.Keys;
    RankedHasNoCycle(g, rank);
    forall u | u in g ensures g[u] <= g.Keys {
      assert Succ(g, u) <= rank.Keys;
    }
  }

  lemma StuckHasCycle<N(!new)>(g: Graph<N>, pending: Graph<N>, rank: map<N, nat>, layer: nat)
    requires Layers(g, pending, rank, layer) && |pending| > 0
    requires forall k | k in pending :: pending[k] != {}
    ensures HasCycle(g) || !WellFormed(g)
  {
    hide HasCycle, Ranked;
    if WellFormed(g) {
      assert pending.Keys != {};
      forall u {:trigger Succ(g, u)} | u in pending.Keys ensures Succ(g, u) * pending.Keys != {} {
        var w :| w in pending[u];
        assert w in g[u] && w in g.Keys && w !in rank.Keys;
        assert w in Succ(g, u) * pending.Keys;
      }
      NoSinkHasCycle(g, pending.Keys);
    }
  }

  ghost function NextRank<N>(rank: map<N, nat>, ready: set<N>, layer: nat): (next: map<N, nat>)
    ensures next.Keys == rank.Keys + ready
    ensures forall k | k in next :: next[k] == if k in rank then rank[k] else layer
  {
    map k | k in rank.Keys + ready :: if k in rank then rank[k] else layer
  }

  lemma NextLayer<N(!new)>(g: Graph<N>, pending: Graph<N>, ready: set<N>, rank: map<N, nat>, layer: nat)
    returns (next: map<N, nat>)
    requires Layers(g, pending, rank, layer)
    requires ready == set k | k in pending && pending[k] == {}
    ensures Layers(g, Drop(pending, ready), next, layer + 1)
  {
    hide Ranked;
    next := NextRank(rank, ready, layer);
    ReadyDeps(g, pending, ready, rank);
    RankLayer(g, ready, rank, next, layer);
    DropLayer(g, pending, ready, rank, next);
  }

  lemma ReadyDeps<N(!new)>(g: Graph<N>, pending: Graph<N>, ready: set<N>, rank: map<N, nat>)
    requires pending.Keys <= g.Keys && Lost(g, pending, rank.Keys)
    requires ready == set k | k in pending && pending[k] == {}
    ensures ready <= g.Keys && forall k | k in ready :: g[k] <= rank.Keys
  {
  }

  lemma DropLayer<N(!new)>(g: Graph<N>, pending: Graph<N>, ready: set<N>, rank: map<N, nat>, next: map<N, nat>)
    requires pending.Keys <= g.Keys && Lost(g, pending, rank.Keys)
    requires rank.Keys == g.Keys - pending.Keys
    requires ready <= pending.Keys && next.Keys == rank.Keys + ready
    ensures next.Keys == g.Keys - Drop(pending, ready).Keys
    ensures Lost(g, Drop(pending, ready), next.Keys)
  {
    forall k, d | k in Drop(pending, ready)
      ensures d in Drop(pending, ready)[k] <==> d in g[k] && d !in next.Keys
    {
      assert k in pending && k !in ready;
      assert d in pending[k] <==> d in g[k] && d !in rank.Keys;
      assert d in next.Keys <==> d in rank.Keys || d in ready;
    }
  }

  lemma RankLayer<N(!new)>(g: Graph<N>, ready: set<N>, rank: map<N, nat>, next: map<N, nat>, layer: nat)
    requires Ranked(g, rank.Keys, rank) && (forall k | k in rank :: rank[k] < layer)
    requires ready <= g.Keys && forall k | k in ready :: g[k] <= rank.Keys
    requires next.Keys == rank.Keys + ready
    requires forall k | k in next :: next[k] == if k in rank then rank[k] else layer
    ensures Ranked(g, next.Keys, next)
  {
  }
}
