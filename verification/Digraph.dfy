/** Finite directed graphs given as successor maps, with reachability along paths. */
module Digraph {

  type Graph<N> = map<N, set<N>>

  /** The successors of a node; a node that is not a key has none. */
  function Succ<N>(g: Graph<N>, u: N): set<N> {
    if u in g then g[u] else {}
  }

  /** Every edge ends in a node of the graph. */
  ghost predicate WellFormed<N(!new)>(g: Graph<N>) {
    forall u | u in g :: g[u] <= g.Keys
  }

  ghost predicate IsPath<N>(g: Graph<N>, p: seq<N>, u: N, v: N) {
    && |p| > 0 && p[0] == u && p[|p| - 1] == v
    && forall i | 0 <= i < |p| - 1 :: p[i + 1] in Succ(g, p[i])
  }

  /** v can be reached from u by following zero or more edges. */
  ghost predicate Reach<N(!new)>(g: Graph<N>, u: N, v: N) {
    exists p :: IsPath(g, p, u, v)
  }

  ghost predicate Mutual<N(!new)>(g: Graph<N>, u: N, v: N) {
    Reach(g, u, v) && Reach(g, v, u)
  }

  ghost predicate ClosedUnder<N(!new)>(g: Graph<N>, s: set<N>) {
    forall u | u in s :: Succ(g, u) <= s
  }

  /** A maximal set of mutually reachable nodes. */
  ghost predicate IsScc<N(!new)>(g: Graph<N>, c: set<N>) {
    && c != {} && c <= g.Keys
    && (forall u, v | u in c && v in c :: Reach(g, u, v))
    && (forall u, v | u in c && v in g && Mutual(g, u, v) :: v in c)
  }

  lemma ReachSelf<N(!new)>(g: Graph<N>, u: N)
    ensures Reach(g, u, u)
  {
    assert IsPath(g, [u], u, u);
  }

  lemma ReachEdge<N(!new)>(g: Graph<N>, u: N, v: N)
    requires v in Succ(g, u)
    ensures Reach(g, u, v)
  {
    assert IsPath(g, [u, v], u, v);
  }

  lemma ReachTrans<N(!new)>(g: Graph<N>, u: N, v: N, w: N)
    requires Reach(g, u, v) && Reach(g, v, w)
    ensures Reach(g, u, w)
  {
    var p :| IsPath(g, p, u, v);
    var q :| IsPath(g, q, v, w);
    var r := p + q[1..];
    forall i | 0 <= i < |r| - 1
      ensures r[i + 1] in Succ(g, r[i])
    {
      if i >= |p| - 1 {
        assert r[i] == q[i - (|p| - 1)] && r[i + 1] == q[i + 1 - (|p| - 1)];
      }
    }
    assert IsPath(g, r, u, w);
  }

  /** Reachability never leaves a set that is closed under successors. */
  lemma ReachStaysIn<N(!new)>(g: Graph<N>, s: set<N>, u: N, v: N)
    requires ClosedUnder(g, s) && u in s && Reach(g, u, v)
    ensures v in s
  {
    var p :| IsPath(g, p, u, v);
    var i := 0;
    while i < |p| - 1
      invariant 0 <= i < |p| && p[i] in s
    {
      i := i + 1;
    }
  }
}
