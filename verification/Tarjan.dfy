/**
 * Strongly connected components of the package graph, as the architecture census computes
 * them: one depth-first search with an index, a low link and an explicit stack.
 */
module Tarjan {
  import opened Digraph

  /** The search variables at one moment. */
  datatype Search<N> = Search(
    index: map<N, nat>, low: map<N, nat>, onstack: set<N>, stack: seq<N>,
    sccs: seq<set<N>>, counter: nat)

  /** All nodes of the components in a list. */
  ghost function Union<N(!new)>(cs: seq<set<N>>): set<N> {
    set i, x | 0 <= i < |cs| && x in cs[i] :: x
  }

  /** `cs` partitions `all` into the strongly connected components of g, each one listed
      after every component its nodes have an edge into. */
  ghost predicate IsSccList<N(!new)>(g: Graph<N>, cs: seq<set<N>>) {
    && (forall i | 0 <= i < |cs| :: IsScc(g, cs[i]))
    && (forall i, j | 0 <= i < j < |cs| :: cs[i] !! cs[j])
    && (forall i {:trigger cs[..i]} | 0 <= i <= |cs| :: ClosedUnder(g, Union(cs[..i])))
  }

  // ---- the invariant of the search; `gray` are the nodes whose call is still open ----

  ghost predicate Shape<N(!new)>(g: Graph<N>, s: Search<N>, gray: set<N>) {
    && s.index.Keys == s.low.Keys && s.index.Keys <= g.Keys
    && gray <= s.onstack <= s.index.Keys
    && (forall x | x in s.index :: s.index[x] < s.counter)
    && (forall x :: x in s.onstack <==> x in s.stack)
    && (forall i, j | 0 <= i < j < |s.stack| :: s.index[s.stack[i]] < s.index[s.stack[j]])
  }

  ghost predicate Emitted<N(!new)>(g: Graph<N>, s: Search<N>) {
    && IsSccList(g, s.sccs)
    && Union(s.sccs) == s.index.Keys - s.onstack
  }

  ghost predicate Scanned<N(!new)>(g: Graph<N>, s: Search<N>, gray: set<N>) {
    forall x | x in s.index && x !in gray :: Succ(g, x) <= s.index.Keys
  }

  /** y reaches an open node that is not above it on the stack. */
  ghost predicate Anchored<N(!new)>(g: Graph<N>, s: Search<N>, gray: set<N>, y: N)
    requires y in s.index && gray <= s.index.Keys
  {
    exists a :: a in gray && s.index[a] <= s.index[y] && Reach(g, y, a)
  }

  /** An open node reaches everything above it on the stack. */
  ghost predicate GrayReach<N(!new)>(g: Graph<N>, s: Search<N>, gray: set<N>)
    requires gray <= s.onstack <= s.index.Keys
  {
    forall a, y | a in gray && y in s.onstack && s.index[a] <= s.index[y] :: Reach(g, a, y)
  }

  ghost predicate AllAnchored<N(!new)>(g: Graph<N>, s: Search<N>, gray: set<N>, ys: set<N>)
    requires gray <= s.index.Keys && ys <= s.index.Keys
  {
    forall y {:trigger Anchored(g, s, gray, y)} | y in ys :: Anchored(g, s, gray, y)
  }

  ghost predicate Inv<N(!new)>(g: Graph<N>, s: Search<N>, gray: set<N>) {
    Shape(g, s, gray) && Emitted(g, s) && Scanned(g, s, gray)
    && GrayReach(g, s, gray) && AllAnchored(g, s, gray, s.onstack)
  }

  /** t continues s: everything known in s is still known, the stack grew on top of s's. */
  ghost predicate Extends<N(!new)>(s: Search<N>, t: Search<N>) {
    && s.index.Keys <= t.index.Keys && (forall x | x in s.index :: t.index[x] == s.index[x])
    && s.index.Keys <= s.low.Keys && s.index.Keys <= t.low.Keys
    && (forall x | x in s.index && x in s.low && x in t.low :: t.low[x] == s.low[x])
    && s.stack <= t.stack && s.sccs <= t.sccs && s.counter <= t.counter
  }

  /** Every edge from a node stacked since `base` into base's stack ends at `bound` or above;
      v's own edges into `todo` have not been looked at yet. */
  ghost predicate LowBounds<N(!new)>(g: Graph<N>, base: Search<N>, s: Search<N>, v: N, todo: set<N>, bound: nat)
    requires base.onstack <= s.index.Keys
  {
    forall x, y | x in s.onstack - base.onstack && y in Succ(g, x) * base.onstack && !(x == v && y in todo) ::
      bound <= s.index[y]
  }

  /** `l` is v's own index, or the index of a node of base's stack that v reaches. */
  ghost predicate LowWitness<N(!new)>(g: Graph<N>, base: Search<N>, s: Search<N>, v: N, l: nat)
    requires v in s.index && base.onstack <= s.index.Keys
  {
    l == s.index[v] || (l < s.index[v] && exists y :: y in base.onstack && s.index[y] == l && Reach(g, v, y))
  }

  function Min(a: nat, b: nat): nat { if a < b then a else b }

  /** The state in which the loop over v's successors starts. */
  ghost function Open<N>(s: Search<N>, v: N): Search<N> {
    Search(s.index[v := s.counter], s.low[v := s.counter], s.onstack + {v}, s.stack + [v],
           s.sccs, s.counter + 1)
  }

  lemma OpenShape<N(!new)>(g: Graph<N>, s: Search<N>, gray: set<N>, v: N)
    requires Shape(g, s, gray) && v in g && v !in s.index
    ensures Shape(g, Open(s, v), gray + {v})
  {
  }

  lemma OpenReach<N(!new)>(g: Graph<N>, s: Search<N>, gray: set<N>, v: N)
    requires Shape(g, s, gray) && v !in s.index
    requires GrayReach(g, s, gray) && AllAnchored(g, s, gray, s.onstack)
    requires forall a | a in gray :: Reach(g, a, v)
    ensures GrayReach(g, Open(s, v), gray + {v})
    ensures AllAnchored(g, Open(s, v), gray + {v}, Open(s, v).onstack)
  {
    ReachSelf(g, v);
    hide Reach;
    var t := Open(s, v);
    forall y | y in t.onstack
      ensures Anchored(g, t, gray + {v}, y)
    {
      if y == v {
        assert v in gray + {v} && t.index[v] <= t.index[y];
      } else {
        assert Anchored(g, s, gray, y);
        var a :| a in gray && s.index[a] <= s.index[y] && Reach(g, y, a);
        assert a in gray + {v} && t.index[a] <= t.index[y];
      }
    }
  }

  lemma OpenKeepsInv<N(!new)>(g: Graph<N>, s: Search<N>, gray: set<N>, v: N)
    requires WellFormed(g) && Inv(g, s, gray) && v in g && v !in s.index
    requires forall a | a in gray :: Reach(g, a, v)
    ensures Inv(g, Open(s, v), gray + {v})
  {
    hide Reach, IsSccList, Union;
    var t := Open(s, v);
    assert t.index.Keys - t.onstack == s.index.Keys - s.onstack;
    OpenShape(g, s, gray, v);
    OpenReach(g, s, gray, v);
  }

  lemma CloseAnchor<N(!new)>(g: Graph<N>, s: Search<N>, gray: set<N>, v: N, b: N, x: N)
    requires x in s.index && v in s.index && gray <= s.index.Keys && b in gray
    requires s.index[b] <= s.index[v] && Reach(g, v, b)
    requires Anchored(g, s, gray + {v}, x)
    ensures Anchored(g, s, gray, x)
  {
    hide Reach;
    var a :| a in gray + {v} && s.index[a] <= s.index[x] && Reach(g, x, a);
    if a == v {
      ReachTrans(g, x, v, b);
      assert b in gray && s.index[b] <= s.index[x];
    } else {
      assert a in gray;
    }
  }

  /** After a full scan in which v's low link fell below its index, v can be closed as it is. */
  lemma CloseBelow<N(!new)>(g: Graph<N>, base: Search<N>, s: Search<N>, gray: set<N>, v: N, l: nat)
    requires gray + {v} <= s.onstack <= s.index.Keys
    requires AllAnchored(g, s, gray + {v}, s.onstack)
    requires base.onstack <= s.onstack && AllAnchored(g, s, gray, base.onstack)
    requires LowWitness(g, base, s, v, l) && l != s.index[v]
    ensures AllAnchored(g, s, gray, s.onstack)
  {
    hide Reach;
    var y :| y in base.onstack && s.index[y] == l && Reach(g, v, y);
    assert Anchored(g, s, gray, y);
    var b :| b in gray && s.index[b] <= s.index[y] && Reach(g, y, b);
    ReachTrans(g, v, y, b);
    forall x | x in s.onstack
      ensures Anchored(g, s, gray, x)
    {
      hide Anchored;
      CloseAnchor(g, s, gray, v, b, x);
    }
  }

  /** The state after the nodes above `base` have been popped into one component. */
  ghost function Pop<N>(base: Search<N>, s: Search<N>): Search<N> {
    s.(stack := base.stack, onstack := base.onstack, sccs := s.sccs + [s.onstack - base.onstack])
  }

  lemma UnionSnoc<N(!new)>(cs: seq<set<N>>, c: set<N>)
    ensures Union(cs + [c]) == Union(cs) + c
  {
    var ds := cs + [c];
    assert ds[|cs|] == c;
    forall x | x in Union(cs) ensures x in Union(ds) {
      var i :| 0 <= i < |cs| && x in cs[i];
      assert ds[i] == cs[i];
    }
  }

  /** When v's low link is its own index, what lies on the stack from v up is one component. */
  lemma SuffixIsScc<N(!new)>(g: Graph<N>, base: Search<N>, s: Search<N>, gray: set<N>, v: N)
    requires WellFormed(g) && Inv(g, s, gray + {v}) && v !in gray && Succ(g, v) <= s.index.Keys
    requires base.onstack <= s.onstack && gray <= base.onstack && v in s.onstack - base.onstack
    requires forall x | x in s.onstack - base.onstack :: s.index[v] <= s.index[x]
    requires forall x | x in base.onstack :: s.index[x] < s.index[v]
    requires forall x | x in s.onstack - base.onstack :: Succ(g, x) * base.onstack == {}
    ensures IsScc(g, s.onstack - base.onstack)
    ensures ClosedUnder(g, Union(s.sccs) + (s.onstack - base.onstack))
  {
    hide Reach;
    var c := s.onstack - base.onstack;
    var done := Union(s.sccs);
    EmittedClosed(g, s);
    assert ClosedUnder(g, done + c);
    forall x | x in c
      ensures Reach(g, x, v) && Reach(g, v, x)
    {
      assert Anchored(g, s, gray + {v}, x);
      var a :| a in gray + {v} && s.index[a] <= s.index[x] && Reach(g, x, a);
      ReachStaysIn(g, done + c, x, a);
      assert a == v;
    }
    forall x, y | x in c && y in c ensures Reach(g, x, y) {
      ReachTrans(g, x, v, y);
    }
    forall x, y | x in c && y in g && Mutual(g, x, y) ensures y in c {
      ReachStaysIn(g, done + c, x, y);
      if y in done {
        ReachStaysIn(g, done, y, x);
        assert false;
      }
    }
  }

  lemma EmittedClosed<N(!new)>(g: Graph<N>, s: Search<N>)
    requires Emitted(g, s)
    ensures ClosedUnder(g, Union(s.sccs))
  {
    assert s.sccs[..|s.sccs|] == s.sccs;
  }

  lemma PopKeepsList<N(!new)>(g: Graph<N>, cs: seq<set<N>>, c: set<N>)
    requires IsSccList(g, cs) && IsScc(g, c) && c !! Union(cs)
    requires ClosedUnder(g, Union(cs) + c)
    ensures IsSccList(g, cs + [c])
  {
    hide IsScc, ClosedUnder;
    var ds := cs + [c];
    UnionSnoc(cs, c);
    forall i, j | 0 <= i < j < |ds| ensures ds[i] !! ds[j] {
      if j == |cs| {
        assert forall x | x in ds[i] :: x in Union(cs);
      }
    }
    forall i {:trigger ds[..i]} | 0 <= i <= |ds| ensures ClosedUnder(g, Union(ds[..i])) {
      if i <= |cs| {
        assert ds[..i] == cs[..i];
      } else {
        assert ds[..i] == ds;
      }
    }
  }

  lemma PopShape<N(!new)>(g: Graph<N>, base: Search<N>, s: Search<N>, gray: set<N>, v: N)
    requires Shape(g, s, gray + {v})
    requires gray <= base.onstack <= s.onstack
    requires base.stack <= s.stack && (forall x :: x in base.onstack <==> x in base.stack)
    ensures Shape(g, Pop(base, s), gray)
  {
  }

  lemma PopEmitted<N(!new)>(g: Graph<N>, base: Search<N>, s: Search<N>)
    requires Emitted(g, s) && base.onstack <= s.onstack <= s.index.Keys
    requires IsScc(g, s.onstack - base.onstack) && ClosedUnder(g, Union(s.sccs) + (s.onstack - base.onstack))
    ensures Emitted(g, Pop(base, s))
  {
    hide IsScc, ClosedUnder;
    var c := s.onstack - base.onstack;
    UnionSnoc(s.sccs, c);
    PopKeepsList(g, s.sccs, c);
    hide Union, IsSccList;
  }

  lemma PopKeepsInv<N(!new)>(g: Graph<N>, base: Search<N>, s: Search<N>, gray: set<N>, v: N)
    requires WellFormed(g) && Inv(g, s, gray + {v}) && v !in gray && Succ(g, v) <= s.index.Keys
    requires gray <= base.onstack <= s.onstack && v in s.onstack - base.onstack
    requires base.stack <= s.stack && (forall x :: x in base.onstack <==> x in base.stack)
    requires AllAnchored(g, s, gray, base.onstack)
    requires forall x | x in s.onstack - base.onstack :: s.index[v] <= s.index[x]
    requires forall x | x in base.onstack :: s.index[x] < s.index[v]
    requires forall x | x in s.onstack - base.onstack :: Succ(g, x) * base.onstack == {}
    ensures Inv(g, Pop(base, s), gray)
  {
    hide Reach, IsScc, ClosedUnder;
    SuffixIsScc(g, base, s, gray, v);
    PopShape(g, base, s, gray, v);
    PopEmitted(g, base, s);
    hide Emitted;
    var t := Pop(base, s);
    forall y {:trigger Anchored(g, t, gray, y)} | y in t.onstack ensures Anchored(g, t, gray, y) {
      assert Anchored(g, s, gray, y);
    }
  }

  // ---- steps of the scan of v's successors; `base` is the state before the call on v ----

  /** Facts about base that the scan of v keeps; `todo` are the successors still to look at. */
  ghost predicate Scanning<N(!new)>(g: Graph<N>, base: Search<N>, s: Search<N>, gray: set<N>, v: N, todo: set<N>) {
    && Inv(g, base, gray) && Inv(g, s, gray + {v}) && v !in base.index
    && Extends(base, s) && base.stack + [v] <= s.stack && s.index.Keys >= base.index.Keys + {v}
    && s.index[v] == base.counter && todo <= Succ(g, v) && Succ(g, v) - todo <= s.index.Keys
    && LowWitness(g, base, s, v, s.low[v]) && LowBounds(g, base, s, v, todo, s.low[v])
  }

  /** Where v sits: base's stack below it, everything stacked since above it. */
  ghost predicate Above<N(!new)>(base: Search<N>, s: Search<N>, v: N) {
    && base.onstack <= s.onstack <= s.index.Keys && base.onstack <= base.index.Keys && base.index.Keys == base.low.Keys
    && s.index.Keys == s.low.Keys && v in s.onstack - base.onstack
    && (forall x | x in base.onstack :: s.index[x] < s.index[v])
    && (forall x | x in s.onstack - base.onstack :: s.index[v] <= s.index[x])
    && (forall x | x in s.index :: s.index[x] < s.counter)
  }

  lemma AboveBase<N(!new)>(g: Graph<N>, base: Search<N>, s: Search<N>, gray: set<N>, v: N)
    requires Inv(g, base, gray) && Inv(g, s, gray + {v}) && v !in base.index
    requires Extends(base, s) && base.stack + [v] <= s.stack && v in s.index && s.index[v] == base.counter
    ensures Above(base, s, v)
  {
    hide Emitted, Scanned, GrayReach, AllAnchored;
    var n := |base.stack|;
    assert s.stack[n] == v && s.stack[..n] == base.stack;
    assert forall i | 0 <= i < n :: s.stack[i] in base.onstack;
    forall x | x in base.onstack ensures x in s.onstack && s.index[x] < s.index[v] {
      var i :| 0 <= i < n && base.stack[i] == x;
      assert s.stack[i] == x;
    }
    forall x | x in s.onstack - base.onstack ensures s.index[v] <= s.index[x] {
      var i :| 0 <= i < |s.stack| && s.stack[i] == x;
    }
  }

  lemma OpenScans<N(!new)>(g: Graph<N>, base: Search<N>, gray: set<N>, v: N)
    requires WellFormed(g) && Inv(g, base, gray) && v in g && v !in base.index
    requires forall a | a in gray :: Reach(g, a, v)
    ensures Scanning(g, base, Open(base, v), gray, v, Succ(g, v))
  {
    OpenKeepsInv(g, base, gray, v);
  }

  ghost function LowerTo<N>(s: Search<N>, v: N, l: nat): Search<N> {
    s.(low := s.low[v := l])
  }

  lemma LowerKeepsInv<N(!new)>(g: Graph<N>, s: Search<N>, gray: set<N>, v: N, l: nat)
    requires Inv(g, s, gray) && v in s.index
    ensures Inv(g, LowerTo(s, v, l), gray)
  {
    hide Reach, IsSccList, Union;
    var t := LowerTo(s, v, l);
    forall y {:trigger Anchored(g, t, gray, y)} | y in t.onstack ensures Anchored(g, t, gray, y) {
      assert Anchored(g, s, gray, y);
    }
  }

  /** A successor that has been seen and is still on the stack. */
  lemma ScanOnStack<N(!new)>(g: Graph<N>, base: Search<N>, s: Search<N>, gray: set<N>, v: N, todo: set<N>, w: N)
    requires Scanning(g, base, s, gray, v, todo) && w in todo && w in s.onstack
    ensures Scanning(g, base, LowerTo(s, v, Min(s.low[v], s.index[w])), gray, v, todo - {w})
  {
    hide Inv, LowBounds, LowWitness;
    AboveBase(g, base, s, gray, v);
    LowerKeepsInv(g, s, gray + {v}, v, Min(s.low[v], s.index[w]));
    OnStackLow(g, base, s, v, todo, w);
  }

  lemma OnStackLow<N(!new)>(g: Graph<N>, base: Search<N>, s: Search<N>, v: N, todo: set<N>, w: N)
    requires base.onstack <= s.onstack <= s.index.Keys && v in s.onstack - base.onstack && v in s.low
    requires forall x | x in s.onstack - base.onstack :: s.index[v] <= s.index[x]
    requires w in todo && w in Succ(g, v) && w in s.onstack
    requires LowWitness(g, base, s, v, s.low[v]) && LowBounds(g, base, s, v, todo, s.low[v])
    ensures var l := Min(s.low[v], s.index[w]); var t := LowerTo(s, v, l);
      LowWitness(g, base, t, v, l) && LowBounds(g, base, t, v, todo - {w}, l)
  {
    ReachEdge(g, v, w);
    hide Reach;
  }

  /** A successor whose component has already been emitted. */
  lemma ScanEmitted<N(!new)>(g: Graph<N>, base: Search<N>, s: Search<N>, gray: set<N>, v: N, todo: set<N>, w: N)
    requires Scanning(g, base, s, gray, v, todo) && w in todo && w in s.index && w !in s.onstack
    ensures Scanning(g, base, s, gray, v, todo - {w})
  {
  }

  /** A successor that was new: `t` is the state after the recursive call on it. */
  lemma ScanNew<N(!new)>(g: Graph<N>, base: Search<N>, s: Search<N>, t: Search<N>, gray: set<N>, v: N, todo: set<N>,
      w: N)
    requires Scanning(g, base, s, gray, v, todo) && w in todo && w !in s.index
    requires v in s.index && Done(g, s, t, gray + {v}, w) && v in t.low
    ensures Scanning(g, base, LowerTo(t, v, Min(t.low[v], t.low[w])), gray, v, todo - {w})
  {
    hide Inv, LowBounds, LowWitness;
    AboveBase(g, base, s, gray, v);
    AboveBase(g, base, t, gray, v);
    LowerKeepsInv(g, t, gray + {v}, v, Min(t.low[v], t.low[w]));
    NewWitness(g, base, s, t, v, w);
    NewBounds(g, base, s, t, v, todo, w);
    ExtendsLowered(base, s, t, v, Min(t.low[v], t.low[w]));
  }

  lemma ExtendsLowered<N(!new)>(base: Search<N>, s: Search<N>, t: Search<N>, v: N, l: nat)
    requires Extends(base, s) && Extends(s, t) && v !in base.index && v in s.index
    ensures Extends(base, LowerTo(t, v, l))
  {
  }

  lemma NewBounds<N(!new)>(g: Graph<N>, base: Search<N>, s: Search<N>, t: Search<N>, v: N, todo: set<N>, w: N)
    requires base.onstack <= s.onstack <= s.index.Keys && v in s.onstack && w !in s.index
    requires Extends(s, t) && s.onstack <= t.index.Keys && v in t.low && w in t.low
    requires LowBounds(g, base, s, v, todo, s.low[v]) && LowBounds(g, s, t, w, {}, t.low[w])
    ensures var l := Min(t.low[v], t.low[w]); LowBounds(g, base, LowerTo(t, v, l), v, todo - {w}, l)
  {
  }

  lemma NewWitness<N(!new)>(g: Graph<N>, base: Search<N>, s: Search<N>, t: Search<N>, v: N, w: N)
    requires v in s.index && w in Succ(g, v) && base.onstack <= s.onstack <= s.index.Keys
      && v in s.onstack - base.onstack
    requires forall x | x in s.onstack - base.onstack :: s.index[v] <= s.index[x]
    requires Extends(s, t) && s.onstack <= t.index.Keys && w in t.index && s.index[v] <= t.index[w]
    requires LowWitness(g, base, s, v, s.low[v])
    requires w in t.low && LowWitness(g, s, t, w, t.low[w])
    ensures v in t.low && v in t.index && base.onstack <= t.index.Keys
    ensures var l := Min(t.low[v], t.low[w]); LowWitness(g, base, LowerTo(t, v, l), v, l)
  {
    ReachEdge(g, v, w);
    hide Reach;
    if t.low[w] < t.low[v] {
      assert t.low[w] < s.index[v];
      var y :| y in s.onstack && t.index[y] == t.low[w] && Reach(g, w, y);
      ReachTrans(g, v, w, y);
      assert y in base.onstack;
    } else if s.low[v] != s.index[v] {
      var y :| y in base.onstack && s.index[y] == s.low[v] && Reach(g, v, y);
      assert t.index[y] == s.index[y];
    }
  }

  /** Every open node reaches a successor of the innermost one. */
  lemma RootsReach<N(!new)>(g: Graph<N>, base: Search<N>, s: Search<N>, gray: set<N>, v: N, todo: set<N>, w: N)
    requires Scanning(g, base, s, gray, v, todo) && w in todo
    ensures forall a | a in gray + {v} :: Reach(g, a, w)
  {
    AboveBase(g, base, s, gray, v);
    ReachEdge(g, v, w);
    hide Reach, Emitted, Scanned, AllAnchored;
    forall a | a in gray + {v} ensures Reach(g, a, w) {
      ReachTrans(g, a, v, w);
    }
  }

  lemma AnchorsPersist<N(!new)>(g: Graph<N>, base: Search<N>, s: Search<N>, gray: set<N>)
    requires gray <= base.onstack <= base.index.Keys && AllAnchored(g, base, gray, base.onstack)
    requires Extends(base, s)
    ensures AllAnchored(g, s, gray, base.onstack)
  {
    hide Reach;
    forall y {:trigger Anchored(g, s, gray, y)} | y in base.onstack ensures Anchored(g, s, gray, y) {
      assert Anchored(g, base, gray, y);
      var a :| a in gray && base.index[a] <= base.index[y] && Reach(g, y, a);
      assert s.index[a] <= s.index[y];
    }
  }

  /** A low link equal to the own index leaves no edge down to base's stack. */
  lemma NothingBelow<N(!new)>(g: Graph<N>, base: Search<N>, s: Search<N>, v: N)
    requires base.onstack <= s.index.Keys && v in s.index && LowBounds(g, base, s, v, {}, s.index[v])
    requires forall x | x in base.onstack :: s.index[x] < s.index[v]
    ensures forall x | x in s.onstack - base.onstack :: Succ(g, x) * base.onstack == {}
  {
    hide Succ;
  }

  lemma PopIsDone<N(!new)>(g: Graph<N>, base: Search<N>, s: Search<N>, gray: set<N>, v: N)
    requires Inv(g, Pop(base, s), gray) && Extends(base, s) && base.onstack <= s.index.Keys
    requires v in s.index && v in s.low && s.low[v] == s.index[v] && base.counter <= s.index[v]
    ensures Done(g, base, Pop(base, s), gray, v)
  {
    hide Inv, Reach;
  }

  /** All of v's successors scanned, low link equal to the index: the suffix is popped. */
  lemma ClosePopped<N(!new)>(g: Graph<N>, base: Search<N>, s: Search<N>, gray: set<N>, v: N)
    requires WellFormed(g) && Scanning(g, base, s, gray, v, {}) && s.low[v] == s.index[v]
    ensures Done(g, base, Pop(base, s), gray, v)
  {
    hide Emitted, GrayReach, AllAnchored, Reach;
    AboveBase(g, base, s, gray, v);
    AnchorsPersist(g, base, s, gray);
    NothingBelow(g, base, s, v);
    hide LowBounds;
    PopKeepsInv(g, base, s, gray, v);
    PopIsDone(g, base, s, gray, v);
  }

  /** All of v's successors scanned, low link below the index: v stays on the stack. */
  lemma CloseUnpopped<N(!new)>(g: Graph<N>, base: Search<N>, s: Search<N>, gray: set<N>, v: N)
    requires Scanning(g, base, s, gray, v, {})
    ensures s.low[v] != s.index[v] ==> Done(g, base, s, gray, v)
  {
    hide Reach, Emitted, LowWitness, LowBounds, GrayReach, AllAnchored;
    if s.low[v] == s.index[v] {
      return;
    }
    AboveBase(g, base, s, gray, v);
    AnchorsPersist(g, base, s, gray);
    CloseBelow(g, base, s, gray, v, s.low[v]);
    FewerGray(g, s, gray, v);
  }

  lemma FewerGray<N(!new)>(g: Graph<N>, s: Search<N>, gray: set<N>, v: N)
    requires gray + {v} <= s.onstack <= s.index.Keys && GrayReach(g, s, gray + {v})
    ensures GrayReach(g, s, gray)
  {
    hide Reach;
  }

  /** What a call on v leaves behind. */
  ghost predicate Done<N(!new)>(g: Graph<N>, base: Search<N>, t: Search<N>, gray: set<N>, v: N) {
    && Inv(g, t, gray) && Extends(base, t) && base.onstack <= t.index.Keys
    && v in t.index && v in t.low && base.counter <= t.index[v]
    && LowWitness(g, base, t, v, t.low[v]) && LowBounds(g, base, t, v, {}, t.low[v])
  }

  lemma DoneFacts<N(!new)>(g: Graph<N>, base: Search<N>, t: Search<N>, gray: set<N>, v: N)
    requires Done(g, base, t, gray, v) && gray <= base.low.Keys && base.index.Keys == base.low.Keys
    ensures v in t.low && v in t.index && gray <= t.low.Keys && base.index.Keys <= t.index.Keys
  {
  }

  lemma ScanFacts<N(!new)>(g: Graph<N>, base: Search<N>, s: Search<N>, gray: set<N>, v: N, todo: set<N>)
    requires WellFormed(g) && Scanning(g, base, s, gray, v, todo)
    ensures Inv(g, s, gray + {v}) && todo <= g.Keys
    ensures v in s.index && v in s.low && gray <= s.low.Keys && base.index.Keys + {v} <= s.index.Keys
    ensures s.onstack <= s.index.Keys == s.low.Keys
  {
  }

  lemma PopFacts<N(!new)>(g: Graph<N>, base: Search<N>, s: Search<N>, gray: set<N>, v: N)
    requires Scanning(g, base, s, gray, v, {})
    ensures base.stack + [v] <= s.stack && (forall x :: x in base.onstack <==> x in base.stack)
    ensures (forall x :: x in s.onstack <==> x in s.stack)
    ensures forall i, j | 0 <= i < j < |s.stack| :: s.stack[i] != s.stack[j]
  {
  }

  /** The search object; `adj` is the package graph. */
  class Census<N(==, !new)> {
    const adj: Graph<N>
    var index: map<N, nat>
    var low: map<N, nat>
    var onstack: set<N>
    var stack: seq<N>
    var sccs: seq<set<N>>
    var counter: nat

    ghost function State(): Search<N> reads this {
      Search(index, low, onstack, stack, sccs, counter)
    }

    constructor (g: Graph<N>)
      ensures adj == g && State() == Search(map[], map[], {}, [], [], 0)
    {
      adj := g;
      index, low, onstack, stack, sccs, counter := map[], map[], {}, [], [], 0;
    }

    /** Pops the stack down to and including v. */
    method PopComponent(v: N, ghost base: Search<N>) returns (comp: set<N>)
      requires base.stack + [v] <= stack
      requires forall i, j | 0 <= i < j < |stack| :: stack[i] != stack[j]
      requires (forall x :: x in onstack <==> x in stack) && (forall x :: x in base.onstack <==> x in base.stack)
      modifies this`stack, this`onstack
      ensures stack == base.stack && onstack == base.onstack && comp == old(onstack) - base.onstack
    {
      ghost var full := stack;
      comp := {};
      while true
        invariant base.stack + [v] <= stack <= full
        invariant forall x :: x in onstack <==> x in stack
        invariant forall x :: x in comp <==> x in full[|stack|..]
        decreases |stack|
      {
        var w := stack[|stack| - 1];
        assert full[|base.stack|] == v;
        assert full[|stack| - 1..] == [w] + full[|stack|..];
        assert full[|stack| - 1] == w;
        stack := stack[..|stack| - 1];
        onstack := onstack - {w};
        comp := comp + {w};
        if w == v {
          break;
        }
      }
      assert stack == base.stack;
      assert full == base.stack + full[|stack|..];
    }

    /** One turn of the loop over v's successors: look at w. */
    method Look(v: N, w: N, ghost base: Search<N>, ghost gray: set<N>, ghost todo: set<N>)
      requires WellFormed(adj) && Scanning(adj, base, State(), gray, v, todo) && w in todo
      modifies this
      ensures Scanning(adj, base, State(), gray, v, todo - {w}) && old(index.Keys) <= index.Keys
      decreases adj.Keys - index.Keys, 1
    {
      hide Inv, Scanning, Done, Reach;
      ghost var s := State();
      ScanFacts(adj, base, s, gray, v, todo);
      if w !in index {
        RootsReach(adj, base, s, gray, v, todo, w);
        Strong(w, gray + {v});
        ghost var t := State();
        DoneFacts(adj, s, t, gray + {v}, w);
        low := low[v := Min(low[v], low[w])];
        ScanNew(adj, base, s, t, gray, v, todo, w);
      } else if w in onstack {
        low := low[v := Min(low[v], index[w])];
        ScanOnStack(adj, base, s, gray, v, todo, w);
      } else {
        ScanEmitted(adj, base, s, gray, v, todo, w);
      }
    }

    /** Depth-first search from v; `gray` are the nodes whose calls are open. */
    method Strong(v: N, ghost gray: set<N>)
      requires WellFormed(adj) && Inv(adj, State(), gray) && v in adj && v !in index
      requires forall a | a in gray :: Reach(adj, a, v)
      modifies this
      ensures Done(adj, old(State()), State(), gray, v)
      decreases adj.Keys - index.Keys, 0
    {
      hide Inv, Scanning, Done, Reach, WellFormed;
      ghost var base := State();
      index := index[v := counter];
      low := low[v := counter];
      counter := counter + 1;
      stack := stack + [v];
      onstack := onstack + {v};
      OpenScans(adj, base, gray, v);
      var todo := Succ(adj, v);
      while todo != {}
        invariant Scanning(adj, base, State(), gray, v, todo)
        invariant base.index.Keys <= index.Keys && v in index
        decreases todo
      {
        var w :| w in todo;
        Look(v, w, base, gray, todo);
        todo := todo - {w};
      }
      Close(v, base, gray);
    }

    /** The end of a call: pop v's component, or leave v on the stack. */
    method Close(v: N, ghost base: Search<N>, ghost gray: set<N>)
      requires WellFormed(adj) && Scanning(adj, base, State(), gray, v, {})
      modifies this
      ensures Done(adj, base, State(), gray, v)
    {
      hide Inv, Scanning, Done, Reach;
      ghost var s := State();
      ScanFacts(adj, base, s, gray, v, {});
      if low[v] == index[v] {
        PopFacts(adj, base, s, gray, v);
        var comp := PopComponent(v, base);
        sccs := sccs + [comp];
        ClosePopped(adj, base, s, gray, v);
      } else {
        CloseUnpopped(adj, base, s, gray, v);
      }
    }
  }

  lemma EmptySearchInv<N(!new)>(g: Graph<N>)
    ensures Inv(g, Search(map[], map[], {}, [], [], 0), {})
  {
  }

  lemma AnchorOf<N(!new)>(g: Graph<N>, s: Search<N>, gray: set<N>, ys: set<N>, y: N) returns (a: N)
    requires gray <= s.index.Keys && ys <= s.index.Keys && AllAnchored(g, s, gray, ys) && y in ys
    ensures a in gray
  {
    assert Anchored(g, s, gray, y);
    a :| a in gray && s.index[a] <= s.index[y] && Reach(g, y, a);
  }

  lemma FinishedSearch<N(!new)>(g: Graph<N>, s: Search<N>)
    requires Inv(g, s, {}) && s.index.Keys == g.Keys
    ensures IsSccList(g, s.sccs) && Union(s.sccs) == g.Keys
  {
    hide Reach, IsSccList, Union;
    if s.onstack != {} {
      var y :| y in s.onstack;
      var a := AnchorOf(g, s, {}, s.onstack, y);
      assert false;
    }
  }

  /** The whole search: every package not yet indexed starts a call of its own. */
  method StronglyConnected<N(==, !new)>(g: Graph<N>) returns (sccs: seq<set<N>>)
    requires WellFormed(g)
    ensures IsSccList(g, sccs) && Union(sccs) == g.Keys
  {
    var c := new Census(g);
    EmptySearchInv(g);
    var todo := g.Keys;
    while todo != {}
      invariant c.adj == g && Inv(g, c.State(), {})
      invariant todo <= g.Keys && g.Keys - todo <= c.index.Keys <= g.Keys
      decreases todo
    {
      hide Inv, Done, Reach, WellFormed;
      var v :| v in todo;
      if v !in c.index {
        ghost var base := c.State();
        c.Strong(v, {});
        TopCall(g, base, c.State(), v);
      }
      todo := todo - {v};
    }
    FinishedSearch(g, c.State());
    sccs := c.sccs;
  }

  lemma TopCall<N(!new)>(g: Graph<N>, base: Search<N>, t: Search<N>, v: N)
    requires Done(g, base, t, {}, v)
    ensures Inv(g, t, {}) && base.index.Keys + {v} <= t.index.Keys <= g.Keys
  {
  }

  // ---- what the list of components means ----

  lemma ComponentOf<N(!new)>(g: Graph<N>, cs: seq<set<N>>, u: N) returns (k: nat)
    requires IsSccList(g, cs) && u in Union(cs)
    ensures k < |cs| && u in cs[k] && cs[k] <= g.Keys && IsScc(g, cs[k])
  {
    hide ClosedUnder, Reach;
    k :| 0 <= k < |cs| && u in cs[k];
  }

  lemma MemberOf<N(!new)>(g: Graph<N>, cs: seq<set<N>>, i: nat) returns (u: N)
    requires IsSccList(g, cs) && i < |cs|
    ensures u in cs[i] && cs[i] <= g.Keys && u in Union(cs) && IsScc(g, cs[i])
  {
    hide ClosedUnder, Reach;
    assert IsScc(g, cs[i]);
    hide IsSccList;
    u :| u in cs[i];
  }

  lemma SameIndex<N(!new)>(g: Graph<N>, cs: seq<set<N>>, i: nat, j: nat, u: N)
    requires IsSccList(g, cs) && i < |cs| && j < |cs| && u in cs[i] && u in cs[j]
    ensures i == j
  {
  }

  lemma InSccIffMutual<N(!new)>(g: Graph<N>, c: set<N>, u: N, v: N)
    requires IsScc(g, c) && u in c && v in g
    ensures v in c <==> Mutual(g, u, v)
  {
  }

  /** Two packages share a component exactly when each one reaches the other. */
  lemma SameComponentIffMutual<N(!new)>(g: Graph<N>, cs: seq<set<N>>, u: N, v: N)
    requires IsSccList(g, cs) && Union(cs) == g.Keys && u in g && v in g
    ensures (exists i | 0 <= i < |cs| :: u in cs[i] && v in cs[i]) <==> Mutual(g, u, v)
  {
    var k := ComponentOf(g, cs, u);
    hide Mutual, Union, IsSccList;
    InSccIffMutual(g, cs[k], u, v);
    if i :| 0 <= i < |cs| && u in cs[i] && v in cs[i] {
      SameIndex(g, cs, i, k, u);
    }
  }

  /** Components come out after all other components that can be reached from them. */
  lemma EmittedAfterReachable<N(!new)>(g: Graph<N>, cs: seq<set<N>>, i: nat, j: nat, u: N, w: N)
    requires IsSccList(g, cs) && i < |cs| && j < |cs| && u in cs[i] && w in cs[j] && Reach(g, u, w)
    ensures j <= i
  {
    assert cs[..i + 1][i] == cs[i];
    ReachStaysIn(g, Union(cs[..i + 1]), u, w);
    var k :| 0 <= k < i + 1 && w in cs[..i + 1][k];
    SameIndex(g, cs, k, j, w);
  }

  /** The components do not depend on the order in which packages or edges were visited. */
  lemma ComponentsAreUnique<N(!new)>(g: Graph<N>, cs: seq<set<N>>, ds: seq<set<N>>, i: nat)
    requires IsSccList(g, cs) && Union(cs) == g.Keys && IsSccList(g, ds) && Union(ds) == g.Keys && i < |cs|
    ensures cs[i] in ds
  {
    hide IsScc, IsSccList, Mutual, Union;
    var u := MemberOf(g, cs, i);
    var k := ComponentOf(g, ds, u);
    forall v | v in g ensures v in cs[i] <==> v in ds[k] {
      InSccIffMutual(g, cs[i], u, v);
      InSccIffMutual(g, ds[k], u, v);
    }
    assert cs[i] == ds[k];
  }

  /** The census reports a component of several packages exactly when some two packages
      lie on a common cycle. */
  lemma SeveralPackagesIffCycle<N(!new)>(g: Graph<N>, cs: seq<set<N>>)
    requires IsSccList(g, cs) && Union(cs) == g.Keys
    ensures (exists c | c in cs :: |c| > 1) <==> (exists u, v | u in g && v in g && u != v :: Mutual(g, u, v))
  {
    hide Reach, Union;
    if c :| c in cs && |c| > 1 {
      var u :| u in c;
      assert |c - {u}| == |c| - 1;
      var v :| v in c - {u};
      assert IsScc(g, c);
      hide IsSccList;
      assert Mutual(g, u, v);
    }
    hide IsSccList;
    if u, v :| u in g && v in g && u != v && Mutual(g, u, v) {
      SameComponentIffMutual(g, cs, u, v);
      var i :| 0 <= i < |cs| && u in cs[i] && v in cs[i];
      assert |{u, v}| == 2 && {u, v} <= cs[i];
      assert |cs[i] - {u, v}| == |cs[i]| - |{u, v}|;
      assert cs[i] in cs;
    }
  }
}
