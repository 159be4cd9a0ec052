/**
 * The cancellation tree: nodes inherit cancellation from their parent, listeners are told once.
 * One step is one section under a node's lock; what a thread has copied out and not yet passed on
 * is `pending`, and any of it may be next.
 */
module AbortTree {
  import opened Options

  datatype Node = Node(parent: Option<nat>, aborted: bool, notified: bool, children: set<nat>, listeners: set<nat>)

  /** A node to be told by its parent, or a listener to be called. */
  datatype Item = Notify(n: nat) | Call(l: nat)

  /** `homes[l]` is the node listener l was registered on, `calls[l]` how often it has been called. */
  datatype Tree = Tree(nodes: seq<Node>, homes: seq<nat>, calls: seq<nat>, removed: set<nat>, pending: multiset<Item>)

  datatype Step =
    | Root
    | Child(parent: nat, joins: bool)
    | Listen(n: nat, joins: bool)
    | Remove(l: nat)
    | Abort(n: nat)
    | Deliver(item: Item)

  /** The node or an ancestor has been aborted. */
  predicate Effective(nodes: seq<Node>, n: nat)
    decreases n
  {
    n < |nodes| && (nodes[n].aborted
      || (nodes[n].parent.Some? && nodes[n].parent.value < n && Effective(nodes, nodes[n].parent.value)))
  }

  predicate Under(nodes: seq<Node>, m: nat, n: nat)
    decreases m
  {
    m < |nodes| && (m == n
      || (nodes[m].parent.Some? && nodes[m].parent.value < m && Under(nodes, nodes[m].parent.value, n)))
  }

  function Items(node: Node): set<Item> {
    (set c | c in node.children :: Notify(c)) + (set l | l in node.listeners :: Call(l))
  }

  /** Copies out whom to tell, once. */
  function Take(t: Tree, n: nat): Tree
    requires n < |t.nodes|
  {
    var node := t.nodes[n];
    if node.notified then t
    else t.(nodes := t.nodes[n := node.(notified := true, listeners := {})], pending := t.pending +
      multiset(Items(node)))
  }

  function MarkAborted(t: Tree, n: nat): Tree
    requires n < |t.nodes|
  {
    t.(nodes := t.nodes[n := t.nodes[n].(aborted := true)])
  }

  /** Registration reads the ancestors without their locks. It may still join a node that is
      being cancelled, but no node that has been told; it acts at once only on a cancelled node. */
  predicate Possible(t: Tree, step: Step) {
    match step
    case Root => true
    case Child(p, joins) => p < |t.nodes| && if joins then !t.nodes[p].notified else Effective(t.nodes, p)
    case Listen(n, joins) => n < |t.nodes| && if joins then !t.nodes[n].notified else Effective(t.nodes, n)
    case Remove(l) => l < |t.homes|
    case Abort(n) => n < |t.nodes|
    case Deliver(item) => item in t.pending
  }

  function AddChild(t: Tree, p: nat, joins: bool): Tree
    requires p < |t.nodes|
  {
    var c := |t.nodes|;
    var born := t.nodes + [Node(Some(p), false, false, {}, {})];
    if joins then t.(nodes := born[p := born[p].(children := born[p].children + {c})])
    else t.(nodes := born, pending := t.pending + multiset{Notify(c)})
  }

  function AddListener(t: Tree, n: nat, joins: bool): Tree
    requires n < |t.nodes|
  {
    var l := |t.homes|;
    var known := t.(homes := t.homes + [n], calls := t.calls + [0]);
    if joins then known.(nodes := t.nodes[n := t.nodes[n].(listeners := t.nodes[n].listeners + {l})])
    else known.(pending := t.pending + multiset{Call(l)})
  }

  function Discard(t: Tree, l: nat): Tree
    requires l < |t.homes|
  {
    var n := t.homes[l];
    if n < |t.nodes| && l in t.nodes[n].listeners then
      t.(nodes := t.nodes[n := t.nodes[n].(listeners := t.nodes[n].listeners - {l})], removed := t.removed + {l})
    else t
  }

  function Do(t: Tree, step: Step): Tree {
    if !Possible(t, step) then t
    else match step
    case Root => t.(nodes := t.nodes + [Node(None, false, false, {}, {})])
    case Child(p, joins) => AddChild(t, p, joins)
    case Listen(n, joins) => AddListener(t, n, joins)
    case Remove(l) => Discard(t, l)
    case Abort(n) => if t.nodes[n].aborted then t else Take(MarkAborted(t, n), n)
    case Deliver(item) =>
      var rest := t.(pending := t.pending - multiset{item});
      match item
      case Notify(n) => if n < |t.nodes| then Take(rest, n) else rest
      case Call(l) => if l < |t.calls| then rest.(calls := t.calls[l := t.calls[l] + 1]) else rest
  }

  const EMPTY := Tree([], [], [], {}, multiset{})

  function Run(steps: seq<Step>): Tree {
    if steps == [] then EMPTY else Do(Run(steps[..|steps| - 1]), steps[|steps| - 1])
  }

  // ---- the invariant ----

  ghost predicate ShapeOk(nodes: seq<Node>) {
    && (forall n: nat | n < |nodes| && nodes[n].parent.Some? :: nodes[n].parent.value < n)
    && (forall n: nat, c: nat {:trigger c in nodes[n].children} | n < |nodes| && c in nodes[n].children ::
      n < c < |nodes| && nodes[c].parent == Some(n))
  }

  /** Every listener is at exactly one place: waiting, taken, called once, or removed. */
  function Places(t: Tree, l: nat): nat
    requires l < |t.homes| == |t.calls|
  {
    t.pending[Call(l)] + t.calls[l] + (if l in t.removed then 1 else 0)
    + (if t.homes[l] < |t.nodes| && l in t.nodes[t.homes[l]].listeners then 1 else 0)
  }

  ghost predicate ListenersOk(t: Tree) {
    && |t.homes| == |t.calls|
    && (forall l: nat | l < |t.homes| :: t.homes[l] < |t.nodes|)
    && (forall n: nat, l: nat {:trigger l in t.nodes[n].listeners} | n < |t.nodes| && l in t.nodes[n].listeners ::
      l < |t.homes| && t.homes[l] == n)
    && (forall l: nat | l < |t.homes| :: Places(t, l) == 1)
    && (forall l | l in t.removed :: l < |t.homes|)
    && (forall n: nat | n < |t.nodes| && t.nodes[n].notified :: t.nodes[n].listeners == {})
    && (forall l: nat {:trigger t.pending[Call(l)]} | Call(l) in t.pending :: l < |t.homes|)
  }

  /** A node that has not been told is about to be, or will be when its parent is. */
  predicate ReachAt(t: Tree, n: nat)
    requires n < |t.nodes|
  {
    && (t.nodes[n].aborted ==> t.nodes[n].notified)
    && (!t.nodes[n].notified && t.nodes[n].parent.Some? ==> Notify(n) in t.pending || Waits(t.nodes, n))
  }

  predicate Waits(nodes: seq<Node>, n: nat) {
    Joined(nodes, n) && !nodes[nodes[n].parent.value].notified
  }

  ghost predicate ReachOk(t: Tree) {
    forall n: nat | n < |t.nodes| :: ReachAt(t, n)
  }

  predicate Joined(nodes: seq<Node>, n: nat) {
    n < |nodes| && nodes[n].parent.Some? && nodes[n].parent.value < |nodes|
      && n in nodes[nodes[n].parent.value].children
  }

  /** Only what is cancelled is told. */
  ghost predicate SoundOk(t: Tree) {
    && (forall n: nat | n < |t.nodes| && t.nodes[n].notified :: Effective(t.nodes, n))
    && (forall n | Notify(n) in t.pending :: Effective(t.nodes, n))
    && (forall l: nat | l < |t.homes| && l < |t.calls| && (Call(l) in t.pending || t.calls[l] > 0) ::
      Effective(t.nodes, t.homes[l]))
  }

  ghost predicate TreeOk(t: Tree) {
    ShapeOk(t.nodes) && ListenersOk(t) && ReachOk(t) && SoundOk(t)
  }

  // ---- cancellation is inherited and never taken back ----

  /** Same parents; aborted nodes stay aborted. */
  predicate Extends(nodes: seq<Node>, after: seq<Node>) {
    |nodes| <= |after| && forall n: nat | n < |nodes| ::
      after[n].parent == nodes[n].parent && (nodes[n].aborted ==> after[n].aborted)
  }

  lemma {:induction false} EffectiveStays(nodes: seq<Node>, after: seq<Node>, n: nat)
    requires Extends(nodes, after) && Effective(nodes, n)
    ensures Effective(after, n)
    decreases n
  {
    if !nodes[n].aborted {
      EffectiveStays(nodes, after, nodes[n].parent.value);
    }
  }

  /** An abort cancels exactly the subtree. */
  lemma {:induction false} AbortReaches(t: Tree, n: nat, m: nat)
    requires n < |t.nodes| && ShapeOk(t.nodes)
    ensures Effective(Do(t, Abort(n)).nodes, m) <==> Effective(t.nodes, m) || Under(t.nodes, m, n)
    decreases m
  {
    var after := Do(t, Abort(n)).nodes;
    assert |after| == |t.nodes| && forall k | 0 <= k < |after| ::
      after[k].parent == t.nodes[k].parent && (after[k].aborted <==> t.nodes[k].aborted || k == n);
    hide Do;
    if m < |t.nodes| && t.nodes[m].parent.Some? {
      AbortReaches(t, n, t.nodes[m].parent.value);
    }
  }

  // ---- telling a node ----

  lemma TakenItems(t: Tree, n: nat)
    requires n < |t.nodes| && !t.nodes[n].notified
    ensures var u := Take(t, n);
      && (forall l: nat :: u.pending[Call(l)] == t.pending[Call(l)] + if l in t.nodes[n].listeners then 1 else 0)
      && (forall c: nat :: Notify(c) in u.pending <==> Notify(c) in t.pending || c in t.nodes[n].children)
  {
  }

  lemma TakeKeepsListeners(t: Tree, n: nat)
    requires n < |t.nodes| && ListenersOk(t)
    ensures ListenersOk(Take(t, n))
  {
    var u := Take(t, n);
    if !t.nodes[n].notified {
      TakenItems(t, n);
      assert u.homes == t.homes && u.calls == t.calls && u.removed == t.removed;
      assert forall k: nat | k < |t.nodes| :: u.nodes[k].listeners == if k == n then {} else t.nodes[k].listeners;
      assert forall k: nat | k < |t.nodes| && u.nodes[k].notified :: k == n || t.nodes[k].notified;
      hide Take;
      forall l: nat | l < |u.homes| ensures Places(u, l) == 1 {
        assert Places(t, l) == 1;
      }
      hide Places;
      forall l: nat | Call(l) in u.pending ensures l < |u.homes| {
        assert u.pending[Call(l)] > 0;
        assert l in t.nodes[n].listeners || Call(l) in t.pending;
      }
    }
  }

  lemma TakeKeepsReach(t: Tree, n: nat)
    requires n < |t.nodes| && ShapeOk(t.nodes)
    requires forall m: nat | m < |t.nodes| && m != n :: ReachAt(t, m)
    requires t.nodes[n].notified ==> ReachAt(t, n)
    ensures ShapeOk(Take(t, n).nodes) && ReachOk(Take(t, n))
  {
    var u := Take(t, n);
    if !t.nodes[n].notified {
      TakenItems(t, n);
      assert forall k: nat | k < |t.nodes| ::
        u.nodes[k] == t.nodes[k].(notified := k == n || t.nodes[k].notified, listeners := u.nodes[k].listeners);
      hide Take;
      assert ShapeOk(u.nodes);
      forall m: nat | m < |u.nodes| ensures ReachAt(u, m) {
        if m != n {
          assert ReachAt(t, m);
        }
      }
    }
  }

  lemma AllEffectiveStay(nodes: seq<Node>, after: seq<Node>)
    requires Extends(nodes, after)
    ensures forall n | Effective(nodes, n) :: Effective(after, n)
  {
    forall n | Effective(nodes, n) ensures Effective(after, n) {
      EffectiveStays(nodes, after, n);
    }
  }

  lemma ChildrenEffective(nodes: seq<Node>, n: nat)
    requires ShapeOk(nodes) && Effective(nodes, n)
    ensures forall c: nat | c in nodes[n].children :: Effective(nodes, c)
  {
  }

  lemma TakeKeepsSound(t: Tree, n: nat)
    requires n < |t.nodes| && ShapeOk(t.nodes) && ListenersOk(t) && SoundOk(t) && Effective(t.nodes, n)
    ensures SoundOk(Take(t, n))
  {
    var u := Take(t, n);
    if !t.nodes[n].notified {
      assert forall l: nat | l in t.nodes[n].listeners :: l < |t.homes| && t.homes[l] == n;
      hide ListenersOk;
      ChildrenEffective(t.nodes, n);
      hide ShapeOk, Effective;
      TakenItems(t, n);
      AllEffectiveStay(t.nodes, u.nodes);
      assert u.homes == t.homes && u.calls == t.calls && |u.nodes| == |t.nodes|;
      assert forall k: nat | k < |t.nodes| :: u.nodes[k].notified <==> k == n || t.nodes[k].notified;
      hide Take;
      SoundAfter(t, u, n);
    }
  }

  lemma SoundAfter(t: Tree, u: Tree, n: nat)
    requires n < |t.nodes| == |u.nodes| && SoundOk(t) && Effective(t.nodes, n) && u.homes == t.homes
      && u.calls == t.calls
    requires forall k: nat | Effective(t.nodes, k) :: Effective(u.nodes, k)
    requires forall k: nat | k < |t.nodes| :: u.nodes[k].notified <==> k == n || t.nodes[k].notified
    requires forall c: nat | c in t.nodes[n].children :: Effective(t.nodes, c)
    requires forall l: nat | l in t.nodes[n].listeners :: l < |t.homes| && t.homes[l] == n
    requires forall l: nat :: u.pending[Call(l)] == t.pending[Call(l)] + if l in t.nodes[n].listeners then 1 else 0
    requires forall c: nat :: Notify(c) in u.pending <==> Notify(c) in t.pending || c in t.nodes[n].children
    ensures SoundOk(u)
  {
  }

  lemma MarkKeeps(t: Tree, n: nat)
    requires TreeOk(t) && n < |t.nodes|
    ensures var a := MarkAborted(t, n);
      ShapeOk(a.nodes) && ListenersOk(a) && SoundOk(a) && Effective(a.nodes, n)
      && forall m: nat | m < |a.nodes| && m != n :: ReachAt(a, m)
  {
    var a := MarkAborted(t, n);
    AllEffectiveStay(t.nodes, a.nodes);
    assert forall k: nat | k < |t.nodes| :: a.nodes[k] == if k == n then t.nodes[n].(aborted := true) else t.nodes[k];
    assert a == t.(nodes := a.nodes);
    hide MarkAborted;
    assert ShapeOk(a.nodes);
    assert Effective(a.nodes, n);
    hide Effective;
    assert SoundOk(a);
    hide SoundOk;
    forall l: nat | l < |t.homes| ensures Places(a, l) == 1 {
      assert Places(t, l) == 1;
    }
    assert ListenersOk(a);
    hide ListenersOk;
    forall m: nat | m < |a.nodes| && m != n ensures ReachAt(a, m) {
      assert ReachAt(t, m);
    }
  }

  lemma AbortKeepsOk(t: Tree, n: nat)
    requires TreeOk(t) && n < |t.nodes|
    ensures TreeOk(Do(t, Abort(n)))
  {
    if !t.nodes[n].aborted {
      var a := MarkAborted(t, n);
      MarkKeeps(t, n);
      if t.nodes[n].notified {
        assert ReachAt(a, n) by { assert ReachAt(t, n); }
      }
      hide MarkAborted, ShapeOk, ListenersOk, SoundOk, ReachOk, Effective, ReachAt;
      TakeKeepsListeners(a, n);
      TakeKeepsReach(a, n);
      TakeKeepsSound(a, n);
    }
  }

  // ---- passing on, registering, removing ----

  lemma ConsumeKeeps(t: Tree, n: nat)
    requires TreeOk(t) && n < |t.nodes| && Notify(n) in t.pending
    ensures TreeOk(Do(t, Deliver(Notify(n))))
  {
    var rest := t.(pending := t.pending - multiset{Notify(n)});
    assert Effective(t.nodes, n);
    assert forall i | i != Notify(n) :: rest.pending[i] == t.pending[i];
    ConsumeListeners(t, rest);
    ConsumeSound(t, rest);
    ConsumeReach(t, rest, n);
    hide ListenersOk, SoundOk, ReachOk, Effective, ReachAt, ShapeOk;
    TakeKeepsListeners(rest, n);
    TakeKeepsReach(rest, n);
    TakeKeepsSound(rest, n);
  }

  lemma ConsumeSound(t: Tree, u: Tree)
    requires SoundOk(t) && u == t.(pending := u.pending) && u.pending <= t.pending
    ensures SoundOk(u)
  {
    hide Effective;
  }

  lemma ConsumeReach(t: Tree, u: Tree, n: nat)
    requires ReachOk(t) && u == t.(pending := u.pending) && n < |t.nodes|
    requires forall i | i != Notify(n) :: u.pending[i] == t.pending[i]
    ensures forall m: nat | m < |u.nodes| && (m != n || u.nodes[n].notified) :: ReachAt(u, m)
  {
    forall m: nat | m < |u.nodes| && (m != n || u.nodes[n].notified) ensures ReachAt(u, m) {
      assert ReachAt(t, m);
      assert m != n ==> (Notify(m) in u.pending <==> u.pending[Notify(m)] > 0);
      assert Notify(m) in t.pending <==> t.pending[Notify(m)] > 0;
    }
  }

  /** Only what is pending for nodes has changed. */
  lemma ConsumeListeners(t: Tree, u: Tree)
    requires ListenersOk(t) && u == t.(pending := u.pending) && forall l: nat ::
      u.pending[Call(l)] == t.pending[Call(l)]
    ensures ListenersOk(u)
  {
    forall l: nat | l < |u.homes| ensures Places(u, l) == 1 {
      assert Places(t, l) == 1;
    }
  }

  lemma CallSound(t: Tree, u: Tree, l: nat)
    requires SoundOk(t) && l < |t.homes| == |t.calls| && Call(l) in t.pending
    requires u == t.(pending := u.pending, calls := t.calls[l := t.calls[l] + 1])
    requires forall i | i in u.pending :: i in t.pending
    ensures SoundOk(u)
  {
    hide Effective;
  }

  /** Reaching a node depends on the nodes and on who is about to be told. */
  lemma SameReach(t: Tree, u: Tree)
    requires ReachOk(t) && u.nodes == t.nodes && forall n: nat :: Notify(n) in t.pending ==> Notify(n) in u.pending
    ensures ReachOk(u)
  {
    forall m: nat | m < |u.nodes| ensures ReachAt(u, m) {
      assert ReachAt(t, m);
    }
  }

  lemma CallKeeps(t: Tree, l: nat)
    requires TreeOk(t) && Call(l) in t.pending
    ensures TreeOk(Do(t, Deliver(Call(l))))
  {
    var u := Do(t, Deliver(Call(l)));
    assert t.pending[Call(l)] > 0;
    assert u == t.(pending := t.pending - multiset{Call(l)}, calls := t.calls[l := t.calls[l] + 1]);
    assert forall i :: u.pending[i] == t.pending[i] - if i == Call(l) then 1 else 0;
    hide Do, Effective, ReachAt, Places;
    CallListeners(t, u, l);
    CallSound(t, u, l);
    hide ListenersOk, SoundOk;
    SameReach(t, u);
  }

  lemma CallListeners(t: Tree, u: Tree, l: nat)
    requires ListenersOk(t) && Call(l) in t.pending && l < |t.calls|
    requires u == t.(pending := u.pending, calls := t.calls[l := t.calls[l] + 1])
    requires forall k: nat :: u.pending[Call(k)] == t.pending[Call(k)] - if k == l then 1 else 0
    ensures ListenersOk(u)
  {
    forall k: nat | k < |u.homes| ensures Places(u, k) == 1 {
      assert Places(t, k) == 1;
    }
  }

  lemma ListenKeeps(t: Tree, n: nat, joins: bool)
    requires TreeOk(t) && Possible(t, Listen(n, joins))
    ensures TreeOk(AddListener(t, n, joins))
  {
    var u, l := AddListener(t, n, joins), |t.homes|;
    AllEffectiveStay(t.nodes, u.nodes);
    assert Call(l) !in t.pending;
    assert t.pending[Call(l)] == 0;
    hide Effective;
    ListenListeners(t, u, n, l, joins);
    assert forall i | i in u.pending :: i in t.pending || (!joins && i == Call(l));
    assert forall k: nat | k < |t.nodes| :: u.nodes[k].notified == t.nodes[k].notified;
    ListenSound(t, u, n, l, joins);
    forall m: nat | m < |u.nodes| ensures ReachAt(u, m) {
      assert ReachAt(t, m);
    }
  }

  lemma ListenListeners(t: Tree, u: Tree, n: nat, l: nat, joins: bool)
    requires ListenersOk(t) && n < |t.nodes| && u == AddListener(t, n, joins) && l == |t.homes|
      && t.pending[Call(l)] == 0
    requires joins ==> !t.nodes[n].notified
    ensures ListenersOk(u)
  {
    assert forall k: nat | k < |t.nodes| ::
      u.nodes[k].listeners == t.nodes[k].listeners + if joins && k == n then {l} else {};
    assert forall k: nat :: u.pending[Call(k)] == t.pending[Call(k)] + if k == l && !joins then 1 else 0;
    assert u.homes == t.homes + [n] && u.calls == t.calls + [0] && u.removed == t.removed;
    assert forall k: nat | k < |t.nodes| :: u.nodes[k].notified == t.nodes[k].notified;
    hide AddListener;
    forall k: nat | k < |u.homes| ensures Places(u, k) == 1 {
      if k < l {
        assert Places(t, k) == 1;
      }
    }
    hide Places;
    forall k: nat | Call(k) in u.pending ensures k < |u.homes| {
      assert u.pending[Call(k)] > 0;
    }
  }

  lemma ListenSound(t: Tree, u: Tree, n: nat, l: nat, joins: bool)
    requires SoundOk(t) && n < |t.nodes| == |u.nodes| && l == |t.homes| == |t.calls| && t.pending[Call(l)] == 0
    requires u.homes == t.homes + [n] && u.calls == t.calls + [0]
    requires forall i | i in u.pending :: i in t.pending || (!joins && i == Call(l))
    requires forall k: nat | k < |t.nodes| :: u.nodes[k].notified == t.nodes[k].notified
    requires !joins ==> Effective(t.nodes, n)
    requires forall k: nat | Effective(t.nodes, k) :: Effective(u.nodes, k)
    ensures SoundOk(u)
  {
    hide Effective;
    forall k: nat | k < |u.homes| && k < |u.calls| && (Call(k) in u.pending || u.calls[k] > 0)
      ensures Effective(u.nodes, u.homes[k]) {
      assert k < l ==> Effective(t.nodes, t.homes[k]);
    }
  }

  lemma ChildKeeps(t: Tree, p: nat, joins: bool)
    requires TreeOk(t) && Possible(t, Child(p, joins))
    ensures TreeOk(AddChild(t, p, joins))
  {
    var u, c := AddChild(t, p, joins), |t.nodes|;
    AllEffectiveStay(t.nodes, u.nodes);
    assert Effective(t.nodes, p) ==> Effective(u.nodes, c);
    hide Effective;
    assert u.homes == t.homes && u.calls == t.calls && u.removed == t.removed;
    assert forall i :: u.pending[i] == t.pending[i] + if !joins && i == Notify(c) then 1 else 0;
    assert |u.nodes| == c + 1 && u.nodes[c] == Node(Some(p), false, false, {}, {});
    assert forall k: nat | k < c ::
      u.nodes[k] == if joins && k == p then t.nodes[k].(children := t.nodes[k].children + {c}) else t.nodes[k];
    hide AddChild;
    ChildListeners(t, u);
    hide ListenersOk;
    ChildShape(t, u, p, joins);
    hide ShapeOk;
    ChildSound(t, u, p);
    hide SoundOk;
    ChildReach(t, u, p, joins);
  }

  lemma ChildShape(t: Tree, u: Tree, p: nat, joins: bool)
    requires ShapeOk(t.nodes) && p < |t.nodes| && |u.nodes| == |t.nodes| + 1
    requires u.nodes[|t.nodes|] == Node(Some(p), false, false, {}, {})
    requires forall k: nat | k < |t.nodes| ::
      u.nodes[k] == if joins && k == p then t.nodes[k].(children := t.nodes[k].children + {|t.nodes|}) else t.nodes[k]
    ensures ShapeOk(u.nodes)
  {
  }

  lemma ChildSound(t: Tree, u: Tree, p: nat)
    requires SoundOk(t) && |u.nodes| == |t.nodes| + 1 && u.homes == t.homes && u.calls == t.calls
      && !u.nodes[|t.nodes|].notified
    requires forall k: nat | k < |t.nodes| :: u.nodes[k].notified == t.nodes[k].notified
    requires forall k: nat | Effective(t.nodes, k) :: Effective(u.nodes, k)
    requires forall i | i in u.pending :: i in t.pending || (i == Notify(|t.nodes|) && Effective(u.nodes, |t.nodes|))
    ensures SoundOk(u)
  {
  }

  lemma ChildReach(t: Tree, u: Tree, p: nat, joins: bool)
    requires ReachOk(t) && p < |t.nodes| && |u.nodes| == |t.nodes| + 1
    requires u.nodes[|t.nodes|] == Node(Some(p), false, false, {}, {})
    requires forall k: nat | k < |t.nodes| ::
      u.nodes[k] == if joins && k == p then t.nodes[k].(children := t.nodes[k].children + {|t.nodes|}) else t.nodes[k]
    requires forall i | i in t.pending :: i in u.pending
    requires if joins then !t.nodes[p].notified else Notify(|t.nodes|) in u.pending
    ensures ReachOk(u)
  {
    forall m: nat | m < |u.nodes| ensures ReachAt(u, m) {
      if m < |t.nodes| {
        assert ReachAt(t, m);
      }
    }
  }

  /** Nodes gain children only. */
  lemma ChildListeners(t: Tree, u: Tree)
    requires ListenersOk(t) && u.homes == t.homes && u.calls == t.calls && u.removed == t.removed
      && |u.nodes| == |t.nodes| + 1
    requires forall l: nat :: u.pending[Call(l)] == t.pending[Call(l)]
    requires forall k: nat | k < |t.nodes| ::
      u.nodes[k].listeners == t.nodes[k].listeners && u.nodes[k].notified == t.nodes[k].notified
    requires u.nodes[|t.nodes|].listeners == {}
    ensures ListenersOk(u)
  {
    forall l: nat | l < |u.homes| ensures Places(u, l) == 1 {
      assert Places(t, l) == 1;
    }
  }

  lemma RootKeeps(t: Tree)
    requires TreeOk(t)
    ensures TreeOk(Do(t, Root))
  {
    var u, c := Do(t, Root), |t.nodes|;
    AllEffectiveStay(t.nodes, u.nodes);
    hide Effective;
    assert u == t.(nodes := u.nodes) && |u.nodes| == c + 1 && u.nodes[c] == Node(None, false, false, {}, {});
    assert forall k: nat | k < c :: u.nodes[k] == t.nodes[k];
    hide Do;
    assert ShapeOk(u.nodes);
    ChildListeners(t, u);
    hide ListenersOk;
    assert SoundOk(u);
    hide SoundOk;
    forall m: nat | m < |u.nodes| ensures ReachAt(u, m) {
      if m < c {
        assert ReachAt(t, m);
      }
    }
  }

  lemma RemoveKeeps(t: Tree, l: nat)
    requires TreeOk(t) && l < |t.homes|
    ensures TreeOk(Discard(t, l))
  {
    var u, n := Discard(t, l), t.homes[l];
    if n < |t.nodes| && l in t.nodes[n].listeners {
      AllEffectiveStay(t.nodes, u.nodes);
      hide Effective;
      assert u.homes == t.homes && u.calls == t.calls && u.removed == t.removed + {l} && u.pending == t.pending
        && |u.nodes| == |t.nodes|;
      assert forall k: nat | k < |t.nodes| ::
        u.nodes[k] == if k == n then t.nodes[n].(listeners := t.nodes[n].listeners - {l}) else t.nodes[k];
      hide Discard;
      assert ShapeOk(u.nodes);
      assert SoundOk(u);
      hide SoundOk;
      forall k: nat | k < |u.homes| ensures Places(u, k) == 1 {
        assert Places(t, k) == 1;
      }
      forall m: nat | m < |u.nodes| ensures ReachAt(u, m) {
        assert ReachAt(t, m);
      }
    }
  }

  lemma StepKeepsTree(t: Tree, step: Step)
    requires TreeOk(t)
    ensures TreeOk(Do(t, step))
  {
    hide TreeOk;
    if Possible(t, step) {
      match step {
        case Root => RootKeeps(t);
        case Child(p, joins) => ChildKeeps(t, p, joins);
        case Listen(n, joins) => ListenKeeps(t, n, joins);
        case Remove(l) => RemoveKeeps(t, l);
        case Abort(n) => AbortKeepsOk(t, n);
        case Deliver(item) =>
          PendingIsKnown(t, item);
          match item {
            case Notify(n) => ConsumeKeeps(t, n);
            case Call(l) => CallKeeps(t, l);
          }
      }
    }
  }

  lemma PendingIsKnown(t: Tree, item: Item)
    requires TreeOk(t) && item in t.pending
    ensures match item case Notify(n) => n < |t.nodes| case Call(l) => l < |t.homes|
  {
  }

  lemma {:induction false} RunKeepsTree(steps: seq<Step>)
    ensures TreeOk(Run(steps))
  {
    if steps != [] {
      RunKeepsTree(steps[..|steps| - 1]);
      StepKeepsTree(Run(steps[..|steps| - 1]), steps[|steps| - 1]);
    }
  }

  // ---- what it means ----

  /** Nothing is under way: every node that is cancelled has been told. */
  lemma {:induction false} ToldWhenQuiet(t: Tree, n: nat)
    requires TreeOk(t) && t.pending == multiset{} && Effective(t.nodes, n)
    ensures t.nodes[n].notified
    decreases n
  {
    assert ReachAt(t, n);
    if !t.nodes[n].notified {
      ToldWhenQuiet(t, t.nodes[n].parent.value);
    }
  }

  /** Once nothing is under way, a listener has been called exactly once if its node is cancelled,
      unless it was removed in time, and not at all otherwise. */
  lemma CalledExactlyOnce(steps: seq<Step>, l: nat)
    requires Run(steps).pending == multiset{} && l < |Run(steps).homes|
    ensures var t := Run(steps);
      |t.calls| == |t.homes| && t.calls[l] == if Effective(t.nodes, t.homes[l]) && l !in t.removed then 1 else 0
  {
    RunKeepsTree(steps);
    var t := Run(steps);
    hide Run;
    assert Places(t, l) == 1;
    if Effective(t.nodes, t.homes[l]) {
      ToldWhenQuiet(t, t.homes[l]);
    }
  }

  /** At any moment: no listener has been called twice, none whose node is not cancelled, and
      neither is any such node told or about to be. */
  lemma NothingOutside(steps: seq<Step>, l: nat, n: nat)
    ensures var t := Run(steps); l < |t.homes| ==>
      |t.calls| == |t.homes| && t.calls[l] <= 1
        && (t.calls[l] == 1 ==> Effective(t.nodes, t.homes[l]) && l !in t.removed)
    ensures var t := Run(steps); n < |t.nodes| && !Effective(t.nodes, n) ==>
      !t.nodes[n].aborted && !t.nodes[n].notified && Notify(n) !in t.pending
  {
    RunKeepsTree(steps);
    var t := Run(steps);
    hide Run;
    if l < |t.homes| {
      assert Places(t, l) == 1;
    }
    if n < |t.nodes| {
      assert ReachAt(t, n);
    }
  }

  // ---- passing on comes to an end ----

  /** What is still to be passed on: what is pending, and what untold nodes would add. */
  function Untold(nodes: seq<Node>): nat {
    if nodes == [] then 0
    else Untold(nodes[1..]) + if nodes[0].notified then 0 else |Items(nodes[0])|
  }

  function Work(t: Tree): nat {
    |t.pending| + Untold(t.nodes)
  }

  lemma {:induction false} UntoldUpdate(nodes: seq<Node>, n: nat, node: Node)
    requires n < |nodes| && !nodes[n].notified && node.notified
    ensures Untold(nodes) == Untold(nodes[n := node]) + |Items(nodes[n])|
    decreases n
  {
    if n == 0 {
      assert nodes[n := node][1..] == nodes[1..];
    } else {
      UntoldUpdate(nodes[1..], n - 1, node);
      assert nodes[n := node][1..] == nodes[1..][n - 1 := node];
    }
  }

  /** Every delivery leaves less to do, so passing on ends in any order. */
  lemma DeliveriesEnd(t: Tree, item: Item)
    requires item in t.pending
    ensures Work(Do(t, Deliver(item))) < Work(t)
  {
    var rest := t.(pending := t.pending - multiset{item});
    assert |rest.pending| == |t.pending| - 1;
    if item.Notify? && item.n < |t.nodes| && !t.nodes[item.n].notified {
      var node := t.nodes[item.n];
      UntoldUpdate(t.nodes, item.n, node.(notified := true, listeners := {}));
      assert |multiset(Items(node))| == |Items(node)|;
    }
  }
}
