/**
 * Cancellation as the code runs it on one thread: flags set and listeners copied out under the
 * node's lock, then the children told one after the other and the listeners called. It is a run
 * of the cancellation tree that leaves nothing pending.
 */
module AbortForest {
  import opened Options
  import opened AbortTree

  // ---- what the methods need to know of the tree ----

  function ToTell(children: set<nat>, listeners: set<nat>): set<Item> {
    Items(Node(None, false, false, children, listeners))
  }

  lemma TellFirst(base: multiset<Item>, children: set<nat>, listeners: set<nat>, c: nat)
    requires c in children
    ensures Notify(c) in base + multiset(ToTell(children, listeners))
    ensures base + multiset(ToTell(children, listeners)) - multiset{Notify(c)} == base +
      multiset(ToTell(children - {c}, listeners))
  {
  }

  lemma CallFirst(base: multiset<Item>, listeners: set<nat>, l: nat)
    requires l in listeners
    ensures Call(l) in base + multiset(ToTell({}, listeners))
    ensures base + multiset(ToTell({}, listeners)) - multiset{Call(l)} == base + multiset(ToTell({}, listeners - {l}))
  {
  }

  lemma NothingToTell()
    ensures ToTell({}, {}) == {}
  {
  }

  lemma ListenNow(t: Tree, n: nat)
    requires TreeOk(t) && t.pending == multiset{} && n < |t.nodes| && Effective(t.nodes, n) && |t.calls| == |t.homes|
    ensures TreeOk(t.(homes := t.homes + [n], calls := t.calls + [1]))
  {
    hide TreeOk, Effective;
    var l, told := |t.homes|, AddListener(t, n, false);
    StepKeepsTree(t, Listen(n, false));
    assert told == t.(homes := t.homes + [n], calls := t.calls + [0], pending := multiset{Call(l)});
    hide AddListener, Do;
    CallStep(told, l);
    assert told.pending - multiset{Call(l)} == multiset{};
    assert told.calls[l := told.calls[l] + 1] == t.calls + [1];
  }

  lemma ListenLater(t: Tree, n: nat)
    requires TreeOk(t) && n < |t.nodes| && !t.nodes[n].notified
    ensures TreeOk(t.(homes := t.homes + [n], calls := t.calls + [0],
      nodes := t.nodes[n := t.nodes[n].(listeners := t.nodes[n].listeners + {|t.homes|})]))
  {
    hide TreeOk, Effective;
    StepKeepsTree(t, Listen(n, true));
  }

  /** Registration with nothing under way: at once on a cancelled node, otherwise later. */
  lemma ListenStep(t: Tree, n: nat)
    requires TreeOk(t) && t.pending == multiset{} && n < |t.nodes|
    ensures Effective(t.nodes, n) ==> TreeOk(t.(homes := t.homes + [n], calls := t.calls + [1]))
    ensures !Effective(t.nodes, n) ==> TreeOk(t.(homes := t.homes + [n], calls := t.calls + [0],
      nodes := t.nodes[n := t.nodes[n].(listeners := t.nodes[n].listeners + {|t.homes|})]))
  {
    QuietIsKnown(t, n);
    hide TreeOk, Effective;
    if Effective(t.nodes, n) {
      ListenNow(t, n);
    } else {
      ListenLater(t, n);
    }
  }

  lemma TellStep(t: Tree, n: nat)
    requires TreeOk(t) && Notify(n) in t.pending
    ensures n < |t.nodes| && TreeOk(Take(t.(pending := t.pending - multiset{Notify(n)}), n))
    ensures forall c | c in t.nodes[n].children :: n < c < |t.nodes|
  {
    PendingIsKnown(t, Notify(n));
    StepKeepsTree(t, Deliver(Notify(n)));
    assert ShapeOk(t.nodes);
    hide TreeOk;
  }

  lemma CallStep(t: Tree, l: nat)
    requires TreeOk(t) && Call(l) in t.pending
    ensures l < |t.calls| && TreeOk(t.(pending := t.pending - multiset{Call(l)}, calls := t.calls[l := t.calls[l] + 1]))
  {
    PendingIsKnown(t, Call(l));
    assert ListenersOk(t);
    StepKeepsTree(t, Deliver(Call(l)));
    hide TreeOk, ListenersOk;
  }

  lemma AbortStep(t: Tree, n: nat)
    requires TreeOk(t) && n < |t.nodes| && !t.nodes[n].aborted
    ensures TreeOk(Take(MarkAborted(t, n), n))
    ensures forall c | c in t.nodes[n].children :: n < c < |t.nodes|
  {
    AbortKeepsOk(t, n);
    assert ShapeOk(t.nodes);
    hide TreeOk;
  }

  lemma ChildNow(t: Tree, p: nat)
    requires TreeOk(t) && t.pending == multiset{} && p < |t.nodes| && Effective(t.nodes, p)
    ensures TreeOk(t.(nodes := t.nodes + [Node(Some(p), false, true, {}, {})]))
  {
    hide TreeOk, Effective;
    var c, told := |t.nodes|, AddChild(t, p, false);
    StepKeepsTree(t, Child(p, false));
    assert told == t.(nodes := t.nodes + [Node(Some(p), false, false, {}, {})], pending := multiset{Notify(c)});
    hide AddChild, Do;
    TellStep(told, c);
    assert told.pending - multiset{Notify(c)} == multiset{};
    assert told.nodes[c] == Node(Some(p), false, false, {}, {}) && Items(told.nodes[c]) == {};
    var rest := told.(pending := multiset{});
    assert multiset(Items(rest.nodes[c])) == multiset{};
    assert Take(rest, c) == t.(nodes := told.nodes[c := Node(Some(p), false, true, {}, {})]);
    assert told.nodes[c := Node(Some(p), false, true, {}, {})] == t.nodes + [Node(Some(p), false, true, {}, {})];
  }

  lemma ChildLater(t: Tree, p: nat)
    requires TreeOk(t) && p < |t.nodes| && !t.nodes[p].notified
    ensures TreeOk(t.(nodes := t.nodes[p := t.nodes[p].(children := t.nodes[p].children + {|t.nodes|})]
      + [Node(Some(p), false, false, {}, {})]))
  {
    hide TreeOk, Effective;
    StepKeepsTree(t, Child(p, true));
    var born := t.nodes + [Node(Some(p), false, false, {}, {})];
    assert born[p := born[p].(children := born[p].children + {|t.nodes|})]
      == t.nodes[p := t.nodes[p].(children := t.nodes[p].children + {|t.nodes|})] + [born[|t.nodes|]];
  }

  class Forest {
    var nodes: seq<Node>
    var homes: seq<nat>
    var calls: seq<nat>
    var removed: set<nat>
    ghost var pending: multiset<Item>

    ghost function View(): Tree
      reads this
    {
      Tree(nodes, homes, calls, removed, pending)
    }

    /** Nothing but notification marks, listeners' places and call counts has changed. */
    twostate predicate SameTree()
      reads this
    {
      && |nodes| == |old(nodes)| && homes == old(homes) && removed == old(removed)
      && forall k: nat | k < |nodes| ::
        nodes[k].parent == old(nodes)[k].parent && nodes[k].aborted == old(nodes)[k].aborted
    }

    constructor ()
      ensures View() == EMPTY
    {
      nodes, homes, calls, removed, pending := [], [], [], {}, multiset{};
    }

    /** A node without a parent. */
    method NewRoot() returns (n: nat)
      requires TreeOk(View())
      modifies this`nodes
      ensures TreeOk(View()) && n == |old(nodes)| && nodes == old(nodes) + [Node(None, false, false, {}, {})]
    {
      StepKeepsTree(View(), Root);
      n := |nodes|;
      nodes := nodes + [Node(None, false, false, {}, {})];
    }

    /** A child; under a cancelled parent it is told at once, which nobody hears yet. */
    method NewChild(p: nat) returns (c: nat)
      requires TreeOk(View()) && pending == multiset{} && p < |nodes|
      modifies this`nodes
      ensures TreeOk(View()) && c == |old(nodes)|
      ensures Effective(old(nodes), p) ==> nodes == old(nodes) + [Node(Some(p), false, true, {}, {})]
      ensures !Effective(old(nodes), p) ==>
        nodes == old(nodes)[p := old(nodes)[p].(children := old(nodes)[p].children + {c})]
                 + [Node(Some(p), false, false, {}, {})]
    {
      hide TreeOk;
      QuietIsKnown(View(), p);
      c := |nodes|;
      if Effective(nodes, p) {
        ChildNow(View(), p);
        nodes := nodes + [Node(Some(p), false, true, {}, {})];
      } else {
        ChildLater(View(), p);
        nodes := nodes[p := nodes[p].(children := nodes[p].children + {c})] + [Node(Some(p), false, false, {}, {})];
      }
    }

    /** What registration gives back to the caller: the listener waits no longer. */
    method RemoveListener(l: nat)
      requires TreeOk(View()) && l < |homes|
      modifies this`nodes, this`removed
      ensures TreeOk(View()) && View() == Do(old(View()), Remove(l))
    {
      hide TreeOk;
      StepKeepsTree(View(), Remove(l));
      var n := homes[l];
      if n < |nodes| && l in nodes[n].listeners {
        nodes, removed := nodes[n := nodes[n].(listeners := nodes[n].listeners - {l})], removed + {l};
      }
    }

    /** The locked part of telling a node: whom to tell next, or nobody the second time. */
    method TakeNotifications(n: nat) returns (children: set<nat>, listeners: set<nat>)
      requires n < |nodes|
      modifies this`nodes, this`pending
      ensures View() == Take(old(View()), n) && SameTree()
      ensures children <= old(nodes)[n].children && pending == old(pending) + multiset(ToTell(children, listeners))
    {
      var node := nodes[n];
      if node.notified {
        NothingToTell();
        return {}, {};
      }
      nodes := nodes[n := node.(notified := true, listeners := {})];
      pending := pending + multiset(Items(node));
      assert ToTell(node.children, node.listeners) == Items(node);
      return node.children, node.listeners;
    }

    method TellNode(n: nat)
      requires TreeOk(View()) && Notify(n) in pending
      modifies this`nodes, this`calls, this`pending
      ensures TreeOk(View()) && pending == old(pending) - multiset{Notify(n)} && SameTree()
      decreases |nodes| - n, 1
    {
      hide TreeOk, Take, ToTell;
      TellStep(View(), n);
      pending := pending - multiset{Notify(n)};
      label told:
      var children, listeners := TakeNotifications(n);
      assert View() == Take(old@told(View()), n);
      Dispatch(n, children, listeners, old@told(pending));
    }

    /** Outside the lock: first the children, then the listeners. */
    method Dispatch(n: nat, children: set<nat>, listeners: set<nat>, ghost base: multiset<Item>)
      requires TreeOk(View()) && n < |nodes| && forall c | c in children :: n < c < |nodes|
      requires pending == base + multiset(ToTell(children, listeners))
      modifies this`nodes, this`calls, this`pending
      ensures TreeOk(View()) && pending == base && SameTree()
      decreases |nodes| - n, 0
    {
      hide TreeOk, ToTell;
      var cs := children;
      while cs != {}
        invariant TreeOk(View()) && SameTree() && cs <= children
        invariant pending == base + multiset(ToTell(cs, listeners))
        decreases cs
      {
        var c :| c in cs;
        TellFirst(base, cs, listeners, c);
        TellNode(c);
        cs := cs - {c};
      }
      CallAll(listeners, base);
    }

    method CallAll(listeners: set<nat>, ghost base: multiset<Item>)
      requires TreeOk(View()) && pending == base + multiset(ToTell({}, listeners))
      modifies this`calls, this`pending
      ensures TreeOk(View()) && pending == base
    {
      hide TreeOk, ToTell;
      var ls := listeners;
      while ls != {}
        invariant TreeOk(View())
        invariant pending == base + multiset(ToTell({}, ls))
        decreases ls
      {
        var l :| l in ls;
        CallFirst(base, ls, l);
        CallStep(View(), l);
        calls := calls[l := calls[l] + 1];
        pending := pending - multiset{Call(l)};
        ls := ls - {l};
      }
      NothingToTell();
    }

    /** Cancels a node and everything under it; true the first time. */
    method AbortNode(n: nat) returns (first: bool)
      requires TreeOk(View()) && pending == multiset{} && n < |nodes|
      modifies this`nodes, this`calls, this`pending
      ensures TreeOk(View()) && pending == multiset{} && first == !old(nodes)[n].aborted
      ensures |nodes| == |old(nodes)| && homes == old(homes) && removed == old(removed)
      ensures forall k: nat | k < |nodes| ::
        nodes[k].parent == old(nodes)[k].parent && (nodes[k].aborted <==> old(nodes)[k].aborted || k == n)
    {
      hide TreeOk, Take, ToTell;
      if nodes[n].aborted {
        return false;
      }
      AbortStep(View(), n);
      nodes := nodes[n := nodes[n].(aborted := true)];
      var children, listeners := TakeNotifications(n);
      Dispatch(n, children, listeners, multiset{});
      return true;
    }

    /** Registers a listener; on a cancelled node it is called at once. */
    method OnAbort(n: nat) returns (l: nat)
      requires TreeOk(View()) && pending == multiset{} && n < |nodes|
      modifies this`nodes, this`homes, this`calls
      ensures TreeOk(View()) && pending == multiset{} && l == |old(homes)| && homes == old(homes) + [n]
      ensures calls == old(calls) + [if Effective(old(nodes), n) then 1 else 0]
      ensures nodes == if Effective(old(nodes), n) then old(nodes)
        else old(nodes)[n := old(nodes)[n].(listeners := old(nodes)[n].listeners + {l})]
    {
      hide TreeOk;
      l := |homes|;
      ListenStep(View(), n);
      homes := homes + [n];
      if Effective(nodes, n) {
        calls := calls + [1];
      } else {
        nodes, calls := nodes[n := nodes[n].(listeners := nodes[n].listeners + {l})], calls + [0];
      }
    }
  }

  /** With nothing under way, told and cancelled are the same. */
  lemma QuietIsKnown(t: Tree, n: nat)
    requires TreeOk(t) && t.pending == multiset{} && n < |t.nodes|
    ensures t.nodes[n].notified <==> Effective(t.nodes, n)
    ensures |t.calls| == |t.homes|
  {
    if Effective(t.nodes, n) {
      ToldWhenQuiet(t, n);
    }
  }
}
