/**
 * What one call does to the cancellation tree: registering is always possible and puts a child or a
 * listener where it was asked for, and a listener removed before it was taken is never called.
 */
module AbortRules {
  import opened Options
  import opened AbortTree

  // ---- registration ----

  /** Everyone of `nodes` has the parent it had and is aborted if it was. */
  ghost predicate SameParents(nodes: seq<Node>, after: seq<Node>) {
    && |nodes| <= |after|
    && forall n: nat | n < |nodes| :: after[n].parent == nodes[n].parent && after[n].aborted == nodes[n].aborted
  }

  lemma {:induction false} SameParentsSameEffect(nodes: seq<Node>, after: seq<Node>, n: nat)
    requires SameParents(nodes, after) && n < |nodes|
    ensures Effective(after, n) <==> Effective(nodes, n)
    decreases n
  {
    var p := nodes[n].parent;
    if p.Some? && p.value < n {
      SameParentsSameEffect(nodes, after, p.value);
    }
  }

  /** A child can always be made, in one of the two ways. It is cancelled exactly when its parent is,
      and then it is about to be told; otherwise its parent will tell it. */
  lemma ChildIsMade(steps: seq<Step>, p: nat)
    requires p < |Run(steps).nodes|
    ensures var t := Run(steps); Possible(t, Child(p, true)) || Possible(t, Child(p, false))
    ensures var t := Run(steps); var c := |t.nodes|;
      forall joins | Possible(t, Child(p, joins)) ::
        var x := Do(t, Child(p, joins));
        && |x.nodes| == c + 1 && SameParents(t.nodes, x.nodes) && x.nodes[c].parent == Some(p)
        && (Effective(x.nodes, c) <==> Effective(t.nodes, p))
        && (if joins then c in x.nodes[p].children else Notify(c) in x.pending)
        && x.homes == t.homes && x.calls == t.calls && x.removed == t.removed
  {
    RunKeepsTree(steps);
    var t := Run(steps);
    hide Run;
    forall joins | Possible(t, Child(p, joins))
      ensures Effective(Do(t, Child(p, joins)).nodes, |t.nodes|) <==> Effective(t.nodes, p)
    {
      SameParentsSameEffect(t.nodes, Do(t, Child(p, joins)).nodes, p);
    }
  }

  /** So can a listener. It waits on the node it was registered on, or is about to be called. */
  lemma ListenerIsRegistered(steps: seq<Step>, n: nat)
    requires n < |Run(steps).nodes|
    ensures var t := Run(steps); Possible(t, Listen(n, true)) || Possible(t, Listen(n, false))
    ensures var t := Run(steps); var l := |t.homes|;
      forall joins | Possible(t, Listen(n, joins)) ::
        var x := Do(t, Listen(n, joins));
        && SameParents(t.nodes, x.nodes) && |x.nodes| == |t.nodes|
        && x.homes == t.homes + [n] && x.calls == t.calls + [0] && x.removed == t.removed
        && (if joins then l in x.nodes[n].listeners else Call(l) in x.pending)
  {
    RunKeepsTree(steps);
    hide Run;
  }

  // ---- removal ----

  /** A listener that is no longer waiting, nor about to be called, and has not been called. */
  ghost predicate Gone(t: Tree, l: nat) {
    l in t.removed && TreeOk(t)
  }

  lemma GoneIsSilent(t: Tree, l: nat)
    requires Gone(t, l)
    ensures l < |t.homes| == |t.calls| && t.calls[l] == 0 && Call(l) !in t.pending
  {
    assert Places(t, l) == 1;
  }

  lemma StaysGone(t: Tree, step: Step, l: nat)
    requires Gone(t, l)
    ensures Gone(Do(t, step), l)
  {
    StepKeepsTree(t, step);
    hide TreeOk;
  }

  lemma {:induction false} RunLast(steps: seq<Step>, more: seq<Step>)
    requires more != []
    ensures Run(steps + more) == Do(Run(steps + more[..|more| - 1]), more[|more| - 1])
  {
    hide Do;
    var all := steps + more;
    assert all[..|all| - 1] == steps + more[..|more| - 1] && all[|all| - 1] == more[|more| - 1];
  }

  lemma {:induction false} GoneForGood(steps: seq<Step>, more: seq<Step>, l: nat)
    requires Gone(Run(steps), l)
    ensures Gone(Run(steps + more), l)
    decreases |more|
  {
    hide Gone, Do, Run;
    if more == [] {
      assert steps + more == steps;
    } else {
      var n := |more| - 1;
      GoneForGood(steps, more[..n], l);
      RunLast(steps, more);
      StaysGone(Run(steps + more[..n]), more[n], l);
    }
  }

  /** A listener that is removed before it has been taken out to be called is never called. */
  lemma RemovalRemoves(steps: seq<Step>, l: nat, more: seq<Step>)
    requires var t := Run(steps); l < |t.homes| == |t.calls| && t.calls[l] == 0 && Call(l) !in t.pending
    ensures var x := Run(steps + [Remove(l)] + more);
      l < |x.homes| == |x.calls| && x.calls[l] == 0 && Call(l) !in x.pending
  {
    var t := Run(steps);
    RunKeepsTree(steps);
    assert t.pending[Call(l)] == 0 && Places(t, l) == 1;
    StepKeepsTree(t, Remove(l));
    assert (steps + [Remove(l)])[..|steps|] == steps;
    assert Run(steps + [Remove(l)]) == Do(t, Remove(l));
    hide Run, TreeOk;
    assert Gone(Do(t, Remove(l)), l);
    GoneForGood(steps + [Remove(l)], more, l);
    GoneIsSilent(Run(steps + [Remove(l)] + more), l);
  }

  /** A removal touches nobody else. */
  lemma RemovalSparesOthers(t: Tree, l: nat, k: nat)
    requires TreeOk(t) && l < |t.homes| && k < |t.homes| && k != l
    ensures var x := Do(t, Remove(l));
      && x.homes == t.homes && x.calls == t.calls && x.pending == t.pending
      && SameParents(t.nodes, x.nodes) && |x.nodes| == |t.nodes|
      && (k in x.removed <==> k in t.removed)
      && (k in x.nodes[t.homes[k]].listeners <==> k in t.nodes[t.homes[k]].listeners)
      && forall n: nat | n < |t.nodes| ::
           x.nodes[n].children == t.nodes[n].children && x.nodes[n].notified == t.nodes[n].notified
  {
  }
}
