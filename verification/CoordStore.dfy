/** The coordination store and the planner calls on it, step by step; each method is tied to the
    protocol step of the same effect. */
module CoordStore {
  import opened Options
  import opened Collections
  import opened CoordTask
  import opened CoordLeases
  import opened CoordProtocol
  import opened CoordGrants
  import opened Digraph
  import opened TaskGraph

  /** The first dependency of a draft, in draft order, that is no task of the union. */
  function FirstMissing(drafts: seq<Task>, union: map<string, Task>): (r: Option<string>)
    ensures r.Some? ==> r.value !in union && exists i | 0 <= i < |drafts| :: r.value in drafts[i].deps
    ensures r.None? ==> forall i, d | 0 <= i < |drafts| && d in drafts[i].deps :: d in union
  {
    if drafts == [] then None
    else
      var n := |drafts| - 1;
      match FirstMissing(drafts[..n], union)
      case Some(d) => Some(d)
      case None => MissingIn(drafts[n].deps, union)
  }

  function MissingIn(deps: seq<string>, union: map<string, Task>): (r: Option<string>)
    ensures r.Some? ==> r.value in deps && r.value !in union
    ensures r.None? ==> forall d | d in deps :: d in union
  {
    if deps == [] then None
    else if deps[0] !in union then Some(deps[0])
    else MissingIn(deps[1..], union)
  }

  predicate AnyKnown(tasks: map<string, Task>, drafts: seq<Task>) {
    exists i | 0 <= i < |drafts| :: drafts[i].id in tasks
  }

  predicate AnyInvalid(drafts: seq<Task>) {
    exists i | 0 <= i < |drafts| :: !ValidId(drafts[i].id)
  }

  /** Why a batch is rejected; None when it is accepted. A dependency named by the empty string passes
      the test for missing ones, so what follows it is reported as a cycle. */
  ghost function Reason(tasks: map<string, Task>, drafts: seq<Task>): Option<Rejection> {
    var missing := FirstMissing(drafts, WithDrafts(tasks, drafts));
    if AnyKnown(tasks, drafts) then Some(DuplicateTaskId)
    else if AnyInvalid(drafts) then Some(InvalidTaskId)
    else if missing.Some? && missing.value != "" then Some(UnknownDep(missing.value))
    else if !Admissible(tasks, drafts) then Some(CyclicDependencies)
    else None
  }

  class Store {
    const norm: Norm
    var tasks: map<string, Task>
    var leases: seq<Lease>

    ghost function View(): State reads this {
      State(tasks, leases)
    }

    constructor (norm: Norm)
      ensures this.norm == norm && View() == EMPTY
    {
      this.norm := norm;
      tasks, leases := map[], [];
    }

    /** Publishes a batch of drafts in one write, or rejects it and writes nothing. */
    method PublishDrafts(drafts: seq<Task>) returns (reason: Option<Rejection>)
      requires forall i, j | 0 <= i < j < |drafts| :: drafts[i].id != drafts[j].id
      modifies this`tasks
      ensures View() == Publish(old(View()), drafts)
      ensures reason == Reason(old(tasks), drafts) && (reason == None <==> Admissible(old(tasks), drafts))
    {
      hide HasCycle, WellFormed;
      var union := WithDrafts(tasks, drafts);
      if AnyKnown(tasks, drafts) {
        return Some(DuplicateTaskId);
      }
      if AnyInvalid(drafts) {
        return Some(InvalidTaskId);
      }
      var missing := FirstMissing(drafts, union);
      if missing.Some? && missing.value != "" {
        MissingBreaksUnion(tasks, drafts, missing.value);
        return Some(UnknownDep(missing.value));
      }
      var stuck := LayeredRemoval(DepGraph(union));
      if stuck {
        return Some(CyclicDependencies);
      }
      tasks := union;
      reason := None;
    }

    /** A planning round: drafts for the specs, without repeated ids and without scopeless ones, and
        their publication in one batch. */
    method PlanRound(specs: seq<Spec>) returns (reason: Option<Rejection>)
      modifies this`tasks
      ensures View() == Do(norm, old(View()), PublishBatch(specs))
      ensures reason == Reason(old(tasks), Drafts(specs))
    {
      hide Admissible, Reason;
      ghost var before := View();
      var drafts: seq<Task> := [];
      var seen: set<string> := {};
      for i := 0 to |specs|
        invariant View() == before && drafts == Drafts(specs[..i])
        invariant forall id :: id in seen <==> HasId(drafts, id)
      {
        assert specs[..i + 1][..i] == specs[..i];
        if specs[i].scope == [] || specs[i].id in seen {
          continue;
        }
        AddedId(drafts, NewTask(specs[i].id, specs[i].scope, specs[i].deps, specs[i].parent));
        seen := seen + {specs[i].id};
        drafts := drafts + [NewTask(specs[i].id, specs[i].scope, specs[i].deps, specs[i].parent)];
      }
      assert specs[..|specs|] == specs;
      DraftsAreDistinct(specs);
      reason := PublishDrafts(drafts);
    }

    method AcquireScope(owner: string, scope: seq<string>, now: int, id: string) returns (granted: bool)
      modifies this`leases
      ensures granted <==> Acquire(norm, old(leases), owner, scope, LEASE_TTL, now, id).Some?
      ensures granted <==> Grantable(norm, old(leases), owner, scope, now)
      ensures leases == if granted then Acquire(norm, old(leases), owner, scope, LEASE_TTL, now, id).value.0
        else old(leases)
    {
      AcquireIff(norm, leases, owner, scope, LEASE_TTL, now, id);
      hide Grantable;
      var r := AcquireLoop(norm, leases, owner, scope, LEASE_TTL, now, id);
      granted := r.Some?;
      if granted {
        leases := r.value.0;
      }
    }

    method ReleaseScopeOf(owner: string, scope: seq<string>, now: int)
      modifies this`leases
      ensures View() == ReleaseTaskScope(norm, old(View()), owner, scope, now)
    {
      if owner != "" {
        leases := ReleasePathsLoop(norm, Prune(leases, now), owner, scope);
      }
    }

    method ClaimTaskOf(id: string, worker: string, base: string) returns (ok: bool)
      modifies this`tasks
      ensures ok <==> ClaimGated(norm, old(View()), id, worker, base).Some?
      ensures View() == OrElse(ClaimGated(norm, old(View()), id, worker, base), old(View()))
    {
      if id !in tasks || !DepsFinished(tasks, id) {
        return false;
      }
      ok := Change(id, Claim(worker, base));
    }

    /** Load, change, save: one guarded compare-and-set. */
    method Change(id: string, a: Action) returns (ok: bool)
      modifies this`tasks
      ensures ok <==> Transition(norm, old(View()), id, a).Some?
      ensures View() == OrElse(Transition(norm, old(View()), id, a), old(View()))
    {
      if id !in tasks {
        return false;
      }
      var next := Apply(norm, tasks[id], a);
      if next.None? {
        return false;
      }
      tasks := tasks[id := next.value];
      ok := true;
    }

    /** A rejection: the findings are checked first, then the task is sent back and its scope freed. */
    method RejectTask(id: string, worker: string, findings: seq<Finding>, now: int) returns (ok: bool)
      modifies this
      ensures View() == Do(norm, old(View()), RejectWork(worker, id, findings, now))
      ensures ok <==> ValidFindings(findings) && Transition(norm, old(View()), id, Reject(worker, findings)).Some?
    {
      if id !in tasks || !ValidFindings(findings) {
        return false;
      }
      ok := ChangeAndRelease(id, Reject(worker, findings), now);
    }

    /** Rejection, suspension and reconciliation: change the task, then give its scope back. */
    method ChangeAndRelease(id: string, a: Action, now: int) returns (ok: bool)
      modifies this
      ensures ok <==> Transition(norm, old(View()), id, a).Some?
      ensures View() == LeaveHands(norm, old(View()), id, a, now)
    {
      if id !in tasks {
        return false;
      }
      var owner, scope := tasks[id].claimedBy, tasks[id].scope;
      ok := Change(id, a);
      if ok && scope != [] {
        ReleaseScopeOf(owner, scope, now);
      }
    }

    /** The planner's claim loop over the claimable tasks, oldest first. */
    method ClaimNextOf(cands: seq<string>, worker: string, base: string, now: int, lease: string)
        returns (claimed: Option<string>)
      modifies this
      ensures View() == TryClaims(norm, old(View()), cands, worker, base, now, lease).0
      ensures claimed == TryClaims(norm, old(View()), cands, worker, base, now, lease).1
      ensures if claimed.Some? then FirstFree(norm, old(View()), cands, worker, now, claimed.value)
        else forall i | 0 <= i < |cands| :: !Free(norm, old(View()), worker, cands[i], now)
    {
      hide Acquire, ClaimGated, ReleaseTaskScope, Free, FirstFree, Grantable;
      ClaimsTheFirstFree(norm, View(), cands, worker, base, now, lease);
      for i := 0 to |cands|
        invariant TryClaims(norm, View(), cands[i..], worker, base, now, lease)
               == TryClaims(norm, old(View()), cands, worker, base, now, lease)
      {
        assert cands[i..][0] == cands[i] && cands[i..][1..] == cands[i + 1..];
        var c := cands[i];
        if c !in tasks {
          continue;
        }
        var scope := tasks[c].scope;
        var granted := AcquireScope(worker, scope, now, lease);
        if !granted {
          continue;
        }
        var ok := ClaimTaskOf(c, worker, base);
        if ok {
          return Some(c);
        }
        ReleaseScopeOf(worker, scope, now);
      }
      assert cands[|cands|..] == [];
      claimed := None;
    }

    /** A directed claim, lease first as well. */
    method ClaimSpecificOf(id: string, worker: string, base: string, now: int, lease: string)
        returns (claimed: Option<string>)
      modifies this
      ensures View() == ClaimOne(norm, old(View()), id, worker, base, now, lease).0
      ensures claimed == ClaimOne(norm, old(View()), id, worker, base, now, lease).1
    {
      hide Acquire, ClaimGated, ReleaseTaskScope;
      var scope: seq<string> := [];
      if id in tasks {
        var raw := tasks[id].scope;
        scope := seq(|raw|, i requires 0 <= i < |raw| => norm(raw[i]));
      }
      assert scope == ScopeOf(norm, View(), id);
      var granted := AcquireScope(worker, scope, now, lease);
      if !granted && scope != [] {
        return None;
      }
      var ok := ClaimTaskOf(id, worker, base);
      if ok {
        return Some(id);
      }
      if granted {
        ReleaseScopeOf(worker, scope, now);
      }
      claimed := None;
    }
  }

  predicate HasId(drafts: seq<Task>, id: string) {
    exists k | 0 <= k < |drafts| :: drafts[k].id == id
  }

  lemma AddedId(drafts: seq<Task>, t: Task)
    ensures forall id :: HasId(drafts + [t], id) <==> id == t.id || HasId(drafts, id)
  {
    var more := drafts + [t];
    assert more[|drafts|] == t && forall k | 0 <= k < |drafts| :: more[k] == drafts[k];
  }

  lemma {:induction false} DraftsAreDistinct(specs: seq<Spec>)
    ensures forall i, j | 0 <= i < j < |Drafts(specs)| :: Drafts(specs)[i].id != Drafts(specs)[j].id
  {
    if specs != [] {
      DraftsAreDistinct(specs[..|specs| - 1]);
    }
  }

  // ---- when a batch is wrongly said to be cyclic ----

  /** A batch is reported as cyclic without having a cycle exactly when its first missing dependency
      is named by the empty string; all other tasks' dependencies are known. */
  lemma CycleMisreportedIff(tasks: map<string, Task>, drafts: seq<Task>)
    requires forall i, j | 0 <= i < j < |drafts| :: drafts[i].id != drafts[j].id
    requires WellFormed(DepGraph(tasks)) && !AnyKnown(tasks, drafts) && !AnyInvalid(drafts)
    requires !HasCycle(DepGraph(WithDrafts(tasks, drafts)))
    ensures Reason(tasks, drafts) == Some(CyclicDependencies)
      <==> FirstMissing(drafts, WithDrafts(tasks, drafts)) == Some("")
  {
    hide HasCycle;
    var union := WithDrafts(tasks, drafts);
    var missing := FirstMissing(drafts, union);
    if missing.Some? {
      MissingBreaksUnion(tasks, drafts, missing.value);
    } else {
      ResolvedUnion(tasks, drafts);
    }
  }

  lemma ResolvedUnion(tasks: map<string, Task>, drafts: seq<Task>)
    requires forall i, j | 0 <= i < j < |drafts| :: drafts[i].id != drafts[j].id
    requires WellFormed(DepGraph(tasks)) && FirstMissing(drafts, WithDrafts(tasks, drafts)).None?
    ensures WellFormed(DepGraph(WithDrafts(tasks, drafts)))
  {
    var union := WithDrafts(tasks, drafts);
    forall k | k in union ensures Elems(union[k].deps) <= union.Keys {
      UnionMember(tasks, drafts, k);
      if k in tasks && union[k] == tasks[k] {
        assert DepGraph(tasks)[k] <= tasks.Keys;
      }
    }
  }

  /** A task of the union is one of the store or a draft, and the store's ids stay. */
  lemma {:induction false} UnionMember(tasks: map<string, Task>, drafts: seq<Task>, k: string)
    requires k in WithDrafts(tasks, drafts)
    ensures tasks.Keys <= WithDrafts(tasks, drafts).Keys
    ensures (k in tasks && WithDrafts(tasks, drafts)[k] == tasks[k])
      || exists i :: 0 <= i < |drafts| && WithDrafts(tasks, drafts)[k] == drafts[i]
  {
    if drafts != [] {
      var n := |drafts| - 1;
      if drafts[n].id == k {
        assert WithDrafts(tasks, drafts)[k] == drafts[n];
        WithDraftsKeeps(tasks, drafts);
      } else {
        UnionMember(tasks, drafts[..n], k);
        assert forall i | 0 <= i < n :: drafts[..n][i] == drafts[i];
      }
    }
  }

  lemma {:induction false} WithDraftsKeeps(tasks: map<string, Task>, drafts: seq<Task>)
    ensures tasks.Keys <= WithDrafts(tasks, drafts).Keys
  {
    if drafts != [] {
      WithDraftsKeeps(tasks, drafts[..|drafts| - 1]);
    }
  }

  /** One draft that waits for the empty name: no cycle, but reported as one. */
  lemma EmptyNameReadsAsCycle(id: string, scope: seq<string>)
    requires ValidId(id)
    ensures var drafts := [NewTask(id, scope, [""], "")];
      !HasCycle(DepGraph(WithDrafts(map[], drafts))) && Reason(map[], drafts) == Some(CyclicDependencies)
  {
    var t := NewTask(id, scope, [""], "");
    assert id != "";
    OneDraftUnion(t);
    var g := DepGraph(map[id := t]);
    assert Elems([""]) == {""};
    assert g == map[id := {""}];
    NoWayBack(g, id);
    hide HasCycle, WithDrafts;
    assert [t][..0] == [] && FirstMissing([], map[id := t]) == None;
    assert t.deps[0] == "" && MissingIn(t.deps, map[id := t]) == Some("");
    assert FirstMissing([t], map[id := t]) == Some("");
    assert "" in g[id] && "" !in g;
  }

  lemma OneDraftUnion(t: Task)
    ensures WithDrafts(map[], [t]) == map[t.id := t]
  {
    assert [t][..0] == [];
  }

  /** A single node whose only edge leaves the graph is on no cycle. */
  lemma NoWayBack(g: Graph<string>, id: string)
    requires g == map[id := {""}] && id != ""
    ensures !HasCycle(g)
  {
    if HasCycle(g) {
      var u, w :| OnCycle(g, u, w);
      assert ClosedUnder(g, {""});
      ReachStaysIn(g, {""}, w, u);
      assert false;
    }
  }

  lemma {:induction false} DraftIsInUnion(tasks: map<string, Task>, drafts: seq<Task>, i: nat)
    requires forall j, k | 0 <= j < k < |drafts| :: drafts[j].id != drafts[k].id
    requires i < |drafts|
    ensures drafts[i].id in WithDrafts(tasks, drafts) && WithDrafts(tasks, drafts)[drafts[i].id] == drafts[i]
  {
    if i < |drafts| - 1 {
      DraftIsInUnion(tasks, drafts[..|drafts| - 1], i);
    }
  }

  lemma MissingBreaksUnion(tasks: map<string, Task>, drafts: seq<Task>, d: string)
    requires forall j, k | 0 <= j < k < |drafts| :: drafts[j].id != drafts[k].id
    requires d !in WithDrafts(tasks, drafts) && exists i | 0 <= i < |drafts| :: d in drafts[i].deps
    ensures !WellFormed(DepGraph(WithDrafts(tasks, drafts)))
  {
    var i :| 0 <= i < |drafts| && d in drafts[i].deps;
    DraftIsInUnion(tasks, drafts, i);
    var g := DepGraph(WithDrafts(tasks, drafts));
    assert d in g[drafts[i].id];
  }
}
