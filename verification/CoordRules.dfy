/**
 * What each call of the coordination layer does, said in terms of statuses, holders, specs and
 * leases: the diagram of the task transitions, which calls move a task and free its scope, what a
 * plan adds, and what a replacement may name.
 */
module CoordRules {
  import opened Options
  import Text
  import opened CoordTask
  import opened CoordLeases
  import opened CoordProtocol
  import opened CoordGrants
  import opened CoordReplan
  import CoordStore
  import TaskBatches

  // ---- the diagram of the transitions ----

  /** Where an action leads from a status, if anywhere; `again` says the task has been reopened less
      than three times before. */
  function Target(from: Status, a: Action, again: bool): Option<Status> {
    match (from, a)
    case (Pending, Claim(_, _)) => Some(Claimed)
    case (Reopened, Claim(_, _)) => Some(Claimed)
    case (Claimed, Review(_)) => Some(PendingReview)
    case (Claimed, Complete(_)) => Some(Completed)
    case (Claimed, Submit(_, _)) => Some(ReadyToMerge)
    case (Claimed, Reject(_, _)) => Some(if again then Reopened else Blocked)
    case (Claimed, Supersede) => Some(Superseded)
    case (Reopened, Supersede) => Some(Superseded)
    case (PendingReview, Resume(_)) => Some(Claimed)
    case (PendingReview, Suspend(_)) => Some(Pending)
    case (PendingReview, DenyReview(_, _)) => Some(if again then Reopened else Blocked)
    case (ReadyToMerge, Merge) => Some(Merged)
    case (ReadyToMerge, Conflict(_, _)) => Some(if again then Reopened else Blocked)
    case _ => None
  }

  /** The worker who must hold the task for the action, if it is a worker's. */
  function Holder(a: Action): Option<string> {
    match a
    case Review(w) => Some(w)
    case Resume(w) => Some(w)
    case Suspend(w) => Some(w)
    case DenyReview(w, _) => Some(w)
    case Complete(w) => Some(w)
    case Reject(w, _) => Some(w)
    case Submit(w, _) => Some(w)
    case _ => None
  }

  function SentBackWith(a: Action): Option<seq<Finding>> {
    match a
    case DenyReview(_, f) => Some(f)
    case Reject(_, f) => Some(f)
    case Conflict(_, f) => Some(f)
    case _ => None
  }

  /** An action succeeds exactly when the diagram has an edge for it, the task is in the right hands
      and, for a claim, the scope names a path. */
  lemma DiagramIff(norm: Norm, t: Task, a: Action)
    ensures Apply(norm, t, a).Some?
      <==> (Target(t.status, a, t.reopenCount < 3).Some? && (Holder(a).Some? ==> t.claimedBy == Holder(a).value)
            && (a.Claim? ==> exists i :: 0 <= i < |t.scope| && norm(t.scope[i]) != ""))
  {
    NamesSomething(norm, t.scope);
    hide NormSet;
  }

  /** It leads along that edge, changes the holder, base, branch, findings and reopen count as its
      kind says and nothing else, and counts one revision. */
  lemma DiagramEffect(norm: Norm, t: Task, a: Action)
    requires Apply(norm, t, a).Some?
    ensures var u := Apply(norm, t, a).value; var back := SentBackWith(a);
      && Some(u.status) == Target(t.status, a, t.reopenCount < 3) && u.revision == t.revision + 1
      && u.id == t.id && u.scope == t.scope && u.deps == t.deps && u.parent == t.parent
      && u.claimedBy == (if a.Claim? then a.worker else if a.Suspend? || a.Supersede? then "" else t.claimedBy)
      && u.baseCommit == (if a.Claim? || (a.Conflict? && a.baseCommit != "") then a.baseCommit else t.baseCommit)
      && u.branch == (if a.Submit? then a.branch else t.branch)
      && u.findings == (if back.Some? then back.value else t.findings)
      && u.reopenCount == (if back.Some? then t.reopenCount + 1 else t.reopenCount)
  {
    hide NormSet;
  }

  // ---- the calls that only move a task ----

  /** The status a worker's call wants, and the one it leads to. */
  function Wanted(step: Step): Option<(Status, Status)> {
    match step
    case SubmitWork(_, _, _) => Some((Claimed, ReadyToMerge))
    case CompleteWork(_, _) => Some((Claimed, Completed))
    case FailWork(_, _, _) => Some((Claimed, Reopened))
    case DenyAsk(_, _, _) => Some((PendingReview, Reopened))
    case SweepAsk(_, _) => Some((PendingReview, Pending))
    case AllowAsk(_, _) => Some((PendingReview, Claimed))
    case _ => None
  }

  /** Each of these calls moves its own task, if its worker holds it in the status it wants, and
      otherwise changes nothing. A task that is sent back too often is blocked. */
  lemma CallMovesTask(norm: Norm, s: State, step: Step)
    requires Wanted(step).Some?
    ensures var (from, to) := Wanted(step).value; var x := Do(norm, s, step); var id := step.id;
      if id in s.tasks && s.tasks[id].status == from && s.tasks[id].claimedBy == step.worker then
        && x.leases == s.leases && id in x.tasks && x.tasks == s.tasks[id := x.tasks[id]]
        && x.tasks[id].status == (if to == Reopened && s.tasks[id].reopenCount >= 3 then Blocked else to)
        && x.tasks[id].claimedBy == (if step.SweepAsk? then "" else step.worker)
        && (step.SubmitWork? ==> x.tasks[id].branch == step.branch)
        && (to == Reopened ==> x.tasks[id].findings == step.findings)
      else x == s
  {
    var a := ActionOf(step);
    CallIsMove(norm, s, step);
    hide Do, Apply, Transition;
    Moves(norm, s, step.id, a);
  }

  function ActionOf(step: Step): Action
    requires Wanted(step).Some?
  {
    match step
    case SubmitWork(w, id, branch) => Submit(w, branch)
    case CompleteWork(w, id) => Complete(w)
    case FailWork(w, id, f) => Reject(w, f)
    case DenyAsk(w, id, f) => DenyReview(w, f)
    case SweepAsk(w, id) => Suspend(w)
    case AllowAsk(w, id) => Resume(w)
  }

  lemma CallIsMove(norm: Norm, s: State, step: Step)
    requires Wanted(step).Some?
    ensures Do(norm, s, step) == OrElse(Transition(norm, s, step.id, ActionOf(step)), s)
    ensures Holder(ActionOf(step)) == Some(step.worker)
  {
    hide Transition;
  }

  lemma Moves(norm: Norm, s: State, id: string, a: Action)
    requires Holder(a).Some?
    ensures var x := OrElse(Transition(norm, s, id, a), s);
      if id in s.tasks && Target(s.tasks[id].status, a, s.tasks[id].reopenCount < 3).Some?
          && s.tasks[id].claimedBy == Holder(a).value then
        && Apply(norm, s.tasks[id], a).Some? && x == s.(tasks := s.tasks[id := Apply(norm, s.tasks[id], a).value])
        && var u := x.tasks[id];
           && Some(u.status) == Target(s.tasks[id].status, a, s.tasks[id].reopenCount < 3)
           && u.claimedBy == (if a.Suspend? then "" else s.tasks[id].claimedBy)
           && (a.Submit? ==> u.branch == a.branch)
           && (SentBackWith(a).Some? ==> u.findings == SentBackWith(a).value)
      else x == s
  {
    if id in s.tasks {
      DiagramIff(norm, s.tasks[id], a);
      hide Apply;
      if Apply(norm, s.tasks[id], a).Some? {
        DiagramEffect(norm, s.tasks[id], a);
      }
    }
  }

  // ---- the calls that claim ----

  function InHandsOf(t: Task, w: string, base: string): Task {
    t.(status := Claimed, claimedBy := w, baseCommit := base, revision := t.revision + 1)
  }

  /** A worker that asks for work gets the first free candidate and no other task changes. */
  lemma NextOutcome(norm: Norm, s: State, w: string, cands: seq<string>, base: string, now: int, lease: string)
    returns (i: nat)
    ensures var x := Do(norm, s, ClaimNext(w, cands, base, now, lease));
      && i <= |cands| && (forall j | 0 <= j < i :: !Free(norm, s, w, cands[j], now))
      && if i < |cands| then
           Free(norm, s, w, cands[i], now) && cands[i] in s.tasks
             && x.tasks == s.tasks[cands[i] := InHandsOf(s.tasks[cands[i]], w, base)]
         else x.tasks == s.tasks
  {
    ClaimsTheFirstFree(norm, s, cands, w, base, now, lease);
    var got := TryClaims(norm, s, cands, w, base, now, lease).1;
    hide TryClaims, Grantable, Claimable;
    if got.None? {
      i := |cands|;
    } else {
      i :| 0 <= i < |cands| && cands[i] == got.value && Free(norm, s, w, got.value, now)
        && forall j | 0 <= j < i :: !Free(norm, s, w, cands[j], now);
      FreeIsThere(norm, s, w, cands[i], now);
    }
  }

  /** A worker that asks for one task gets it exactly when it is claimable and its scope is granted. */
  lemma DirectedOutcome(norm: Norm, s: State, w: string, id: string, base: string, now: int, lease: string)
    ensures var x := Do(norm, s, ClaimSpecific(w, id, base, now, lease));
      if Claimable(norm, s.tasks, id) && Grantable(norm, s.leases, w, ScopeOf(norm, s, id), now) then
        id in s.tasks && x.tasks == s.tasks[id := InHandsOf(s.tasks[id], w, base)]
      else x.tasks == s.tasks
  {
    DirectedClaimIff(norm, s, id, w, base, now, lease);
    hide ClaimOne, Grantable;
  }

  /** A claim without lease asks only whether the task is claimable. */
  lemma SelfClaimOutcome(norm: Norm, s: State, w: string, id: string, base: string)
    ensures var x := Do(norm, s, SelfClaim(w, id, base));
      if Claimable(norm, s.tasks, id) then
        id in s.tasks && x == s.(tasks := s.tasks[id := InHandsOf(s.tasks[id], w, base)])
      else x == s
  {
    ClaimGatedIff(norm, s, id, w, base);
    hide ClaimGated;
  }

  /** Taking a task's scope again changes no task; it succeeds exactly when the scope is granted, and
      then the worker has it for 600 seconds. */
  lemma ReacquireOutcome(norm: Norm, s: State, w: string, id: string, now: int, lease: string) returns (l: Lease)
    requires TableOk(norm, s.leases)
    ensures var x := Do(norm, s, Reacquire(w, id, now, lease));
      if id in s.tasks && Grantable(norm, s.leases, w, s.tasks[id].scope, now) then
        && x.tasks == s.tasks && OthersAlike(s.leases, x.leases, w, now)
        && l in x.leases && l.owner == w && l.expiresAt == now + 600 && NormSet(norm, s.tasks[id].scope) <= l.paths
      else x == s
  {
    hide Acquire, Grantable, TableOk, NormSet, OthersAlike, TryClaims, ClaimOne, ClaimGated, LeaveHands, Transition;
    l := Lease("", "", {}, 0, 0);
    if id in s.tasks {
      var scope := s.tasks[id].scope;
      AcquireIff(norm, s.leases, w, scope, LEASE_TTL, now, lease);
      if Acquire(norm, s.leases, w, scope, LEASE_TTL, now, lease).Some? {
        AcquireKeepsTable(norm, s.leases, w, scope, LEASE_TTL, now, lease);
        GrantLasts(norm, s.leases, w, scope, LEASE_TTL, now, lease);
        AcquireLeavesOthers(norm, s.leases, w, scope, LEASE_TTL, now, lease);
        l := Acquire(norm, s.leases, w, scope, LEASE_TTL, now, lease).value.1;
      }
    }
  }

  // ---- the calls that free a scope ----

  /** The holder no longer leases a path of the task, keeps what else it leases, and the leases of the
      others are as they were; leases that have expired may go. */
  ghost predicate Freed(norm: Norm, ls: seq<Lease>, ks: seq<Lease>, t: Task, now: int) {
    && OthersAlike(ls, ks, t.claimedBy, now)
    && (t.claimedBy != "" ==> forall l | l in ks && l.owner == t.claimedBy :: l.paths !! NormSet(norm, t.scope))
    && (t.claimedBy != "" ==> forall l | l in ls && l.owner == t.claimedBy && l.expiresAt > now ::
          forall p | p in l.paths && p !in NormSet(norm, t.scope) ::
            exists k :: k in ks && k.owner == t.claimedBy && p in k.paths && k.expiresAt == l.expiresAt)
  }

  lemma LeavingFrees(norm: Norm, s: State, id: string, a: Action, now: int)
    requires id in s.tasks && Apply(norm, s.tasks[id], a).Some?
    ensures var x := LeaveHands(norm, s, id, a, now);
      x.tasks == s.tasks[id := Apply(norm, s.tasks[id], a).value] && Freed(norm, s.leases, x.leases, s.tasks[id], now)
  {
    var t := s.tasks[id];
    hide Apply, Freed;
    var x := LeaveHands(norm, s, id, a, now);
    if t.scope == [] || t.claimedBy == "" {
      NothingToFree(norm, s.leases, t, now);
    } else {
      assert x.leases == ReleaseScopePaths(norm, Prune(s.leases, now), t.claimedBy, t.scope);
      ReleaseFrees(norm, s.leases, t, now);
    }
  }

  lemma NothingToFree(norm: Norm, ls: seq<Lease>, t: Task, now: int)
    requires t.scope == [] || t.claimedBy == ""
    ensures Freed(norm, ls, ls, t, now)
  {
  }

  lemma ReleaseFrees(norm: Norm, ls: seq<Lease>, t: Task, now: int)
    ensures Freed(norm, ls, ReleaseScopePaths(norm, Prune(ls, now), t.claimedBy, t.scope), t, now)
  {
    var active, owner := Prune(ls, now), t.claimedBy;
    var ks := ReleaseScopePaths(norm, active, owner, t.scope);
    PruneMembers(ls, now);
    var at := ReleaseByPathsExactly(norm, active, owner, t.scope);
    hide Prune, ReleaseScopePaths, NormSet;
    forall l: Lease | l in active && (l.owner != owner || exists p :: p in l.paths && p !in NormSet(norm, t.scope))
      ensures Without(l, owner, NormSet(norm, t.scope)) in ks
    {
      var i: nat :| i < |active| && active[i] == l;
      assert i in at;
      var j :| 0 <= j < |at| && at[j] == i;
      assert ks[j] == Without(l, owner, NormSet(norm, t.scope));
    }
    forall l: Lease | l in ks ensures exists m :: m in active && l == Without(m, owner, NormSet(norm, t.scope)) {
      var j :| 0 <= j < |ks| && ks[j] == l;
      assert active[at[j]] in active;
    }
    hide Increasing;
    WithoutFrees(norm, ls, active, ks, t, now);
  }

  lemma WithoutFrees(norm: Norm, ls: seq<Lease>, active: seq<Lease>, ks: seq<Lease>, t: Task, now: int)
    requires forall l :: l in active <==> l in ls && l.expiresAt > now
    requires forall l: Lease | l in active
        && (l.owner != t.claimedBy || exists p :: p in l.paths && p !in NormSet(norm, t.scope)) ::
      Without(l, t.claimedBy, NormSet(norm, t.scope)) in ks
    requires forall l: Lease | l in ks ::
      exists m :: m in active && l == Without(m, t.claimedBy, NormSet(norm, t.scope))
    ensures Freed(norm, ls, ks, t, now)
  {
    hide NormSet;
    forall l: Lease, p | l in ls && l.owner == t.claimedBy && l.expiresAt > now && p in l.paths
      && p !in NormSet(norm, t.scope)
      ensures exists k :: k in ks && k.owner == t.claimedBy && p in k.paths && k.expiresAt == l.expiresAt
    {
      var k := Without(l, t.claimedBy, NormSet(norm, t.scope));
      assert k in ks && p in k.paths;
    }
  }

  /** The reconciler settles exactly the tasks that wait to be merged: merged, or sent back with its
      findings and the new base. Either way the holder's lease on the scope is gone. */
  lemma ReconcileOutcome(norm: Norm, s: State, id: string, conflict: bool, head: string, f: seq<Finding>, now: int)
    ensures var x := Do(norm, s, Reconcile(id, conflict, head, f, now));
      if id in s.tasks && s.tasks[id].status == ReadyToMerge then
        && id in x.tasks && x.tasks == s.tasks[id := x.tasks[id]] && Freed(norm, s.leases, x.leases, s.tasks[id], now)
        && x.tasks[id].status == (if !conflict then Merged else if s.tasks[id].reopenCount < 3 then Reopened
             else Blocked)
        && (conflict ==> x.tasks[id].findings == f && (head != "" ==> x.tasks[id].baseCommit == head))
      else x == s
  {
    var a := if conflict then Conflict(head, f) else Merge;
    assert Do(norm, s, Reconcile(id, conflict, head, f, now)) == LeaveHands(norm, s, id, a, now);
    hide Do, Freed, NormSet;
    if id in s.tasks {
      DiagramIff(norm, s.tasks[id], a);
      if s.tasks[id].status == ReadyToMerge {
        DiagramEffect(norm, s.tasks[id], a);
        LeavingFrees(norm, s, id, a, now);
        hide LeaveHands;
      }
    }
  }

  /** A reviewer's rejection is taken exactly when there are findings, each names a file or an error
      that is not blank and a line that is a number if any, and the worker holds the task. */
  lemma RejectOutcome(norm: Norm, s: State, w: string, id: string, f: seq<Finding>, now: int)
    ensures var x := Do(norm, s, RejectWork(w, id, f, now));
      if id in s.tasks && s.tasks[id].status == Claimed && s.tasks[id].claimedBy == w && |f| > 0
          && (forall g | g in f ::
            (g.file.Some? || (g.error.Some? && !Text.Blank(g.error.value))) && g.numericLine) then
        && id in x.tasks && x.tasks == s.tasks[id := x.tasks[id]] && Freed(norm, s.leases, x.leases, s.tasks[id], now)
        && x.tasks[id].status == (if s.tasks[id].reopenCount < 3 then Reopened else Blocked)
        && x.tasks[id].findings == f
      else x == s
  {
    forall g | g in f && g.error.Some? ensures Text.Strip(g.error.value) == "" <==> Text.Blank(g.error.value) {
      Text.NothingLeftIff(g.error.value);
    }
    hide Freed, NormSet, Text.Strip, Text.Blank;
    if id in s.tasks && ValidFindings(f) {
      DiagramIff(norm, s.tasks[id], Reject(w, f));
      if s.tasks[id].status == Claimed && s.tasks[id].claimedBy == w {
        DiagramEffect(norm, s.tasks[id], Reject(w, f));
        LeavingFrees(norm, s, id, Reject(w, f), now);
        hide LeaveHands;
      }
    }
  }

  /** A worker that asks gives its scope back while its task waits for the answer. */
  lemma AskOutcome(norm: Norm, s: State, w: string, id: string, now: int)
    ensures var x := Do(norm, s, SuspendForAsk(w, id, now));
      if id in s.tasks && s.tasks[id].status == Claimed && s.tasks[id].claimedBy == w then
        && id in x.tasks && x.tasks == s.tasks[id := x.tasks[id]] && Freed(norm, s.leases, x.leases, s.tasks[id], now)
        && x.tasks[id].status == PendingReview && x.tasks[id].claimedBy == w
      else x == s
  {
    hide Freed, NormSet;
    if id in s.tasks {
      DiagramIff(norm, s.tasks[id], Review(w));
      if s.tasks[id].status == Claimed && s.tasks[id].claimedBy == w {
        DiagramEffect(norm, s.tasks[id], Review(w));
        LeavingFrees(norm, s, id, Review(w), now);
        hide LeaveHands;
      }
    }
  }

  // ---- what a plan adds ----

  /** Spec i is the first one with its id that names a scope. */
  predicate FirstWithScope(specs: seq<Spec>, i: nat) {
    i < |specs| && specs[i].scope != [] && forall k | 0 <= k < i && specs[k].id == specs[i].id :: specs[k].scope == []
  }

  /** A task as it is stored first: pending, in nobody's hands, never reopened. */
  ghost predicate StoredFrom(t: Task, spec: Spec) {
    && t.id == spec.id && t.scope == spec.scope && t.deps == spec.deps && t.parent == spec.parent
    && t.status == Pending && t.claimedBy == "" && t.baseCommit == "" && t.branch == ""
    && t.revision == 1 && t.reopenCount == 0 && t.findings == []
  }

  /** The drafts of a plan are, in order, the first specs of each id that name a scope. */
  lemma {:induction false} DraftsExactly(specs: seq<Spec>) returns (at: seq<nat>)
    ensures Increasing(at, |specs|) && |at| == |Drafts(specs)|
    ensures forall j | 0 <= j < |at| :: StoredFrom(Drafts(specs)[j], specs[at[j]])
    ensures forall i: nat :: i in at <==> FirstWithScope(specs, i)
  {
    at := [];
    if specs != [] {
      var n: nat := |specs| - 1;
      var front := specs[..n];
      var before := DraftsExactly(front);
      LastIsDrafted(specs, before);
      FirstInFront(specs, n);
      hide FirstWithScope, StoredFrom, Drafts;
      if FirstWithScope(specs, n) {
        at := before + [n];
        assert forall i: nat :: i in at <==> i in before || i == n;
        forall j | 0 <= j < |at| ensures StoredFrom(Drafts(specs)[j], specs[at[j]]) {
          assert j < |before| ==> front[before[j]] == specs[before[j]] && Drafts(specs)[j] == Drafts(front)[j];
        }
      } else {
        at := before;
        assert forall j | 0 <= j < |before| :: front[before[j]] == specs[before[j]];
      }
    }
  }

  lemma FirstInFront(specs: seq<Spec>, n: nat)
    requires n == |specs| - 1
    ensures forall i: nat ::
      FirstWithScope(specs, i) <==> (FirstWithScope(specs[..n], i) || (i == n && FirstWithScope(specs, n)))
  {
  }

  /** The last spec becomes a draft exactly when it is the first with its id and a scope. */
  lemma LastIsDrafted(specs: seq<Spec>, before: seq<nat>)
    requires specs != [] && var front := specs[..|specs| - 1];
      && Increasing(before, |front|) && |before| == |Drafts(front)|
      && (forall j | 0 <= j < |before| :: StoredFrom(Drafts(front)[j], front[before[j]]))
      && (forall i: nat :: i in before <==> FirstWithScope(front, i))
    ensures var n := |specs| - 1; var front := specs[..n];
      if FirstWithScope(specs, n) then
        |Drafts(specs)| == |Drafts(front)| + 1 && Drafts(specs)[..|Drafts(front)|] == Drafts(front)
          && StoredFrom(Drafts(specs)[|Drafts(front)|], specs[n])
      else Drafts(specs) == Drafts(front)
  {
    var n := |specs| - 1;
    var front := specs[..n];
    DraftedBefore(front, before, specs[n].id);
    assert forall k | 0 <= k < n :: specs[k] == front[k];
  }

  lemma DraftedBefore(specs: seq<Spec>, at: seq<nat>, id: string)
    requires Increasing(at, |specs|) && |at| == |Drafts(specs)|
    requires forall j | 0 <= j < |at| :: StoredFrom(Drafts(specs)[j], specs[at[j]])
    requires forall i: nat :: i in at <==> FirstWithScope(specs, i)
    ensures (exists i | 0 <= i < |Drafts(specs)| :: Drafts(specs)[i].id == id)
      <==> exists k :: 0 <= k < |specs| && specs[k].id == id && specs[k].scope != []
  {
    if k :| 0 <= k < |specs| && specs[k].id == id && specs[k].scope != [] {
      var i := FirstOf(specs, id, k);
      assert i in at;
      var j :| 0 <= j < |at| && at[j] == i;
      assert Drafts(specs)[j].id == id;
    }
    if i :| 0 <= i < |Drafts(specs)| && Drafts(specs)[i].id == id {
      assert at[i] in at && specs[at[i]].id == id;
    }
  }

  lemma FirstOf(specs: seq<Spec>, id: string, k: nat) returns (i: nat)
    requires k < |specs| && specs[k].id == id && specs[k].scope != []
    ensures i <= k && specs[i].id == id && FirstWithScope(specs, i)
  {
    i := 0;
    while specs[i].id != id || specs[i].scope == []
      invariant i <= k && forall m | 0 <= m < i :: specs[m].id != id || specs[m].scope == []
      decreases k - i
    {
      i := i + 1;
    }
  }

  /** A plan is stored whole or not at all: the old tasks stay, and the new ones come from the first
      specs with a scope. */
  lemma PlanOutcome(norm: Norm, s: State, specs: seq<Spec>, id: string)
    ensures var x := Do(norm, s, PublishBatch(specs));
      if Admissible(s.tasks, Drafts(specs)) then
        && x.leases == s.leases && (id in s.tasks ==> id in x.tasks && x.tasks[id] == s.tasks[id])
        && (id in x.tasks && id !in s.tasks <==> exists i: nat :: FirstNamed(specs, i, id))
        && (forall i: nat | FirstNamed(specs, i, id) :: StoredFrom(x.tasks[id], specs[i]))
      else x == s
  {
    hide TryClaims, ClaimOne, ClaimGated, LeaveHands, ReplanTask, ReacquireScope, Transition;
    var drafts := Drafts(specs);
    if Admissible(s.tasks, drafts) {
      DraftsAndSpecs(specs, id);
      CoordStore.DraftsAreDistinct(specs);
      assert forall i | 0 <= i < |drafts| :: drafts[i].id !in s.tasks;
      hide Drafts, FirstWithScope, Admissible, WithDrafts;
      TaskBatches.Drafted(s.tasks, drafts, id);
    }
  }

  predicate FirstNamed(specs: seq<Spec>, i: nat, id: string) {
    FirstWithScope(specs, i) && specs[i].id == id
  }

  /** Every first spec with a scope has its draft, and every draft its spec. */
  lemma DraftsAndSpecs(specs: seq<Spec>, id: string)
    ensures forall i: nat | FirstNamed(specs, i, id) ::
      exists j :: 0 <= j < |Drafts(specs)| && Drafts(specs)[j].id == id && StoredFrom(Drafts(specs)[j], specs[i])
    ensures (exists j :: 0 <= j < |Drafts(specs)| && Drafts(specs)[j].id == id) ==>
      exists i: nat :: FirstNamed(specs, i, id)
  {
    var at := DraftsExactly(specs);
    var drafts := Drafts(specs);
    hide Drafts, FirstWithScope;
    forall i: nat | FirstNamed(specs, i, id)
      ensures exists j :: 0 <= j < |drafts| && drafts[j].id == id && StoredFrom(drafts[j], specs[i])
    {
      assert i in at;
      var j :| 0 <= j < |at| && at[j] == i;
      assert StoredFrom(drafts[j], specs[at[j]]);
    }
    if j :| 0 <= j < |drafts| && drafts[j].id == id {
      assert at[j] in at;
      assert FirstNamed(specs, at[j], id);
    }
  }

  /** An id begins with `task_` and is one file name. */
  lemma ValidIdIff(id: string)
    ensures ValidId(id)
      <==> (|id| >= 5 && id[..5] == "task_" && forall k | 0 <= k < |id| :: id[k] != '/' && id[k] != '\\')
  {
    assert "task_" <= id <==> |id| >= 5 && id[..5] == "task_";
  }

  // ---- what a replacement may name ----

  /** The paths of the parent's scope, and those named by a finding, which are normalised twice. */
  lemma AllowedIff(norm: Norm, t: Task, x: string)
    ensures x in AllowedScope(norm, t)
      <==> x != "" && ((exists i :: 0 <= i < |t.scope| && norm(t.scope[i]) == x)
                       || (exists y :: Named(norm, t.findings, y) && norm(y) == x))
  {
    var files := FindingsFiles(norm, t.findings);
    forall y ensures y in files <==> Named(norm, t.findings, y) {
      FindingsFilesExactly(norm, t.findings, y);
    }
    hide FindingsFiles, Named;
    if x != "" {
      if y :| Named(norm, t.findings, y) && norm(y) == x {
        var i :| 0 <= i < |files| && files[i] == y;
        assert norm(files[i]) in NormSet(norm, files);
      }
    }
  }
}
