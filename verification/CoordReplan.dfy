/**
 * Replacing a task that was sent back: how far the scopes of replacements reach in any run, and
 * whether the replaced task can get into a worker's hands again.
 */
module CoordReplan {
  import opened Options
  import opened Collections
  import opened CoordTask
  import opened CoordLeases
  import opened CoordProtocol
  import opened Digraph
  import opened TaskGraph

  // ---- the files named in findings ----

  predicate NamedBy(norm: Norm, f: Finding, x: string) {
    || (f.file.Some? && f.file.value != "" && norm(f.file.value) == x)
    || (f.path.Some? && f.path.value != "" && norm(f.path.value) == x)
  }

  lemma AddFileAdds(norm: Norm, seen: seq<string>, v: Option<string>, x: string)
    ensures x in AddFile(norm, seen, v) <==> x in seen || (v.Some? && v.value != "" && norm(v.value) == x)
    ensures Distinct(seen) ==> Distinct(AddFile(norm, seen, v))
  {
  }

  ghost predicate Named(norm: Norm, findings: seq<Finding>, x: string) {
    exists i :: 0 <= i < |findings| && NamedBy(norm, findings[i], x)
  }

  lemma NamedByLast(norm: Norm, front: seq<Finding>, f: Finding, x: string)
    ensures Named(norm, front + [f], x) <==> Named(norm, front, x) || NamedBy(norm, f, x)
  {
    hide NamedBy;
    var all := front + [f];
    if Named(norm, front, x) {
      var i :| 0 <= i < |front| && NamedBy(norm, front[i], x);
      assert NamedBy(norm, all[i], x);
    }
    assert all[|front|] == f;
  }

  lemma {:induction false} FindingsFilesExactly(norm: Norm, findings: seq<Finding>, x: string)
    ensures x in FindingsFiles(norm, findings) <==> Named(norm, findings, x)
    ensures Distinct(FindingsFiles(norm, findings))
  {
    hide AddFile, Distinct, Named;
    if findings == [] {
      NothingNamed(norm, x);
    } else {
      var front, f := findings[..|findings| - 1], findings[|findings| - 1];
      FindingsFilesExactly(norm, front, x);
      var seen := FindingsFiles(norm, front);
      AddFileAdds(norm, seen, f.file, x);
      AddFileAdds(norm, AddFile(norm, seen, f.file), f.path, x);
      NamedByLast(norm, front, f, x);
      assert findings == front + [f];
    }
  }

  lemma NothingNamed(norm: Norm, x: string)
    ensures !Named(norm, [], x) && Distinct<string>([])
  {
  }

  /** The two nested loops with their ordered set of seen names. */
  method FindingsFilesLoop(norm: Norm, findings: seq<Finding>) returns (seen: seq<string>)
    ensures seen == FindingsFiles(norm, findings)
  {
    seen := [];
    for i := 0 to |findings|
      invariant seen == FindingsFiles(norm, findings[..i])
    {
      assert findings[..i + 1][..i] == findings[..i];
      var keys := [findings[i].file, findings[i].path];
      for k := 0 to 2
        invariant k == 0 ==> seen == FindingsFiles(norm, findings[..i])
        invariant k == 1 ==> seen == AddFile(norm, FindingsFiles(norm, findings[..i]), findings[i].file)
        invariant k == 2 ==> seen == FindingsFiles(norm, findings[..i + 1])
      {
        var v := keys[k];
        if v.Some? && v.value != "" && norm(v.value) !in seen {
          seen := seen + [norm(v.value)];
        }
      }
    }
    assert findings[..|findings|] == findings;
  }

  // ---- one replacement ----

  lemma {:induction false} CleanScopeSet(norm: Norm, proposed: seq<string>)
    ensures forall p :: p in CleanScope(norm, proposed) <==> p in NormSet(norm, proposed)
  {
    if proposed != [] {
      var n := |proposed| - 1;
      CleanScopeSet(norm, proposed[..n]);
      assert forall i | 0 <= i < n :: proposed[..n][i] == proposed[i];
      assert NormSet(norm, proposed) == NormSet(norm, proposed[..n]) + if norm(proposed[n]) != ""
        then {norm(proposed[n])} else {};
    }
  }

  /** A replacement changes the store exactly when its scope is not empty, stays within the parent's
      scope and the files of its findings, and the task itself is admitted; then it is the one new
      task, and no task but the parent changes. */
  lemma ReplanExactly(norm: Norm, s: State, parent: string, proposed: seq<string>, child: string, k: string)
    ensures var t := ReplanTask(norm, s, parent, proposed, child); var clean := CleanScope(norm, proposed);
      && (child !in s.tasks ==> (child in t.tasks <==>
            (parent in s.tasks && NormSet(norm, clean) != {}
              && NormSet(norm, clean) <= AllowedScope(norm, s.tasks[parent])
             && Admissible(s.tasks, [NewTask(child, clean, [], parent)]))))
      && (child in s.tasks ==> t == s)
      && (child !in s.tasks && child in t.tasks ==> t.tasks[child] == NewTask(child, clean, [], parent))
      && t.leases == s.leases
      && (k != child && k != parent ==> (k in t.tasks <==> k in s.tasks) && (k in s.tasks ==> t.tasks[k] == s.tasks[k]))
  {
    hide NormSet, AllowedScope, CleanScope;
    if parent in s.tasks {
      var task := NewTask(child, CleanScope(norm, proposed), [], parent);
      OneDraft(s.tasks, task);
      assert Admissible(s.tasks, [task]) ==> [task][0].id !in s.tasks;
    }
  }

  lemma OneDraft(tasks: map<string, Task>, t: Task)
    ensures WithDrafts(tasks, [t]) == tasks[t.id := t]
  {
    assert [t][..0] == [];
  }

  // ---- whether a task can be claimed again ----

  /** Some run of transitions from t has it claimed. */
  ghost predicate SomeRunClaims(norm: Norm, t: Task) {
    exists ts: seq<Task>, acts: seq<Action> :: IsRun(norm, ts, acts) && ts[0] == t && ts[|acts|].status == Claimed
  }

  /** What the task itself shows: it is claimed or its holder may resume it; it waits with a path to
      claim; or it can still be sent back by the reconciler and then be claimed. */
  predicate CanBeClaimed(norm: Norm, t: Task) {
    match t.status
    case Claimed => true
    case PendingReview => true
    case Pending => NormSet(norm, t.scope) != {}
    case Reopened => NormSet(norm, t.scope) != {}
    case ReadyToMerge => NormSet(norm, t.scope) != {} && t.reopenCount < REOPEN_LIMIT
    case _ => false
  }

  lemma {:induction false} ClaimableHasRun(norm: Norm, t: Task) returns (ts: seq<Task>, acts: seq<Action>)
    requires CanBeClaimed(norm, t)
    ensures IsRun(norm, ts, acts) && ts[0] == t && ts[|acts|].status == Claimed
  {
    hide NormSet;
    match t.status {
      case Claimed => acts, ts := [], [t];
      case Pending => acts, ts := [Claim("w", "")], [t, ClaimTask(norm, t, "w", "").value];
      case Reopened => acts, ts := [Claim("w", "")], [t, ClaimTask(norm, t, "w", "").value];
      case PendingReview => acts, ts := [Resume(t.claimedBy)], [t, ResumeTask(t, t.claimedBy).value];
      case ReadyToMerge =>
        var u := ReopenConflict(t, "", []).value;
        acts, ts := [Conflict("", []), Claim("w", "")], [t, u, ClaimTask(norm, u, "w", "").value];
    }
  }

  /** Once it cannot be claimed, no transition changes that. */
  lemma UnclaimableStays(norm: Norm, t: Task, a: Action)
    requires !CanBeClaimed(norm, t) && Apply(norm, t, a).Some?
    ensures !CanBeClaimed(norm, Apply(norm, t, a).value)
  {
    hide NormSet;
  }

  /** A task can get into a worker's hands if and only if it shows so. */
  lemma ClaimableIff(norm: Norm, t: Task)
    ensures SomeRunClaims(norm, t) <==> CanBeClaimed(norm, t)
  {
    if CanBeClaimed(norm, t) {
      var ts, acts := ClaimableHasRun(norm, t);
    } else if SomeRunClaims(norm, t) {
      var ts: seq<Task>, acts: seq<Action> :| IsRun(norm, ts, acts) && ts[0] == t && ts[|acts|].status == Claimed;
      var i := 0;
      while i < |acts|
        invariant 0 <= i <= |acts| && !CanBeClaimed(norm, ts[i])
      {
        assert Apply(norm, ts[i], acts[i]) == Some(ts[i + 1]);
        UnclaimableStays(norm, ts[i], acts[i]);
        i := i + 1;
      }
      assert false;
    }
  }

  /** A replaced parent can be claimed again if and only if it could be before and was neither
      claimed nor reopened: one that is pending, suspended or waiting to be merged is not superseded
      and stays in the race with its replacement. */
  lemma ReplacedIsClaimableIff(norm: Norm, s: State, parent: string, proposed: seq<string>, child: string)
    requires child !in s.tasks && child in ReplanTask(norm, s, parent, proposed, child).tasks
    ensures parent in s.tasks && parent in ReplanTask(norm, s, parent, proposed, child).tasks
    ensures var was := s.tasks[parent]; var now := ReplanTask(norm, s, parent, proposed, child).tasks[parent];
      SomeRunClaims(norm, now) <==> SomeRunClaims(norm, was) && was.status != Claimed && was.status != Reopened
  {
    ReplanParent(norm, s, parent, proposed, child);
    hide ReplanTask, NormSet, SomeRunClaims;
    ClaimableIff(norm, s.tasks[parent]);
    ClaimableIff(norm, ReplanTask(norm, s, parent, proposed, child).tasks[parent]);
  }

  lemma ReplanParent(norm: Norm, s: State, parent: string, proposed: seq<string>, child: string)
    requires child !in s.tasks && child in ReplanTask(norm, s, parent, proposed, child).tasks
    ensures parent in s.tasks && parent in ReplanTask(norm, s, parent, proposed, child).tasks
    ensures var was := s.tasks[parent]; var now := ReplanTask(norm, s, parent, proposed, child).tasks[parent];
      if was.status == Claimed || was.status == Reopened then now.status == Superseded else now == was
  {
    hide NormSet, AllowedScope, CleanScope;
    if parent in s.tasks {
      var task := NewTask(child, CleanScope(norm, proposed), [], parent);
      OneDraft(s.tasks, task);
      assert [task][0].id == child;
    }
  }

  // ---- scopes of replacements over whole runs ----

  /** Tasks stay, with their scope and parent. */
  ghost predicate SameOrigin(a: map<string, Task>, b: map<string, Task>) {
    forall k | k in a :: k in b && b[k].scope == a[k].scope && b[k].parent == a[k].parent
  }

  /** A plan of step i names task c with its parent. */
  ghost predicate PlannedAt(steps: seq<Step>, i: int, c: string, parent: string) {
    && 0 <= i < |steps| && steps[i].PublishBatch?
    && exists j :: 0 <= j < |steps[i].specs| && steps[i].specs[j].id == c && steps[i].specs[j].parent == parent
  }

  /** Step i replaces `parent` by task c, whose scope stays within the scope the parent has at that
      moment and the files of the findings it has at that moment. */
  ghost predicate ReplannedAt(norm: Norm, steps: seq<Step>, i: int, c: string, parent: string, scope: seq<string>) {
    && 0 <= i < |steps| && steps[i].Replan? && steps[i].child == c && steps[i].parent == parent
    && var s := Run(norm, EMPTY, steps[..i]);
      parent in s.tasks && NormSet(norm, scope) <= AllowedScope(norm, s.tasks[parent])
  }

  ghost predicate Planned(steps: seq<Step>, c: string, parent: string) {
    exists i :: PlannedAt(steps, i, c, parent)
  }

  ghost predicate Replanned(norm: Norm, steps: seq<Step>, c: string, parent: string, scope: seq<string>) {
    exists i :: ReplannedAt(norm, steps, i, c, parent, scope)
  }

  lemma TransitionKeepsOrigin(norm: Norm, s: State, id: string, a: Action)
    ensures SameOrigin(s.tasks, OrElse(Transition(norm, s, id, a), s).tasks)
    ensures OrElse(Transition(norm, s, id, a), s).tasks.Keys == s.tasks.Keys
  {
    if Transition(norm, s, id, a).Some? {
      ApplyFacts(norm, s.tasks[id], a);
      hide Apply;
    }
  }

  lemma LeaveHandsKeepsOrigin(norm: Norm, s: State, id: string, a: Action, now: int)
    ensures SameOrigin(s.tasks, LeaveHands(norm, s, id, a, now).tasks)
      && LeaveHands(norm, s, id, a, now).tasks.Keys == s.tasks.Keys
  {
    TransitionKeepsOrigin(norm, s, id, a);
    hide Transition, SameOrigin;
  }

  lemma ReplanKeepsOrigin(norm: Norm, s: State, parent: string, proposed: seq<string>, child: string)
    ensures SameOrigin(s.tasks, ReplanTask(norm, s, parent, proposed, child).tasks)
  {
    var t := ReplanTask(norm, s, parent, proposed, child);
    forall k | k in s.tasks
      ensures k in t.tasks && t.tasks[k].scope == s.tasks[k].scope && t.tasks[k].parent == s.tasks[k].parent {
      ReplanExactly(norm, s, parent, proposed, child, k);
      if child !in s.tasks && child in t.tasks {
        ReplanParent(norm, s, parent, proposed, child);
        if k == parent {
          ReplanParentOrigin(norm, s, parent, proposed, child);
        }
      } else {
        ReplanNothing(norm, s, parent, proposed, child);
      }
    }
  }

  lemma ReplanParentOrigin(norm: Norm, s: State, parent: string, proposed: seq<string>, child: string)
    requires child !in s.tasks && parent in s.tasks
    ensures var t := ReplanTask(norm, s, parent, proposed, child);
      parent in t.tasks && t.tasks[parent].scope == s.tasks[parent].scope
        && t.tasks[parent].parent == s.tasks[parent].parent
  {
    hide NormSet, AllowedScope, CleanScope;
    OneDraft(s.tasks, NewTask(child, CleanScope(norm, proposed), [], parent));
  }

  lemma ReplanNothing(norm: Norm, s: State, parent: string, proposed: seq<string>, child: string)
    requires child in s.tasks || child !in ReplanTask(norm, s, parent, proposed, child).tasks
    ensures ReplanTask(norm, s, parent, proposed, child) == s
  {
    hide NormSet, AllowedScope, CleanScope;
    if parent in s.tasks {
      var task := NewTask(child, CleanScope(norm, proposed), [], parent);
      OneDraft(s.tasks, task);
      assert Admissible(s.tasks, [task]) ==> [task][0].id !in s.tasks;
    }
  }

  lemma {:induction false} DraftsComeFromSpecs(specs: seq<Spec>, i: nat)
    requires i < |Drafts(specs)|
    ensures exists j ::
      0 <= j < |specs| && specs[j].id == Drafts(specs)[i].id && specs[j].parent == Drafts(specs)[i].parent
  {
    var front := specs[..|specs| - 1];
    if i < |Drafts(front)| {
      DraftsComeFromSpecs(front, i);
      var j :| 0 <= j < |front| && front[j].id == Drafts(front)[i].id && front[j].parent == Drafts(front)[i].parent;
      assert specs[j] == front[j];
    } else {
      assert specs[|specs| - 1].id == Drafts(specs)[i].id;
    }
  }

  lemma {:induction false} AddedIsDraft(tasks: map<string, Task>, drafts: seq<Task>, c: string)
    requires c !in tasks && c in WithDrafts(tasks, drafts)
    ensures exists i :: 0 <= i < |drafts| && drafts[i].id == c && WithDrafts(tasks, drafts)[c] == drafts[i]
  {
    var n := |drafts| - 1;
    if drafts[n].id != c {
      AddedIsDraft(tasks, drafts[..n], c);
      var i :| 0 <= i < n && drafts[..n][i].id == c && WithDrafts(tasks, drafts[..n])[c] == drafts[..n][i];
      assert drafts[i] == drafts[..n][i];
    }
  }

  lemma PublishKeepsOrigin(s: State, drafts: seq<Task>)
    requires forall i | 0 <= i < |drafts| :: IsNew(drafts[i])
    ensures SameOrigin(s.tasks, Publish(s, drafts).tasks)
  {
    hide HasCycle, WellFormed, DepGraph;
    if Admissible(s.tasks, drafts) {
      DraftsAreAdded(s.tasks, drafts);
    }
  }

  lemma StepKeepsOrigin(norm: Norm, s: State, step: Step)
    ensures SameOrigin(s.tasks, Do(norm, s, step).tasks)
    ensures !step.PublishBatch? && !step.Replan? ==> Do(norm, s, step).tasks.Keys == s.tasks.Keys
  {
    hide Transition, LeaveHands, Publish, ReplanTask, Acquire, DepsFinished;
    match step {
      case PublishBatch(specs) =>
        DraftsAreNew(specs);
        PublishKeepsOrigin(s, Drafts(specs));
      case ClaimNext(w, cands, base, now, lease) => TryClaimsAdvances(norm, s, cands, w, base, now, lease);
      case ClaimSpecific(w, id, base, now, lease) => ClaimOneAdvances(norm, s, id, w, base, now, lease);
      case SubmitWork(w, id, branch) => TransitionKeepsOrigin(norm, s, id, Submit(w, branch));
      case CompleteWork(w, id) => TransitionKeepsOrigin(norm, s, id, Complete(w));
      case FailWork(w, id, f) => TransitionKeepsOrigin(norm, s, id, Reject(w, f));
      case RejectWork(w, id, f, now) => LeaveHandsKeepsOrigin(norm, s, id, Reject(w, f), now);
      case Replan(parent, proposed, child) => ReplanKeepsOrigin(norm, s, parent, proposed, child);
      case Reconcile(id, conflict, head, f, now) =>
        LeaveHandsKeepsOrigin(norm, s, id, if conflict then Conflict(head, f) else Merge, now);
      case SuspendForAsk(w, id, now) => LeaveHandsKeepsOrigin(norm, s, id, Review(w), now);
      case DenyAsk(w, id, f) => TransitionKeepsOrigin(norm, s, id, DenyReview(w, f));
      case SweepAsk(w, id) => TransitionKeepsOrigin(norm, s, id, Suspend(w));
      case AllowAsk(w, id) => TransitionKeepsOrigin(norm, s, id, Resume(w));
      case Reacquire(w, id, now, lease) =>
      case SelfClaim(w, id, base) => ClaimGatedAdvances(norm, s, id, w, base);
    }
  }

  lemma PlannedNew(s: State, specs: seq<Spec>, c: string)
    requires c !in s.tasks && c in Publish(s, Drafts(specs)).tasks
    ensures exists j ::
      0 <= j < |specs| && specs[j].id == c && specs[j].parent == Publish(s, Drafts(specs)).tasks[c].parent
  {
    hide Admissible, Drafts;
    var drafts := Drafts(specs);
    AddedIsDraft(s.tasks, drafts, c);
    hide WithDrafts;
    var i :| 0 <= i < |drafts| && drafts[i].id == c && WithDrafts(s.tasks, drafts)[c] == drafts[i];
    DraftsComeFromSpecs(specs, i);
  }

  lemma ReplannedNew(norm: Norm, s: State, parent: string, proposed: seq<string>, child: string, c: string)
    requires c !in s.tasks && c in ReplanTask(norm, s, parent, proposed, child).tasks
    ensures var t := ReplanTask(norm, s, parent, proposed, child).tasks[c];
      c == child && parent in s.tasks && t.parent == parent
        && NormSet(norm, t.scope) <= AllowedScope(norm, s.tasks[parent])
  {
    ReplanExactly(norm, s, parent, proposed, child, c);
    if child in s.tasks || child !in ReplanTask(norm, s, parent, proposed, child).tasks {
      ReplanNothing(norm, s, parent, proposed, child);
    }
    hide ReplanTask, NormSet, AllowedScope, Admissible, CleanScope;
  }

  /** Where a new task comes from. */
  lemma NewTaskOrigin(norm: Norm, steps: seq<Step>, c: string)
    requires steps != []
    requires c !in Run(norm, EMPTY, steps[..|steps| - 1]).tasks && c in Run(norm, EMPTY, steps).tasks
    ensures var t := Run(norm, EMPTY, steps).tasks[c];
      PlannedAt(steps, |steps| - 1, c, t.parent) || ReplannedAt(norm, steps, |steps| - 1, c, t.parent, t.scope)
  {
    var n := |steps| - 1;
    hide Do, NormSet, AllowedScope;
    StepAdds(norm, Run(norm, EMPTY, steps[..n]), steps[n], c, Run(norm, EMPTY, steps).tasks[c]);
    hide Run;
  }

  lemma StepAdds(norm: Norm, s: State, step: Step, c: string, t: Task)
    requires c !in s.tasks && c in Do(norm, s, step).tasks && t == Do(norm, s, step).tasks[c]
    ensures step.PublishBatch? || step.Replan?
    ensures step.PublishBatch? ==> exists j ::
      0 <= j < |step.specs| && step.specs[j].id == c && step.specs[j].parent == t.parent
    ensures step.Replan? ==>
      (c == step.child && step.parent == t.parent && t.parent in s.tasks
       && NormSet(norm, t.scope) <= AllowedScope(norm, s.tasks[t.parent]))
  {
    StepKeepsOrigin(norm, s, step);
    hide NormSet, AllowedScope, Publish, ReplanTask, Transition, LeaveHands, TryClaims, ClaimOne, Drafts;
    if step.PublishBatch? {
      PlannedNew(s, step.specs, c);
    } else if step.Replan? {
      ReplannedNew(norm, s, step.parent, step.proposed, step.child, c);
    }
  }

  /** In every run, a task is one a plan names with its parent, or a replacement whose scope stays
      within what its parent allowed when it was replaced. */
  lemma {:induction false} ReplacementsStayWithin(norm: Norm, steps: seq<Step>, c: string)
    requires c in Run(norm, EMPTY, steps).tasks
    ensures var t := Run(norm, EMPTY, steps).tasks[c];
      Planned(steps, c, t.parent) || Replanned(norm, steps, c, t.parent, t.scope)
  {
    var n := |steps| - 1;
    var front := steps[..n];
    if c in Run(norm, EMPTY, front).tasks {
      ReplacementsStayWithin(norm, front, c);
      StepKeepsOrigin(norm, Run(norm, EMPTY, front), steps[n]);
      var t := Run(norm, EMPTY, front).tasks[c];
      hide Run;
      if Planned(front, c, t.parent) {
        var i :| PlannedAt(front, i, c, t.parent);
        assert front[i] == steps[i];
        assert PlannedAt(steps, i, c, t.parent);
      } else {
        var i :| ReplannedAt(norm, front, i, c, t.parent, t.scope);
        assert front[i] == steps[i] && front[..i] == steps[..i];
        assert ReplannedAt(norm, steps, i, c, t.parent, t.scope);
      }
    } else {
      NewTaskOrigin(norm, steps, c);
    }
  }

  // ---- chains of replacements ----

  /** The files named in findings a task has had, at any moment of the run. */
  ghost function Reported(norm: Norm, steps: seq<Step>, id: string): set<string> {
    FilesNow(norm, Run(norm, EMPTY, steps), id) + if steps == [] then {} else Reported(norm, steps[..|steps| - 1], id)
  }

  function FilesNow(norm: Norm, s: State, id: string): set<string> {
    if id in s.tasks then NormSet(norm, FindingsFiles(norm, s.tasks[id].findings)) else {}
  }

  lemma {:induction false} ReportedBefore(norm: Norm, steps: seq<Step>, i: nat, id: string)
    requires i <= |steps|
    ensures FilesNow(norm, Run(norm, EMPTY, steps[..i]), id) <= Reported(norm, steps, id)
  {
    hide Run, FilesNow;
    if i == |steps| {
      assert steps[..i] == steps;
    } else {
      ReportedBefore(norm, steps[..|steps| - 1], i, id);
      assert steps[..|steps| - 1][..i] == steps[..i];
    }
  }

  lemma {:induction false} OriginIsFixed(norm: Norm, steps: seq<Step>, i: nat, k: string)
    requires i <= |steps| && k in Run(norm, EMPTY, steps[..i]).tasks
    ensures var s := Run(norm, EMPTY, steps); var was := Run(norm, EMPTY, steps[..i]);
      k in s.tasks && s.tasks[k].scope == was.tasks[k].scope
  {
    if i == |steps| {
      assert steps[..i] == steps;
    } else {
      var front := steps[..|steps| - 1];
      assert front[..i] == steps[..i];
      OriginIsFixed(norm, front, i, k);
      StepKeepsOrigin(norm, Run(norm, EMPTY, front), steps[|steps| - 1]);
    }
  }

  /** Each task of the chain is a replacement of the one before. */
  ghost predicate IsChain(s: State, steps: seq<Step>, chain: seq<string>) {
    && chain != [] && (forall j | 0 <= j < |chain| :: chain[j] in s.tasks)
    && forall j | 0 <= j < |chain| - 1 ::
         s.tasks[chain[j + 1]].parent == chain[j] && !Planned(steps, chain[j + 1], chain[j])
  }

  /** All files named in findings of the first n tasks of the chain. */
  ghost function ReportedOn(norm: Norm, steps: seq<Step>, chain: seq<string>, n: nat): set<string>
    requires n <= |chain|
  {
    if n == 0 then {} else ReportedOn(norm, steps, chain, n - 1) + Reported(norm, steps, chain[n - 1])
  }

  /** One link: the replacement's scope lies within its parent's and the files ever reported on the parent. */
  lemma LinkStaysWithin(norm: Norm, steps: seq<Step>, c: string)
    requires c in Run(norm, EMPTY, steps).tasks
    requires !Planned(steps, c, Run(norm, EMPTY, steps).tasks[c].parent)
    ensures var s := Run(norm, EMPTY, steps); var p := s.tasks[c].parent;
      p in s.tasks && NormSet(norm, s.tasks[c].scope) <= NormSet(norm, s.tasks[p].scope) + Reported(norm, steps, p)
  {
    ReplacementsStayWithin(norm, steps, c);
    var t := Run(norm, EMPTY, steps).tasks[c];
    var i :| ReplannedAt(norm, steps, i, c, t.parent, t.scope);
    OriginIsFixed(norm, steps, i, t.parent);
    ReportedBefore(norm, steps, i, t.parent);
    hide Run, NormSet, FindingsFiles, Reported, Planned;
  }

  /** However long the chain, each of its tasks stays within the first one's scope and the files that
      findings named on the way. */
  lemma {:induction false} ChainStaysWithin(norm: Norm, steps: seq<Step>, chain: seq<string>, n: nat)
    requires IsChain(Run(norm, EMPTY, steps), steps, chain) && n < |chain|
    ensures var s := Run(norm, EMPTY, steps);
      NormSet(norm, s.tasks[chain[n]].scope) <= NormSet(norm, s.tasks[chain[0]].scope) +
        ReportedOn(norm, steps, chain, n)
  {
    hide Run, NormSet, Reported, Planned;
    if n > 0 {
      ChainStaysWithin(norm, steps, chain, n - 1);
      assert chain[n - 1 + 1] == chain[n];
      LinkStaysWithin(norm, steps, chain[n]);
    }
  }

  // ---- plans may name a parent, and then nothing is enforced ----

  function Orphaned(specs: seq<Spec>): (r: seq<Spec>)
    ensures |r| == |specs| && forall i | 0 <= i < |specs| :: r[i] == specs[i].(parent := "")
  {
    seq(|specs|, i requires 0 <= i < |specs| => specs[i].(parent := ""))
  }

  lemma {:induction false} SameDrafts(specs: seq<Spec>)
    ensures |Drafts(Orphaned(specs))| == |Drafts(specs)|
    ensures forall i | 0 <= i < |Drafts(specs)| :: Drafts(Orphaned(specs))[i] == Drafts(specs)[i].(parent := "")
  {
    if specs != [] {
      var n := |specs| - 1;
      SameDrafts(specs[..n]);
      assert Orphaned(specs)[..n] == Orphaned(specs[..n]);
    }
  }

  lemma {:induction false} SameGraph(tasks: map<string, Task>, a: seq<Task>, b: seq<Task>)
    requires |a| == |b| && forall i | 0 <= i < |a| :: b[i] == a[i].(parent := "")
    ensures WithDrafts(tasks, a).Keys == WithDrafts(tasks, b).Keys
    ensures forall k | k in WithDrafts(tasks, a) :: WithDrafts(tasks, a)[k].deps == WithDrafts(tasks, b)[k].deps
  {
    if a != [] {
      var n := |a| - 1;
      assert forall i | 0 <= i < n :: a[..n][i] == a[i] && b[..n][i] == b[i];
      SameGraph(tasks, a[..n], b[..n]);
    }
  }

  /** Which parents a plan names, and what their scopes are, plays no part in its admission. */
  lemma PlanIgnoresParents(tasks: map<string, Task>, specs: seq<Spec>)
    ensures Admissible(tasks, Drafts(specs)) <==> Admissible(tasks, Drafts(Orphaned(specs)))
  {
    SameDrafts(specs);
    hide Drafts, Admissible, Orphaned;
    SameAdmission(tasks, Drafts(specs), Drafts(Orphaned(specs)));
  }

  lemma SameAdmission(tasks: map<string, Task>, a: seq<Task>, b: seq<Task>)
    requires |a| == |b| && forall i | 0 <= i < |a| :: b[i] == a[i].(parent := "")
    ensures Admissible(tasks, a) <==> Admissible(tasks, b)
  {
    SameGraph(tasks, a, b);
    hide HasCycle, WellFormed, WithDrafts, ValidId;
    assert DepGraph(WithDrafts(tasks, a)) == DepGraph(WithDrafts(tasks, b));
    hide DepGraph;
    assert forall i | 0 <= i < |a| :: b[i].id == a[i].id;
  }

  /** A run of one plan: the second task names the first as its parent and reaches outside its scope. */
  lemma PlannedParentEscapes(norm: Norm, p: string, c: string, x: string, y: string)
    requires ValidId(p) && ValidId(c) && p != c && norm(y) != "" && norm(x) != norm(y)
    ensures var s := Run(norm, EMPTY, [PublishBatch([Spec(p, [x], [], ""), Spec(c, [y], [], p)])]);
      && p in s.tasks && c in s.tasks && s.tasks[c].parent == p
      && !(NormSet(norm, s.tasks[c].scope) <= AllowedScope(norm, s.tasks[p]))
  {
    var specs := [Spec(p, [x], [], ""), Spec(c, [y], [], p)];
    var a, b := NewTask(p, [x], [], ""), NewTask(c, [y], [], p);
    hide HasCycle, ValidId, AllowedScope, NormSet, Drafts;
    TwoDrafts(specs[0], specs[1]);
    TwoAreAdmitted(a, b);
    hide WithDrafts, Admissible;
    var steps := [PublishBatch(specs)];
    assert steps[..0] == [];
    assert Run(norm, EMPTY, steps) == State(map[p := a, c := b], []);
    OutsideScope(norm, a, b, x, y);
  }

  lemma TwoDrafts(a: Spec, b: Spec)
    requires a.id != b.id && a.scope != [] && b.scope != []
    ensures Drafts([a, b]) == [NewTask(a.id, a.scope, a.deps, a.parent), NewTask(b.id, b.scope, b.deps, b.parent)]
  {
    assert [a, b][..1] == [a] && [a][..0] == [];
    assert Drafts([a]) == [NewTask(a.id, a.scope, a.deps, a.parent)];
  }

  lemma TwoAreAdmitted(a: Task, b: Task)
    requires ValidId(a.id) && ValidId(b.id) && a.id != b.id && a.deps == [] && b.deps == []
    ensures Admissible(map[], [a, b]) && WithDrafts(map[], [a, b]) == map[a.id := a, b.id := b]
  {
    assert [a, b][..1] == [a] && [a][..0] == [];
    assert WithDrafts(map[], [a]) == map[a.id := a];
    var g := DepGraph(map[a.id := a, b.id := b]);
    assert forall k | k in g :: g[k] == {};
    hide HasCycle, ValidId;
    RankedHasNoCycle(g, map[a.id := 0 as nat, b.id := 0]);
  }

  lemma OutsideScope(norm: Norm, a: Task, b: Task, x: string, y: string)
    requires a.scope == [x] && a.findings == [] && b.scope == [y] && norm(y) != "" && norm(x) != norm(y)
    ensures !(NormSet(norm, b.scope) <= AllowedScope(norm, a))
  {
    assert [y][0] == y && norm(y) in NormSet(norm, [y]);
    assert NormSet(norm, [x]) <= {norm(x)};
    assert FindingsFiles(norm, []) == [];
  }
}
