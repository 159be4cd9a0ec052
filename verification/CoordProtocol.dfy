/**
 * The coordination protocol: a task table and a lease table, and the calls of the planner, the
 * workers, the reviewer, the ask gate and the reconciler as atomic steps on both.
 */
module CoordProtocol {
  import opened Options
  import opened Collections
  import opened CoordTask
  import opened CoordLeases
  import opened Digraph
  import opened TaskGraph

  datatype State = State(tasks: map<string, Task>, leases: seq<Lease>)

  const LEASE_TTL := 600

  predicate Finished(t: Task) {
    t.status == Completed || t.status == Merged
  }

  /** The task's scope is in use: it is being worked on or waits to be merged. */
  predicate Active(t: Task) {
    t.status == Claimed || t.status == ReadyToMerge
  }

  function DepGraph(tasks: map<string, Task>): Graph<string> {
    map k | k in tasks :: Elems(tasks[k].deps)
  }

  // ---- store operations ----

  /** A compare-and-set on one task; None when the task is missing or refuses. */
  function Transition(norm: Norm, s: State, id: string, a: Action): Option<State> {
    if id !in s.tasks then None
    else match Apply(norm, s.tasks[id], a)
      case None => None
      case Some(t) => Some(s.(tasks := s.tasks[id := t]))
  }

  predicate DepsFinished(tasks: map<string, Task>, id: string)
    requires id in tasks
  {
    forall d | d in tasks[id].deps :: d in tasks && Finished(tasks[d])
  }

  /** Claiming is refused while a dependency is unfinished. */
  function ClaimGated(norm: Norm, s: State, id: string, worker: string, base: string): Option<State> {
    if id !in s.tasks || !DepsFinished(s.tasks, id) then None
    else Transition(norm, s, id, Claim(worker, base))
  }

  /** Takes the scope's paths from the owner's active leases. An unchanged table need not be
      written back, because every reader prunes it again. */
  function ReleaseTaskScope(norm: Norm, s: State, owner: string, scope: seq<string>, now: int): State {
    if owner == "" then s
    else s.(leases := ReleaseScopePaths(norm, Prune(s.leases, now), owner, scope))
  }

  // ---- the planner ----

  /** Tries the candidates in order: lease first, then the claim; a lost claim gives its own
      scope back. */
  function TryClaims(norm: Norm, s: State, cands: seq<string>, worker: string, base: string, now: int, lease: string)
    : (State, Option<string>)
    decreases |cands|
  {
    if cands == [] then (s, None)
    else if cands[0] !in s.tasks then TryClaims(norm, s, cands[1..], worker, base, now, lease)
    else
      var scope := s.tasks[cands[0]].scope;
      match Acquire(norm, s.leases, worker, scope, LEASE_TTL, now, lease)
      case None => TryClaims(norm, s, cands[1..], worker, base, now, lease)
      case Some(r) =>
        var leased := s.(leases := r.0);
        match ClaimGated(norm, leased, cands[0], worker, base)
        case Some(claimed) => (claimed, Some(cands[0]))
        case None =>
          TryClaims(norm, ReleaseTaskScope(norm, leased, worker, scope, now), cands[1..], worker, base, now, lease)
  }

  /** The scope a directed claim works with: already normalised, empty when the task is missing. */
  function ScopeOf(norm: Norm, s: State, id: string): seq<string> {
    if id !in s.tasks then []
    else
      var raw := s.tasks[id].scope;
      seq(|raw|, i requires 0 <= i < |raw| => norm(raw[i]))
  }

  function ClaimOne(norm: Norm, s: State, id: string, worker: string, base: string, now: int, lease: string)
    : (State, Option<string>)
  {
    var scope := ScopeOf(norm, s, id);
    match Acquire(norm, s.leases, worker, scope, LEASE_TTL, now, lease)
    case None =>
      if scope != [] then (s, None)
      else (match ClaimGated(norm, s, id, worker, base)
            case None => (s, None)
            case Some(claimed) => (claimed, Some(id)))
    case Some(r) =>
      var leased := s.(leases := r.0);
      match ClaimGated(norm, leased, id, worker, base)
      case Some(claimed) => (claimed, Some(id))
      case None => (ReleaseTaskScope(norm, leased, worker, scope, now), None)
  }

  // ---- publishing a batch ----

  datatype Rejection = DuplicateTaskId | InvalidTaskId | UnknownDep(dep: string) | CyclicDependencies

  predicate ValidId(id: string) {
    "task_" <= id && '/' !in id && '\\' !in id
  }

  /** The store with the drafts added. */
  function WithDrafts(tasks: map<string, Task>, drafts: seq<Task>): map<string, Task> {
    if drafts == [] then tasks
    else WithDrafts(tasks, drafts[..|drafts| - 1])[drafts[|drafts| - 1].id := drafts[|drafts| - 1]]
  }

  /** What a plan says about one task; blank scope paths are already dropped. */
  datatype Spec = Spec(id: string, scope: seq<string>, deps: seq<string>, parent: string)

  function NewTask(id: string, scope: seq<string>, deps: seq<string>, parent: string): (t: Task)
    ensures IsNew(t) && t.id == id
  {
    Task(id, scope, deps, parent, Pending, "", "", "", 1, 0, [])
  }

  /** The drafts of a plan: specs without scope and repeated ids are left out. */
  function Drafts(specs: seq<Spec>): seq<Task> {
    if specs == [] then []
    else
      var n := |specs| - 1;
      var before := Drafts(specs[..n]);
      if specs[n].scope == [] || (exists i | 0 <= i < |before| :: before[i].id == specs[n].id) then before
      else before + [NewTask(specs[n].id, specs[n].scope, specs[n].deps, specs[n].parent)]
  }

  ghost predicate Admissible(tasks: map<string, Task>, drafts: seq<Task>) {
    && (forall i | 0 <= i < |drafts| :: drafts[i].id !in tasks && ValidId(drafts[i].id))
    && WellFormed(DepGraph(WithDrafts(tasks, drafts)))
    && !HasCycle(DepGraph(WithDrafts(tasks, drafts)))
  }

  // ---- the protocol steps ----

  datatype Step =
    | PublishBatch(specs: seq<Spec>)
    | ClaimNext(worker: string, cands: seq<string>, base: string, now: int, lease: string)
    | ClaimSpecific(worker: string, id: string, base: string, now: int, lease: string)
    | SubmitWork(worker: string, id: string, branch: string)
    | CompleteWork(worker: string, id: string)
    | FailWork(worker: string, id: string, findings: seq<Finding>)
    | RejectWork(worker: string, id: string, findings: seq<Finding>, now: int)
    | Replan(parent: string, proposed: seq<string>, child: string)
    | Reconcile(id: string, conflict: bool, head: string, findings: seq<Finding>, now: int)
    | SuspendForAsk(worker: string, id: string, now: int)
    | DenyAsk(worker: string, id: string, findings: seq<Finding>)
    | SweepAsk(worker: string, id: string)
    | AllowAsk(worker: string, id: string)
    | Reacquire(worker: string, id: string, now: int, lease: string)
    | SelfClaim(worker: string, id: string, base: string)

  function OrElse(o: Option<State>, s: State): State {
    match o case None => s case Some(t) => t
  }

  /** A transition and, when it succeeded, the release of the task's scope for `owner`. */
  function LeaveHands(norm: Norm, s: State, id: string, a: Action, now: int): State {
    match Transition(norm, s, id, a)
    case None => s
    case Some(t) =>
      if s.tasks[id].scope == [] then t
      else ReleaseTaskScope(norm, t, s.tasks[id].claimedBy, s.tasks[id].scope, now)
  }

  /** A worker takes the lease for a task's scope without claiming the task: what it has to do again
      after its ask was allowed. */
  function ReacquireScope(norm: Norm, s: State, worker: string, id: string, now: int, lease: string): State {
    if id !in s.tasks then s
    else match Acquire(norm, s.leases, worker, s.tasks[id].scope, LEASE_TTL, now, lease)
      case None => s
      case Some(r) => s.(leases := r.0)
  }

  ghost function Publish(s: State, drafts: seq<Task>): State {
    if Admissible(s.tasks, drafts) then s.(tasks := WithDrafts(s.tasks, drafts)) else s
  }

  /** The paths a replacement may claim: its parent's scope and the files named in findings. */
  function AllowedScope(norm: Norm, parent: Task): set<string> {
    NormSet(norm, parent.scope) + NormSet(norm, FindingsFiles(norm, parent.findings))
  }

  function CleanScope(norm: Norm, proposed: seq<string>): seq<string> {
    if proposed == [] then []
    else
      var n := |proposed| - 1;
      CleanScope(norm, proposed[..n]) + (if norm(proposed[n]) != "" then [norm(proposed[n])] else [])
  }

  /** A replacement is published within the allowed scope and then supersedes its parent. */
  ghost function ReplanTask(norm: Norm, s: State, parent: string, proposed: seq<string>, child: string): State {
    if parent !in s.tasks then s
    else
      var clean := CleanScope(norm, proposed);
      var task := NewTask(child, clean, [], parent);
      if NormSet(norm, clean) == {} || !(NormSet(norm, clean) <= AllowedScope(norm, s.tasks[parent])) then s
      else if !Admissible(s.tasks, [task]) then s
      else
        var t := Publish(s, [task]);
        OrElse(Transition(norm, t, parent, Supersede), t)
  }

  ghost function Do(norm: Norm, s: State, step: Step): State {
    match step
    case PublishBatch(specs) => Publish(s, Drafts(specs))
    case ClaimNext(w, cands, base, now, lease) => TryClaims(norm, s, cands, w, base, now, lease).0
    case ClaimSpecific(w, id, base, now, lease) => ClaimOne(norm, s, id, w, base, now, lease).0
    case SubmitWork(w, id, branch) => OrElse(Transition(norm, s, id, Submit(w, branch)), s)
    case CompleteWork(w, id) => OrElse(Transition(norm, s, id, Complete(w)), s)
    case FailWork(w, id, f) => OrElse(Transition(norm, s, id, Reject(w, f)), s)
    case RejectWork(w, id, f, now) => if ValidFindings(f) then LeaveHands(norm, s, id, Reject(w, f), now) else s
    case Replan(parent, proposed, child) => ReplanTask(norm, s, parent, proposed, child)
    case Reconcile(id, conflict, head, f, now) =>
      LeaveHands(norm, s, id, if conflict then Conflict(head, f) else Merge, now)
    case SuspendForAsk(w, id, now) => LeaveHands(norm, s, id, Review(w), now)
    case DenyAsk(w, id, f) => OrElse(Transition(norm, s, id, DenyReview(w, f)), s)
    case SweepAsk(w, id) => OrElse(Transition(norm, s, id, Suspend(w)), s)
    case AllowAsk(w, id) => OrElse(Transition(norm, s, id, Resume(w)), s)
    case Reacquire(w, id, now, lease) => ReacquireScope(norm, s, w, id, now, lease)
    case SelfClaim(w, id, base) => OrElse(ClaimGated(norm, s, id, w, base), s)
  }

  // ---- dependencies over whole runs ----

  /** Keys are the tasks' ids, dependencies exist and have no cycle, and a task that is past
      pending has only finished dependencies. */
  ghost predicate DepsOk(s: State) {
    && WellFormed(DepGraph(s.tasks)) && !HasCycle(DepGraph(s.tasks))
    && forall k | k in s.tasks && s.tasks[k].status != Pending :: DepsFinished(s.tasks, k)
  }

  /** tasks changed at most by transitions: same ids, same dependencies, finished stays finished,
      and whoever left pending had its dependencies finished. */
  ghost predicate Advanced(a: map<string, Task>, b: map<string, Task>) {
    && a.Keys == b.Keys
    && (forall k | k in a :: b[k].deps == a[k].deps && b[k].scope == a[k].scope && b[k].parent == a[k].parent)
    && (forall k | k in a && Finished(a[k]) :: Finished(b[k]))
    && (forall k | k in a && a[k].status == Pending && b[k].status != Pending :: DepsFinished(a, k))
  }

  lemma AdvancedKeepsDeps(s: State, t: State)
    requires DepsOk(s) && Advanced(s.tasks, t.tasks)
    ensures DepsOk(t)
  {
    hide HasCycle, WellFormed;
    assert DepGraph(t.tasks) == DepGraph(s.tasks);
    forall k | k in t.tasks && t.tasks[k].status != Pending ensures DepsFinished(t.tasks, k) {
      assert DepsFinished(s.tasks, k);
    }
  }

  lemma ApplyFacts(norm: Norm, t: Task, a: Action)
    requires Apply(norm, t, a).Some?
    ensures var u := Apply(norm, t, a).value;
      && u.id == t.id && u.deps == t.deps && u.scope == t.scope && u.parent == t.parent
      && !Finished(t) && (t.status == Pending ==> a.Claim?)
  {
  }

  lemma TransitionAdvances(norm: Norm, s: State, id: string, a: Action)
    requires Transition(norm, s, id, a).Some?
    requires id in s.tasks && (a.Claim? ==> DepsFinished(s.tasks, id))
    ensures Advanced(s.tasks, Transition(norm, s, id, a).value.tasks)
  {
    ApplyFacts(norm, s.tasks[id], a);
    hide Apply, DepsFinished;
  }

  lemma {:induction false} TryClaimsAdvances(norm: Norm, s: State, cands: seq<string>, worker: string, base: string,
      now: int, lease: string)
    ensures Advanced(s.tasks, TryClaims(norm, s, cands, worker, base, now, lease).0.tasks)
    decreases |cands|
  {
    hide Acquire, Prune, DepsFinished;
    if cands != [] {
      if cands[0] !in s.tasks {
        TryClaimsAdvances(norm, s, cands[1..], worker, base, now, lease);
      } else {
        var scope := s.tasks[cands[0]].scope;
        match Acquire(norm, s.leases, worker, scope, LEASE_TTL, now, lease)
        case None => TryClaimsAdvances(norm, s, cands[1..], worker, base, now, lease);
        case Some(r) =>
          var leased := s.(leases := r.0);
          if ClaimGated(norm, leased, cands[0], worker, base).None? {
            TryClaimsAdvances(norm, ReleaseTaskScope(norm, leased, worker, scope, now), cands[1..], worker, base,
              now, lease);
          }
      }
    }
  }

  lemma {:induction false} DraftsAreAdded(tasks: map<string, Task>, drafts: seq<Task>)
    requires forall i | 0 <= i < |drafts| :: drafts[i].id !in tasks && IsNew(drafts[i])
    ensures tasks.Keys <= WithDrafts(tasks, drafts).Keys
    ensures forall k | k in tasks :: WithDrafts(tasks, drafts)[k] == tasks[k]
    ensures forall k | k in WithDrafts(tasks, drafts) && k !in tasks :: IsNew(WithDrafts(tasks, drafts)[k])
  {
    if drafts != [] {
      DraftsAreAdded(tasks, drafts[..|drafts| - 1]);
    }
  }

  lemma {:induction false} DraftsAreNew(specs: seq<Spec>)
    ensures forall i | 0 <= i < |Drafts(specs)| :: IsNew(Drafts(specs)[i])
  {
    if specs != [] {
      DraftsAreNew(specs[..|specs| - 1]);
    }
  }

  lemma PublishKeepsDeps(s: State, drafts: seq<Task>)
    requires DepsOk(s) && forall i | 0 <= i < |drafts| :: IsNew(drafts[i])
    ensures DepsOk(Publish(s, drafts))
  {
    hide HasCycle, WellFormed, DepGraph;
    if Admissible(s.tasks, drafts) {
      DraftsAreAdded(s.tasks, drafts);
      hide WithDrafts;
      var t := Publish(s, drafts);
      forall k | k in t.tasks && t.tasks[k].status != Pending ensures DepsFinished(t.tasks, k) {
        assert k in s.tasks && DepsFinished(s.tasks, k);
      }
    }
  }

  lemma TransitionKeepsDeps(norm: Norm, s: State, id: string, a: Action)
    requires DepsOk(s) && (a.Claim? ==> id in s.tasks && DepsFinished(s.tasks, id))
    ensures DepsOk(OrElse(Transition(norm, s, id, a), s))
  {
    hide DepsOk, Apply;
    if Transition(norm, s, id, a).Some? {
      TransitionAdvances(norm, s, id, a);
      AdvancedKeepsDeps(s, Transition(norm, s, id, a).value);
    }
  }

  lemma ReplanKeepsDeps(norm: Norm, s: State, parent: string, proposed: seq<string>, child: string)
    requires DepsOk(s)
    ensures DepsOk(ReplanTask(norm, s, parent, proposed, child))
  {
    hide DepsOk, Admissible;
    if parent in s.tasks {
      var task := NewTask(child, CleanScope(norm, proposed), [], parent);
      PublishKeepsDeps(s, [task]);
      TransitionKeepsDeps(norm, Publish(s, [task]), parent, Supersede);
    }
  }

  lemma LeaveHandsKeepsDeps(norm: Norm, s: State, id: string, a: Action, now: int)
    requires DepsOk(s) && !a.Claim?
    ensures DepsOk(LeaveHands(norm, s, id, a, now))
  {
    TransitionKeepsDeps(norm, s, id, a);
    hide HasCycle, WellFormed, Apply, DepGraph, DepsFinished;
  }

  lemma StepKeepsDeps(norm: Norm, s: State, step: Step)
    requires DepsOk(s)
    ensures DepsOk(Do(norm, s, step))
  {
    hide DepsOk, Transition, LeaveHands, Publish, ReplanTask;
    match step {
      case PublishBatch(specs) =>
        DraftsAreNew(specs);
        PublishKeepsDeps(s, Drafts(specs));
      case ClaimNext(w, cands, base, now, lease) =>
        TryClaimsAdvances(norm, s, cands, w, base, now, lease);
        AdvancedKeepsDeps(s, Do(norm, s, step));
      case ClaimSpecific(w, id, base, now, lease) => 
        ClaimOneAdvances(norm, s, id, w, base, now, lease);
        AdvancedKeepsDeps(s, Do(norm, s, step));
      case SubmitWork(w, id, branch) => TransitionKeepsDeps(norm, s, id, Submit(w, branch));
      case CompleteWork(w, id) => TransitionKeepsDeps(norm, s, id, Complete(w));
      case FailWork(w, id, f) => TransitionKeepsDeps(norm, s, id, Reject(w, f));
      case RejectWork(w, id, f, now) => LeaveHandsKeepsDeps(norm, s, id, Reject(w, f), now);
      case Replan(parent, proposed, child) => ReplanKeepsDeps(norm, s, parent, proposed, child);
      case Reconcile(id, conflict, head, f, now) =>
        LeaveHandsKeepsDeps(norm, s, id, if conflict then Conflict(head, f) else Merge, now);
      case SuspendForAsk(w, id, now) => LeaveHandsKeepsDeps(norm, s, id, Review(w), now);
      case DenyAsk(w, id, f) => TransitionKeepsDeps(norm, s, id, DenyReview(w, f));
      case SweepAsk(w, id) => TransitionKeepsDeps(norm, s, id, Suspend(w));
      case AllowAsk(w, id) => TransitionKeepsDeps(norm, s, id, Resume(w));
      case Reacquire(w, id, now, lease) => SameTasksKeepDeps(s, Do(norm, s, step));
      case SelfClaim(w, id, base) => ClaimGatedKeepsDeps(norm, s, id, w, base);
    }
  }

  lemma SameTasksKeepDeps(s: State, t: State)
    requires DepsOk(s) && t.tasks == s.tasks
    ensures DepsOk(t)
  {
  }

  lemma ClaimGatedKeepsDeps(norm: Norm, s: State, id: string, worker: string, base: string)
    requires DepsOk(s)
    ensures DepsOk(OrElse(ClaimGated(norm, s, id, worker, base), s))
  {
    hide DepsOk, Transition, DepsFinished;
    if ClaimGated(norm, s, id, worker, base).Some? {
      TransitionKeepsDeps(norm, s, id, Claim(worker, base));
    }
  }

  lemma ClaimOneAdvances(norm: Norm, s: State, id: string, worker: string, base: string, now: int, lease: string)
    ensures Advanced(s.tasks, ClaimOne(norm, s, id, worker, base, now, lease).0.tasks)
  {
    ClaimGatedAdvances(norm, s, id, worker, base);
    match Acquire(norm, s.leases, worker, ScopeOf(norm, s, id), LEASE_TTL, now, lease)
    case None =>
    case Some(r) =>
      var leased := s.(leases := r.0);
      ClaimGatedAdvances(norm, leased, id, worker, base);
      hide DepsFinished, ClaimGated;
  }

  lemma ClaimGatedAdvances(norm: Norm, s: State, id: string, worker: string, base: string)
    ensures Advanced(s.tasks, OrElse(ClaimGated(norm, s, id, worker, base), s).tasks)
  {
    hide Transition, DepsFinished;
    if ClaimGated(norm, s, id, worker, base).Some? {
      TransitionAdvances(norm, s, id, Claim(worker, base));
    }
  }

  ghost function Run(norm: Norm, s: State, steps: seq<Step>): State {
    if steps == [] then s else Do(norm, Run(norm, s, steps[..|steps| - 1]), steps[|steps| - 1])
  }

  const EMPTY := State(map[], [])

  lemma {:induction false} RunKeepsDeps(norm: Norm, steps: seq<Step>)
    ensures DepsOk(Run(norm, EMPTY, steps))
  {
    hide DepsOk, Do;
    if steps == [] {
      EmptyDepsOk();
    } else {
      RunKeepsDeps(norm, steps[..|steps| - 1]);
      StepKeepsDeps(norm, Run(norm, EMPTY, steps[..|steps| - 1]), steps[|steps| - 1]);
    }
  }

  lemma EmptyDepsOk()
    ensures DepsOk(EMPTY)
  {
  }

  /** In every reachable state, whatever has left pending has only finished dependencies. */
  lemma StartedHasFinishedDeps(norm: Norm, steps: seq<Step>, id: string, dep: string)
    requires id in Run(norm, EMPTY, steps).tasks
    requires Run(norm, EMPTY, steps).tasks[id].status != Pending
    requires dep in Run(norm, EMPTY, steps).tasks[id].deps
    ensures var tasks := Run(norm, EMPTY, steps).tasks;
      dep in tasks && (tasks[dep].status == Completed || tasks[dep].status == Merged)
  {
    RunKeepsDeps(norm, steps);
    hide HasCycle, WellFormed, DepGraph, Run;
    assert DepsFinished(Run(norm, EMPTY, steps).tasks, id);
  }

  /** No dead end: in every reachable state in which some task is unfinished and all unfinished
      ones are pending or reopened, one of them has every dependency finished, so that a claim on
      it is granted as soon as its scope names a path. */
  lemma SomethingIsReady(norm: Norm, steps: seq<Step>, left: set<string>) returns (id: string)
    requires var s := Run(norm, EMPTY, steps);
      && left == (set k | k in s.tasks && s.tasks[k].status != Completed && s.tasks[k].status != Merged) && left != {}
      && forall k | k in left :: s.tasks[k].status == Pending || s.tasks[k].status == Reopened
    ensures var s := Run(norm, EMPTY, steps);
      && id in left
      && (forall d | d in s.tasks[id].deps :: d in s.tasks && s.tasks[d].status in {Completed, Merged})
      && (NormSet(norm, s.tasks[id].scope) != {} ==> forall w, base :: ClaimGated(norm, s, id, w, base).Some?)
  {
    RunKeepsDeps(norm, steps);
    var s := Run(norm, EMPTY, steps);
    hide Run, HasCycle;
    if forall k | k in left :: !DepsFinished(s.tasks, k) {
      forall u {:trigger Succ(DepGraph(s.tasks), u)} | u in left ensures Succ(DepGraph(s.tasks), u) * left != {} {
        var d :| d in s.tasks[u].deps && !(d in s.tasks && Finished(s.tasks[d]));
        assert d in DepGraph(s.tasks)[u];
        assert d in Succ(DepGraph(s.tasks), u) * left;
      }
      NoSinkHasCycle(DepGraph(s.tasks), left);
    }
    id :| id in left && DepsFinished(s.tasks, id);
  }
}
