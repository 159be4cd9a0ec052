/** Coordination tasks: one record with a status, changed by compare-and-set transitions. */
module CoordTask {
  import opened Options
  import Text

  /** How scope paths are normalised; the file system decides, so it is a parameter. */
  type Norm = string -> string

  datatype Status =
    | Pending | Claimed | ReadyToMerge | Merged | PendingReview
    | Completed | Reopened | Blocked | Superseded

  /** What a reviewer reports; a key is None when it is absent or not a text. `numericLine`: there is
      no line or it is a number. */
  datatype Finding = Finding(file: Option<string>, path: Option<string>, error: Option<string>, numericLine: bool)

  datatype Task = Task(
    id: string, scope: seq<string>, deps: seq<string>, parent: string, status: Status,
    claimedBy: string, baseCommit: string, branch: string,
    revision: nat, reopenCount: nat, findings: seq<Finding>)

  const REOPEN_LIMIT := 3

  /** Scope paths after normalisation; paths that normalise to nothing are dropped. */
  function NormSet(norm: Norm, scope: seq<string>): set<string> {
    set i | 0 <= i < |scope| && norm(scope[i]) != "" :: norm(scope[i])
  }

  /** A rejection needs findings, each naming a file or an error that is not blank. */
  predicate ValidFindings(findings: seq<Finding>) {
    && findings != []
    && forall i | 0 <= i < |findings| ::
         (findings[i].file.Some? || (findings[i].error.Some? && Text.Strip(findings[i].error.value) != ""))
           && findings[i].numericLine
  }

  function AddFile(norm: Norm, seen: seq<string>, v: Option<string>): seq<string> {
    if v.None? || v.value == "" || norm(v.value) in seen then seen else seen + [norm(v.value)]
  }

  /** The files named in findings, each once, in the order they are first named. */
  function FindingsFiles(norm: Norm, findings: seq<Finding>): seq<string> {
    if findings == [] then []
    else
      var n := |findings| - 1;
      AddFile(norm, AddFile(norm, FindingsFiles(norm, findings[..n]), findings[n].file), findings[n].path)
  }

  // ---- the transitions; None is a refusal ----

  function ClaimTask(norm: Norm, t: Task, worker: string, baseCommit: string): Option<Task> {
    if t.status != Pending && t.status != Reopened then None
    else if NormSet(norm, t.scope) == {} then None
    else Some(t.(status := Claimed, claimedBy := worker, baseCommit := baseCommit, revision := t.revision + 1))
  }

  function MarkPendingReview(t: Task, worker: string): Option<Task> {
    if t.status != Claimed || t.claimedBy != worker then None
    else Some(t.(status := PendingReview, revision := t.revision + 1))
  }

  function ResumeTask(t: Task, worker: string): Option<Task> {
    if t.status != PendingReview || t.claimedBy != worker then None
    else Some(t.(status := Claimed, revision := t.revision + 1))
  }

  function SuspendRelease(t: Task, worker: string): Option<Task> {
    if t.status != PendingReview || t.claimedBy != worker then None
    else Some(t.(status := Pending, claimedBy := "", revision := t.revision + 1))
  }

  function ReopenOrBlock(t: Task, baseCommit: string, findings: seq<Finding>): Task {
    var count := t.reopenCount + 1;
    t.(status := if count > REOPEN_LIMIT then Blocked else Reopened, reopenCount := count,
       baseCommit := if baseCommit != "" then baseCommit else t.baseCommit,
       findings := findings, revision := t.revision + 1)
  }

  function ReviewReopen(t: Task, worker: string, findings: seq<Finding>): Option<Task> {
    if t.status != PendingReview || t.claimedBy != worker then None
    else Some(ReopenOrBlock(t, t.baseCommit, findings))
  }

  function SupersedeTask(t: Task): Option<Task> {
    if t.status != Reopened && t.status != Claimed then None
    else Some(t.(status := Superseded, claimedBy := "", revision := t.revision + 1))
  }

  function CompleteTask(t: Task, worker: string): Option<Task> {
    if t.status != Claimed || t.claimedBy != worker then None
    else Some(t.(status := Completed, revision := t.revision + 1))
  }

  /** A reviewer's rejection and a worker's failure make the same change. */
  function ReopenTask(t: Task, worker: string, findings: seq<Finding>): Option<Task> {
    if t.status != Claimed || t.claimedBy != worker then None
    else Some(ReopenOrBlock(t, t.baseCommit, findings))
  }

  function SubmitResult(t: Task, worker: string, branch: string): Option<Task> {
    if t.status != Claimed || t.claimedBy != worker then None
    else Some(t.(status := ReadyToMerge, branch := branch, revision := t.revision + 1))
  }

  function MarkMerged(t: Task): Option<Task> {
    if t.status != ReadyToMerge then None
    else Some(t.(status := Merged, revision := t.revision + 1))
  }

  function ReopenConflict(t: Task, baseCommit: string, findings: seq<Finding>): Option<Task> {
    if t.status != ReadyToMerge then None
    else Some(ReopenOrBlock(t, baseCommit, findings))
  }

  datatype Action =
    | Claim(worker: string, baseCommit: string)
    | Review(worker: string) | Resume(worker: string) | Suspend(worker: string)
    | DenyReview(worker: string, findings: seq<Finding>)
    | Supersede | Complete(worker: string)
    | Reject(worker: string, findings: seq<Finding>)
    | Submit(worker: string, branch: string) | Merge
    | Conflict(baseCommit: string, findings: seq<Finding>)

  function Apply(norm: Norm, t: Task, a: Action): Option<Task> {
    match a
    case Claim(w, base) => ClaimTask(norm, t, w, base)
    case Review(w) => MarkPendingReview(t, w)
    case Resume(w) => ResumeTask(t, w)
    case Suspend(w) => SuspendRelease(t, w)
    case DenyReview(w, f) => ReviewReopen(t, w, f)
    case Supersede => SupersedeTask(t)
    case Complete(w) => CompleteTask(t, w)
    case Reject(w, f) => ReopenTask(t, w, f)
    case Submit(w, branch) => SubmitResult(t, w, branch)
    case Merge => MarkMerged(t)
    case Conflict(base, f) => ReopenConflict(t, base, f)
  }

  // ---- runs of one task ----

  /** A task as it is first stored. */
  predicate IsNew(t: Task) {
    t.status == Pending && t.reopenCount == 0 && t.claimedBy == ""
  }

  predicate Terminal(s: Status) {
    s == Blocked || s == Merged || s == Completed || s == Superseded
  }

  /** The states `ts` are linked by the successful transitions `acts`. */
  ghost predicate IsRun(norm: Norm, ts: seq<Task>, acts: seq<Action>) {
    && |ts| == |acts| + 1
    && forall i | 0 <= i < |acts| :: Apply(norm, ts[i], acts[i]) == Some(ts[i + 1])
  }

  /** No transition leaves a terminal status. */
  lemma TerminalIsAbsorbing(norm: Norm, t: Task, a: Action)
    ensures Terminal(t.status) ==> Apply(norm, t, a) == None
    ensures (forall b :: Apply(norm, t, b) == None) <==>
            Terminal(t.status) || ((t.status == Pending) && NormSet(norm, t.scope) == {})
  {
    if !Terminal(t.status) {
      assert Apply(norm, t, Claim("", "")).Some? ||
             Apply(norm, t, Supersede).Some? || Apply(norm, t, Merge).Some? ||
             Apply(norm, t, Resume(t.claimedBy)).Some? || (t.status == Pending && NormSet(norm, t.scope) == {});
    }
  }

  /** In every run from a new task: identity, scope and dependencies never change, each success
      raises the revision by one, and the task is blocked exactly when it was reopened 4 times. */
  lemma {:induction false} RunInvariant(norm: Norm, ts: seq<Task>, acts: seq<Action>, i: nat)
    requires IsRun(norm, ts, acts) && IsNew(ts[0]) && i < |ts|
    ensures ts[i].id == ts[0].id && ts[i].scope == ts[0].scope && ts[i].deps == ts[0].deps
    ensures ts[i].revision == ts[0].revision + i
    ensures ts[i].reopenCount <= REOPEN_LIMIT + 1
    ensures ts[i].status == Blocked <==> ts[i].reopenCount == REOPEN_LIMIT + 1
  {
    if i > 0 {
      RunInvariant(norm, ts, acts, i - 1);
      assert Apply(norm, ts[i - 1], acts[i - 1]) == Some(ts[i - 1 + 1]);
    }
  }

  /** How many more transitions a task that is never suspended can make. */
  function Fuel(t: Task): int {
    match t.status
    case Pending => 12 - 3 * t.reopenCount
    case Reopened => 12 - 3 * t.reopenCount
    case Claimed => 11 - 3 * t.reopenCount
    case ReadyToMerge => 10 - 3 * t.reopenCount
    case _ => 0
  }

  /** A run without review suspensions makes at most 12 transitions. */
  lemma {:induction false} RunsAreShort(norm: Norm, ts: seq<Task>, acts: seq<Action>)
    requires IsRun(norm, ts, acts) && IsNew(ts[0])
    requires forall i | 0 <= i < |acts| :: !acts[i].Review?
    ensures |acts| <= 12
  {
    var n := |acts|;
    var i := 0;
    while i < n
      invariant 0 <= i <= n && ts[i].status != PendingReview
      invariant i + Fuel(ts[i]) <= 12 && 0 <= Fuel(ts[i])
    {
      RunInvariant(norm, ts, acts, i);
      RunInvariant(norm, ts, acts, i + 1);
      assert Apply(norm, ts[i], acts[i]) == Some(ts[i + 1]);
      i := i + 1;
    }
  }

  /** Twelve is reached: three rounds of claim, submit, conflict and a fourth that blocks. */
  lemma TwelveIsReached(norm: Norm, t: Task) returns (ts: seq<Task>, acts: seq<Action>)
    requires IsNew(t) && NormSet(norm, t.scope) != {}
    ensures IsRun(norm, ts, acts) && ts[0] == t && |acts| == 12
    ensures forall i | 0 <= i < |acts| :: !acts[i].Review?
    ensures ts[12].status == Blocked
  {
    ts, acts := [t], [];
    var k := 0;
    while k < 4
      invariant 0 <= k <= 4 && |acts| == 3 * k && IsRun(norm, ts, acts) && ts[0] == t
      invariant forall i | 0 <= i < |acts| :: !acts[i].Review?
      invariant ts[3 * k].scope == t.scope && ts[3 * k].reopenCount == k
      invariant ts[3 * k].status == if k == 0 then Pending else if k == 4 then Blocked else Reopened
    {
      var a := ts[3 * k];
      var b := ClaimTask(norm, a, "w", "").value;
      var c := SubmitResult(b, "w", "").value;
      var d := ReopenConflict(c, "", []).value;
      ts := ts + [b, c, d];
      acts := acts + [Claim("w", ""), Submit("w", ""), Conflict("", [])];
      k := k + 1;
    }
  }

  /** One transition more at the front. */
  lemma RunFrom(norm: Norm, t: Task, a: Action, ts: seq<Task>, acts: seq<Action>)
    requires ts != [] && Apply(norm, t, a) == Some(ts[0]) && IsRun(norm, ts, acts)
    ensures IsRun(norm, [t] + ts, [a] + acts)
  {
    hide Apply;
    var us, bs := [t] + ts, [a] + acts;
    forall i | 0 <= i < |bs| ensures Apply(norm, us[i], bs[i]) == Some(us[i + 1]) {
      if i > 0 {
        var k := i - 1;
        assert Apply(norm, ts[k], acts[k]) == Some(ts[k + 1]);
      }
    }
  }

  lemma SuspensionRound(norm: Norm, t: Task) returns (a: Task, b: Task, c: Task)
    requires t.status == Pending && NormSet(norm, t.scope) != {}
    ensures Apply(norm, t, Claim("w", "")) == Some(a) && Apply(norm, a, Review("w")) == Some(b)
    ensures Apply(norm, b, Suspend("w")) == Some(c) && c.status == Pending && c.scope == t.scope
  {
    hide NormSet;
    a := ClaimTask(norm, t, "w", "").value;
    b := MarkPendingReview(a, "w").value;
    c := SuspendRelease(b, "w").value;
  }

  /** A suspended task can be swept back to pending and claimed again without end. */
  lemma {:induction false} SuspensionHasNoBound(norm: Norm, t: Task, n: nat) returns (ts: seq<Task>, acts: seq<Action>)
    requires t.status == Pending && NormSet(norm, t.scope) != {}
    ensures IsRun(norm, ts, acts) && ts != [] && ts[0] == t && |acts| == 3 * n
    decreases n
  {
    if n == 0 {
      ts, acts := [t], [];
    } else {
      var a, b, c := SuspensionRound(norm, t);
      ts, acts := SuspensionHasNoBound(norm, c, n - 1);
      hide Apply, NormSet, IsRun;
      RunFrom(norm, b, Suspend("w"), ts, acts);
      RunFrom(norm, a, Review("w"), [b] + ts, [Suspend("w")] + acts);
      RunFrom(norm, t, Claim("w", ""), [a] + ([b] + ts), [Review("w")] + ([Suspend("w")] + acts));
      ts := [t] + ([a] + ([b] + ts));
      acts := [Claim("w", "")] + ([Review("w")] + ([Suspend("w")] + acts));
    }
  }
}
