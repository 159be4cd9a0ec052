/**
 * The journal of side-effecting actions: an append-only log whose folded state decides whether a
 * call may execute, is answered from the record, or needs recovery first.
 */
module ActionJournal {
  import opened Options

  datatype Status = Executing | Completed | Unknown | Failed

  /** One line of the log. A field that is None is absent, and the fold keeps its older value. */
  datatype Record = Record(id: string, status: Status, operation: Option<string>, recoveryOf: Option<set<string>>,
    failure: Option<bool>)

  datatype Entry = Entry(status: Status, operation: string, recoveryOf: set<string>, failure: bool)

  predicate IsActive(e: Entry) { e.status == Executing || e.status == Unknown }

  function OrElse<T>(o: Option<T>, was: T): T {
    match o case None => was case Some(v) => v
  }

  function Merge(latest: map<string, Entry>, r: Record): map<string, Entry> {
    var was := if r.id in latest then latest[r.id] else Entry(r.status, "", {}, false);
    latest[r.id := Entry(r.status, OrElse(r.operation, was.operation), OrElse(r.recoveryOf, was.recoveryOf),
      OrElse(r.failure, was.failure))]
  }

  function Latest(log: seq<Record>): map<string, Entry> {
    if log == [] then map[] else Merge(Latest(log[..|log| - 1]), log[|log| - 1])
  }

  // ---- decisions ----

  datatype Decision = Execute | Replay | RecoveryRequired

  /** The unfinished actions a grant would take over: the action itself, and those on its operation. */
  function TakenOver(latest: map<string, Entry>, id: string, operation: string): set<string> {
    set o | o in latest && IsActive(latest[o]) && (o == id || (operation != "" && latest[o].operation == operation))
  }

  function Decide(latest: map<string, Entry>, id: string, operation: string, recoverable: bool): Decision {
    if id in latest && latest[id].status == Completed then Replay
    else if !recoverable && TakenOver(latest, id, operation) != {} then RecoveryRequired
    else Execute
  }

  function Grant(latest: map<string, Entry>, id: string, operation: string): Record {
    Record(id, Executing, Some(operation), Some(TakenOver(latest, id, operation)), None)
  }

  function Outcome(id: string, s: Status, failure: bool): Record {
    Record(id, s, None, None, if s == Completed then Some(failure) else None)
  }

  /** What a receipt closes: the unfinished actions it took over, once it has succeeded. */
  function ToClose(latest: map<string, Entry>, id: string): set<string> {
    if id !in latest || latest[id].status != Completed || latest[id].failure then {}
    else set p | p in latest[id].recoveryOf && p != id && p in latest && IsActive(latest[p])
  }

  function Closings(ids: seq<string>): seq<Record> {
    seq(|ids|, i requires 0 <= i < |ids| => Outcome(ids[i], Completed, false))
  }

  predicate Enumerates(ids: seq<string>, s: set<string>) {
    (forall i | 0 <= i < |ids| :: ids[i] in s) && (forall p | p in s :: p in ids)
      && (forall i, j | 0 <= i < j < |ids| :: ids[i] != ids[j])
  }

  // ---- the journal as a state machine ----

  /** `open`: grants whose caller may still report an outcome. `recovering`: what the running processes
      remember having taken over. `settling`: receipts written but not settled yet. */
  datatype Journal = Journal(log: seq<Record>, open: set<string>, recovering: set<string>, settling: set<string>)

  datatype Step =
    | Begin(id: string, operation: string, recoverable: bool)
    | Complete(id: string, terminal: bool, failure: bool)
    | Report(id: string, s: Status)
    | Settle(id: string, order: seq<string>)
    | Crash(lost: set<string>)

  function Do(j: Journal, step: Step): Journal {
    match step
    case Begin(id, operation, recoverable) =>
      var latest := Latest(j.log);
      if Decide(latest, id, operation, recoverable) != Execute then j
      else
        var over := TakenOver(latest, id, operation);
        j.(log := j.log + [Grant(latest, id, operation)],
           open := j.open - over + {id},
           recovering := if over != {} then j.recovering + {id} else j.recovering)
    case Complete(id, terminal, failure) =>
      if !terminal then j.(log := j.log + [Outcome(id, Unknown, failure)], open := j.open - {id})
      else j.(log := j.log + [Outcome(id, Completed, failure)], open := j.open - {id},
              settling := if id in j.recovering then j.settling + {id} else j.settling)
    case Report(id, s) =>
      if s != Unknown && s != Failed then j
      else j.(log := j.log + [Outcome(id, s, false)], open := j.open - {id})
    case Settle(id, order) =>
      if id !in j.settling || !Enumerates(order, ToClose(Latest(j.log), id)) then j
      else j.(log := j.log + Closings(order), settling := j.settling - {id})
    case Crash(lost) =>
      j.(open := j.open - lost, recovering := j.recovering - lost, settling := j.settling - lost)
  }

  const EMPTY := Journal([], {}, {}, {})

  function Run(steps: seq<Step>): Journal {
    if steps == [] then EMPTY else Do(Run(steps[..|steps| - 1]), steps[|steps| - 1])
  }

  /** A grant has at most one outcome, none once it has been taken over; a receipt is settled before
      what it took over is granted again. */
  predicate Orderly(j: Journal, step: Step) {
    match step
    case Complete(id, _, _) => id in j.open
    case Report(id, _) => id in j.open
    case Settle(id, _) => ToClose(Latest(j.log), id) !! j.open
    case _ => true
  }

  predicate OrderlyRun(steps: seq<Step>) {
    steps == [] || (OrderlyRun(steps[..|steps| - 1]) && Orderly(Run(steps[..|steps| - 1]), steps[|steps| - 1]))
  }

  predicate NeverRecovers(steps: seq<Step>) {
    forall i | 0 <= i < |steps| :: steps[i].Begin? ==> !steps[i].recoverable
  }

  // ---- the fold ----

  lemma LatestAppend(log: seq<Record>, r: Record)
    ensures Latest(log + [r]) == Merge(Latest(log), r)
  {
  }

  predicate IsLast(log: seq<Record>, id: string, i: int) {
    0 <= i < |log| && log[i].id == id && forall k | i < k < |log| :: log[k].id != id
  }

  lemma {:induction false} KnownInLog(log: seq<Record>, id: string)
    ensures id in Latest(log) <==> exists i :: 0 <= i < |log| && log[i].id == id
  {
    if log != [] {
      var n := |log| - 1;
      KnownInLog(log[..n], id);
      assert forall i | 0 <= i < n :: log[..n][i] == log[i];
    }
  }

  /** The folded status is that of the last record. */
  lemma {:induction false} LatestIsLast(log: seq<Record>, id: string) returns (i: nat)
    requires id in Latest(log)
    ensures IsLast(log, id, i) && Latest(log)[id].status == log[i].status
  {
    var n := |log| - 1;
    if log[n].id == id {
      i := n;
    } else {
      i := LatestIsLast(log[..n], id);
    }
  }

  lemma CloseOne(before: map<string, Entry>, ids: seq<string>, mid: map<string, Entry>, id: string,
      after: map<string, Entry>)
    requires id in before && mid.Keys == before.Keys && after == Merge(mid, Outcome(id, Completed, false))
    requires forall p | p in mid ::
      mid[p] == if p in ids then before[p].(status := Completed, failure := false) else before[p]
    ensures after.Keys == before.Keys
    ensures forall p | p in after ::
      after[p] == if p in ids + [id] then before[p].(status := Completed, failure := false) else before[p]
  {
  }

  lemma {:induction false} LatestAfterClosings(log: seq<Record>, ids: seq<string>)
    requires forall i | 0 <= i < |ids| :: ids[i] in Latest(log)
    ensures var after := Latest(log + Closings(ids));
      && after.Keys == Latest(log).Keys
      && forall p | p in after ::
        after[p] == if p in ids then Latest(log)[p].(status := Completed, failure := false) else Latest(log)[p]
    decreases |ids|
  {
    if ids == [] {
      assert log + Closings(ids) == log;
    } else {
      var n := |ids| - 1;
      LatestAfterClosings(log, ids[..n]);
      assert ids == ids[..n] + [ids[n]];
      assert log + Closings(ids) == (log + Closings(ids[..n])) + [Outcome(ids[n], Completed, false)];
      hide Closings, Latest;
      LatestAppend(log + Closings(ids[..n]), Outcome(ids[n], Completed, false));
      CloseOne(Latest(log), ids[..n], Latest(log + Closings(ids[..n])), ids[n], Latest(log + Closings(ids)));
    }
  }

  // ---- grants of one action ----

  /** Between two grants of one action there is a failed outcome, unless the second took the first over. */
  ghost predicate GrantsApart(log: seq<Record>) {
    forall i, k | 0 <= i < k < |log| && log[i].id == log[k].id && log[i].status == Executing
      && log[k].status == Executing ::
      FailedBetween(log, i, k) || (log[k].recoveryOf.Some? && log[k].id in log[k].recoveryOf.value)
  }

  ghost predicate FailedBetween(log: seq<Record>, i: int, k: int) {
    exists m :: i < m < k < |log| && 0 <= m && log[m].id == log[k].id && log[m].status == Failed
  }

  lemma FailedBetweenStays(log: seq<Record>, more: seq<Record>, i: int, k: int)
    requires FailedBetween(log, i, k)
    ensures FailedBetween(log + more, i, k)
  {
    var m :| i < m < k < |log| && 0 <= m && log[m].id == log[k].id && log[m].status == Failed;
    assert (log + more)[m] == log[m] && (log + more)[k] == log[k];
  }

  lemma GrantKeepsApart(log: seq<Record>, id: string, operation: string, recoverable: bool)
    requires GrantsApart(log) && Decide(Latest(log), id, operation, recoverable) == Execute
    ensures GrantsApart(log + [Grant(Latest(log), id, operation)])
  {
    var latest := Latest(log);
    var out := log + [Grant(latest, id, operation)];
    forall i, k | 0 <= i < k < |out| && out[i].id == out[k].id && out[i].status == Executing
      && out[k].status == Executing
      ensures FailedBetween(out, i, k) || (out[k].recoveryOf.Some? && out[k].id in out[k].recoveryOf.value)
    {
      assert out[i] == log[i];
      if k < |log| {
        assert out[k] == log[k];
        if FailedBetween(log, i, k) {
          FailedBetweenStays(log, [Grant(latest, id, operation)], i, k);
        }
      } else {
        KnownInLog(log, id);
        var m := LatestIsLast(log, id);
        assert out[m] == log[m];
      }
    }
  }

  lemma OutcomesKeepApart(log: seq<Record>, more: seq<Record>)
    requires GrantsApart(log) && forall i | 0 <= i < |more| :: more[i].status != Executing
    ensures GrantsApart(log + more)
  {
    var out := log + more;
    forall i, k | 0 <= i < k < |out| && out[i].id == out[k].id && out[i].status == Executing
      && out[k].status == Executing
      ensures FailedBetween(out, i, k) || (out[k].recoveryOf.Some? && out[k].id in out[k].recoveryOf.value)
    {
      assert out[k] == log[k] && out[i] == log[i];
      if FailedBetween(log, i, k) {
        FailedBetweenStays(log, more, i, k);
      }
    }
  }

  /** In every run at all, orderly or not. */
  lemma {:induction false} RunGrantsApart(steps: seq<Step>)
    ensures GrantsApart(Run(steps).log)
  {
    if steps != [] {
      var j, step := Run(steps[..|steps| - 1]), steps[|steps| - 1];
      RunGrantsApart(steps[..|steps| - 1]);
      hide GrantsApart;
      match step {
        case Begin(id, operation, recoverable) =>
          if Decide(Latest(j.log), id, operation, recoverable) == Execute {
            GrantKeepsApart(j.log, id, operation, recoverable);
          }
        case Complete(id, terminal, failure) =>
          OutcomesKeepApart(j.log, [Outcome(id, if terminal then Completed else Unknown, failure)]);
        case Report(id, s) => if s == Unknown || s == Failed { OutcomesKeepApart(j.log, [Outcome(id, s, false)]); }
        case Settle(id, order) => OutcomesKeepApart(j.log, Closings(order));
        case Crash(_) =>
      }
    }
  }
}
