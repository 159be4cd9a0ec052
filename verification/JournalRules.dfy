/**
 * What the journal answers, read off its lines: the last status of an action, the last operation,
 * takeover and error mark it was given, and what is unfinished in the way of a call.
 */
module JournalRules {
  import opened Options
  import opened ActionJournal

  // ---- what the lines say ----

  datatype Field = TheOperation | TheTakeover | TheFailure

  predicate Gives(r: Record, f: Field) {
    match f
    case TheOperation => r.operation.Some?
    case TheTakeover => r.recoveryOf.Some?
    case TheFailure => r.failure.Some?
  }

  /** Line i is the last one of the action that gives the field. */
  predicate LastGiving(log: seq<Record>, id: string, i: int, f: Field) {
    && 0 <= i < |log| && log[i].id == id && Gives(log[i], f)
    && forall k | i < k < |log| && log[k].id == id :: !Gives(log[k], f)
  }

  ghost predicate LastStatus(log: seq<Record>, id: string, s: Status) {
    exists i :: IsLast(log, id, i) && log[i].status == s
  }

  ghost predicate UnfinishedIn(log: seq<Record>, id: string) {
    LastStatus(log, id, Executing) || LastStatus(log, id, Unknown)
  }

  ghost predicate OperationIn(log: seq<Record>, id: string, operation: string) {
    exists i :: LastGiving(log, id, i, TheOperation) && log[i].operation.value == operation
  }

  ghost predicate TakeoverIn(log: seq<Record>, id: string, p: string) {
    exists i :: LastGiving(log, id, i, TheTakeover) && p in log[i].recoveryOf.value
  }

  ghost predicate FailureIn(log: seq<Record>, id: string) {
    exists i :: LastGiving(log, id, i, TheFailure) && log[i].failure.value
  }

  // ---- the fold says the same ----

  lemma StatusIff(log: seq<Record>, id: string, s: Status)
    ensures LastStatus(log, id, s) <==> id in Latest(log) && Latest(log)[id].status == s
  {
    KnownInLog(log, id);
    if id in Latest(log) {
      var i := LatestIsLast(log, id);
      hide Latest;
      assert forall k | IsLast(log, id, k) :: k == i;
    }
  }

  /** Where the folded value of a field comes from: the last line that gives it, or nowhere. */
  lemma {:induction false} GivenIsKept(log: seq<Record>, id: string, f: Field) returns (i: int)
    requires id in Latest(log)
    ensures LastGiving(log, id, i, f) || (i == -1 && forall k | 0 <= k < |log| && log[k].id == id :: !Gives(log[k], f))
    ensures var e := Latest(log)[id];
      match f
      case TheOperation => e.operation == if i == -1 then "" else log[i].operation.value
      case TheTakeover => e.recoveryOf == if i == -1 then {} else log[i].recoveryOf.value
      case TheFailure => e.failure == (i != -1 && log[i].failure.value)
  {
    var n := |log| - 1;
    var front := log[..n];
    assert forall k | 0 <= k < n :: front[k] == log[k];
    if log[n].id == id && Gives(log[n], f) {
      i := n;
    } else if id in Latest(front) {
      i := GivenIsKept(front, id, f);
    } else {
      KnownInLog(front, id);
      i := -1;
    }
  }

  lemma FieldsIff(log: seq<Record>, id: string, operation: string, p: string)
    requires id in Latest(log) && operation != ""
    ensures OperationIn(log, id, operation) <==> Latest(log)[id].operation == operation
    ensures TakeoverIn(log, id, p) <==> p in Latest(log)[id].recoveryOf
    ensures FailureIn(log, id) <==> Latest(log)[id].failure
  {
    var a := GivenIsKept(log, id, TheOperation);
    var b := GivenIsKept(log, id, TheTakeover);
    var c := GivenIsKept(log, id, TheFailure);
    hide Latest;
    assert forall k | LastGiving(log, id, k, TheOperation) :: k == a;
    assert forall k | LastGiving(log, id, k, TheTakeover) :: k == b;
    assert forall k | LastGiving(log, id, k, TheFailure) :: k == c;
  }

  // ---- when a call is let through ----

  /** An unfinished action that is the one asked for, or on the operation it names. */
  ghost predicate InTheWay(log: seq<Record>, o: string, id: string, operation: string) {
    UnfinishedIn(log, o) && (o == id || (operation != "" && OperationIn(log, o, operation)))
  }

  lemma TakenOverIff(log: seq<Record>, id: string, operation: string, o: string)
    ensures o in TakenOver(Latest(log), id, operation) <==> InTheWay(log, o, id, operation)
  {
    StatusIff(log, o, Executing);
    StatusIff(log, o, Unknown);
    hide Latest, LastStatus, OperationIn;
    if operation != "" && o in Latest(log) {
      FieldsIff(log, o, operation, "");
    }
  }

  /** A call is answered from the record exactly when the action's last line says it is completed. It
      is executed exactly when that is not so and nothing is in the way or the call can recover, and
      its grant then says what it takes over, which its owners may no longer report on. */
  lemma DecideIff(j: Journal, id: string, operation: string, recoverable: bool) returns (over: set<string>)
    ensures forall o :: o in over <==> InTheWay(j.log, o, id, operation)
    ensures var d := Decide(Latest(j.log), id, operation, recoverable); var done := LastStatus(j.log, id, Completed);
      && (d == Replay <==> done)
      && (d == Execute <==> !done && (recoverable || over == {}))
      && (d != Execute ==> Do(j, Begin(id, operation, recoverable)) == j)
      && (d == Execute ==>
            var grant := Record(id, Executing, Some(operation), Some(over), None);
            var x := Do(j, Begin(id, operation, recoverable));
            x.log == j.log + [grant] && x.open == j.open - over + {id} && x.settling == j.settling
            && x.recovering == j.recovering + if over != {} then {id} else {})
  {
    var latest := Latest(j.log);
    over := TakenOver(latest, id, operation);
    StatusIff(j.log, id, Completed);
    forall o ensures o in over <==> InTheWay(j.log, o, id, operation) {
      TakenOverIff(j.log, id, operation, o);
    }
    hide Latest, TakenOver, InTheWay, LastStatus;
  }

  // ---- what an outcome means for the next call ----

  /** After a final outcome the action is replayed; after one that is not final, or unknown, the next
      call must be able to recover; after a failure only other actions can be in its way. */
  lemma OutcomeDecides(j: Journal, id: string, failure: bool, operation: string, recoverable: bool)
    ensures Decide(Latest(Do(j, Complete(id, true, failure)).log), id, operation, recoverable) == Replay
    ensures Decide(Latest(Do(j, Complete(id, false, failure)).log), id, operation, recoverable)
      == (if recoverable then Execute else RecoveryRequired)
    ensures Decide(Latest(Do(j, Report(id, Unknown)).log), id, operation, recoverable)
      == (if recoverable then Execute else RecoveryRequired)
    ensures Decide(Latest(Do(j, Report(id, Status.Failed)).log), id, operation, recoverable)
      == (if recoverable || (forall o | o != id :: !InTheWay(j.log, o, id, operation)) then Execute
          else RecoveryRequired)
  {
    hide Latest, InTheWay, Decide;
    AnswerAfter(j.log, Outcome(id, Completed, failure), operation, recoverable);
    AnswerAfter(j.log, Outcome(id, Unknown, failure), operation, recoverable);
    AnswerAfter(j.log, Outcome(id, Unknown, false), operation, recoverable);
    AnswerAfter(j.log, Outcome(id, Status.Failed, false), operation, recoverable);
  }

  lemma AnswerAfter(log: seq<Record>, r: Record, operation: string, recoverable: bool)
    requires r.operation == None && r.status != Executing
    ensures Decide(Latest(log + [r]), r.id, operation, recoverable) ==
      match r.status
      case Completed => Replay
      case Unknown => (if recoverable then Execute else RecoveryRequired)
      case _ => (if recoverable || (forall o | o != r.id :: !InTheWay(log, o, r.id, operation)) then Execute
                 else RecoveryRequired)
  {
    var latest := Latest(log);
    LatestAppend(log, r);
    forall o ensures o in TakenOver(latest, r.id, operation) <==> InTheWay(log, o, r.id, operation) {
      TakenOverIff(log, r.id, operation, o);
    }
    hide Latest, InTheWay;
    AfterOutcome(latest, Merge(latest, r), r.id, operation);
  }

  lemma AfterOutcome(latest: map<string, Entry>, after: map<string, Entry>, id: string, operation: string)
    requires id in after && after == latest[id := after[id]]
    ensures id in TakenOver(after, id, operation) <==> IsActive(after[id])
    ensures forall o | o != id :: o in TakenOver(after, id, operation) <==> o in TakenOver(latest, id, operation)
  {
  }

  // ---- what a receipt closes ----

  /** A receipt closes exactly the unfinished actions its action took over, provided the action is
      completed and was not marked as an error. */
  lemma ClosesIff(log: seq<Record>, id: string, p: string)
    ensures p in ToClose(Latest(log), id) <==>
      (LastStatus(log, id, Completed) && !FailureIn(log, id) && p != id && TakeoverIn(log, id, p)
       && UnfinishedIn(log, p))
  {
    StatusIff(log, id, Completed);
    StatusIff(log, p, Executing);
    StatusIff(log, p, Unknown);
    hide Latest, LastStatus, TakeoverIn, FailureIn;
    if id in Latest(log) {
      FieldsIff(log, id, "-", p);
    }
  }

  /** What a final outcome closes when it is settled: nothing if it is marked as an error, otherwise
      everything unfinished that its action took over. */
  lemma FinalOutcomeCloses(j: Journal, id: string, failure: bool, p: string)
    ensures p in ToClose(Latest(Do(j, Complete(id, true, failure)).log), id) <==>
      (!failure && p != id && TakeoverIn(j.log, id, p) && UnfinishedIn(j.log, p))
  {
    LatestAppend(j.log, Outcome(id, Completed, failure));
    StatusIff(j.log, p, Executing);
    StatusIff(j.log, p, Unknown);
    KnownInLog(j.log, id);
    hide Latest, LastStatus, TakeoverIn;
    if id in Latest(j.log) {
      FieldsIff(j.log, id, "-", p);
    } else {
      NotTakenOver(j.log, id, p);
    }
  }

  lemma NotTakenOver(log: seq<Record>, id: string, p: string)
    requires forall i | 0 <= i < |log| :: log[i].id != id
    ensures !TakeoverIn(log, id, p)
  {
  }
}
