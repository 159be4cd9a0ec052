/**
 * Orderly runs of the action journal: at most one unfinished action per operation unless one has
 * taken the other over, completed actions stay completed, and a successful takeover closes
 * everything unfinished on its operation.
 */
module JournalSafety {
  import opened ActionJournal

  // ---- the invariant ----

  predicate Unfinished(latest: map<string, Entry>, id: string) {
    id in latest && IsActive(latest[id])
  }

  /** Two unfinished actions on one operation. */
  predicate Share(latest: map<string, Entry>, a: string, b: string) {
    a != b && Unfinished(latest, a) && Unfinished(latest, b) && latest[a].operation == latest[b].operation != ""
  }

  /** Of two unfinished actions on one operation, one has taken the other over. */
  ghost predicate Linked(latest: map<string, Entry>) {
    forall a, b | Share(latest, a, b) :: a in latest[b].recoveryOf || b in latest[a].recoveryOf
  }

  ghost predicate OpenIsExecuting(latest: map<string, Entry>, open: set<string>) {
    forall id | id in open :: id in latest && latest[id].status == Executing
  }

  /** A grant still in force has taken over everything else on its operation. */
  ghost predicate OpenIsLast(latest: map<string, Entry>, open: set<string>) {
    forall a, b | b in open && Share(latest, a, b) :: a in latest[b].recoveryOf && a !in open
  }

  ghost predicate OpenRemembers(latest: map<string, Entry>, open: set<string>, recovering: set<string>) {
    forall id | id in open && id in latest && latest[id].recoveryOf != {} :: id in recovering
  }

  ghost predicate LatestOk(latest: map<string, Entry>, open: set<string>, recovering: set<string>) {
    Linked(latest) && OpenIsExecuting(latest, open) && OpenIsLast(latest, open)
      && OpenRemembers(latest, open, recovering)
  }

  ghost predicate JournalOk(j: Journal) {
    LatestOk(Latest(j.log), j.open, j.recovering)
  }

  // ---- steps ----

  lemma GrantKeepsOk(latest: map<string, Entry>, after: map<string, Entry>, open: set<string>, recovering: set<string>,
                     id: string, operation: string, recoverable: bool, over: set<string>)
    requires LatestOk(latest, open, recovering) && Decide(latest, id, operation, recoverable) == Execute
    requires over == TakenOver(latest, id, operation)
    requires id in after && after == latest[id := after[id]] && after[id].status == Executing
    requires after[id].operation == operation && after[id].recoveryOf == over
    ensures LatestOk(after, open - over + {id}, if over != {} then recovering + {id} else recovering)
  {
    assert forall a, b | a != id && b != id && Share(after, a, b) :: Share(latest, a, b);
    assert forall a | Share(after, a, id) :: a in over;
    assert forall b | b in open - over :: !Share(after, id, b);
    assert forall a, b :: Share(after, a, b) <==> Share(after, b, a);
    hide TakenOver, Decide, Unfinished;
    assert Linked(after);
    hide Linked;
    assert OpenIsLast(after, open - over + {id});
  }

  /** An outcome of an open grant: its status changes, nothing else, and the grant is closed. */
  lemma OutcomeKeepsOk(latest: map<string, Entry>, after: map<string, Entry>, open: set<string>,
      recovering: set<string>, id: string)
    requires LatestOk(latest, open, recovering) && id in open
    requires id in after && after == latest[id := after[id]]
    requires after[id].operation == latest[id].operation && after[id].recoveryOf == latest[id].recoveryOf
    ensures LatestOk(after, open - {id}, recovering)
  {
    assert forall a, b | Share(after, a, b) :: Share(latest, a, b);
    hide Share;
  }

  lemma CloseKeepsOk(latest: map<string, Entry>, after: map<string, Entry>, open: set<string>,
      recovering: set<string>, closed: set<string>)
    requires LatestOk(latest, open, recovering) && closed !! open
    requires after.Keys == latest.Keys
    requires forall p | p in after ::
      after[p] == if p in closed then latest[p].(status := Completed, failure := false) else latest[p]
    ensures LatestOk(after, open, recovering)
  {
    assert forall a, b | Share(after, a, b) :: Share(latest, a, b);
    hide Share;
  }

  /** A settlement is safe if and only if nothing it closes has been granted again: whatever else it
      closes, an action whose owner may still report must not be among it. */
  lemma SettleKeepsOkIff(j: Journal, id: string, order: seq<string>)
    requires JournalOk(j) && id in j.settling && Enumerates(order, ToClose(Latest(j.log), id))
    ensures JournalOk(Do(j, Settle(id, order))) <==> ToClose(Latest(j.log), id) !! j.open
  {
    var latest, closed, x := Latest(j.log), ToClose(Latest(j.log), id), Do(j, Settle(id, order));
    ToCloseIsKnown(latest, id);
    LatestAfterClosings(j.log, order);
    assert forall p | p in closed :: Latest(x.log)[p].status == Completed;
    hide Latest, ToClose, Closings, Linked, OpenIsLast, OpenRemembers;
    if closed !! j.open {
      StepKeepsOk(j, Settle(id, order));
    } else {
      var p :| p in closed && p in j.open;
      assert !OpenIsExecuting(Latest(x.log), x.open);
    }
  }

  lemma LoseKeepsOk(latest: map<string, Entry>, open: set<string>, recovering: set<string>, lost: set<string>)
    requires LatestOk(latest, open, recovering)
    ensures LatestOk(latest, open - lost, recovering - lost)
  {
  }

  lemma StepKeepsOk(j: Journal, step: Step)
    requires JournalOk(j) && Orderly(j, step)
    ensures JournalOk(Do(j, step))
  {
    var latest, x := Latest(j.log), Do(j, step);
    if |x.log| == |j.log| + 1 {
      LatestAppend(j.log, x.log[|j.log|]);
    }
    hide Latest, LatestOk, TakenOver, ToClose, Closings;
    match step {
      case Begin(id, operation, recoverable) =>
        if Decide(latest, id, operation, recoverable) == Execute {
          GrantKeepsOk(latest, Latest(x.log), j.open, j.recovering, id, operation, recoverable,
            TakenOver(latest, id, operation));
        }
      case Complete(id, terminal, failure) =>
        OpenIsThere(latest, j.open, j.recovering, id);
        OutcomeKeepsOk(latest, Latest(x.log), j.open, j.recovering, id);
      case Report(id, s) =>
        OpenIsThere(latest, j.open, j.recovering, id);
        if s == Unknown || s == Failed {
          OutcomeKeepsOk(latest, Latest(x.log), j.open, j.recovering, id);
        }
      case Settle(id, order) =>
        if id in j.settling && Enumerates(order, ToClose(latest, id)) {
          ToCloseIsKnown(latest, id);
          LatestAfterClosings(j.log, order);
          CloseKeepsOk(latest, Latest(x.log), j.open, j.recovering, ToClose(latest, id));
        }
      case Crash(lost) => LoseKeepsOk(latest, j.open, j.recovering, lost);
    }
  }

  lemma ToCloseIsKnown(latest: map<string, Entry>, id: string)
    ensures ToClose(latest, id) <= latest.Keys
  {
  }

  lemma OpenIsThere(latest: map<string, Entry>, open: set<string>, recovering: set<string>, id: string)
    requires LatestOk(latest, open, recovering) && id in open
    ensures id in latest && latest[id].status == Executing
  {
  }

  lemma {:induction false} RunKeepsOk(steps: seq<Step>)
    requires OrderlyRun(steps)
    ensures JournalOk(Run(steps))
  {
    if steps != [] {
      RunKeepsOk(steps[..|steps| - 1]);
      StepKeepsOk(Run(steps[..|steps| - 1]), steps[|steps| - 1]);
    }
  }

  // ---- what it means ----

  /** In every orderly run two unfinished actions on one operation are linked by a takeover. */
  lemma UnfinishedAreLinked(steps: seq<Step>, a: string, b: string)
    requires OrderlyRun(steps)
    ensures var latest := Latest(Run(steps).log);
      Share(latest, a, b) ==> a in latest[b].recoveryOf || b in latest[a].recoveryOf
  {
    RunKeepsOk(steps);
    hide Run, Latest, Share;
  }

  /** No grant has taken anything over. */
  ghost predicate Untaken(j: Journal) {
    && (forall id | id in Latest(j.log) :: Latest(j.log)[id].recoveryOf == {})
    && (forall i | 0 <= i < |j.log| && j.log[i].recoveryOf.Some? :: j.log[i].recoveryOf.value == {})
    && j.settling == {} && j.recovering == {}
  }

  lemma AppendKeepsUntaken(j: Journal, x: Journal, r: Record)
    requires Untaken(j) && x.log == j.log + [r] && x.settling == {} && x.recovering == {}
    requires r.recoveryOf.Some? ==> r.recoveryOf.value == {}
    ensures Untaken(x)
  {
  }

  lemma StepKeepsUntaken(j: Journal, step: Step)
    requires Untaken(j) && (step.Begin? ==> !step.recoverable)
    ensures Untaken(Do(j, step))
  {
    var x := Do(j, step);
    if step.Crash? || x.log == j.log {
      assert Untaken(x);
    } else {
      var r := x.log[|j.log|];
      hide Untaken, Latest;
      if step.Begin? {
        assert TakenOver(Latest(j.log), step.id, step.operation) == {};
      }
      UntakenFields(j);
      AppendKeepsUntaken(j, x, r);
    }
  }

  lemma UntakenFields(j: Journal)
    requires Untaken(j)
    ensures j.settling == {} && j.recovering == {}
  {
  }

  /** Without recoverable grants nothing is ever taken over. */
  lemma {:induction false} NothingTakenOver(steps: seq<Step>)
    requires NeverRecovers(steps)
    ensures Untaken(Run(steps))
  {
    if steps != [] {
      var front := steps[..|steps| - 1];
      assert forall i | 0 <= i < |front| :: front[i] == steps[i];
      NothingTakenOver(front);
      StepKeepsUntaken(Run(front), steps[|steps| - 1]);
    }
  }

  /** Non-recoverable grants: at most one action per operation is ever executing or unknown. */
  lemma OnePerOperation(steps: seq<Step>, a: string, b: string)
    requires OrderlyRun(steps) && NeverRecovers(steps)
    ensures var latest := Latest(Run(steps).log);
      Unfinished(latest, a) && Unfinished(latest, b) && latest[a].operation == latest[b].operation != "" ==> a == b
  {
    NothingTakenOver(steps);
    RunKeepsOk(steps);
    hide Latest, Run;
    assert Share(Latest(Run(steps).log), a, b) ==> a == b;
  }

  /** Non-recoverable grants: two grants of one action have a failed outcome between them. */
  lemma GrantsNeedFailure(steps: seq<Step>, i: nat, k: nat)
    requires NeverRecovers(steps) && i < k < |Run(steps).log|
    requires var log := Run(steps).log;
      log[i].id == log[k].id && log[i].status == Executing && log[k].status == Executing
    ensures var log := Run(steps).log; exists m :: i < m < k && log[m].id == log[k].id && log[m].status == Failed
  {
    RunGrantsApart(steps);
    NothingTakenOver(steps);
    hide Run, Latest;
    var log := Run(steps).log;
    assert FailedBetween(log, i, k);
    hide Untaken, GrantsApart;
    var m :| i < m < k < |log| && 0 <= m && log[m].id == log[k].id && log[m].status == Failed;
  }

  /** A completed action is never executed again, whatever is asked for. */
  lemma CompletedStays(j: Journal, step: Step, id: string)
    requires JournalOk(j) && Orderly(j, step) && id in Latest(j.log) && Latest(j.log)[id].status == Completed
    ensures var after := Latest(Do(j, step).log); id in after && after[id].status == Completed
    ensures step.Begin? && step.id == id ==> Do(j, step) == j
  {
    var latest, x := Latest(j.log), Do(j, step);
    OpenIsNotCompleted(j, id);
    if |x.log| == |j.log| + 1 {
      LatestAppend(j.log, x.log[|j.log|]);
    }
    hide Latest, TakenOver, ToClose, Closings, JournalOk;
    if step.Settle? && x != j {
      ToCloseIsKnown(latest, step.id);
      LatestAfterClosings(j.log, step.order);
    }
  }

  lemma OpenIsNotCompleted(j: Journal, id: string)
    requires JournalOk(j) && id in Latest(j.log) && Latest(j.log)[id].status == Completed
    ensures id !in j.open
  {
  }

  /** A grant still in force that completes without error and is settled closes everything
      unfinished on its operation, and changes no action it had not taken over. */
  lemma TakeoverCloses(steps: seq<Step>, id: string, order: seq<string>, a: string)
    requires OrderlyRun(steps) && id in Run(steps).open
    requires var j := Run(steps); var latest := Latest(j.log); var done := Do(j, Complete(id, true, false));
      id in latest && latest[id].operation != "" && Enumerates(order, ToClose(Latest(done.log), id))
    ensures var j := Run(steps); var latest := Latest(j.log); var done := Do(j, Complete(id, true, false));
      var x := if id in done.settling then Do(done, Settle(id, order)) else done; var after := Latest(x.log);
      && (a in after && after[a].operation == latest[id].operation ==> !IsActive(after[a]))
      && (a != id && a !in latest[id].recoveryOf ==>
        (a in after <==> a in latest) && (a in after ==> after[a] == latest[a]))
  {
    RunKeepsOk(steps);
    var j := Run(steps);
    hide Run;
    Closes(j, Latest(j.log), Do(j, Complete(id, true, false)), Latest(Do(j, Complete(id, true, false)).log), id,
      order, a);
  }

  lemma Closes(j: Journal, latest: map<string, Entry>, done: Journal, mid: map<string, Entry>, id: string,
      order: seq<string>, a: string)
    requires JournalOk(j) && id in j.open && latest == Latest(j.log) && done == Do(j, Complete(id, true, false))
      && mid == Latest(done.log)
    requires id in latest && latest[id].operation != "" && Enumerates(order, ToClose(mid, id))
    ensures var x := if id in done.settling then Do(done, Settle(id, order)) else done; var after := Latest(x.log);
      && (a in after && after[a].operation == latest[id].operation ==> !IsActive(after[a]))
      && (a != id && a !in latest[id].recoveryOf ==>
        (a in after <==> a in latest) && (a in after ==> after[a] == latest[a]))
  {
    hide JournalOk, ToClose, Enumerates;
    LatestAppend(j.log, Outcome(id, Completed, false));
    ReceiptIsRemembered(j, latest, id);
    assert mid == latest[id := latest[id].(status := Completed, failure := false)];
    ClosesOthers(latest, mid, j.open, j.recovering, id, a);
    hide Latest;
    if id in done.settling {
      SettledAfter(done, mid, id, order, a);
    }
  }

  lemma ReceiptIsRemembered(j: Journal, latest: map<string, Entry>, id: string)
    requires JournalOk(j) && latest == Latest(j.log) && id in j.open
    ensures LatestOk(latest, j.open, j.recovering)
      && (id in latest && latest[id].recoveryOf != {} ==> id in j.recovering)
  {
  }

  lemma SettledAfter(done: Journal, mid: map<string, Entry>, id: string, order: seq<string>, a: string)
    requires mid == Latest(done.log) && id in done.settling && Enumerates(order, ToClose(mid, id))
    ensures var after := Latest(Do(done, Settle(id, order)).log);
      && (a in after <==> a in mid)
      && (a in after ==>
        after[a] == if a in ToClose(mid, id) then mid[a].(status := Completed, failure := false) else mid[a])
  {
    hide Latest;
    LatestAfterClosings(done.log, order);
  }

  /** What stays unfinished after the receipt, on its operation, is what the receipt will close. */
  lemma ClosesOthers(latest: map<string, Entry>, mid: map<string, Entry>, open: set<string>, recovering: set<string>,
      id: string, a: string)
    requires LatestOk(latest, open, recovering) && id in open && id in latest && latest[id].operation != ""
    requires mid == latest[id := latest[id].(status := Completed, failure := false)]
    ensures Unfinished(mid, a) && mid[a].operation == latest[id].operation ==>
      a in ToClose(mid, id) && latest[id].recoveryOf != {}
    ensures forall p | p in ToClose(mid, id) :: p in latest[id].recoveryOf
  {
  }

  // ---- why a receipt must be settled before its actions are granted again ----

  /** The receipt and its settlement are two locked sections. When a taken-over action is granted
      again between them, the settlement closes it under its owner, and a later non-recoverable
      call on the same operation is let through although the owner has not finished. */
  lemma LateSettlementLetsTwoExecute(k: string, a: string, b: string, c: string)
    requires k != "" && a != b && b != c && a != c
    ensures var j3 := Do(AfterReceipt(k, a, b), Begin(a, k, true));
      var j4 := Do(Do(j3, Settle(b, [a])), Begin(c, k, false));
      a in j3.open && !Orderly(j3, Settle(b, [a])) && a in j4.open && c in j4.open && Unfinished(Latest(j4.log), c)
  {
    ReceiptState(k, a, b);
    var j2 := AfterReceipt(k, a, b);
    hide AfterReceipt;
    var j3 := Do(j2, Begin(a, k, true));
    TakenAgain(j2, j3, k, a, b);
    hide Latest;
    SettledLate(j3, k, a, b, c);
  }

  /** a is granted and its process dies; b takes it over and completes. */
  function AfterReceipt(k: string, a: string, b: string): Journal {
    Do(Do(Do(Do(EMPTY, Begin(a, k, true)), Crash({a})), Begin(b, k, true)), Complete(b, true, false))
  }

  lemma ReceiptState(k: string, a: string, b: string)
    requires k != "" && a != b
    ensures Latest(AfterReceipt(k, a, b).log) ==
      map[a := Entry(Executing, k, {}, false), b := Entry(Completed, k, {a}, false)]
    ensures b in AfterReceipt(k, a, b).settling
  {
    var first := Do(EMPTY, Begin(a, k, true));
    var e1 := map[a := Entry(Executing, k, {}, false)];
    LatestAppend([], Grant(map[], a, k));
    assert TakenOver(map[], a, k) == {};
    assert Latest(first.log) == e1;
    ReceiptTakesOver(Do(first, Crash({a})), e1, k, a, b);
  }

  lemma ReceiptTakesOver(j1: Journal, e1: map<string, Entry>, k: string, a: string, b: string)
    requires k != "" && a != b && Latest(j1.log) == e1 == map[a := Entry(Executing, k, {}, false)]
    ensures var j := Do(Do(j1, Begin(b, k, true)), Complete(b, true, false));
      Latest(j.log) == e1[b := Entry(Completed, k, {a}, false)] && b in j.settling
  {
    var taken := Do(j1, Begin(b, k, true));
    var e2 := e1[b := Entry(Executing, k, {a}, false)];
    LatestAppend(j1.log, Grant(e1, b, k));
    assert TakenOver(e1, b, k) == {a};
    assert Latest(taken.log) == e2;
    LatestAppend(taken.log, Outcome(b, Completed, false));
    hide Latest;
  }

  lemma TakenAgain(j2: Journal, j3: Journal, k: string, a: string, b: string)
    requires k != "" && a != b && b in j2.settling && j3 == Do(j2, Begin(a, k, true))
    requires Latest(j2.log) == map[a := Entry(Executing, k, {}, false), b := Entry(Completed, k, {a}, false)]
    ensures Latest(j3.log) == map[a := Entry(Executing, k, {a}, false), b := Entry(Completed, k, {a}, false)]
    ensures a in j3.open && b in j3.settling
  {
    LatestAppend(j2.log, Grant(Latest(j2.log), a, k));
    assert TakenOver(Latest(j2.log), a, k) == {a};
    hide Latest;
  }

  lemma SettledLate(j3: Journal, k: string, a: string, b: string, c: string)
    requires k != "" && a != b && b != c && a != c && a in j3.open && b in j3.settling
    requires Latest(j3.log) == map[a := Entry(Executing, k, {a}, false), b := Entry(Completed, k, {a}, false)]
    ensures var j4 := Do(Do(j3, Settle(b, [a])), Begin(c, k, false));
      !Orderly(j3, Settle(b, [a])) && a in j4.open && c in j4.open && Unfinished(Latest(j4.log), c)
  {
    LateClose(j3, k, a, b);
    var settled := Do(j3, Settle(b, [a]));
    hide Latest;
    assert TakenOver(Latest(settled.log), c, k) == {};
    LatestAppend(settled.log, Grant(Latest(settled.log), c, k));
  }

  lemma LateClose(j3: Journal, k: string, a: string, b: string)
    requires k != "" && a != b && a in j3.open && b in j3.settling
    requires Latest(j3.log) == map[a := Entry(Executing, k, {a}, false), b := Entry(Completed, k, {a}, false)]
    ensures var x := Do(j3, Settle(b, [a]));
      !Orderly(j3, Settle(b, [a])) && a in x.open && forall p | p in Latest(x.log) ::
        Latest(x.log)[p].status == Completed
  {
    assert ToClose(Latest(j3.log), b) == {a};
    LatestAfterClosings(j3.log, [a]);
    hide Latest;
  }
}
