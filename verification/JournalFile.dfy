/**
 * The journal as an object over its file: the fold over the lines, a grant under the file lock,
 * and the loop that settles what a receipt took over.
 */
module JournalFile {
  import opened Options
  import opened ActionJournal

  class JournalOfSession {
    var log: seq<Record>
    var recovering: set<string>

    constructor ()
      ensures log == [] && recovering == {}
    {
      log, recovering := [], {};
    }

    /** Folds the lines, newer fields over older ones. */
    method Fold() returns (latest: map<string, Entry>)
      ensures latest == Latest(log)
    {
      latest := map[];
      for i := 0 to |log|
        invariant latest == Latest(log[..i])
      {
        assert log[..i + 1] == log[..i] + [log[i]];
        LatestAppend(log[..i], log[i]);
        latest := Merge(latest, log[i]);
      }
      assert log[..|log|] == log;
    }

    method BeginAction(id: string, operation: string, recoverable: bool) returns (d: Decision)
      modifies this
      ensures d == Decide(Latest(old(log)), id, operation, recoverable)
      ensures d != Execute ==> log == old(log) && recovering == old(recovering)
      ensures d == Execute ==> log == old(log) + [Grant(Latest(old(log)), id, operation)]
      ensures d == Execute ==>
        recovering == old(recovering) + if TakenOver(Latest(old(log)), id, operation) != {} then {id} else {}
    {
      var latest := Fold();
      var over := {};
      if id in latest {
        if latest[id].status == Completed {
          return Replay;
        }
        if IsActive(latest[id]) {
          if !recoverable {
            assert id in TakenOver(latest, id, operation);
            return RecoveryRequired;
          }
          over := {id};
        }
      }
      if operation != "" {
        var rest := latest.Keys;
        while rest != {}
          invariant rest <= latest.Keys
          invariant forall o :: o in over <==> o in TakenOver(latest, id, operation) && (o == id || o !in rest)
          invariant !recoverable ==> over == {}
          decreases rest
        {
          var o :| o in rest;
          rest := rest - {o};
          if latest[o].operation == operation && IsActive(latest[o]) {
            if !recoverable {
              assert o in TakenOver(latest, id, operation);
              return RecoveryRequired;
            }
            over := over + {o};
          }
        }
      }
      assert over == TakenOver(latest, id, operation);
      if over != {} {
        recovering := recovering + {id};
      }
      log := log + [Record(id, Executing, Some(operation), Some(over), None)];
      return Execute;
    }

    /** Closes, in some order, exactly what the receipt of `id` took over and is still unfinished. */
    method SettleRecoveries(id: string) returns (closed: seq<string>)
      modifies this`log
      ensures Enumerates(closed, ToClose(Latest(old(log)), id)) && log == old(log) + Closings(closed)
    {
      var latest := Fold();
      closed := [];
      if id in latest && latest[id].status == Completed && !latest[id].failure {
        var rest := latest[id].recoveryOf;
        while rest != {}
          invariant rest <= latest[id].recoveryOf
          invariant forall p :: p in closed <==> p in ToClose(latest, id) && p !in rest
          invariant forall i, j | 0 <= i < j < |closed| :: closed[i] != closed[j]
          invariant log == old(log) + Closings(closed)
          decreases rest
        {
          var p :| p in rest;
          rest := rest - {p};
          if p != id && p in latest && IsActive(latest[p]) {
            log := log + [Outcome(p, Completed, false)];
            closed := closed + [p];
          }
        }
      }
    }

    method CompleteAction(id: string, terminal: bool, failure: bool) returns (closed: seq<string>)
      modifies this`log
      ensures var told := old(log) + [Outcome(id, if terminal then Completed else Unknown, failure)];
        && log == told + Closings(closed)
        && (if terminal && id in recovering then Enumerates(closed, ToClose(Latest(told), id)) else closed == [])
    {
      closed := [];
      if !terminal {
        log := log + [Outcome(id, Unknown, failure)];
        return;
      }
      log := log + [Outcome(id, Completed, failure)];
      if id in recovering {
        closed := SettleRecoveries(id);
      }
    }

    /** An outcome that is not a result: the call was cut off, or the tool said no. */
    method ReportAction(id: string, s: Status)
      requires s == Unknown || s == Failed
      modifies this`log
      ensures log == old(log) + [Outcome(id, s, false)]
    {
      log := log + [Outcome(id, s, false)];
    }
  }
}
