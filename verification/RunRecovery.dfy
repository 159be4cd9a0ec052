/**
 * Recovery of agents whose owner is gone: one transaction each, stopped by the first that cannot be
 * settled.
 */
module RunRecovery {
  import opened Options
  import opened RunStore
  import opened Runtime
  import opened MailSafety
  import opened MailRuns
  import opened RunSafety

  /** The text that announces an attempt. */
  type Notice = (Key, string) -> string

  /** One listed agent: nothing happens while its owner holds the lease, or when its row has changed
      since it was listed. None is a settlement that was rolled back and raised. */
  function RecoverRow(t: Tables, k: Key, attempt: string, gone: set<Key>, notice: Notice): Option<Tables> {
    if k !in gone || !IsCurrent(t, k, attempt) then Some(t)
    else match Finish(t, k, attempt, Interrupted, notice(k, attempt))
      case None => None
      case Some(r) => Some(r.0)
  }

  /** All listed agents in order, and whether recovery went through. */
  function RecoverTables(t: Tables, listed: seq<(Key, string)>, gone: set<Key>, notice: Notice): (Tables, bool)
    decreases |listed|
  {
    if listed == [] then (t, true)
    else match RecoverRow(t, listed[0].0, listed[0].1, gone, notice)
      case None => (t, false)
      case Some(u) => RecoverTables(u, listed[1..], gone, notice)
  }

  /** The agent is gone and current, and another message has the id of its completion. */
  ghost predicate Blocked(t: Tables, row: (Key, string), gone: set<Key>, notice: Notice) {
    row.0 in gone && IsCurrent(t, row.0, row.1) && NoticeIdTaken(t, row.0, row.1, notice(row.0, row.1))
  }

  /** The agents after a recovery: those listed and gone are interrupted if they were active. */
  ghost predicate Recovered(was: map<Key, AgentRow>, now: map<Key, AgentRow>, listed: seq<(Key, string)>,
      gone: set<Key>) {
    && now.Keys == was.Keys
    && forall k | k in was ::
         now[k] == if k in gone && IsActive(was[k].state)
           && (k, was[k].attempt) in listed then was[k].(state := Interrupted) else was[k]
  }

  // ---- one settlement ----

  lemma InsertKeepsRows(t: Tables, row: Row, u: Tables)
    requires RowsOk(t.mailbox, t.next) && InsertMessage(t, row) == Some(u)
    ensures RowsOk(u.mailbox, u.next)
  {
    var prior := FindBelow(t.mailbox, row.session, row.sender, row.mid, t.next);
    if prior.None? {
      InsertIsNew(t, row);
      assert u.mailbox == t.mailbox[t.next := row] && u.next == t.next + 1;
      hide InsertMessage, FindBelow;
      forall p, q | p in u.mailbox && q in u.mailbox && Packet(u.mailbox[p]) == Packet(u.mailbox[q]) ensures p == q {
        assert !Names(t.mailbox, p, Packet(row)) && !Names(t.mailbox, q, Packet(row));
      }
    }
  }

  /** What a settlement that goes through does: one agent's state, and at most one new row, which is
      the agent's own. */
  lemma SettlementTables(t: Tables, k: Key, attempt: string, text: string, u: Tables)
    requires RowsOk(t.mailbox, t.next) && IsCurrent(t, k, attempt)
    requires Finish(t, k, attempt, Interrupted, text).Some? && u == Finish(t, k, attempt, Interrupted, text).value.0
    ensures RowsOk(u.mailbox, u.next) && u.closed == t.closed && u.attempts.Keys == t.attempts.Keys
    ensures u.agents == t.agents[k := t.agents[k].(state := Interrupted)]
    ensures u.mailbox == t.mailbox || u.mailbox == t.mailbox[t.next := CompletionRow(k, attempt, text)]
  {
    var settled := Settled(t, k, attempt, Interrupted);
    assert InsertMessage(settled, CompletionRow(k, attempt, text)) == Some(u);
    hide Finish;
    InsertKeepsRows(settled, CompletionRow(k, attempt, text), u);
  }

  /** Other agents are current, and have their id taken, exactly as before. */
  lemma OthersAreBlockedAlike(t: Tables, k: Key, attempt: string, text: string, u: Tables, row: (Key, string),
      gone: set<Key>, notice: Notice)
    requires RowsOk(t.mailbox, t.next) && k in u.agents && k in t.agents && u.agents == t.agents[k := u.agents[k]]
    requires u.mailbox == t.mailbox || u.mailbox == t.mailbox[t.next := CompletionRow(k, attempt, text)]
    requires row.0 != k
    ensures Blocked(u, row, gone, notice) <==> Blocked(t, row, gone, notice)
  {
    var j, mid := row.0, CompletionId(row.1);
    assert IsCurrent(u, j, row.1) <==> IsCurrent(t, j, row.1);
    assert !HasIdentity(CompletionRow(k, attempt, text), j.session, j.name, mid);
    hide IsCurrent;
    forall q | q in t.mailbox ensures q in u.mailbox && u.mailbox[q] == t.mailbox[q] {
    }
    forall q | q in u.mailbox && HasIdentity(u.mailbox[q], j.session, j.name, mid) ensures q in t.mailbox {
    }
  }

  // ---- the whole recovery ----

  /** Recovery goes through if and only if no listed agent is blocked. */
  lemma {:induction false} RecoversIff(t: Tables, listed: seq<(Key, string)>, gone: set<Key>, notice: Notice)
    requires RowsOk(t.mailbox, t.next)
    ensures RecoverTables(t, listed, gone, notice).1 <==>
      forall i | 0 <= i < |listed| :: !Blocked(t, listed[i], gone, notice)
    decreases |listed|
  {
    if listed != [] {
      var (k, attempt) := listed[0];
      var o := RecoverRow(t, k, attempt, gone, notice);
      RecoversFirstIff(t, listed[0], gone, notice);
      if o.Some? {
        RestAlike(t, listed, gone, notice, o.value);
        hide Blocked, RecoverRow, RowsOk;
        RecoversIff(o.value, listed[1..], gone, notice);
      }
    }
  }

  lemma RecoversFirstIff(t: Tables, row: (Key, string), gone: set<Key>, notice: Notice)
    requires RowsOk(t.mailbox, t.next)
    ensures RecoverRow(t, row.0, row.1, gone, notice).Some? <==> !Blocked(t, row, gone, notice)
  {
    SettlementFailsIff(t, row.0, row.1, Interrupted, notice(row.0, row.1));
    hide Finish, NoticeIdTaken, RowsOk;
  }

  lemma RestAlike(t: Tables, listed: seq<(Key, string)>, gone: set<Key>, notice: Notice, u: Tables)
    requires RowsOk(t.mailbox, t.next) && listed != []
    requires RecoverRow(t, listed[0].0, listed[0].1, gone, notice) == Some(u)
    ensures RowsOk(u.mailbox, u.next)
    ensures (forall i | 0 <= i < |listed| - 1 :: !Blocked(u, listed[1..][i], gone, notice)) <==>
      (forall i | 0 <= i < |listed| :: !Blocked(t, listed[i], gone, notice))
  {
    var (k, attempt) := listed[0];
    RecoversFirstIff(t, listed[0], gone, notice);
    if k in gone && IsCurrent(t, k, attempt) {
      SettlementTables(t, k, attempt, notice(k, attempt), u);
      forall i | 0 <= i < |listed| - 1
        ensures Blocked(u, listed[1..][i], gone, notice) <==> Blocked(t, listed[i + 1], gone, notice)
      {
        SameRowAlike(t, listed[0], notice(k, attempt), u, listed[i + 1], gone, notice);
      }
    }
    hide Blocked, RecoverRow, RowsOk;
    assert forall i | 0 <= i < |listed| - 1 :: listed[1..][i] == listed[i + 1];
    assert forall i | 0 < i < |listed| :: listed[i] == listed[1..][i - 1];
  }

  lemma SameRowAlike(t: Tables, first: (Key, string), text: string, u: Tables, row: (Key, string), gone: set<Key>,
      notice: Notice)
    requires RowsOk(t.mailbox, t.next) && !Blocked(t, first, gone, notice) && first.0 in gone
      && IsCurrent(t, first.0, first.1)
    requires u.agents == t.agents[first.0 := t.agents[first.0].(state := Interrupted)]
    requires u.mailbox == t.mailbox || u.mailbox == t.mailbox[t.next := CompletionRow(first.0, first.1, text)]
    ensures Blocked(u, row, gone, notice) <==> Blocked(t, row, gone, notice)
  {
    if row.0 != first.0 {
      OthersAreBlockedAlike(t, first.0, first.1, text, u, row, gone, notice);
    } else {
      hide NoticeIdTaken;
      assert !IsCurrent(u, row.0, row.1);
      assert IsCurrent(t, row.0, row.1) ==> row == first;
    }
  }

  lemma RecoveredFirst(was: map<Key, AgentRow>, mid: map<Key, AgentRow>, now: map<Key, AgentRow>,
      listed: seq<(Key, string)>, gone: set<Key>)
    requires listed != [] && Recovered(mid, now, listed[1..], gone)
    requires var (k, attempt) := listed[0];
      mid == if k in gone && k in was && was[k].attempt == attempt && IsActive(was[k].state)
        then was[k := was[k].(state := Interrupted)] else was
    ensures Recovered(was, now, listed, gone)
  {
    assert forall p :: p in listed <==> p == listed[0] || p in listed[1..];
  }

  /** When it goes through, exactly the listed, gone and still current agents are interrupted. */
  lemma {:induction false} RecoversExactly(t: Tables, listed: seq<(Key, string)>, gone: set<Key>, notice: Notice)
    requires RowsOk(t.mailbox, t.next) && RecoverTables(t, listed, gone, notice).1
    ensures var u := RecoverTables(t, listed, gone, notice).0;
      Recovered(t.agents, u.agents, listed, gone) && u.closed == t.closed && u.attempts.Keys == t.attempts.Keys
    decreases |listed|
  {
    if listed != [] {
      var (k, attempt) := listed[0];
      var u := RecoverRow(t, k, attempt, gone, notice).value;
      if k in gone && IsCurrent(t, k, attempt) {
        SettlementTables(t, k, attempt, notice(k, attempt), u);
      }
      hide RecoverRow, RowsOk;
      RecoversExactly(u, listed[1..], gone, notice);
      hide Recovered, RecoverTables;
      RecoveredFirst(t.agents, u.agents, RecoverTables(t, listed, gone, notice).0.agents, listed, gone);
    }
  }

  /** When it does not, it stops at the first listed agent that is blocked, and what it did before
      that stays done. */
  lemma {:induction false} StopsAtFirstBlocked(t: Tables, listed: seq<(Key, string)>, gone: set<Key>, notice: Notice)
      returns (i: nat)
    requires RowsOk(t.mailbox, t.next) && !RecoverTables(t, listed, gone, notice).1
    ensures i < |listed| && Blocked(t, listed[i], gone, notice)
    ensures forall j | 0 <= j < i :: !Blocked(t, listed[j], gone, notice)
    ensures RecoverTables(t, listed[..i], gone, notice) == (RecoverTables(t, listed, gone, notice).0, true)
    decreases |listed|
  {
    var o := RecoverRow(t, listed[0].0, listed[0].1, gone, notice);
    RecoversFirstIff(t, listed[0], gone, notice);
    if o.None? {
      i := 0;
    } else {
      assert RowsOk(o.value.mailbox, o.value.next) by { RestAlike(t, listed, gone, notice, o.value); }
      hide Blocked, RecoverRow, RowsOk;
      var k := StopsAtFirstBlocked(o.value, listed[1..], gone, notice);
      i := k + 1;
      assert listed[..i][1..] == listed[1..][..k];
      FirstBlockedAlike(t, listed, gone, notice, o.value, k);
    }
  }

  lemma FirstBlockedAlike(t: Tables, listed: seq<(Key, string)>, gone: set<Key>, notice: Notice, u: Tables, k: nat)
    requires RowsOk(t.mailbox, t.next) && listed != []
    requires RecoverRow(t, listed[0].0, listed[0].1, gone, notice) == Some(u) && k < |listed| - 1
    requires Blocked(u, listed[1..][k], gone, notice)
    requires forall j | 0 <= j < k :: !Blocked(u, listed[1..][j], gone, notice)
    ensures Blocked(t, listed[k + 1], gone, notice) && forall j | 0 <= j < k + 1 :: !Blocked(t, listed[j], gone, notice)
  {
    RecoversFirstIff(t, listed[0], gone, notice);
    var upTo, whole := listed[..k + 1], listed[..k + 2];
    hide Blocked, RowsOk;
    assert upTo[1..] == listed[1..][..k] && whole[1..] == listed[1..][..k + 1];
    RestAlike(t, upTo, gone, notice, u);
    RestAlike(t, whole, gone, notice, u);
    assert forall j | 0 <= j < k :: upTo[1..][j] == listed[1..][j];
    assert whole[1..][k] == listed[1..][k];
    assert forall j | 0 <= j < k + 1 :: whole[j] == upTo[j] == listed[j];
  }

  // ---- in the states the runtime reaches ----

  /** What every reachable state has: unique rows, attempts that mirror their agents, and an
      announcement for exactly the ended attempts. */
  ghost predicate SettledWell(t: Tables) {
    RowsOk(t.mailbox, t.next) && MirrorOk(t) && NoticesAreTrue(t) && NoticesAreThere(t)
  }

  lemma SettleKeeps(t: Tables, k: Key, attempt: string, text: string)
    requires SettledWell(t) && IsCurrent(t, k, attempt)
    ensures var r := Finish(t, k, attempt, Interrupted, text); r.Some? && SettledWell(r.value.0)
  {
    var u := Settled(t, k, attempt, Interrupted).(
      mailbox := t.mailbox[t.next := CompletionRow(k, attempt, text)], next := t.next + 1);
    FinishEffect(t, k, attempt, Interrupted, text, u);
    SettlementTables(t, k, attempt, text, u);
    hide Finish, RowsOk;
    FinishKeepsMirror(t, u, k, attempt, Interrupted);
    FinishKeepsNotices(t, u, k, attempt, Interrupted, text);
  }

  lemma {:induction false} RecoveryKeepsWell(t: Tables, listed: seq<(Key, string)>, gone: set<Key>, notice: Notice)
    requires SettledWell(t)
    ensures var (u, through) := RecoverTables(t, listed, gone, notice); through && SettledWell(u)
    decreases |listed|
  {
    if listed != [] {
      var (k, attempt) := listed[0];
      if k in gone && IsCurrent(t, k, attempt) {
        SettleKeeps(t, k, attempt, notice(k, attempt));
      }
      hide SettledWell, Finish;
      RecoveryKeepsWell(RecoverRow(t, k, attempt, gone, notice).value, listed[1..], gone, notice);
    }
  }

  /** There recovery always goes through, and every agent it interrupts is announced. */
  lemma RecoveredAreAnnounced(t: Tables, listed: seq<(Key, string)>, gone: set<Key>, notice: Notice, k: Key)
    requires SettledWell(t)
    ensures var (u, through) := RecoverTables(t, listed, gone, notice);
      && through && Recovered(t.agents, u.agents, listed, gone)
      && (k in t.agents && u.agents[k] != t.agents[k] ==> exists q :: Announces(u, q, u.agents[k].attempt))
  {
    RecoveryKeepsWell(t, listed, gone, notice);
    assert RowsOk(t.mailbox, t.next);
    RecoversExactly(t, listed, gone, notice);
    var u := RecoverTables(t, listed, gone, notice).0;
    hide RecoverTables, RowsOk, Announces;
    if k in t.agents && u.agents[k] != t.agents[k] {
      assert u.attempts[u.agents[k].attempt].state == Interrupted;
    }
  }
}
