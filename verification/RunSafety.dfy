/**
 * Admission and settlement over whole runs: the limits hold, active write scopes never overlap,
 * the attempt row of every agent mirrors it, and every attempt that ends is announced exactly once.
 */
module RunSafety {
  import opened Options
  import opened Collections
  import opened RunStore
  import opened Runtime
  import opened MailSafety
  import opened MailRuns

  // ---- the invariant ----

  ghost predicate LimitsOk(lim: Limits, t: Tables) {
    |ActiveAgents(t)| <= lim.total && forall s :: |ActiveIn(t, s)| <= lim.session
  }

  ghost predicate ScopesApart(t: Tables) {
    forall a, b | a in ActiveAgents(t) && b in ActiveAgents(t) && a != b ::
      !Overlaps(t.agents[a].scope, t.agents[b].scope)
  }

  ghost predicate MirrorOk(t: Tables) {
    forall k | k in t.agents ::
      t.agents[k].attempt in t.attempts
        && t.attempts[t.agents[k].attempt] == AttemptRow(k.session, k.name, t.agents[k].state)
  }

  /** Row r announces the end of attempt a. */
  predicate IsNotice(r: Row, a: string, row: AttemptRow) {
    && r.session == row.session && r.sender == row.agent && r.recipient == PARENT
    && r.kind == Completion && r.mid == CompletionId(a)
  }

  function AttemptOf(mid: string): (a: string)
    requires !UserMid(mid)
    ensures CompletionId(a) == mid
  {
    mid[|CompletionId("")|..]
  }

  /** Every row with a reserved id announces an attempt that has ended. */
  ghost predicate NoticesAreTrue(t: Tables) {
    forall q | q in t.mailbox && !UserMid(t.mailbox[q].mid) ::
      var a := AttemptOf(t.mailbox[q].mid);
      a in t.attempts && IsTerminal(t.attempts[a].state) && IsNotice(t.mailbox[q], a, t.attempts[a])
  }

  /** Row q announces the end of a. */
  ghost predicate Announces(t: Tables, q: nat, a: string) {
    q in t.mailbox && a in t.attempts && IsNotice(t.mailbox[q], a, t.attempts[a])
  }

  /** Every attempt that has ended has its row. */
  ghost predicate NoticesAreThere(t: Tables) {
    forall a | a in t.attempts && IsTerminal(t.attempts[a].state) :: exists q :: Announces(t, q, a)
  }

  ghost predicate HistoryOk(w: World) {
    && w.t.attempts.Keys <= w.used
    && (forall a | a in w.settled :: a in w.used)
    && (forall i, j | 0 <= i < j < |w.settled| :: w.settled[i] != w.settled[j])
    && (forall a | a in w.t.attempts :: IsTerminal(w.t.attempts[a].state) <==> a in w.settled)
  }

  ghost predicate RunsOk(lim: Limits, w: World) {
    && MailOk(w) && LimitsOk(lim, w.t) && ScopesApart(w.t) && MirrorOk(w.t)
    && NoticesAreTrue(w.t) && NoticesAreThere(w.t) && HistoryOk(w)
  }

  // ---- what an insertion does ----

  /** u is t with one more row, or t itself when the row was there. */
  lemma InsertAdds(t: Tables, row: Row, u: Tables)
    requires InsertMessage(t, row) == Some(u) && RowsOk(t.mailbox, t.next)
    ensures u.agents == t.agents && u.attempts == t.attempts && u.closed == t.closed
    ensures u == t || (u.mailbox == t.mailbox[t.next := row] && t.next !in t.mailbox)
  {
  }

  lemma SendKeepsRuns(lim: Limits, w: World, step: Step, u: Tables)
    requires RunsOk(lim, w) && step.SendStep? && UserMid(step.mid)
    requires Send(w.t, step.to, step.sender, step.text, step.mid, step.expected, step.senderAttempt) == Some(u)
    ensures u.agents == w.t.agents && u.attempts == w.t.attempts
    ensures NoticesAreTrue(u) && NoticesAreThere(u)
  {
    var t, to := w.t, step.to;
    var target := if to.name == PARENT || to !in t.agents then "" else t.agents[to].attempt;
    var row := Row(to.session, to.name, step.sender, step.mid, step.text, Message, target, Queued);
    InsertAdds(t, row, u);
    hide InsertMessage, MailOk, LimitsOk, ScopesApart, MirrorOk, HistoryOk, UserMid, IsNotice, Send;
    if u != t {
      assert forall q | q in u.mailbox && !UserMid(u.mailbox[q].mid) :: q in t.mailbox && u.mailbox[q] == t.mailbox[q];
      SameNotices(t, u);
    }
  }

  /** Rows that were there stay recognisable, and the attempts stay. */
  lemma SameNotices(t: Tables, u: Tables)
    requires NoticesAreThere(t) && u.attempts == t.attempts
    requires forall q | q in t.mailbox :: q in u.mailbox && SameHead(t.mailbox[q], u.mailbox[q])
    ensures NoticesAreThere(u)
  {
    forall a | a in u.attempts && IsTerminal(u.attempts[a].state) ensures exists q :: Announces(u, q, a) {
      var q :| Announces(t, q, a);
      assert Announces(u, q, a);
    }
  }

  /** The same message, whatever its state and target. */
  predicate SameHead(r: Row, s: Row) {
    s == r.(state := s.state, target := s.target)
  }

  ghost predicate SameHeads(mailbox: map<nat, Row>, after: map<nat, Row>) {
    after.Keys == mailbox.Keys && forall q | q in mailbox :: SameHead(mailbox[q], after[q])
  }

  lemma HeadsKeepNotices(t: Tables, u: Tables)
    requires NoticesAreTrue(t) && NoticesAreThere(t) && u.attempts == t.attempts && SameHeads(t.mailbox, u.mailbox)
    ensures NoticesAreTrue(u) && NoticesAreThere(u)
  {
    SameNotices(t, u);
    forall q | q in u.mailbox && !UserMid(u.mailbox[q].mid)
      ensures var a := AttemptOf(u.mailbox[q].mid);
        a in u.attempts && IsTerminal(u.attempts[a].state) && IsNotice(u.mailbox[q], a, u.attempts[a])
    {
      assert SameHead(t.mailbox[q], u.mailbox[q]);
      assert t.mailbox[q].mid == u.mailbox[q].mid;
    }
  }

  // ---- admission ----

  lemma OneMoreKeepsLimits(lim: Limits, t: Tables, u: Tables, k: Key)
    requires LimitsOk(lim, t) && |ActiveAgents(t)| < lim.total && |ActiveIn(t, k.session)| < lim.session
    requires u.agents.Keys == t.agents.Keys + {k} && IsActive(u.agents[k].state)
    requires forall j | j in t.agents && j != k :: u.agents[j] == t.agents[j]
    ensures LimitsOk(lim, u)
  {
    OneMoreActive(t, u, k);
    hide ActiveAgents, ActiveIn;
    forall s ensures |ActiveIn(u, s)| <= lim.session {
      if s != k.session {
        assert ActiveIn(u, s) == ActiveIn(t, s);
      }
    }
  }

  lemma StartKeepsLimits(lim: Limits, t: Tables, u: Tables, k: Key, fixed: string, scope: seq<string>,
      attempt: string, fence: Option<string>)
    requires LimitsOk(lim, t) && Start(t, k, fixed, scope, attempt, fence, lim.session, lim.total) == Some(u)
    ensures LimitsOk(lim, u)
  {
    hide LimitsOk, Start;
    Admitted(t, u, k, fixed, scope, attempt, fence, lim.session, lim.total);
    OneMoreKeepsLimits(lim, t, u, k);
  }

  lemma Admitted(t: Tables, u: Tables, k: Key, fixed: string, scope: seq<string>, attempt: string,
      fence: Option<string>, session: nat, total: nat)
    requires Start(t, k, fixed, scope, attempt, fence, session, total) == Some(u)
    ensures u.agents == t.agents[k := AgentRow(attempt, Running, fixed, scope)]
    ensures |ActiveAgents(t)| < total && |ActiveIn(t, k.session)| < session
  {
  }

  lemma OneMoreActive(t: Tables, u: Tables, k: Key)
    requires u.agents.Keys == t.agents.Keys + {k} && IsActive(u.agents[k].state)
    requires forall j | j in t.agents && j != k :: u.agents[j] == t.agents[j]
    ensures ActiveAgents(u) == ActiveAgents(t) + {k}
    ensures ActiveIn(u, k.session) == ActiveIn(t, k.session) + {k}
    ensures forall s | s != k.session :: ActiveIn(u, s) == ActiveIn(t, s)
  {
  }

  lemma OverlapsSymmetric(left: seq<string>, right: seq<string>)
    requires Overlaps(left, right)
    ensures Overlaps(right, left)
  {
  }

  lemma StartKeepsScopes(lim: Limits, t: Tables, u: Tables, k: Key, fixed: string, scope: seq<string>,
      attempt: string, fence: Option<string>)
    requires ScopesApart(t) && Start(t, k, fixed, scope, attempt, fence, lim.session, lim.total) == Some(u)
    ensures ScopesApart(u)
  {
    assert u.agents == t.agents[k := AgentRow(attempt, Running, fixed, scope)];
    assert forall o | o in ActiveAgents(t) :: !Overlaps(scope, t.agents[o].scope);
    hide Start, Overlaps;
    forall a, b | a in ActiveAgents(u) && b in ActiveAgents(u) && a != b
      ensures !Overlaps(u.agents[a].scope, u.agents[b].scope) {
      if a != k {
        assert a in ActiveAgents(t);
      }
      if b != k {
        assert b in ActiveAgents(t);
      } else if Overlaps(u.agents[a].scope, scope) {
        OverlapsSymmetric(u.agents[a].scope, scope);
        assert false;
      }
    }
  }

  lemma StartKeepsRows(lim: Limits, t: Tables, u: Tables, used: set<string>, k: Key, fixed: string,
      scope: seq<string>, attempt: string, fence: Option<string>)
    requires MirrorOk(t) && NoticesAreTrue(t) && NoticesAreThere(t) && t.attempts.Keys <= used && attempt !in used
    requires Start(t, k, fixed, scope, attempt, fence, lim.session, lim.total) == Some(u)
    ensures MirrorOk(u) && NoticesAreTrue(u) && NoticesAreThere(u)
    ensures u.attempts == t.attempts[attempt := AttemptRow(k.session, k.name, Running)]
  {
    StartRows(t, u, k, fixed, scope, attempt, fence, lim.session, lim.total);
    hide Start;
    StartKeepsMirror(t, u, k, attempt);
    hide MirrorOk;
    var v := t.(mailbox := u.mailbox);
    HeadsKeepNotices(t, v);
    FreshKeepsNotices(v, u, attempt);
  }

  lemma StartRows(t: Tables, u: Tables, k: Key, fixed: string, scope: seq<string>, attempt: string,
      fence: Option<string>, session: nat, total: nat)
    requires Start(t, k, fixed, scope, attempt, fence, session, total) == Some(u)
    ensures u == t.(agents := t.agents[k := AgentRow(attempt, Running, fixed, scope)],
      attempts := t.attempts[attempt := AttemptRow(k.session, k.name, Running)], mailbox := u.mailbox)
    ensures SameHeads(t.mailbox, u.mailbox)
  {
  }

  lemma StartKeepsMirror(t: Tables, u: Tables, k: Key, attempt: string)
    requires MirrorOk(t) && attempt !in t.attempts
    requires k in u.agents && u.agents == t.agents[k := u.agents[k]] && u.agents[k].attempt == attempt
      && u.agents[k].state == Running
    requires u.attempts == t.attempts[attempt := AttemptRow(k.session, k.name, Running)]
    ensures MirrorOk(u)
  {
  }

  /** A running attempt nobody knew announces nothing and needs no announcement. */
  lemma FreshKeepsNotices(t: Tables, u: Tables, attempt: string)
    requires NoticesAreTrue(t) && NoticesAreThere(t) && attempt !in t.attempts
    requires u.mailbox == t.mailbox && attempt in u.attempts && u.attempts == t.attempts[attempt := u.attempts[attempt]]
    requires u.attempts[attempt].state == Running
    ensures NoticesAreTrue(u) && NoticesAreThere(u)
  {
    assert NoticesAreTrue(u);
    hide NoticesAreTrue;
    forall a | a in u.attempts && IsTerminal(u.attempts[a].state) ensures exists q :: Announces(u, q, a) {
      assert a in t.attempts && t.attempts[a] == u.attempts[a];
      var q :| Announces(t, q, a);
      assert Announces(u, q, a);
    }
  }

  // ---- settlement ----

  /** The tables just before the completion message goes in. */
  function Settled(t: Tables, k: Key, attempt: string, final: RunState): Tables
    requires k in t.agents
  {
    t.(agents := t.agents[k := t.agents[k].(state := final)],
       attempts := if attempt in t.attempts then t.attempts[attempt := t.attempts[attempt].(state := final)]
         else t.attempts)
  }

  /** The attempt is the agent's current one and still active. */
  predicate IsCurrent(t: Tables, k: Key, attempt: string) {
    k in t.agents && t.agents[k].attempt == attempt && IsActive(t.agents[k].state)
  }

  /** Another message carries the id the completion message needs. */
  ghost predicate NoticeIdTaken(t: Tables, k: Key, attempt: string, text: string) {
    exists q :: q in t.mailbox && HasIdentity(t.mailbox[q], k.session, k.name, CompletionId(attempt))
      && (t.mailbox[q].recipient != PARENT || t.mailbox[q].kind != Completion || t.mailbox[q].text != text)
  }

  /** Settlement fails exactly when someone has used the reserved id for something else. */
  lemma SettlementFailsIff(t: Tables, k: Key, attempt: string, final: RunState, text: string)
    requires RowsOk(t.mailbox, t.next) && IsTerminal(final)
    ensures Finish(t, k, attempt, final, text).None? <==> IsCurrent(t, k, attempt) && NoticeIdTaken(t, k, attempt, text)
  {
  }

  /** So an agent that sends a message under the id its own completion needs can no longer be settled. */
  lemma ReservedIdBlocksSettlement(t: Tables, u: Tables, to: Key, k: Key, attempt: string, body: string,
      senderAttempt: string, final: RunState, text: string)
    requires RowsOk(t.mailbox, t.next) && IsTerminal(final) && IsCurrent(u, k, attempt) && to.session == k.session
    requires Send(t, to, k.name, body, CompletionId(attempt), "", senderAttempt) == Some(u)
    ensures Finish(u, k, attempt, final, text).None?
  {
  }

  /** The new row is the announcement, and the only change to the mailbox. */
  lemma FinishEffect(t: Tables, k: Key, attempt: string, final: RunState, text: string, u: Tables)
    requires RowsOk(t.mailbox, t.next) && MirrorOk(t) && NoticesAreTrue(t) && IsCurrent(t, k, attempt)
      && IsTerminal(final)
    requires u == Settled(t, k, attempt, final).(mailbox := t.mailbox[t.next := CompletionRow(k, attempt, text)],
      next := t.next + 1)
    ensures Finish(t, k, attempt, final, text) == Some((u, true))
    ensures u.attempts == t.attempts[attempt := AttemptRow(k.session, k.name, final)]
  {
  }

  lemma FinishKeepsLimits(lim: Limits, t: Tables, u: Tables, k: Key, final: RunState)
    requires LimitsOk(lim, t) && ScopesApart(t) && k in t.agents && IsTerminal(final)
    requires u.agents == t.agents[k := t.agents[k].(state := final)]
    ensures LimitsOk(lim, u) && ScopesApart(u)
  {
    assert ActiveAgents(u) == ActiveAgents(t) - {k};
    assert ScopesApart(u) by { hide Overlaps; }
    hide ScopesApart, Overlaps;
    forall s ensures |ActiveIn(u, s)| <= lim.session {
      assert ActiveIn(u, s) == ActiveIn(t, s) - {k};
    }
  }

  lemma FinishKeepsMirror(t: Tables, u: Tables, k: Key, attempt: string, final: RunState)
    requires MirrorOk(t) && IsCurrent(t, k, attempt)
    requires u.agents == t.agents[k := t.agents[k].(state := final)]
    requires u.attempts == t.attempts[attempt := AttemptRow(k.session, k.name, final)]
    ensures MirrorOk(u)
  {
  }

  lemma SettledNotices(t: Tables, u: Tables, k: Key, attempt: string, final: RunState, text: string)
    requires RowsOk(t.mailbox, t.next) && MirrorOk(t) && NoticesAreTrue(t) && IsCurrent(t, k, attempt)
      && IsTerminal(final)
    requires u.attempts == t.attempts[attempt := AttemptRow(k.session, k.name, final)]
    requires u.mailbox == t.mailbox[t.next := CompletionRow(k, attempt, text)]
    ensures NoticesAreTrue(u)
  {
  }

  lemma FinishKeepsNotices(t: Tables, u: Tables, k: Key, attempt: string, final: RunState, text: string)
    requires RowsOk(t.mailbox, t.next) && MirrorOk(t) && NoticesAreTrue(t) && NoticesAreThere(t)
      && IsCurrent(t, k, attempt) && IsTerminal(final)
    requires u.attempts == t.attempts[attempt := AttemptRow(k.session, k.name, final)]
    requires u.mailbox == t.mailbox[t.next := CompletionRow(k, attempt, text)]
    ensures NoticesAreTrue(u) && NoticesAreThere(u)
  {
    SettledNotices(t, u, k, attempt, final, text);
    assert t.attempts[attempt] == AttemptRow(k.session, k.name, t.agents[k].state);
    hide MirrorOk, NoticesAreTrue;
    assert Announces(u, t.next, attempt);
    forall a | a in u.attempts && IsTerminal(u.attempts[a].state) ensures exists q :: Announces(u, q, a) {
      if a != attempt {
        var q :| Announces(t, q, a);
        assert Announces(u, q, a);
      }
    }
  }

  // ---- deletion ----

  lemma DropKeepsRuns(lim: Limits, t: Tables, u: Tables, session: string)
    requires LimitsOk(lim, t) && ScopesApart(t) && MirrorOk(t) && NoticesAreTrue(t) && NoticesAreThere(t)
    requires DropSession(t, session) == Some(u)
    ensures LimitsOk(lim, u) && ScopesApart(u) && MirrorOk(u) && NoticesAreTrue(u) && NoticesAreThere(u)
  {
    DropKeepsLimits(lim, t, u, session);
    DropRows(t, u, session);
    hide LimitsOk, ScopesApart, DropSession;
    assert MirrorOk(u);
    hide MirrorOk;
    assert NoticesAreTrue(u);
    hide NoticesAreTrue;
    forall a | a in u.attempts && IsTerminal(u.attempts[a].state) ensures exists q :: Announces(u, q, a) {
      var q :| Announces(t, q, a);
      assert Announces(u, q, a);
    }
  }

  lemma DropRows(t: Tables, u: Tables, session: string)
    requires DropSession(t, session) == Some(u)
    ensures forall a :: a in u.attempts <==> a in t.attempts && t.attempts[a].session != session
    ensures forall q :: q in u.mailbox <==> q in t.mailbox && t.mailbox[q].session != session
    ensures forall k :: k in u.agents <==> k in t.agents && k.session != session
    ensures forall a | a in u.attempts :: u.attempts[a] == t.attempts[a]
    ensures forall q | q in u.mailbox :: u.mailbox[q] == t.mailbox[q]
    ensures forall k | k in u.agents :: u.agents[k] == t.agents[k]
  {
  }

  lemma DropKeepsLimits(lim: Limits, t: Tables, u: Tables, session: string)
    requires LimitsOk(lim, t) && ScopesApart(t) && DropSession(t, session) == Some(u)
    ensures LimitsOk(lim, u) && ScopesApart(u)
  {
    hide Overlaps;
    assert u.agents == map k | k in t.agents && k.session != session :: t.agents[k];
    assert forall k | k in ActiveAgents(t) && k.session == session :: k in ActiveIn(t, session);
    assert ActiveAgents(u) == ActiveAgents(t);
    forall s ensures |ActiveIn(u, s)| <= lim.session {
      assert ActiveIn(u, s) == ActiveIn(t, s);
    }
  }

  // ---- every step, every run ----

  lemma StartKeepsHistory(w: World, x: World, k: Key, attempt: string)
    requires HistoryOk(w) && attempt !in w.used && x.used == w.used + {attempt} && x.settled == w.settled
    requires x.t.attempts == w.t.attempts[attempt := AttemptRow(k.session, k.name, Running)]
    ensures HistoryOk(x)
  {
  }

  lemma StartKeepsAll(lim: Limits, w: World, step: Step, x: World)
    requires RunsOk(lim, w) && MailOk(x) && Allowed(w, step) && step.StartStep? && x == Do(lim, w, step)
    ensures RunsOk(lim, x)
  {
    var o := Start(w.t, step.k, step.fixed, step.scope, step.attempt, step.fence, lim.session, lim.total);
    hide MailOk, Start, LimitsOk, ScopesApart, MirrorOk, NoticesAreTrue, NoticesAreThere;
    if o.Some? {
      assert x.t == o.value && x.used == w.used + {step.attempt} && x.settled == w.settled;
      hide Do;
      StartKeepsLimits(lim, w.t, x.t, step.k, step.fixed, step.scope, step.attempt, step.fence);
      StartKeepsScopes(lim, w.t, x.t, step.k, step.fixed, step.scope, step.attempt, step.fence);
      StartKeepsRows(lim, w.t, x.t, w.used, step.k, step.fixed, step.scope, step.attempt, step.fence);
      StartKeepsHistory(w, x, step.k, step.attempt);
    }
  }

  lemma FinishKeepsAll(lim: Limits, w: World, step: Step, x: World)
    requires RunsOk(lim, w) && MailOk(x) && step.FinishStep? && x == Do(lim, w, step)
    ensures RunsOk(lim, x)
  {
    var k, attempt, final, text := step.k, step.attempt, step.final, step.text;
    if IsTerminal(final) && IsCurrent(w.t, k, attempt) {
      var u := Settled(w.t, k, attempt, final).(mailbox := w.t.mailbox[w.t.next := CompletionRow(k, attempt, text)],
        next := w.t.next + 1);
      FinishEffect(w.t, k, attempt, final, text, u);
      assert x == w.(t := u, settled := w.settled + [attempt]);
      hide Do, Finish, MailOk;
      FinishKeepsLimits(lim, w.t, u, k, final);
      FinishKeepsMirror(w.t, u, k, attempt, final);
      MailRows(w);
      FinishKeepsNotices(w.t, u, k, attempt, final, text);
      hide LimitsOk, ScopesApart, NoticesAreTrue, NoticesAreThere;
      SettledHistory(w, x, k, attempt, final);
    } else {
      assert x == w;
    }
  }

  lemma MailRows(w: World)
    requires MailOk(w)
    ensures RowsOk(w.t.mailbox, w.t.next)
  {
  }

  lemma SettledHistory(w: World, x: World, k: Key, attempt: string, final: RunState)
    requires HistoryOk(w) && MirrorOk(w.t) && IsCurrent(w.t, k, attempt) && IsTerminal(final)
    requires x.t.attempts == w.t.attempts[attempt := AttemptRow(k.session, k.name, final)]
    requires x.used == w.used && x.settled == w.settled + [attempt]
    ensures HistoryOk(x)
  {
  }

  lemma SendKeepsAll(lim: Limits, w: World, step: Step, x: World)
    requires RunsOk(lim, w) && MailOk(x) && Allowed(w, step) && step.SendStep? && x == Do(lim, w, step)
    ensures RunsOk(lim, x)
  {
    var o := Send(w.t, step.to, step.sender, step.text, step.mid, step.expected, step.senderAttempt);
    hide MailOk, Send;
    if o.Some? {
      SendKeepsRuns(lim, w, step, o.value);
      assert x == w.(t := o.value);
      hide NoticesAreTrue, NoticesAreThere;
      SameAgents(lim, w.t, x.t);
    }
  }

  lemma SameAgents(lim: Limits, t: Tables, u: Tables)
    requires LimitsOk(lim, t) && ScopesApart(t) && MirrorOk(t) && u.agents == t.agents && u.attempts == t.attempts
    ensures LimitsOk(lim, u) && ScopesApart(u) && MirrorOk(u)
  {
    assert ActiveAgents(u) == ActiveAgents(t);
    assert forall s :: ActiveIn(u, s) == ActiveIn(t, s);
    hide ActiveAgents, ActiveIn, Overlaps;
  }

  lemma DropKeepsAll(lim: Limits, w: World, step: Step, x: World)
    requires RunsOk(lim, w) && MailOk(x) && step.DropStep? && x == Do(lim, w, step)
    ensures RunsOk(lim, x)
  {
    var o := DropSession(w.t, step.session);
    if SessionIdle(w, step.session) && o.Some? {
      assert x == w.(t := o.value);
      assert forall a | a in x.t.attempts :: a in w.t.attempts && x.t.attempts[a] == w.t.attempts[a];
      hide MailOk, DropSession, LimitsOk, ScopesApart, MirrorOk, NoticesAreTrue, NoticesAreThere;
      DropKeepsRuns(lim, w.t, x.t, step.session);
    } else {
      assert x == w;
    }
  }

  /** Every other step leaves agents and attempts alone and only restates messages. */
  predicate IsDelivery(step: Step) {
    IsLocal(step) || step.WithdrawStep? || step.ReserveStep? || step.AckStep?
  }

  lemma MarkKeepsHeads(mailbox: map<nat, Row>, hit: set<nat>, s: RowState)
    ensures SameHeads(mailbox, Mark(mailbox, hit, s))
  {
  }

  lemma WithdrawKeepsHeads(w: World, k: Key, mid: string, text: string, sender: string)
    ensures var u := RemoveMessage(w.t, k, mid, text, sender);
      u == w.t.(mailbox := u.mailbox) && SameHeads(w.t.mailbox, u.mailbox)
  {
    match FirstWithdrawable(w.t.mailbox, k, mid, text, sender, 0, w.t.next)
    case None =>
    case Some(q) => MarkKeepsHeads(w.t.mailbox, {q}, Withdrawn);
  }

  lemma AckTablesKeepHeads(t: Tables, k: Key, rows: seq<nat>, attempt: string)
    ensures var o := Acknowledge(t, k, rows, attempt); o.Some? ==>
      (SameHeads(t.mailbox, o.value.mailbox) && o.value == t.(mailbox := o.value.mailbox))
  {
    hide MayDeliver;
    var hit := set q | q in rows && q in t.mailbox && Addressed(t.mailbox[q], k) && t.mailbox[q].state == Delivering;
    MarkKeepsHeads(t.mailbox, hit, Delivered);
    hide Mark, SameHeads;
  }

  lemma AckKeepsHeads(w: World, x: World, lim: Limits, k: Key)
    requires x == Do(lim, w, AckStep(k))
    ensures SameHeads(w.t.mailbox, x.t.mailbox)
    ensures x.t.agents == w.t.agents && x.t.attempts == w.t.attempts && x.used == w.used && x.settled == w.settled
  {
    var ph := PhaseOf(w, k);
    if ph.Flushed? {
      AckTablesKeepHeads(w.t, k, ph.rows, ph.attempt);
    }
    assert SameHeads(w.t.mailbox, w.t.mailbox);
    hide SameHeads, Acknowledge;
  }

  lemma LocalKeepsHistory(lim: Limits, w: World, step: Step, x: World)
    requires IsLocal(step) && x == Do(lim, w, step)
    ensures x.t == w.t && x.used == w.used && x.settled == w.settled
  {
    hide AppendMissing, Packets;
  }

  lemma DeliveryKeepsHeads(lim: Limits, w: World, step: Step, x: World)
    requires IsDelivery(step) && x == Do(lim, w, step)
    ensures SameHeads(w.t.mailbox, x.t.mailbox)
    ensures x.t.agents == w.t.agents && x.t.attempts == w.t.attempts && x.used == w.used && x.settled == w.settled
  {
    assert SameHeads(w.t.mailbox, w.t.mailbox);
    hide SameHeads, Mark, MayDeliver, ToClaim;
    match step {
      case WithdrawStep(k, mid, text, sender) => WithdrawKeepsHeads(w, k, mid, text, sender);
      case ReserveStep(k, attempt) => MarkKeepsHeads(w.t.mailbox, Elems(ToClaim(w.t, k)), Delivering);
      case AckStep(k) => AckKeepsHeads(w, x, lim, k);
      case _ => LocalKeepsHistory(lim, w, step, x);
    }
  }

  lemma DeliveryKeepsAll(lim: Limits, w: World, step: Step, x: World)
    requires RunsOk(lim, w) && MailOk(x) && IsDelivery(step) && x == Do(lim, w, step)
    ensures RunsOk(lim, x)
  {
    DeliveryKeepsHeads(lim, w, step, x);
    hide Do, MailOk;
    HeadsKeepNotices(w.t, x.t);
    SameAgents(lim, w.t, x.t);
  }

  lemma StepKeepsRuns(lim: Limits, w: World, step: Step)
    requires RunsOk(lim, w) && Allowed(w, step)
    ensures RunsOk(lim, Do(lim, w, step))
  {
    var x := Do(lim, w, step);
    StepKeepsMail(lim, w, step);
    hide RunsOk, Do, MailOk;
    match step {
      case SendStep(_, _, _, _, _, _) => SendKeepsAll(lim, w, step, x);
      case StartStep(_, _, _, _, _) => StartKeepsAll(lim, w, step, x);
      case FinishStep(_, _, _, _) => FinishKeepsAll(lim, w, step, x);
      case DropStep(_) => DropKeepsAll(lim, w, step, x);
      case _ => DeliveryKeepsAll(lim, w, step, x);
    }
  }

  lemma {:induction false} RunKeepsRuns(lim: Limits, steps: seq<Step>)
    requires AllowedRun(lim, steps)
    ensures RunsOk(lim, Run(lim, steps))
  {
    if steps == [] {
      RunKeepsMail(lim, steps);
      assert ActiveAgents(EMPTY.t) == {};
      assert forall s :: ActiveIn(EMPTY.t, s) == {};
    } else {
      RunKeepsRuns(lim, steps[..|steps| - 1]);
      StepKeepsRuns(lim, Run(lim, steps[..|steps| - 1]), steps[|steps| - 1]);
    }
  }

  // ---- what it means ----

  /** Limits, write scopes and the attempt table, in every reachable state. */
  lemma AdmissionHolds(lim: Limits, steps: seq<Step>, a: Key, b: Key)
    requires AllowedRun(lim, steps)
    ensures var t := Run(lim, steps).t;
      && |ActiveAgents(t)| <= lim.total && |ActiveIn(t, a.session)| <= lim.session
      && (a in t.agents ==>
           (t.agents[a].attempt in t.attempts
             && t.attempts[t.agents[a].attempt] == AttemptRow(a.session, a.name, t.agents[a].state)))
    ensures var t := Run(lim, steps).t;
      a in ActiveAgents(t) && b in ActiveAgents(t) && a != b ==>
        forall i, j | 0 <= i < |t.agents[a].scope| && 0 <= j < |t.agents[b].scope| ::
          !PathsOverlap(t.agents[a].scope[i], t.agents[b].scope[j])
  {
    RunKeepsRuns(lim, steps);
    hide MailOk, Run, AllowedRun, NoticesAreTrue, NoticesAreThere, HistoryOk;
  }

  /** No attempt settles twice; the ended attempts are the settled ones still in the table; an ended
      attempt has exactly one completion message and a running one has none. */
  lemma SettledOnce(lim: Limits, steps: seq<Step>, a: string)
    requires AllowedRun(lim, steps)
    ensures var w := Run(lim, steps);
      && (forall i, j | 0 <= i < j < |w.settled| :: w.settled[i] != w.settled[j])
      && (a in w.t.attempts ==> (IsTerminal(w.t.attempts[a].state) <==> a in w.settled))
    ensures var t := Run(lim, steps).t;
      a in t.attempts ==>
        (IsTerminal(t.attempts[a].state) <==> exists q :: q in t.mailbox && t.mailbox[q].mid == CompletionId(a))
    ensures var t := Run(lim, steps).t;
      forall p, q | p in t.mailbox && q in t.mailbox && t.mailbox[p].mid == CompletionId(a) == t.mailbox[q].mid ::
        p == q
  {
    RunKeepsRuns(lim, steps);
    var w := Run(lim, steps);
    MailRows(w);
    hide MailOk, Run, AllowedRun, LimitsOk, ScopesApart, MirrorOk;
    assert !UserMid(CompletionId(a)) && AttemptOf(CompletionId(a)) == a;
    if a in w.t.attempts && IsTerminal(w.t.attempts[a].state) {
      var q :| Announces(w.t, q, a);
      assert w.t.mailbox[q].mid == CompletionId(a);
    }
    forall p, q | p in w.t.mailbox && q in w.t.mailbox && w.t.mailbox[p].mid == CompletionId(a) == w.t.mailbox[q].mid
      ensures p == q
    {
      assert Packet(w.t.mailbox[p]) == Packet(w.t.mailbox[q]);
    }
  }

  /** In every reachable state the current attempt can be settled, and no other one can. */
  lemma CurrentAttemptSettles(lim: Limits, steps: seq<Step>, k: Key, attempt: string, final: RunState, text: string)
    requires AllowedRun(lim, steps) && IsTerminal(final)
    ensures var t := Run(lim, steps).t; var r := Finish(t, k, attempt, final, text);
      r.Some? && (r.value.1 <==> IsCurrent(t, k, attempt)) && (!r.value.1 ==> r.value.0 == t)
  {
    RunKeepsRuns(lim, steps);
    var w := Run(lim, steps);
    MailRows(w);
    hide MailOk, Run, AllowedRun, LimitsOk, ScopesApart;
    if IsCurrent(w.t, k, attempt) {
      FinishEffect(w.t, k, attempt, final, text,
        Settled(w.t, k, attempt, final).(mailbox := w.t.mailbox[w.t.next := CompletionRow(k, attempt, text)],
          next := w.t.next + 1));
    }
  }
}
