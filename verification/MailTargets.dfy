/**
 * Which attempt a waiting message is for, how many messages may wait, and that an attempt which has
 * been replaced can do nothing more.
 */
module MailTargets {
  import opened Options
  import opened Collections
  import opened RunStore
  import opened Runtime
  import opened MailSafety
  import opened MailRuns

  // ---- waiting messages follow the current attempt ----

  function Target(agents: map<Key, AgentRow>, to: Key): string {
    if to.name == PARENT || to !in agents then "" else agents[to].attempt
  }

  predicate RightTarget(agents: map<Key, AgentRow>, r: Row) {
    var to := Key(r.session, r.recipient);
    r.target == Target(agents, to) && (r.recipient == PARENT || to in agents)
  }

  /** Every waiting row is for the parent or for the current attempt of an agent in the table. */
  ghost predicate TargetsOk(t: Tables) {
    && (forall q | q in t.mailbox && IsPending(t.mailbox[q]) :: RightTarget(t.agents, t.mailbox[q]))
    && (forall k | k in t.agents :: k.name != PARENT)
  }

  function Waiting(mailbox: map<nat, Row>, k: Key): set<nat> {
    set q | q in mailbox && IsPending(mailbox[q]) && Addressed(mailbox[q], k) && mailbox[q].kind == Message
  }

  /** Completions aside, no mailbox ever holds more than 256 waiting messages. */
  ghost predicate CapacityOk(mailbox: map<nat, Row>) {
    forall k :: |Waiting(mailbox, k)| <= MAILBOX_CAPACITY
  }

  ghost predicate QueuesOk(t: Tables) {
    TargetsOk(t) && CapacityOk(t.mailbox)
  }

  /** Rows only leave a queue, and keep their targets or get the right one. */
  lemma FewerKeepQueues(t: Tables, u: Tables)
    requires QueuesOk(t)
    requires forall k | k in u.agents :: k.name != PARENT
    requires forall q | q in u.mailbox && IsPending(u.mailbox[q]) ::
      q in t.mailbox && IsPending(t.mailbox[q])
        && u.mailbox[q].(state := t.mailbox[q].state, target := t.mailbox[q].target) == t.mailbox[q]
      && RightTarget(u.agents, u.mailbox[q])
    ensures QueuesOk(u)
  {
    forall k ensures |Waiting(u.mailbox, k)| <= MAILBOX_CAPACITY {
      SubsetSize(Waiting(u.mailbox, k), Waiting(t.mailbox, k));
    }
  }

  lemma {:induction false} SeqSize(s: seq<nat>, a: set<nat>)
    requires forall q | q in a :: q in s
    ensures |a| <= |s|
  {
    if s == [] {
      assert a == {};
    } else {
      var n := |s| - 1;
      assert s == s[..n] + [s[n]];
      SeqSize(s[..n], a - {s[n]});
    }
  }

  /** One more row in the queue of its recipient. */
  lemma InsertKeepsQueues(t: Tables, row: Row, u: Tables)
    requires QueuesOk(t) && RowsOk(t.mailbox, t.next) && InsertMessage(t, row) == Some(u)
    requires row.state == Queued && RightTarget(t.agents, row)
    ensures QueuesOk(u)
  {
    if u != t {
      var k := Key(row.session, row.recipient);
      assert row.kind == Message ==> |Pending(t, k)| < MAILBOX_CAPACITY;
      assert u == t.(mailbox := t.mailbox[t.next := row], next := t.next + 1);
      hide InsertMessage;
      InsertKeepsTargets(t, row, u);
      hide TargetsOk;
      PendingHolds(t, k);
      hide Pending;
      InsertKeepsCapacity(t, row, u, k);
    }
  }

  lemma InsertKeepsTargets(t: Tables, row: Row, u: Tables)
    requires TargetsOk(t) && RightTarget(t.agents, row)
      && u == t.(mailbox := t.mailbox[t.next := row], next := t.next + 1)
    ensures TargetsOk(u)
  {
  }

  lemma PendingHolds(t: Tables, k: Key)
    requires RowsOk(t.mailbox, t.next)
    ensures |Waiting(t.mailbox, k)| <= |Pending(t, k)|
  {
    SeqSize(Pending(t, k), Waiting(t.mailbox, k));
  }

  lemma InsertKeepsCapacity(t: Tables, row: Row, u: Tables, k: Key)
    requires CapacityOk(t.mailbox) && t.next !in t.mailbox && u.mailbox == t.mailbox[t.next := row]
    requires k == Key(row.session, row.recipient)
      && (row.kind == Message ==> |Waiting(t.mailbox, k)| < MAILBOX_CAPACITY)
    ensures CapacityOk(u.mailbox)
  {
    forall j ensures |Waiting(u.mailbox, j)| <= MAILBOX_CAPACITY {
      if j == k && row.kind == Message {
        SubsetSize(Waiting(u.mailbox, j), Waiting(t.mailbox, j) + {t.next});
      } else {
        SubsetSize(Waiting(u.mailbox, j), Waiting(t.mailbox, j));
      }
    }
  }

  // ---- every step, every run ----

  lemma SendKeepsQueues(w: World, step: Step, u: Tables)
    requires QueuesOk(w.t) && MailOk(w) && step.SendStep?
    requires Send(w.t, step.to, step.sender, step.text, step.mid, step.expected, step.senderAttempt) == Some(u)
    ensures QueuesOk(u)
  {
    var row := Row(step.to.session, step.to.name, step.sender, step.mid, step.text, Message,
      Target(w.t.agents, step.to), Queued);
    assert InsertMessage(w.t, row) == Some(u);
    assert RightTarget(w.t.agents, row);
    hide Send, InsertMessage, QueuesOk;
    InsertKeepsQueues(w.t, row, u);
  }

  lemma FinishKeepsQueues(w: World, step: Step, r: (Tables, bool))
    requires QueuesOk(w.t) && MailOk(w) && step.FinishStep? && IsTerminal(step.final)
    requires Finish(w.t, step.k, step.attempt, step.final, step.text) == Some(r)
    ensures QueuesOk(r.0)
  {
    var t, k, attempt := w.t, step.k, step.attempt;
    if k in t.agents && t.agents[k].attempt == attempt && IsActive(t.agents[k].state) {
      var settled := t.(
        agents := t.agents[k := t.agents[k].(state := step.final)],
        attempts := if attempt in t.attempts then t.attempts[attempt := t.attempts[attempt].(state := step.final)]
          else t.attempts);
      assert InsertMessage(settled, CompletionRow(k, attempt, step.text)) == Some(r.0);
      assert forall j :: Target(settled.agents, j) == Target(t.agents, j);
      assert settled.mailbox == t.mailbox;
      hide Finish, InsertMessage;
      FewerKeepQueues(t, settled);
      InsertKeepsQueues(settled, CompletionRow(k, attempt, step.text), r.0);
    }
  }

  lemma StartKeepsQueues(t: Tables, u: Tables, k: Key, fixed: string, scope: seq<string>, attempt: string,
      fence: Option<string>, lim: Limits)
    requires QueuesOk(t) && Start(t, k, fixed, scope, attempt, fence, lim.session, lim.total) == Some(u)
    ensures QueuesOk(u)
  {
    StartTables(t, u, k, fixed, scope, attempt, fence, lim);
    hide Start;
    forall q | q in u.mailbox && IsPending(u.mailbox[q])
      ensures q in t.mailbox && IsPending(t.mailbox[q])
        && u.mailbox[q].(state := t.mailbox[q].state, target := t.mailbox[q].target) == t.mailbox[q]
      ensures RightTarget(u.agents, u.mailbox[q])
    {
      assert RightTarget(t.agents, t.mailbox[q]);
    }
    FewerKeepQueues(t, u);
  }

  lemma StartTables(t: Tables, u: Tables, k: Key, fixed: string, scope: seq<string>, attempt: string,
      fence: Option<string>, lim: Limits)
    requires Start(t, k, fixed, scope, attempt, fence, lim.session, lim.total) == Some(u)
    ensures k.name != PARENT && u.agents == t.agents[k := AgentRow(attempt, Running, fixed, scope)]
    ensures u.mailbox == Retarget(t.mailbox, k, attempt)
  {
  }

  lemma DropKeepsQueues(t: Tables, u: Tables, session: string)
    requires QueuesOk(t) && DropSession(t, session) == Some(u)
    ensures QueuesOk(u)
  {
    assert u.mailbox == map q | q in t.mailbox && t.mailbox[q].session != session :: t.mailbox[q];
    assert u.agents == map k | k in t.agents && k.session != session :: t.agents[k];
    hide DropSession;
    forall q | q in u.mailbox && IsPending(u.mailbox[q])
      ensures q in t.mailbox && u.mailbox[q] == t.mailbox[q] && RightTarget(u.agents, u.mailbox[q])
    {
      assert RightTarget(t.agents, t.mailbox[q]);
    }
    FewerKeepQueues(t, u);
  }

  lemma MarkKeepsQueues(t: Tables, u: Tables, hit: set<nat>, s: RowState)
    requires QueuesOk(t) && u == t.(mailbox := Mark(t.mailbox, hit, s))
    requires s == Delivering ==> forall q | q in hit && q in t.mailbox :: IsPending(t.mailbox[q])
    requires s != Queued
    ensures QueuesOk(u)
  {
    assert forall q | q in u.mailbox && IsPending(u.mailbox[q]) :: IsPending(t.mailbox[q]);
    assert forall q | q in u.mailbox && IsPending(u.mailbox[q]) :: RightTarget(t.agents, t.mailbox[q]);
    FewerKeepQueues(t, u);
  }

  lemma DeliveryKeepsQueues(lim: Limits, w: World, step: Step, x: World)
    requires QueuesOk(w.t) && MailOk(w) && x == Do(lim, w, step)
    requires step.WithdrawStep? || step.ReserveStep? || step.AckStep?
    ensures QueuesOk(x.t)
  {
    hide QueuesOk;
    match step {
      case WithdrawStep(k, mid, text, sender) =>
        var found := FirstWithdrawable(w.t.mailbox, k, mid, text, sender, 0, w.t.next);
        if found.Some? {
          MarkKeepsQueues(w.t, x.t, {found.value}, Withdrawn);
        }
      case ReserveStep(k, attempt) =>
        ReserveMarks(w, k);
        hide ToClaim, Mark;
        MarkKeepsQueues(w.t, w.t.(mailbox := Mark(w.t.mailbox, Elems(ToClaim(w.t, k)), Delivering)),
          Elems(ToClaim(w.t, k)), Delivering);
      case AckStep(k) =>
        var ph := PhaseOf(w, k);
        if ph.Flushed? {
          var hit := set q | q in ph.rows && q in w.t.mailbox && Addressed(w.t.mailbox[q], k)
            && w.t.mailbox[q].state == Delivering;
          hide Mark;
          MarkKeepsQueues(w.t, w.t.(mailbox := Mark(w.t.mailbox, hit, Delivered)), hit, Delivered);
        }
    }
  }

  lemma ReserveMarks(w: World, k: Key)
    requires MailOk(w)
    ensures forall q | q in Elems(ToClaim(w.t, k)) && q in w.t.mailbox :: IsPending(w.t.mailbox[q])
  {
    ToClaimFacts(w.t, k);
  }

  lemma StepKeepsQueues(lim: Limits, w: World, step: Step)
    requires QueuesOk(w.t) && MailOk(w) && Allowed(w, step)
    ensures QueuesOk(Do(lim, w, step).t)
  {
    var x := Do(lim, w, step);
    hide QueuesOk, MailOk;
    match step {
      case SendStep(to, sender, text, mid, expected, sa) =>
        var o := Send(w.t, to, sender, text, mid, expected, sa);
        hide Send;
        if o.Some? { SendKeepsQueues(w, step, o.value); }
      case FinishStep(k, attempt, final, text) =>
        if IsTerminal(final) {
          var o := Finish(w.t, k, attempt, final, text);
          hide Finish;
          if o.Some? { FinishKeepsQueues(w, step, o.value); }
        }
      case StartStep(k, fixed, scope, attempt, fence) =>
        var o := Start(w.t, k, fixed, scope, attempt, fence, lim.session, lim.total);
        hide Start;
        if o.Some? { StartKeepsQueues(w.t, o.value, k, fixed, scope, attempt, fence, lim); }
      case DropStep(session) =>
        var o := DropSession(w.t, session);
        hide DropSession;
        if o.Some? { DropKeepsQueues(w.t, o.value, session); }
      case WithdrawStep(_, _, _, _) => DeliveryKeepsQueues(lim, w, step, x);
      case ReserveStep(_, _) => DeliveryKeepsQueues(lim, w, step, x);
      case AckStep(_) => DeliveryKeepsQueues(lim, w, step, x);
      case _ => LocalIsLocal(w, x, lim, step);
    }
  }

  /** In every run each waiting message is for the parent or for the current attempt of an agent
      that exists, and at most 256 messages wait in one mailbox. */
  lemma {:induction false} RunKeepsQueues(lim: Limits, steps: seq<Step>)
    requires AllowedRun(lim, steps)
    ensures QueuesOk(Run(lim, steps).t)
  {
    if steps == [] {
      assert forall k :: Waiting(map[], k) == {};
    } else {
      var front := steps[..|steps| - 1];
      RunKeepsQueues(lim, front);
      RunKeepsMail(lim, front);
      StepKeepsQueues(lim, Run(lim, front), steps[|steps| - 1]);
    }
  }

  // ---- fencing and retries ----

  /** Once a new attempt has started, the old one can neither settle, nor deliver, nor send, and a
      message meant for it is refused. */
  lemma OldAttemptIsFenced(t: Tables, u: Tables, k: Key, fixed: string, scope: seq<string>, attempt: string,
      fence: Option<string>, lim: Limits, prior: string)
    requires Start(t, k, fixed, scope, attempt, fence, lim.session, lim.total) == Some(u) && prior != attempt
      && prior != ""
    ensures forall final, text | IsTerminal(final) :: Finish(u, k, prior, final, text) == Some((u, false))
    ensures ClaimMessages(u, k, prior) == None && forall seqs :: Acknowledge(u, k, seqs, prior) == None
    ensures forall to: Key, text, mid, expected | to.session == k.session ::
      Send(u, to, k.name, text, mid, expected, prior) == None
    ensures forall sender, text, mid, sa :: Send(u, k, sender, text, mid, prior, sa) == None
  {
    StartTables(t, u, k, fixed, scope, attempt, fence, lim);
    hide Start, Overlaps;
  }

  /** Sending the same message again changes nothing; under the same id no other message gets in. */
  lemma SendTwice(t: Tables, u: Tables, to: Key, sender: string, text: string, mid: string, expected: string,
      senderAttempt: string, other: string)
    requires RowsOk(t.mailbox, t.next) && Send(t, to, sender, text, mid, expected, senderAttempt) == Some(u)
    ensures Send(u, to, sender, text, mid, expected, senderAttempt) == Some(u)
    ensures other != text ==> Send(u, to, sender, other, mid, expected, senderAttempt) == None
  {
    SendIsThere(t, u, to, sender, text, mid, expected, senderAttempt);
    hide PendingBelow;
  }

  lemma SendIsThere(t: Tables, u: Tables, to: Key, sender: string, text: string, mid: string, expected: string,
      senderAttempt: string)
    requires RowsOk(t.mailbox, t.next) && Send(t, to, sender, text, mid, expected, senderAttempt) == Some(u)
    ensures u.agents == t.agents && u.closed == t.closed
    ensures var found := FindBelow(u.mailbox, to.session, sender, mid, u.next);
      found.Some? && u.mailbox[found.value].recipient == to.name && u.mailbox[found.value].text == text
        && u.mailbox[found.value].kind == Message
  {
    hide PendingBelow;
    var found := FindBelow(u.mailbox, to.session, sender, mid, u.next);
    if u != t {
      assert HasIdentity(u.mailbox[t.next], to.session, sender, mid);
      assert forall q | q in t.mailbox :: !HasIdentity(t.mailbox[q], to.session, sender, mid);
    }
  }
}
