/**
 * Whom admission lets in: the exact condition of a start in terms of the tables, and that of two
 * starts of one agent which read the same attempt before at most one is admitted.
 */
module RunAdmission {
  import opened Options
  import opened RunStore
  import opened Runtime
  import MailSafety
  import opened RunSafety

  // ---- the exact condition ----

  /** The agents at work. */
  function Busy(t: Tables): set<Key> {
    set j | j in t.agents && (t.agents[j].state == Running || t.agents[j].state == Cancelling)
  }

  function BusyIn(t: Tables, session: string): set<Key> {
    set j | j in t.agents && j.session == session
      && (t.agents[j].state == Running || t.agents[j].state == Cancelling)
  }

  /** Some agent at work writes a path that is one of these, below one of these or above one. */
  ghost predicate ScopeTaken(t: Tables, scope: seq<string>) {
    exists o, a, b :: o in Busy(t) && a in scope && b in t.agents[o].scope && Clash(a, b)
  }

  ghost predicate Clash(a: string, b: string) {
    a == b || (exists rest :: a == b + "/" + rest) || (exists rest :: b == a + "/" + rest)
  }

  /** The fence names the attempt the agent is at, or nothing for an agent nobody knows. */
  ghost predicate FenceFits(t: Tables, k: Key, fence: Option<string>) {
    fence.None? || (k in t.agents && t.agents[k].attempt == fence.value) || (k !in t.agents && fence.value == "")
  }

  ghost predicate Admissible(t: Tables, k: Key, fixed: string, scope: seq<string>, fence: Option<string>,
      session: nat, total: nat)
  {
    && k.session != "" && k.name != "" && k.name != "parent" && k.session !in t.closed
    && |Busy(t)| < total && |BusyIn(t, k.session)| < session
    && !ScopeTaken(t, scope) && FenceFits(t, k, fence)
    && (k in t.agents ==> t.agents[k].fixed == fixed)
  }

  /** A start is admitted exactly then. The agent is at work in its new attempt, the messages that
      wait for it go to that attempt, and nothing else changes. */
  lemma StartIff(t: Tables, k: Key, fixed: string, scope: seq<string>, attempt: string, fence: Option<string>,
      session: nat, total: nat)
    ensures Start(t, k, fixed, scope, attempt, fence, session, total).Some?
      <==> Admissible(t, k, fixed, scope, fence, session, total)
    ensures var o := Start(t, k, fixed, scope, attempt, fence, session, total);
      o.Some? ==> StartedFrom(t, o.value, k, fixed, scope, attempt)
  {
    assert ActiveAgents(t) == Busy(t) && ActiveIn(t, k.session) == BusyIn(t, k.session);
    TakenIff(t, scope);
    hide ActiveAgents, ActiveIn, Overlaps, ScopeTaken, Busy, BusyIn;
  }

  ghost predicate StartedFrom(t: Tables, u: Tables, k: Key, fixed: string, scope: seq<string>, attempt: string) {
    && u == t.(agents := u.agents, attempts := u.attempts, mailbox := u.mailbox)
    && u.agents == t.agents[k := AgentRow(attempt, Running, fixed, scope)]
    && u.attempts == t.attempts[attempt := AttemptRow(k.session, k.name, Running)]
    && u.mailbox.Keys == t.mailbox.Keys
    && forall q | q in t.mailbox ::
      u.mailbox[q] == if t.mailbox[q].session == k.session && t.mailbox[q].recipient == k.name
                         && (t.mailbox[q].state == Queued || t.mailbox[q].state == Delivering)
                      then t.mailbox[q].(target := attempt) else t.mailbox[q]
  }

  lemma TakenIff(t: Tables, scope: seq<string>)
    ensures ScopeTaken(t, scope) <==> exists o | o in ActiveAgents(t) :: Overlaps(scope, t.agents[o].scope)
  {
    hide PathsOverlap, Clash;
    assert Busy(t) == ActiveAgents(t);
    forall a, b ensures PathsOverlap(a, b) <==> Clash(a, b) { ClashIff(a, b); }
    if o, a, b :| o in Busy(t) && a in scope && b in t.agents[o].scope && Clash(a, b) {
      assert Overlaps(scope, t.agents[o].scope);
    }
  }

  lemma ClashIff(a: string, b: string)
    ensures PathsOverlap(a, b) <==> Clash(a, b)
  {
    if b + "/" <= a {
      assert a == b + "/" + a[|b| + 1..];
    }
    if a + "/" <= b {
      assert b == a + "/" + b[|a| + 1..];
    }
  }

  /** A start that is admitted also reloads the agent's conversation from its transcript; any other
      one leaves the world as it was. */
  lemma StartOutcome(lim: Limits, w: World, step: Step)
    requires step.StartStep?
    ensures var x := Do(lim, w, step);
      if Admissible(w.t, step.k, step.fixed, step.scope, step.fence, lim.session, lim.total) then
        && StartedFrom(w.t, x.t, step.k, step.fixed, step.scope, step.attempt)
        && Ids(x.mem, step.k) == Ids(w.disk, step.k) && x.disk == w.disk && x.phase == w.phase
        && x.used == w.used + {step.attempt} && x.settled == w.settled
      else x == w
  {
    StartIff(w.t, step.k, step.fixed, step.scope, step.attempt, step.fence, lim.session, lim.total);
    hide Start, Admissible, StartedFrom;
  }

  // ---- the end of an attempt ----

  /** The attempt is the one its agent is at work in, the outcome is a final one, and the id of the
      announcement is free or carries this very announcement. */
  ghost predicate MayEnd(t: Tables, k: Key, attempt: string, final: RunState, text: string) {
    && k in Busy(t) && t.agents[k].attempt == attempt && final != Running && final != Cancelling
    && forall q | Announced(t, q, k, attempt) ::
      t.mailbox[q].recipient == "parent" && t.mailbox[q].kind == Completion && t.mailbox[q].text == text
  }

  ghost predicate Announced(t: Tables, q: nat, k: Key, attempt: string) {
    q in t.mailbox && t.mailbox[q].session == k.session && t.mailbox[q].sender == k.name
      && t.mailbox[q].mid == "completion-" + attempt
  }

  /** Exactly then it is settled: the agent and the attempt get the outcome and the parent one
      message, whatever waits there already. Otherwise the world stays as it was. */
  lemma FinishOutcome(lim: Limits, w: World, step: Step)
    requires step.FinishStep? && MailSafety.RowsOk(w.t.mailbox, w.t.next)
    ensures var x := Do(lim, w, step); var k, a := step.k, step.attempt;
      if MayEnd(w.t, k, a, step.final, step.text) then
        && x == w.(t := x.t, settled := w.settled + [a]) && x.t.closed == w.t.closed
        && x.t.agents == w.t.agents[k := w.t.agents[k].(state := step.final)]
        && x.t.attempts == (if a in w.t.attempts then w.t.attempts[a := w.t.attempts[a].(state := step.final)]
             else w.t.attempts)
        && x.t.mailbox == (if exists q :: Announced(w.t, q, k, a) then w.t.mailbox
             else w.t.mailbox[w.t.next := Row(k.session, "parent", k.name, "completion-" + a, step.text, Completion,
               "", Queued)])
      else x == w
  {
    var t, k, a := w.t, step.k, step.attempt;
    MayEndIff(t, k, a, step.final, step.text);
    if MayEnd(t, k, a, step.final, step.text) {
      InsertNotice(t, Settled(t, k, a, step.final), k, a, step.text);
      hide InsertMessage, MayEnd, Announced, MailSafety.RowsOk;
    }
  }

  lemma MayEndIff(t: Tables, k: Key, attempt: string, final: RunState, text: string)
    requires MailSafety.RowsOk(t.mailbox, t.next)
    ensures MayEnd(t, k, attempt, final, text)
      <==> (IsTerminal(final) && IsCurrent(t, k, attempt) && Finish(t, k, attempt, final, text).Some?)
  {
    if IsTerminal(final) {
      SettlementFailsIff(t, k, attempt, final, text);
      hide Finish, MailSafety.RowsOk;
      assert forall q ::
        Announced(t, q, k, attempt) <==>
          (q in t.mailbox && HasIdentity(t.mailbox[q], k.session, k.name, CompletionId(attempt)));
    }
  }

  lemma InsertNotice(t: Tables, u: Tables, k: Key, attempt: string, text: string)
    requires MailSafety.RowsOk(t.mailbox, t.next) && u.mailbox == t.mailbox && u.next == t.next
    requires forall q | Announced(t, q, k, attempt) ::
      t.mailbox[q].recipient == "parent" && t.mailbox[q].kind == Completion && t.mailbox[q].text == text
    ensures InsertMessage(u, CompletionRow(k, attempt, text)) == Some(
      if exists q :: Announced(t, q, k, attempt) then u
      else u.(mailbox := t.mailbox[t.next := CompletionRow(k, attempt, text)], next := t.next + 1))
  {
    var prior := FindBelow(u.mailbox, k.session, k.name, CompletionId(attempt), u.next);
    if prior.Some? {
      assert Announced(t, prior.value, k, attempt);
    }
  }

  // ---- one fence admits one start ----

  ghost predicate FenceKnown(w: World, fence: string) {
    (fence == "" || fence in w.used) && "" !in w.used
  }

  /** No later start of k can bring this fence: its session is over, or it is at another attempt. */
  ghost predicate Spent(w: World, k: Key, fence: string) {
    FenceKnown(w, fence) && (k.session in w.t.closed || (k in w.t.agents && w.t.agents[k].attempt != fence))
  }

  lemma SpentIsRefused(w: World, k: Key, fence: string, step: Step, lim: Limits)
    requires Spent(w, k, fence) && step.StartStep? && step.k == k && step.fence == Some(fence)
    ensures !Admits(lim, w, step)
  {
    StartIff(w.t, k, step.fixed, step.scope, step.attempt, Some(fence), lim.session, lim.total);
  }

  /** The step is a start and it is let in. */
  ghost predicate Admits(lim: Limits, w: World, step: Step) {
    step.StartStep?
      && Start(w.t, step.k, step.fixed, step.scope, step.attempt, step.fence, lim.session, lim.total).Some?
  }

  lemma StartSpends(lim: Limits, w: World, step: Step, fence: string)
    requires RunsOk(lim, w) && Allowed(w, step) && Admits(lim, w, step) && step.fence == Some(fence) && "" !in w.used
    ensures Spent(Do(lim, w, step), step.k, fence)
  {
    hide Start, RunsOk;
    StartIff(w.t, step.k, step.fixed, step.scope, step.attempt, step.fence, lim.session, lim.total);
    MirrorsAreUsed(lim, w, step.k);
  }

  lemma MirrorsAreUsed(lim: Limits, w: World, k: Key)
    requires RunsOk(lim, w)
    ensures k in w.t.agents ==> w.t.agents[k].attempt in w.used
  {
    hide MailSafety.MailOk, NoticesAreTrue, NoticesAreThere, LimitsOk, ScopesApart;
  }

  lemma StepKeepsSpent(lim: Limits, w: World, step: Step, k: Key, fence: string)
    requires Spent(w, k, fence) && Allowed(w, step)
    ensures Spent(Do(lim, w, step), k, fence)
  {
    hide Start, Send, Finish, Mark, ToClaim, MayDeliver, AppendMissing, Packets;
    match step {
      case SendStep(to, sender, text, mid, expected, sa) => SendTables(w.t, to, sender, text, mid, expected, sa);
      case StartStep(j, fixed, scope, attempt, expected) =>
        StartIff(w.t, j, fixed, scope, attempt, expected, lim.session, lim.total);
        hide Admissible;
      case FinishStep(j, attempt, final, text) =>
        if IsTerminal(final) {
          FinishTables(w.t, j, attempt, final, text);
        }
      case DropStep(_) =>
      case _ =>
        DeliveryTables(lim, w, step);
        hide Do;
    }
  }

  lemma DeliveryTables(lim: Limits, w: World, step: Step)
    requires IsDelivery(step)
    ensures var x := Do(lim, w, step); x.t.agents == w.t.agents && x.t.closed == w.t.closed && x.used == w.used
  {
    hide Mark, ToClaim, MayDeliver, AppendMissing, Packets, PhaseOf, Ids;
  }

  lemma SendTables(t: Tables, to: Key, sender: string, text: string, mid: string, expected: string, sa: string)
    ensures var o := Send(t, to, sender, text, mid, expected, sa);
      o.Some? ==> o.value.agents == t.agents && o.value.closed == t.closed
  {
  }

  lemma FinishTables(t: Tables, k: Key, attempt: string, final: RunState, text: string)
    requires IsTerminal(final)
    ensures var o := Finish(t, k, attempt, final, text);
      o.Some? ==>
        && o.value.0.closed == t.closed && o.value.0.agents.Keys == t.agents.Keys
        && forall j | j in t.agents :: o.value.0.agents[j].attempt == t.agents[j].attempt
  {
  }

  // ---- over whole runs ----

  lemma {:induction false} PrefixIsAllowed(lim: Limits, steps: seq<Step>, i: nat)
    requires AllowedRun(lim, steps) && i <= |steps|
    ensures AllowedRun(lim, steps[..i])
    ensures i < |steps| ==> Run(lim, steps[..i + 1]) == Do(lim, Run(lim, steps[..i]), steps[i])
    ensures i < |steps| ==> Allowed(Run(lim, steps[..i]), steps[i])
    decreases |steps|
  {
    hide Do, Allowed;
    if i == |steps| {
      assert steps[..i] == steps;
    } else if i == |steps| - 1 {
      assert steps[..i + 1] == steps;
    } else {
      var front := steps[..|steps| - 1];
      PrefixIsAllowed(lim, front, i);
      assert front[..i] == steps[..i] && front[..i + 1] == steps[..i + 1] && front[i] == steps[i];
    }
  }

  lemma {:induction false} NoEmptyAttempt(lim: Limits, steps: seq<Step>, i: nat)
    requires AllowedRun(lim, steps) && i <= |steps|
    ensures "" !in Run(lim, steps[..i]).used
  {
    if i > 0 {
      NoEmptyAttempt(lim, steps, i - 1);
      PrefixIsAllowed(lim, steps, i - 1);
      UsedGrows(lim, Run(lim, steps[..i - 1]), steps[i - 1]);
    }
  }

  lemma UsedGrows(lim: Limits, w: World, step: Step)
    requires Allowed(w, step) && "" !in w.used
    ensures "" !in Do(lim, w, step).used
  {
    hide Start, Send, Finish, DropSession, ClaimMessages, Acknowledge, AppendMissing, Packets, ToClaim;
  }

  lemma {:induction false} SpentStays(lim: Limits, steps: seq<Step>, i: nat, j: nat, k: Key, fence: string)
    requires AllowedRun(lim, steps) && i <= j <= |steps| && Spent(Run(lim, steps[..i]), k, fence)
    ensures Spent(Run(lim, steps[..j]), k, fence)
    decreases j
  {
    if i < j {
      SpentStays(lim, steps, i, j - 1, k, fence);
      PrefixIsAllowed(lim, steps, j - 1);
      hide Run, AllowedRun, Spent, Allowed, Do;
      StepKeepsSpent(lim, Run(lim, steps[..j - 1]), steps[j - 1], k, fence);
    }
  }

  /** In every run, of two starts of one agent with the same fence at most one is admitted. */
  lemma OneStartPerFence(lim: Limits, steps: seq<Step>, i: nat, j: nat, fence: string)
    requires AllowedRun(lim, steps) && i < j < |steps|
    requires steps[i].StartStep? && steps[j].StartStep? && steps[i].k == steps[j].k
    requires steps[i].fence == Some(fence) && steps[j].fence == Some(fence)
    ensures !(Admits(lim, Run(lim, steps[..i]), steps[i]) && Admits(lim, Run(lim, steps[..j]), steps[j]))
  {
    var w := Run(lim, steps[..i]);
    if Admits(lim, w, steps[i]) {
      PrefixIsAllowed(lim, steps, i);
      NoEmptyAttempt(lim, steps, i);
      RunKeepsRuns(lim, steps[..i]);
      hide Run, AllowedRun, RunsOk, Admits, Do, Allowed;
      StartSpends(lim, w, steps[i], fence);
      SpentStays(lim, steps, i + 1, j, steps[i].k, fence);
      SpentIsRefused(Run(lim, steps[..j]), steps[i].k, fence, steps[j], lim);
    }
  }

  // ---- deletion ----

  /** A session is deleted exactly when none of its agents is at work. Its rows go, all other rows
      stay, and it is closed. */
  lemma DropIff(t: Tables, session: string)
    ensures DropSession(t, session).Some? <==> BusyIn(t, session) == {}
    ensures var o := DropSession(t, session);
      o.Some? ==>
        && o.value.next == t.next && o.value.closed == t.closed + {session}
        && (forall k :: k in o.value.agents <==> k in t.agents && k.session != session)
        && (forall k | k in o.value.agents :: o.value.agents[k] == t.agents[k])
        && (forall a :: a in o.value.attempts <==> a in t.attempts && t.attempts[a].session != session)
        && (forall a | a in o.value.attempts :: o.value.attempts[a] == t.attempts[a])
        && (forall q :: q in o.value.mailbox <==> q in t.mailbox && t.mailbox[q].session != session)
        && (forall q | q in o.value.mailbox :: o.value.mailbox[q] == t.mailbox[q])
  {
    assert ActiveIn(t, session) == BusyIn(t, session);
  }

  /** The same for the world: a delivery under way in the session holds the deletion back. */
  lemma DropOutcome(lim: Limits, w: World, session: string)
    ensures var x := Do(lim, w, DropStep(session));
      if BusyIn(w.t, session) == {} && forall k | k in w.phase && k.session == session :: w.phase[k] == Idle then
        x == w.(t := x.t) && session in x.t.closed && forall k | k in x.t.agents :: k.session != session
      else x == w
  {
    DropIff(w.t, session);
    hide DropSession, BusyIn;
  }
}
