/**
 * Exactly-once delivery over whole runs: every step keeps the mail invariant, and what that says
 * of the transcripts.
 */
module MailRuns {
  import opened Options
  import opened Collections
  import opened RunStore
  import opened Runtime
  import opened MailSafety

  // ---- transactions on the tables alone ----

  lemma InsertIsNew(t: Tables, row: Row)
    requires RowsOk(t.mailbox, t.next)
    requires FindBelow(t.mailbox, row.session, row.sender, row.mid, t.next).None?
    ensures forall q :: !Names(t.mailbox, q, Packet(row))
  {
  }

  /** `t` differs from w's tables outside the mailbox at most. */
  lemma InsertKeepsMail(w: World, t: Tables, row: Row, u: Tables, x: World)
    requires MailOk(w) && t.mailbox == w.t.mailbox && t.next == w.t.next && t.closed == w.t.closed && AgentsOpen(t)
    requires row.state == Queued && row.session !in t.closed
    requires InsertMessage(t, row) == Some(u) && x == w.(t := u, settled := x.settled)
    ensures MailOk(x)
  {
    var prior := FindBelow(t.mailbox, row.session, row.sender, row.mid, t.next);
    if prior.Some? {
      assert forall k :: MailAt(w, k) ==> MailAt(x, k);
    } else {
      InsertIsNew(t, row);
      hide InsertMessage;
      var after := t.mailbox[t.next := row];
      assert u.mailbox == after && u.next == t.next + 1;
      assert RowsOk(after, u.next);
      hide RowsOk, Names, KeyOk;
      forall k ensures MailAt(x, k) {
        assert MailAt(w, k);
        InsertKeyOk(t.mailbox, after, t.next, t.closed, row, k, Ids(w.mem, k), Ids(w.disk, k), PhaseOf(w, k));
      }
    }
  }

  lemma SendKeepsMail(w: World, x: World, lim: Limits, step: Step)
    requires MailOk(w) && step.SendStep? && x == Do(lim, w, step)
    ensures MailOk(x)
  {
    var to := step.to;
    var o := Send(w.t, to, step.sender, step.text, step.mid, step.expected, step.senderAttempt);
    if o.Some? {
      var target := if to.name == PARENT || to !in w.t.agents then "" else w.t.agents[to].attempt;
      InsertKeepsMail(w, w.t, Row(to.session, to.name, step.sender, step.mid, step.text, Message, target, Queued),
        o.value, x);
    }
  }

  lemma FinishKeepsMail(w: World, x: World, lim: Limits, step: Step)
    requires MailOk(w) && step.FinishStep? && x == Do(lim, w, step)
    ensures MailOk(x)
  {
    var k, attempt, final := step.k, step.attempt, step.final;
    if IsTerminal(final) && k in w.t.agents && w.t.agents[k].attempt == attempt && IsActive(w.t.agents[k].state) {
      var settled := w.t.(
        agents := w.t.agents[k := w.t.agents[k].(state := final)],
        attempts := if attempt in w.t.attempts then w.t.attempts[attempt := w.t.attempts[attempt].(state := final)]
          else w.t.attempts);
      var o := InsertMessage(settled, CompletionRow(k, attempt, step.text));
      if o.Some? {
        InsertKeepsMail(w, settled, CompletionRow(k, attempt, step.text), o.value, x);
      }
    } else {
      assert x.t == w.t && x.mem == w.mem && x.disk == w.disk && x.phase == w.phase;
      hide KeyOk;
      assert forall k :: MailAt(w, k) ==> MailAt(x, k);
    }
  }

  lemma WithdrawKeepsMail(w: World, x: World, k: Key, mid: string, text: string, sender: string)
    requires MailOk(w) && x == w.(t := RemoveMessage(w.t, k, mid, text, sender))
    ensures MailOk(x)
  {
    var found := FirstWithdrawable(w.t.mailbox, k, mid, text, sender, 0, w.t.next);
    if found.Some? {
      var after := x.t.mailbox;
      MarkFacts(w.t.mailbox, after, {found.value}, Withdrawn);
      hide Mark, RemoveMessage;
      RestateRowsOk(w.t.mailbox, after, w.t.next);
      forall j ensures MailAt(x, j) {
        assert MailAt(w, j);
        assert Restated(w.t.mailbox, after, j);
        RestateKeyOk(w.t.mailbox, after, w.t.closed, j, Ids(w.mem, j), Ids(w.disk, j), PhaseOf(w, j));
      }
    } else {
      assert x == w;
    }
  }

  lemma RetargetRestates(mailbox: map<nat, Row>, after: map<nat, Row>, k: Key, attempt: string, j: Key)
    requires after == Retarget(mailbox, k, attempt)
    ensures Restated(mailbox, after, j)
  {
  }

  lemma StartKeepsMail(w: World, x: World, lim: Limits, step: Step)
    requires MailOk(w) && Allowed(w, step) && step.StartStep? && x == Do(lim, w, step)
    ensures MailOk(x)
  {
    var o := Start(w.t, step.k, step.fixed, step.scope, step.attempt, step.fence, lim.session, lim.total);
    if o.Some? {
      var k := step.k;
      var after := x.t.mailbox;
      assert after == Retarget(w.t.mailbox, k, step.attempt) && x.t.next == w.t.next && x.t.closed == w.t.closed;
      assert AgentsOpen(x.t);
      hide Start;
      RetargetRestates(w.t.mailbox, after, k, step.attempt, k);
      RestateRowsOk(w.t.mailbox, after, w.t.next);
      hide KeyOk, RowsOk;
      forall j ensures MailAt(x, j) {
        assert MailAt(w, j);
        RetargetRestates(w.t.mailbox, after, k, step.attempt, j);
        hide Retarget, Restated;
        RestateKeyOk(w.t.mailbox, after, w.t.closed, j, Ids(w.mem, j), Ids(w.disk, j), PhaseOf(w, j));
        if j == k {
          ReloadKeyOk(after, w.t.closed, k, Ids(w.mem, k), Ids(w.disk, k), Idle);
        }
      }
    } else {
      assert x == w;
    }
  }

  lemma DropKeepsMail(w: World, x: World, lim: Limits, step: Step)
    requires MailOk(w) && step.DropStep? && x == Do(lim, w, step)
    ensures MailOk(x)
  {
    var session := step.session;
    if SessionIdle(w, session) && DropSession(w.t, session).Some? {
      var after := x.t.mailbox;
      assert forall q :: q in after <==> q in w.t.mailbox && w.t.mailbox[q].session != session;
      assert forall q | q in after :: after[q] == w.t.mailbox[q];
      assert x.t.closed == w.t.closed + {session} && x.t.next == w.t.next;
      assert AgentsOpen(x.t);
      assert x.mem == w.mem && x.disk == w.disk && x.phase == w.phase;
      assert RowsOk(after, x.t.next);
      hide DropSession, KeyOk, RowsOk;
      forall k ensures MailAt(x, k) {
        assert MailAt(w, k);
        DropKeyOk(w.t.mailbox, after, w.t.closed, session, k, Ids(w.mem, k), Ids(w.disk, k), PhaseOf(w, k));
      }
    } else {
      assert x == w;
    }
  }

  // ---- the stages of a delivery ----

  /** Marking rows that are k's own is invisible to the other recipients. */
  lemma MarkOthers(mailbox: map<nat, Row>, after: map<nat, Row>, hit: set<nat>, s: RowState, k: Key, j: Key)
    requires after == Mark(mailbox, hit, s) && j != k
    requires forall q | q in hit && q in mailbox :: Addressed(mailbox[q], k)
    ensures Restated(mailbox, after, j)
  {
  }

  lemma ReserveKeepsMail(w: World, x: World, lim: Limits, step: Step)
    requires MailOk(w) && step.ReserveStep? && x == Do(lim, w, step)
    ensures MailOk(x)
  {
    var k := step.k;
    if PhaseOf(w, k) != Idle || !MayDeliver(w.t, k, step.attempt) || ToClaim(w.t, k) == [] {
      assert x == w;
    } else {
      ReserveTables(w, x, k, step.attempt, Elems(ToClaim(w.t, k)), x.t.mailbox);
    }
  }

  /** Marking rows of k and moving k's phase: the others see nothing of it. */
  lemma MarkOwnKeepsMail(w: World, x: World, k: Key, hit: set<nat>, s: RowState, after: map<nat, Row>)
    requires MailOk(w) && after == Mark(w.t.mailbox, hit, s) && MailAt(x, k)
    requires forall q | q in hit && q in w.t.mailbox :: Addressed(w.t.mailbox[q], k)
    requires x == w.(t := w.t.(mailbox := after), phase := x.phase) && forall j | j != k ::
      PhaseOf(x, j) == PhaseOf(w, j)
    ensures MailOk(x)
  {
    MarkFacts(w.t.mailbox, after, hit, s);
    RestateRowsOk(w.t.mailbox, after, w.t.next);
    hide KeyOk, RowsOk;
    forall j ensures MailAt(x, j) {
      assert MailAt(w, j);
      if j != k {
        MarkOthers(w.t.mailbox, after, hit, s, k, j);
        hide Restated, Mark;
        RestateKeyOk(w.t.mailbox, after, w.t.closed, j, Ids(w.mem, j), Ids(w.disk, j), PhaseOf(w, j));
      }
    }
  }

  lemma ReserveTables(w: World, x: World, k: Key, attempt: string, hit: set<nat>, after: map<nat, Row>)
    requires MailOk(w) && PhaseOf(w, k) == Idle && hit == Elems(ToClaim(w.t, k))
    requires after == Mark(w.t.mailbox, hit, Delivering)
    requires x == w.(t := w.t.(mailbox := after), phase := w.phase[k := Reserved(ToClaim(w.t, k), attempt)])
    ensures MailOk(x)
  {
    ToClaimFacts(w.t, k);
    assert MailAt(w, k);
    ReserveKeyOk(w.t, after, k, Ids(w.mem, k), Ids(w.disk, k), attempt);
    hide MailOk, KeyOk, Mark, Elems, ToClaim, RowsOk;
    MarkOwnKeepsMail(w, x, k, hit, Delivering, after);
  }

  lemma IdleKeyOk(mailbox: map<nat, Row>, closed: set<string>, k: Key, mem: seq<MsgId>, disk: seq<MsgId>, ph: Phase)
    requires KeyOk(mailbox, closed, k, mem, disk, ph)
    ensures KeyOk(mailbox, closed, k, mem, disk, Idle)
  {
  }

  lemma AckKeepsMail(w: World, x: World, lim: Limits, step: Step)
    requires MailOk(w) && step.AckStep? && x == Do(lim, w, step)
    ensures MailOk(x)
  {
    var k := step.k;
    var ph := PhaseOf(w, k);
    if ph.Flushed? {
      var o := Acknowledge(w.t, k, ph.rows, ph.attempt);
      if o.Some? {
        AckTables(w, x, k, ph.rows, ph.attempt);
      } else {
        hide KeyOk;
        forall j ensures MailAt(x, j) {
          assert MailAt(w, j);
          IdleKeyOk(w.t.mailbox, w.t.closed, j, Ids(w.mem, j), Ids(w.disk, j), PhaseOf(w, j));
        }
      }
    } else {
      assert x == w;
    }
  }

  lemma AckTables(w: World, x: World, k: Key, rows: seq<nat>, attempt: string)
    requires MailOk(w) && PhaseOf(w, k) == Flushed(rows, attempt) && MayDeliver(w.t, k, attempt)
    requires x == WithTables(w, Acknowledge(w.t, k, rows, attempt)).(phase := w.phase[k := Idle])
    ensures MailOk(x)
  {
    var after := x.t.mailbox;
    var hit := set q | q in rows && q in w.t.mailbox && Addressed(w.t.mailbox[q], k)
      && w.t.mailbox[q].state == Delivering;
    assert after == Mark(w.t.mailbox, hit, Delivered) && x == w.(t := w.t.(mailbox := after), phase := x.phase);
    assert MailAt(w, k);
    hide MailOk, KeyOk, Mark, RowsOk, Acknowledge, MayDeliver;
    AckKeyOk(w.t.mailbox, after, k, w.t.closed, Ids(w.mem, k), Ids(w.disk, k), rows, attempt, hit);
    MarkOwnKeepsMail(w, x, k, hit, Delivered, after);
  }

  /** A step that only moves one recipient's memory, transcript or phase. */
  lemma OneKeyKeepsMail(w: World, x: World, k: Key)
    requires MailOk(w) && x.t == w.t && MailAt(x, k)
    requires forall j | j != k ::
      Ids(x.mem, j) == Ids(w.mem, j) && Ids(x.disk, j) == Ids(w.disk, j) && PhaseOf(x, j) == PhaseOf(w, j)
    ensures MailOk(x)
  {
    hide KeyOk, RowsOk;
    forall j ensures MailAt(x, j) {
      assert MailAt(w, j);
    }
  }

  lemma AppendKeepsKey(w: World, x: World, lim: Limits, k: Key)
    requires RowsOk(w.t.mailbox, w.t.next) && MailAt(w, k) && x == Do(lim, w, AppendStep(k))
    ensures MailAt(x, k)
  {
    hide KeyOk, RowsOk, AppendMissing;
    var ph := PhaseOf(w, k);
    if ph.Reserved? && forall i | 0 <= i < |ph.rows| :: ph.rows[i] in w.t.mailbox {
      AppendKeyOk(w.t.mailbox, w.t.next, w.t.closed, k, Ids(w.mem, k), Ids(w.disk, k), ph.rows, ph.attempt,
        Packets(w.t.mailbox, ph.rows));
    }
  }

  predicate IsLocal(step: Step) {
    step.AppendStep? || step.RecordStep? || step.FlushStep? || step.AbandonStep? || step.CrashStep? || step.TalkStep?
  }

  lemma LocalKeepsKey(w: World, x: World, lim: Limits, step: Step)
    requires IsLocal(step) && RowsOk(w.t.mailbox, w.t.next) && MailAt(w, step.k) && x == Do(lim, w, step)
    ensures MailAt(x, step.k)
  {
    var k := step.k;
    var mem, disk, ph := Ids(w.mem, k), Ids(w.disk, k), PhaseOf(w, k);
    hide KeyOk, RowsOk, AppendMissing, Packets;
    match step {
      case AppendStep(_) => AppendKeepsKey(w, x, lim, k);
      case RecordStep(_, n) =>
        if |disk| <= n <= |mem| {
          RecordKeyOk(w.t.mailbox, w.t.closed, k, mem, disk, ph, n);
        }
      case FlushStep(_) =>
        if ph.Appended? {
          FlushKeyOk(w.t.mailbox, w.t.closed, k, mem, disk, ph.rows, ph.attempt);
        }
      case AbandonStep(_) => IdleKeyOk(w.t.mailbox, w.t.closed, k, mem, disk, ph);
      case CrashStep(_) => ReloadKeyOk(w.t.mailbox, w.t.closed, k, mem, disk, ph);
      case TalkStep(_, n) => TalkKeyOk(w.t.mailbox, w.t.closed, k, mem, disk, ph, n);
    }
  }

  /** Which entries of memory, transcript and phase such a step writes. */
  lemma LocalMaps(w: World, x: World, lim: Limits, step: Step)
    requires IsLocal(step) && x == Do(lim, w, step)
    ensures forall j | j != step.k :: Ids(x.mem, j) == Ids(w.mem, j)
    ensures forall j | j != step.k :: Ids(x.disk, j) == Ids(w.disk, j)
    ensures forall j | j != step.k :: PhaseOf(x, j) == PhaseOf(w, j)
  {
    hide AppendMissing, Packets;
    match step {
      case AppendStep(_) =>
      case RecordStep(_, _) =>
      case FlushStep(_) =>
      case AbandonStep(_) =>
      case CrashStep(_) =>
      case TalkStep(_, _) =>
    }
  }

  lemma LocalIsLocal(w: World, x: World, lim: Limits, step: Step)
    requires IsLocal(step) && x == Do(lim, w, step)
    ensures x.t == w.t
    ensures forall j | j != step.k ::
      Ids(x.mem, j) == Ids(w.mem, j) && Ids(x.disk, j) == Ids(w.disk, j) && PhaseOf(x, j) == PhaseOf(w, j)
  {
    hide AppendMissing, Packets, PhaseOf;
    assert x.t == w.t;
    LocalMaps(w, x, lim, step);
    hide Do;
  }

  lemma LocalKeepsMail(w: World, x: World, lim: Limits, step: Step)
    requires MailOk(w) && IsLocal(step) && x == Do(lim, w, step)
    ensures MailOk(x)
  {
    MailEverywhere(w, step.k);
    LocalKeepsKey(w, x, lim, step);
    LocalIsLocal(w, x, lim, step);
    OneKeyKeepsMail(w, x, step.k);
  }

  lemma StepKeepsMail(lim: Limits, w: World, step: Step)
    requires MailOk(w) && Allowed(w, step)
    ensures MailOk(Do(lim, w, step))
  {
    var x := Do(lim, w, step);
    hide MailOk, Allowed;
    match step {
      case SendStep(_, _, _, _, _, _) => SendKeepsMail(w, x, lim, step);
      case WithdrawStep(k, mid, text, sender) => WithdrawKeepsMail(w, x, k, mid, text, sender);
      case StartStep(_, _, _, _, _) => StartKeepsMail(w, x, lim, step);
      case FinishStep(_, _, _, _) => FinishKeepsMail(w, x, lim, step);
      case DropStep(_) => DropKeepsMail(w, x, lim, step);
      case ReserveStep(_, _) => ReserveKeepsMail(w, x, lim, step);
      case AckStep(_) => AckKeepsMail(w, x, lim, step);
      case _ => LocalKeepsMail(w, x, lim, step);
    }
  }

  lemma {:induction false} RunKeepsMail(lim: Limits, steps: seq<Step>)
    requires AllowedRun(lim, steps)
    ensures MailOk(Run(lim, steps))
  {
    if steps == [] {
      assert forall k :: MailAt(EMPTY, k);
    } else {
      RunKeepsMail(lim, steps[..|steps| - 1]);
      StepKeepsMail(lim, Run(lim, steps[..|steps| - 1]), steps[|steps| - 1]);
    }
  }

  // ---- what it means ----

  /** The transcript of k on disk, after any run. */
  function Transcript(w: World, k: Key): seq<MsgId> {
    Ids(w.disk, k)
  }

  /** Exactly once, in order, only to the addressee, and never what was withdrawn or not yet handed over. */
  lemma ExactlyOnceInOrder(lim: Limits, steps: seq<Step>, k: Key)
    requires AllowedRun(lim, steps)
    ensures var w := Run(lim, steps); var disk := Transcript(w, k);
      && (forall i, j | 0 <= i < |disk| && 0 <= j < |disk| && disk[i].Mail? && disk[i] == disk[j] :: i == j)
      && (forall i, j, p: nat, q: nat | 0 <= i < j < |disk| && Names(w.t.mailbox, p, disk[i])
        && Names(w.t.mailbox, q, disk[j]) :: p < q)
      && (forall i, q: nat | 0 <= i < |disk| && Names(w.t.mailbox, q, disk[i]) ::
           Addressed(w.t.mailbox[q], k) && (w.t.mailbox[q].state == Delivering || w.t.mailbox[q].state == Delivered))
  {
    RunKeepsMail(lim, steps);
    var w := Run(lim, steps);
    assert MailAt(w, k);
    assert forall i | 0 <= i < |Ids(w.disk, k)| :: Ids(w.disk, k)[i] == Ids(w.mem, k)[i];
    hide PendingComesLater, LostOnlyWhenClosed, DeliveredOnDisk, PhaseOk, Run, AllowedRun;
  }

  /** Nothing marked delivered is missing from its recipient's transcript. */
  lemma DeliveredIsRecorded(lim: Limits, steps: seq<Step>, q: nat)
    requires AllowedRun(lim, steps)
    ensures var w := Run(lim, steps);
      q in w.t.mailbox && w.t.mailbox[q].state == Delivered ==>
        Packet(w.t.mailbox[q]) in Transcript(w, Key(w.t.mailbox[q].session, w.t.mailbox[q].recipient))
  {
    RunKeepsMail(lim, steps);
    var w := Run(lim, steps);
    if q in w.t.mailbox {
      assert MailAt(w, Key(w.t.mailbox[q].session, w.t.mailbox[q].recipient));
    }
  }

  // ---- a delivery nobody interrupts ----

  function Delivery(k: Key, attempt: string): seq<Step> {
    [ReserveStep(k, attempt), AppendStep(k), FlushStep(k), AckStep(k)]
  }

  ghost function DoAll(lim: Limits, w: World, steps: seq<Step>): World
    decreases |steps|
  {
    if steps == [] then w else DoAll(lim, Do(lim, w, steps[0]), steps[1..])
  }

  /** Reserving the rows and then acknowledging them. */
  lemma MarkTwice(mailbox: map<nat, Row>, mid: map<nat, Row>, after: map<nat, Row>, k: Key, rows: seq<nat>,
      hit: set<nat>)
    requires mid == Mark(mailbox, Elems(rows), Delivering)
    requires forall q | q in rows :: q in mailbox && Addressed(mailbox[q], k)
    requires hit == set q | q in rows && q in mid && Addressed(mid[q], k) && mid[q].state == Delivering
    requires after == Mark(mid, hit, Delivered)
    ensures after.Keys == mailbox.Keys
    ensures forall q | q in mailbox :: after[q] == if q in rows then mailbox[q].(state := Delivered) else mailbox[q]
  {
  }

  lemma AppendedIsReady(mailbox: map<nat, Row>, closed: set<string>, k: Key, mem: seq<MsgId>, disk: seq<MsgId>,
      rows: seq<nat>, attempt: string)
    requires KeyOk(mailbox, closed, k, mem, disk, Reserved(rows, attempt))
      || KeyOk(mailbox, closed, k, mem, disk, Flushed(rows, attempt))
    ensures forall i | 0 <= i < |rows| :: rows[i] in mailbox
    ensures KeyOk(mailbox, closed, k, mem, disk, Flushed(rows, attempt)) ==>
      forall i | 0 <= i < |rows| :: Packet(mailbox[rows[i]]) in disk
  {
  }

  /** It delivers exactly the rows it reserved, the oldest ones, and nothing else changes. */
  lemma DeliveryDelivers(lim: Limits, w: World, k: Key, attempt: string)
    requires MailOk(w) && PhaseOf(w, k) == Idle && MayDeliver(w.t, k, attempt) && ToClaim(w.t, k) != []
    ensures var x := DoAll(lim, w, Delivery(k, attempt)); var rows := ToClaim(w.t, k);
      && x.t.mailbox.Keys == w.t.mailbox.Keys
      && (forall q | q in w.t.mailbox ::
        x.t.mailbox[q] == if q in rows then w.t.mailbox[q].(state := Delivered) else w.t.mailbox[q])
      && (forall i | 0 <= i < |rows| :: rows[i] in w.t.mailbox && Packet(w.t.mailbox[rows[i]]) in Transcript(x, k))
  {
    DeliveryStages(lim, w, k, attempt);
    hide Do, MailOk, ToClaim, DoAll;
    DoFour(lim, w, ReserveStep(k, attempt), AppendStep(k), FlushStep(k), AckStep(k));
  }

  lemma DoFour(lim: Limits, w: World, a: Step, b: Step, c: Step, d: Step)
    ensures DoAll(lim, w, [a, b, c, d]) == Do(lim, Do(lim, Do(lim, Do(lim, w, a), b), c), d)
  {
    hide Do;
    var w1 := Do(lim, w, a);
    var w2 := Do(lim, w1, b);
    var w3 := Do(lim, w2, c);
    assert [a, b, c, d][1..] == [b, c, d] && [b, c, d][1..] == [c, d] && [c, d][1..] == [d] && [d][1..] == [];
    assert DoAll(lim, Do(lim, w3, d), []) == Do(lim, w3, d);
    assert DoAll(lim, w3, [d]) == Do(lim, w3, d);
    assert DoAll(lim, w2, [c, d]) == DoAll(lim, w3, [d]);
    assert DoAll(lim, w1, [b, c, d]) == DoAll(lim, w2, [c, d]);
  }

  lemma DeliveryStages(lim: Limits, w: World, k: Key, attempt: string)
    requires MailOk(w) && PhaseOf(w, k) == Idle && MayDeliver(w.t, k, attempt) && ToClaim(w.t, k) != []
    ensures var rows := ToClaim(w.t, k);
      var w4 := Do(lim, Do(lim, Do(lim, Do(lim, w, ReserveStep(k, attempt)), AppendStep(k)), FlushStep(k)), AckStep(k));
      && w4.t.mailbox.Keys == w.t.mailbox.Keys
      && (forall q | q in w.t.mailbox ::
        w4.t.mailbox[q] == if q in rows then w.t.mailbox[q].(state := Delivered) else w.t.mailbox[q])
      && (forall i | 0 <= i < |rows| :: rows[i] in w.t.mailbox && Packet(w.t.mailbox[rows[i]]) in Transcript(w4, k))
  {
    var rows := ToClaim(w.t, k);
    var w1 := Do(lim, w, ReserveStep(k, attempt));
    var w2 := Do(lim, w1, AppendStep(k));
    var w3 := Do(lim, w2, FlushStep(k));
    var w4 := Do(lim, w3, AckStep(k));
    hide Do;
    ReserveKeepsMail(w, w1, lim, ReserveStep(k, attempt));
    LocalKeepsMail(w1, w2, lim, AppendStep(k));
    LocalKeepsMail(w2, w3, lim, FlushStep(k));
    ReserveEffect(lim, w, w1, k, attempt, rows);
    AppendEffect(lim, w1, w2, w3, k, attempt, rows);
    ToClaimFacts(w.t, k);
    hide MailOk, ToClaim, AppendMissing, Mark, Elems;
    AckEffect(lim, w, w3, w4, k, attempt, rows);
    MarkFacts(w.t.mailbox, w1.t.mailbox, Elems(rows), Delivering);
    assert Transcript(w4, k) == Transcript(w3, k);
    forall i | 0 <= i < |rows| ensures rows[i] in w.t.mailbox && Packet(w.t.mailbox[rows[i]]) in Transcript(w4, k) {
      assert rows[i] in w1.t.mailbox && Packet(w1.t.mailbox[rows[i]]) == Packet(w.t.mailbox[rows[i]]);
    }
  }

  lemma ReserveEffect(lim: Limits, w: World, w1: World, k: Key, attempt: string, rows: seq<nat>)
    requires PhaseOf(w, k) == Idle && MayDeliver(w.t, k, attempt) && rows == ToClaim(w.t, k) && rows != []
    requires w1 == Do(lim, w, ReserveStep(k, attempt))
    ensures w1.t == w.t.(mailbox := Mark(w.t.mailbox, Elems(rows), Delivering))
      && PhaseOf(w1, k) == Reserved(rows, attempt)
  {
  }

  lemma AppendEffect(lim: Limits, w1: World, w2: World, w3: World, k: Key, attempt: string, rows: seq<nat>)
    requires MailOk(w1) && MailOk(w3) && PhaseOf(w1, k) == Reserved(rows, attempt)
    requires w2 == Do(lim, w1, AppendStep(k)) && w3 == Do(lim, w2, FlushStep(k))
    ensures w3.t == w1.t && PhaseOf(w3, k) == Flushed(rows, attempt)
    ensures forall i | 0 <= i < |rows| :: rows[i] in w1.t.mailbox && Packet(w1.t.mailbox[rows[i]]) in Transcript(w3, k)
  {
    assert MailAt(w1, k);
    hide KeyOk, MailOk;
    AppendedIsReady(w1.t.mailbox, w1.t.closed, k, Ids(w1.mem, k), Ids(w1.disk, k), rows, attempt);
    hide AppendMissing;
    assert w3.t == w1.t && PhaseOf(w3, k) == Flushed(rows, attempt);
    assert MailAt(w3, k) by { MailEverywhere(w3, k); }
    AppendedIsReady(w3.t.mailbox, w3.t.closed, k, Ids(w3.mem, k), Ids(w3.disk, k), rows, attempt);
  }

  lemma MailEverywhere(w: World, k: Key)
    requires MailOk(w)
    ensures MailAt(w, k)
  {
  }

  lemma AckEffect(lim: Limits, w: World, w3: World, w4: World, k: Key, attempt: string, rows: seq<nat>)
    requires MayDeliver(w.t, k, attempt) && w3.t == w.t.(mailbox := Mark(w.t.mailbox, Elems(rows), Delivering))
    requires PhaseOf(w3, k) == Flushed(rows, attempt) && w4 == Do(lim, w3, AckStep(k))
    requires forall i | 0 <= i < |rows| :: rows[i] in w.t.mailbox && Addressed(w.t.mailbox[rows[i]], k)
    ensures w4.disk == w3.disk && w4.t.mailbox.Keys == w.t.mailbox.Keys
    ensures forall q | q in w.t.mailbox ::
      w4.t.mailbox[q] == if q in rows then w.t.mailbox[q].(state := Delivered) else w.t.mailbox[q]
  {
    MayDeliverSame(w.t, w3.t, k, attempt);
    hide Mark, Elems, MayDeliver;
    var hit := set q | q in rows && q in w3.t.mailbox && Addressed(w3.t.mailbox[q], k)
      && w3.t.mailbox[q].state == Delivering;
    assert w4.t.mailbox == Mark(w3.t.mailbox, hit, Delivered);
    hide Do;
    MarkTwice(w.t.mailbox, w3.t.mailbox, w4.t.mailbox, k, rows, hit);
  }

  lemma MayDeliverSame(t: Tables, u: Tables, k: Key, attempt: string)
    requires MayDeliver(t, k, attempt) && u.closed == t.closed && u.agents == t.agents
    ensures MayDeliver(u, k, attempt)
  {
  }
}
