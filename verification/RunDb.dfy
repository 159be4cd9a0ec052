/**
 * The run store and the mailbox as an object whose tables are updated in place, and a delivery as
 * the code performs it: reserve, append what is missing, flush, acknowledge.
 */
module RunDb {
  import opened Options
  import opened Collections
  import opened RunStore
  import opened Runtime
  import opened RunRecovery
  import opened MailSafety
  import opened MailRules
  import opened RunAdmission

  /** A conversation: the messages in memory and the transcript on disk. */
  class Conversation {
    var items: seq<MsgId>
    var disk: seq<MsgId>

    constructor (disk: seq<MsgId>)
      ensures items == disk && this.disk == disk
    {
      items, this.disk := disk, disk;
    }

    /** Appends the packets whose id is not there yet. */
    method Append(packets: seq<MsgId>)
      modifies this`items
      ensures items == AppendMissing(old(items), packets)
    {
      var present := set m | m in items;
      for i := 0 to |packets|
        invariant forall m :: m in present <==> m in items
        invariant AppendMissing(items, packets[i..]) == AppendMissing(old(items), packets)
      {
        assert packets[i..][0] == packets[i] && packets[i..][1..] == packets[i + 1..];
        if packets[i] !in present {
          items := items + [packets[i]];
          present := present + {packets[i]};
        }
      }
    }
  }

  class Db {
    var agents: map<Key, AgentRow>
    var attempts: map<string, AttemptRow>
    var mailbox: map<nat, Row>
    var next: nat
    var closed: set<string>

    ghost function View(): Tables
      reads this
    {
      Tables(agents, attempts, mailbox, next, closed)
    }

    constructor ()
      ensures View() == EMPTY.t
    {
      agents, attempts, mailbox, next, closed := map[], map[], map[], 0, {};
    }

    /** The pending rows of k, oldest first. */
    method PendingRows(k: Key) returns (rows: seq<nat>)
      ensures rows == Pending(View(), k)
    {
      rows := [];
      for q := 0 to next
        invariant rows == PendingBelow(mailbox, k, q)
      {
        if q in mailbox && IsPending(mailbox[q]) && Addressed(mailbox[q], k) {
          rows := rows + [q];
        }
      }
    }

    method Insert(row: Row) returns (ok: bool)
      modifies this`mailbox, this`next
      ensures var o := old(InsertMessage(View(), row)); ok == o.Some? && View() == if ok then o.value else old(View())
    {
      var prior := FindBelow(mailbox, row.session, row.sender, row.mid, next);
      if prior.Some? {
        var p := mailbox[prior.value];
        return p.recipient == row.recipient && p.text == row.text && p.kind == row.kind;
      }
      var pending := PendingRows(Key(row.session, row.recipient));
      if row.kind != Completion && |pending| >= MAILBOX_CAPACITY {
        return false;
      }
      mailbox, next := mailbox[next := row], next + 1;
      return true;
    }

    method SendMessage(to: Key, sender: string, text: string, mid: string, expected: string, senderAttempt: string)
        returns (ok: bool)
      modifies this`mailbox, this`next
      ensures var o := old(Send(View(), to, sender, text, mid, expected, senderAttempt));
        ok == o.Some? && View() == if ok then o.value else old(View())
    {
      if to.session in closed {
        return false;
      }
      if sender != PARENT {
        var from := Key(to.session, sender);
        if from !in agents {
          return false;
        }
        if senderAttempt != "" && (agents[from].attempt != senderAttempt || !IsActive(agents[from].state)) {
          return false;
        }
      }
      if to.name != PARENT && to !in agents {
        return false;
      }
      var attempt := if to.name == PARENT then "" else agents[to].attempt;
      if expected != "" && expected != attempt {
        return false;
      }
      ok := Insert(Row(to.session, to.name, sender, mid, text, Message, attempt, Queued));
    }

    /** None when the caller does not own deliveries to k. */
    method Claim(k: Key, attempt: string) returns (rows: Option<seq<nat>>)
      modifies this`mailbox
      ensures rows.Some? == MayDeliver(old(View()), k, attempt)
      ensures rows.Some? ==>
        rows.value == ToClaim(old(View()), k) && Some(View()) == ClaimMessages(old(View()), k, attempt)
      ensures rows.None? ==> View() == old(View())
      ensures rows.Some? <==> Receives(old(View()), k, attempt)
      ensures RowsOk(old(mailbox), next) && rows.Some? ==>
        var unread := Unread(old(mailbox), k);
        |rows.value| == (if |unread| <= 32 then |unread| else 32) && forall q | q in rows.value :: q in unread
    {
      if RowsOk(mailbox, next) {
        TakesTheOldest(View(), k);
      }
      hide Unread, RowsOk, Mark;
      if k.session in closed {
        return None;
      }
      if k.name != PARENT && (k !in agents || agents[k].attempt != attempt || !IsActive(agents[k].state)) {
        return None;
      }
      var all := PendingRows(k);
      var found := if |all| <= CLAIM_LIMIT then all else all[..CLAIM_LIMIT];
      for i := 0 to |found|
        modifies this`mailbox
        invariant mailbox == Mark(old(mailbox), Elems(found[..i]), Delivering)
      {
        MarkOne(old(mailbox), found, i, Delivering);
        mailbox := mailbox[found[i] := mailbox[found[i]].(state := Delivering)];
      }
      assert found[..|found|] == found;
      return Some(found);
    }

    method Ack(k: Key, seqs: seq<nat>, attempt: string) returns (ok: bool)
      modifies this`mailbox
      ensures var o := old(Acknowledge(View(), k, seqs, attempt));
        ok == o.Some? && View() == if ok then o.value else old(View())
    {
      if k.session in closed {
        return false;
      }
      if k.name != PARENT && (k !in agents || agents[k].attempt != attempt || !IsActive(agents[k].state)) {
        return false;
      }
      for i := 0 to |seqs|
        modifies this`mailbox
        invariant mailbox == Mark(old(mailbox), Hit(old(mailbox), k, seqs[..i]), Delivered)
      {
        var q := seqs[i];
        assert seqs[..i + 1] == seqs[..i] + [q];
        if q in mailbox && Addressed(mailbox[q], k) && mailbox[q].state == Delivering {
          mailbox := mailbox[q := mailbox[q].(state := Delivered)];
        }
      }
      assert seqs[..|seqs|] == seqs;
      return true;
    }

    method Remove(k: Key, mid: string, text: string, sender: string) returns (removed: bool)
      modifies this`mailbox
      ensures View() == RemoveMessage(old(View()), k, mid, text, sender)
      ensures removed == FirstWithdrawable(old(mailbox), k, mid, text, sender, 0, next).Some?
    {
      var row := FirstWithdrawable(mailbox, k, mid, text, sender, 0, next);
      if row.None? {
        return false;
      }
      mailbox := mailbox[row.value := mailbox[row.value].(state := Withdrawn)];
      return true;
    }

    /** None when the transaction was rolled back. */
    method Settle(k: Key, attempt: string, final: RunState, text: string) returns (r: Option<bool>)
      requires IsTerminal(final)
      modifies this`agents, this`attempts, this`mailbox, this`next
      ensures var o := old(Finish(View(), k, attempt, final, text));
        if o.None? then r == None && View() == old(View()) else r == Some(o.value.1) && View() == o.value.0
    {
      if k !in agents || agents[k].attempt != attempt || !IsActive(agents[k].state) {
        return Some(false);
      }
      var before, rows := agents, attempts;
      agents := agents[k := agents[k].(state := final)];
      if attempt in attempts {
        attempts := attempts[attempt := attempts[attempt].(state := final)];
      }
      var ok := Insert(CompletionRow(k, attempt, text));
      if !ok {
        agents, attempts := before, rows;
        return None;
      }
      return Some(true);
    }

    /** One listed agent; false when its settlement was rolled back. */
    method RecoverOne(k: Key, attempt: string, gone: set<Key>, notice: Notice) returns (ok: bool)
      modifies this`agents, this`attempts, this`mailbox, this`next
      ensures var o := RecoverRow(old(View()), k, attempt, gone, notice);
        ok == o.Some? && View() == if ok then o.value else old(View())
    {
      if k !in gone || k !in agents || agents[k].attempt != attempt || !IsActive(agents[k].state) {
        return true;
      }
      var r := Settle(k, attempt, Interrupted, notice(k, attempt));
      return r.Some?;
    }

    /** The agents listed as active, one after the other; the listing may be out of date. The first
        settlement that raises ends the recovery. */
    method Recover(listed: seq<(Key, string)>, gone: set<Key>, notice: Notice) returns (ok: bool)
      modifies this`agents, this`attempts, this`mailbox, this`next
      ensures (View(), ok) == RecoverTables(old(View()), listed, gone, notice)
    {
      for i := 0 to |listed|
        modifies this`agents, this`attempts, this`mailbox, this`next
        invariant RecoverTables(View(), listed[i..], gone, notice) == RecoverTables(old(View()), listed, gone, notice)
      {
        hide RecoverRow;
        assert listed[i..][0] == listed[i] && listed[i..][1..] == listed[i + 1..];
        var settled := RecoverOne(listed[i].0, listed[i].1, gone, notice);
        if !settled {
          return false;
        }
      }
      return true;
    }

    /** Recovers first and then admits an attempt; nobody is admitted when the recovery raises. */
    method StartAttempt(k: Key, fixed: string, scope: seq<string>, attempt: string, fence: Option<string>,
        sessionLimit: nat, totalLimit: nat, listed: seq<(Key, string)>, gone: set<Key>, notice: Notice)
      returns (admitted: bool)
      modifies this`agents, this`attempts, this`mailbox, this`next
      ensures !ValidAgent(k) ==> !admitted && View() == old(View())
      ensures ValidAgent(k) ==>
        var (t, through) := RecoverTables(old(View()), listed, gone, notice);
        var o := Start(t, k, fixed, scope, attempt, fence, sessionLimit, totalLimit);
        admitted == (through && o.Some?) && View() == if admitted then o.value else t
    {
      if !ValidAgent(k) {
        return false;
      }
      var ok := Recover(listed, gone, notice);
      if !ok {
        return false;
      }
      admitted := Admit(k, fixed, scope, attempt, fence, sessionLimit, totalLimit);
    }

    /** The admitting transaction. */
    method Admit(k: Key, fixed: string, scope: seq<string>, attempt: string, fence: Option<string>,
        sessionLimit: nat, totalLimit: nat)
      returns (ok: bool)
      requires ValidAgent(k)
      modifies this`agents, this`attempts, this`mailbox
      ensures var o := old(Start(View(), k, fixed, scope, attempt, fence, sessionLimit, totalLimit));
        ok == o.Some? && View() == if ok then o.value else old(View())
      ensures ok <==> Admissible(old(View()), k, fixed, scope, fence, sessionLimit, totalLimit)
    {
      StartIff(View(), k, fixed, scope, attempt, fence, sessionLimit, totalLimit);
      hide Overlaps, Admissible;
      if k.session in closed {
        return false;
      }
      var active := ActiveAgents(Tables(agents, attempts, mailbox, next, closed));
      if |active| >= totalLimit || |set o | o in active && o.session == k.session| >= sessionLimit {
        return false;
      }
      if exists o | o in active :: Overlaps(scope, agents[o].scope) {
        return false;
      }
      if fence.Some? && fence.value != (if k in agents then agents[k].attempt else "") {
        return false;
      }
      if k in agents && agents[k].fixed != fixed {
        return false;
      }
      agents := agents[k := AgentRow(attempt, Running, fixed, scope)];
      attempts := attempts[attempt := AttemptRow(k.session, k.name, Running)];
      mailbox := Retarget(mailbox, k, attempt);
      return true;
    }

    /** Recovers and deletes a session; nothing is deleted when the recovery raises. */
    method DeleteSession(session: string, listed: seq<(Key, string)>, gone: set<Key>, notice: Notice)
      returns (deleted: bool)
      modifies this
      ensures var (t, through) := RecoverTables(old(View()), listed, gone, notice); var o := DropSession(t, session);
        deleted == (through && o.Some?) && View() == if deleted then o.value else t
    {
      var ok := Recover(listed, gone, notice);
      if !ok {
        return false;
      }
      var t := Tables(agents, attempts, mailbox, next, closed);
      if ActiveIn(t, session) != {} {
        return false;
      }
      agents := map k | k in agents && k.session != session :: agents[k];
      attempts := map a | a in attempts && attempts[a].session != session :: attempts[a];
      mailbox := map q | q in mailbox && mailbox[q].session != session :: mailbox[q];
      closed := closed + {session};
      return true;
    }

    /** Delivers the oldest pending messages of k into its conversation; the caller holds k's delivery lease. */
    method DeliverOwned(c: Conversation, k: Key, attempt: string) returns (delivered: Option<nat>)
      modifies this`mailbox, c
      ensures delivered.Some? == MayDeliver(old(View()), k, attempt)
      ensures delivered.None? ==> View() == old(View()) && c.items == old(c.items) && c.disk == old(c.disk)
      ensures delivered.Some? ==> delivered.value == |ToClaim(old(View()), k)|
      ensures delivered == Some(0) ==> c.items == old(c.items) && c.disk == old(c.disk) && View() == old(View())
      ensures delivered.Some? && delivered.value > 0 ==>
        var reserved := ClaimMessages(old(View()), k, attempt); var rows := ToClaim(old(View()), k);
        && reserved.Some? && (forall i | 0 <= i < |rows| :: rows[i] in reserved.value.mailbox)
        && c.items == AppendMissing(old(c.items), Packets(reserved.value.mailbox, rows)) && c.disk == c.items
        && Some(View()) == Acknowledge(reserved.value, k, rows, attempt)
    {
      var claimed := Claim(k, attempt);
      if claimed.None? {
        return None;
      }
      var rows := claimed.value;
      if rows == [] {
        NothingToMark(old(mailbox));
        return Some(0);
      }
      assert forall i | 0 <= i < |rows| :: rows[i] in mailbox;
      c.Append(Packets(mailbox, rows));
      c.disk := c.items;
      var ok := Ack(k, rows, attempt);
      return Some(|rows|);
    }
  }

  function Hit(mailbox: map<nat, Row>, k: Key, seqs: seq<nat>): set<nat> {
    set q | q in seqs && q in mailbox && Addressed(mailbox[q], k) && mailbox[q].state == Delivering
  }

  lemma MarkOne(mailbox: map<nat, Row>, seqs: seq<nat>, i: nat, s: RowState)
    requires i < |seqs| && seqs[i] in mailbox
    ensures var m := Mark(mailbox, Elems(seqs[..i]), s);
      Mark(mailbox, Elems(seqs[..i + 1]), s) == m[seqs[i] := m[seqs[i]].(state := s)]
  {
  }

  lemma NothingToMark(mailbox: map<nat, Row>)
    ensures Mark(mailbox, Elems([]), Delivering) == mailbox
  {
  }
}
