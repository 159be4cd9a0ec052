/**
 * Exactly-once delivery: in every run, whatever the interleaving of sends, withdrawals, deliveries,
 * new attempts, deletions and crashes, a transcript holds each mailbox packet at most once and in
 * seq order, holds every delivered one and no withdrawn one.
 */
module MailSafety {
  import opened Collections
  import opened RunStore
  import opened Runtime

  // ---- the invariant, one recipient at a time ----

  /** Identities are unique and seqs come from the counter. */
  ghost predicate RowsOk(mailbox: map<nat, Row>, next: nat) {
    && (forall q | q in mailbox :: q < next)
    && (forall p, q | p in mailbox && q in mailbox && Packet(mailbox[p]) == Packet(mailbox[q]) :: p == q)
  }

  /** Row q is the row of message m. */
  ghost predicate Names(mailbox: map<nat, Row>, q: nat, m: MsgId) {
    q in mailbox && Packet(mailbox[q]) == m
  }

  ghost predicate OnceEach(mem: seq<MsgId>) {
    forall i, j | 0 <= i < j < |mem| && mem[i].Mail? :: mem[i] != mem[j]
  }

  /** Only rows handed to a delivery of k are in k's conversation. */
  ghost predicate OnlyHandedOver(mailbox: map<nat, Row>, k: Key, mem: seq<MsgId>) {
    forall i, q | 0 <= i < |mem| && Names(mailbox, q, mem[i]) ::
      Addressed(mailbox[q], k) && (mailbox[q].state == Delivering || mailbox[q].state == Delivered)
  }

  ghost predicate InOrder(mailbox: map<nat, Row>, mem: seq<MsgId>) {
    forall i, j, p: nat, q: nat | 0 <= i < j < |mem| && Names(mailbox, p, mem[i]) && Names(mailbox, q, mem[j]) :: p < q
  }

  ghost predicate DeliveredOnDisk(mailbox: map<nat, Row>, k: Key, disk: seq<MsgId>) {
    forall q | q in mailbox && Addressed(mailbox[q], k) && mailbox[q].state == Delivered :: Packet(mailbox[q]) in disk
  }

  /** What is still to come has a larger seq than everything in memory. */
  ghost predicate PendingComesLater(mailbox: map<nat, Row>, k: Key, mem: seq<MsgId>) {
    forall i, p: nat, q: nat | 0 <= i < |mem| && Names(mailbox, p, mem[i])
      && q in mailbox && IsPending(mailbox[q]) && Addressed(mailbox[q], k) && Packet(mailbox[q]) !in mem :: p < q
  }

  /** A packet without a row belongs to a deleted session. */
  ghost predicate LostOnlyWhenClosed(mailbox: map<nat, Row>, closed: set<string>, k: Key, mem: seq<MsgId>) {
    forall i | 0 <= i < |mem| && mem[i].Mail? ::
      mem[i].session == k.session && (k.session in closed || exists q :: Names(mailbox, q, mem[i]))
  }

  /** The rows a delivery has reserved are the oldest pending ones. */
  ghost predicate ReservedRows(mailbox: map<nat, Row>, k: Key, rows: seq<nat>) {
    && (forall i | 0 <= i < |rows| ::
      rows[i] in mailbox && Addressed(mailbox[rows[i]], k) && mailbox[rows[i]].state == Delivering)
    && (forall i, j | 0 <= i < j < |rows| :: rows[i] < rows[j])
    && (forall i, q | 0 <= i < |rows| && q in mailbox && IsPending(mailbox[q]) && Addressed(mailbox[q], k)
      && q !in rows :: rows[i] < q)
  }

  ghost predicate PhaseOk(mailbox: map<nat, Row>, k: Key, mem: seq<MsgId>, disk: seq<MsgId>, ph: Phase) {
    match ph
    case Idle => true
    case Reserved(rows, attempt) => ReservedRows(mailbox, k, rows)
    case Appended(rows, attempt) =>
      ReservedRows(mailbox, k, rows) && forall i | 0 <= i < |rows| :: Packet(mailbox[rows[i]]) in mem
    case Flushed(rows, attempt) =>
      ReservedRows(mailbox, k, rows) && forall i | 0 <= i < |rows| :: Packet(mailbox[rows[i]]) in disk
  }

  ghost predicate KeyOk(mailbox: map<nat, Row>, closed: set<string>, k: Key, mem: seq<MsgId>, disk: seq<MsgId>,
      ph: Phase) {
    && disk <= mem && OnceEach(mem) && OnlyHandedOver(mailbox, k, mem) && InOrder(mailbox, mem)
    && DeliveredOnDisk(mailbox, k, disk) && PendingComesLater(mailbox, k, mem)
    && LostOnlyWhenClosed(mailbox, closed, k, mem) && PhaseOk(mailbox, k, mem, disk, ph)
  }

  /** Open sessions only in the agents table. */
  ghost predicate AgentsOpen(t: Tables) {
    forall k | k in t.agents :: k.session !in t.closed
  }

  ghost predicate MailAt(w: World, k: Key) {
    KeyOk(w.t.mailbox, w.t.closed, k, Ids(w.mem, k), Ids(w.disk, k), PhaseOf(w, k))
  }

  ghost predicate MailOk(w: World) {
    && RowsOk(w.t.mailbox, w.t.next) && AgentsOpen(w.t)
    && forall k :: MailAt(w, k)
  }

  // ---- steps that change rows: what one recipient sees ----

  lemma NewIsNotInMemory(mailbox: map<nat, Row>, closed: set<string>, row: Row, k: Key, mem: seq<MsgId>)
    requires LostOnlyWhenClosed(mailbox, closed, k, mem)
    requires row.session !in closed && forall q :: !Names(mailbox, q, Packet(row))
    ensures Packet(row) !in mem
  {
  }

  lemma InsertSameNames(mailbox: map<nat, Row>, after: map<nat, Row>, next: nat, row: Row, mem: seq<MsgId>)
    requires RowsOk(mailbox, next) && Packet(row) !in mem && after == mailbox[next := row]
    ensures forall i, q | 0 <= i < |mem| :: Names(after, q, mem[i]) <==> Names(mailbox, q, mem[i])
  {
  }

  lemma InsertPhaseOk(mailbox: map<nat, Row>, after: map<nat, Row>, next: nat, row: Row, k: Key, mem: seq<MsgId>,
      disk: seq<MsgId>, ph: Phase)
    requires RowsOk(mailbox, next) && PhaseOk(mailbox, k, mem, disk, ph)
    requires after == mailbox[next := row]
    ensures PhaseOk(after, k, mem, disk, ph)
  {
  }

  /** A new row, queued at the end, in an open session. */
  lemma InsertKeyOk(mailbox: map<nat, Row>, after: map<nat, Row>, next: nat, closed: set<string>, row: Row, k: Key,
      mem: seq<MsgId>, disk: seq<MsgId>, ph: Phase)
    requires RowsOk(mailbox, next) && KeyOk(mailbox, closed, k, mem, disk, ph)
    requires row.state == Queued && row.session !in closed && forall q :: !Names(mailbox, q, Packet(row))
    requires after == mailbox[next := row]
    ensures KeyOk(after, closed, k, mem, disk, ph)
  {
    NewIsNotInMemory(mailbox, closed, row, k, mem);
    InsertSameNames(mailbox, after, next, row, mem);
    InsertPhaseOk(mailbox, after, next, row, k, mem, disk, ph);
    hide PhaseOk, OnceEach;
    InsertPendingOk(mailbox, after, next, row, k, mem);
    InsertKnownOk(mailbox, after, next, closed, k, mem);
    hide PendingComesLater, LostOnlyWhenClosed;
    forall i, q: nat | 0 <= i < |mem| && Names(after, q, mem[i])
      ensures Addressed(after[q], k) && (after[q].state == Delivering || after[q].state == Delivered)
    {
      assert Names(mailbox, q, mem[i]) && after[q] == mailbox[q];
    }
  }

  lemma InsertKnownOk(mailbox: map<nat, Row>, after: map<nat, Row>, next: nat, closed: set<string>, k: Key,
      mem: seq<MsgId>)
    requires RowsOk(mailbox, next) && LostOnlyWhenClosed(mailbox, closed, k, mem)
    requires forall q | q in mailbox :: q in after && after[q] == mailbox[q]
    ensures LostOnlyWhenClosed(after, closed, k, mem)
  {
    forall i | 0 <= i < |mem| && mem[i].Mail?
      ensures mem[i].session == k.session && (k.session in closed || exists q :: Names(after, q, mem[i]))
    {
      if k.session !in closed {
        var q :| Names(mailbox, q, mem[i]);
        assert Names(after, q, mem[i]);
      }
    }
  }

  lemma InsertPendingOk(mailbox: map<nat, Row>, after: map<nat, Row>, next: nat, row: Row, k: Key, mem: seq<MsgId>)
    requires RowsOk(mailbox, next) && PendingComesLater(mailbox, k, mem) && Packet(row) !in mem
    requires after == mailbox[next := row]
    ensures PendingComesLater(after, k, mem)
  {
    InsertSameNames(mailbox, after, next, row, mem);
    forall i, p: nat, q: nat | 0 <= i < |mem| && Names(after, p, mem[i])
      && q in after && IsPending(after[q]) && Addressed(after[q], k) && Packet(after[q]) !in mem
      ensures p < q
    {
      assert Names(mailbox, p, mem[i]);
      assert p < next;
      if q != next {
        assert after[q] == mailbox[q];
      }
    }
  }

  /** Rows keep their identity, and the rows of k keep their state unless a queued one is withdrawn. */
  ghost predicate Restated(mailbox: map<nat, Row>, after: map<nat, Row>, k: Key) {
    && after.Keys == mailbox.Keys
    && (forall q | q in mailbox ::
      Packet(after[q]) == Packet(mailbox[q]) && (Addressed(after[q], k) <==> Addressed(mailbox[q], k)))
    && (forall q | q in mailbox && Addressed(mailbox[q], k) ::
         after[q].state == mailbox[q].state || (mailbox[q].state == Queued && after[q].state == Withdrawn))
  }

  lemma RestateRowsOk(mailbox: map<nat, Row>, after: map<nat, Row>, next: nat)
    requires RowsOk(mailbox, next) && after.Keys == mailbox.Keys
    requires forall q | q in mailbox :: Packet(after[q]) == Packet(mailbox[q])
    ensures RowsOk(after, next)
  {
  }

  lemma RestateKeyOk(mailbox: map<nat, Row>, after: map<nat, Row>, closed: set<string>, k: Key, mem: seq<MsgId>,
      disk: seq<MsgId>, ph: Phase)
    requires KeyOk(mailbox, closed, k, mem, disk, ph) && Restated(mailbox, after, k)
    ensures KeyOk(after, closed, k, mem, disk, ph)
  {
    assert forall q: nat, m: MsgId :: Names(after, q, m) <==> Names(mailbox, q, m);
    RestatePhaseOk(mailbox, after, k, mem, disk, ph);
    RestatePendingOk(mailbox, after, k, mem);
    RestateHandedOk(mailbox, after, k, mem);
    hide PhaseOk, OnceEach, PendingComesLater, OnlyHandedOver;
    assert InOrder(after, mem);
    forall i | 0 <= i < |mem| && mem[i].Mail?
      ensures mem[i].session == k.session && (k.session in closed || exists q :: Names(after, q, mem[i]))
    {
      if k.session !in closed {
        var q :| Names(mailbox, q, mem[i]);
        assert Names(after, q, mem[i]);
      }
    }
  }

  lemma RestateHandedOk(mailbox: map<nat, Row>, after: map<nat, Row>, k: Key, mem: seq<MsgId>)
    requires OnlyHandedOver(mailbox, k, mem) && Restated(mailbox, after, k)
    ensures OnlyHandedOver(after, k, mem)
  {
  }

  lemma RestatePendingOk(mailbox: map<nat, Row>, after: map<nat, Row>, k: Key, mem: seq<MsgId>)
    requires PendingComesLater(mailbox, k, mem) && Restated(mailbox, after, k)
    ensures PendingComesLater(after, k, mem)
  {
    forall i, p: nat, q: nat | 0 <= i < |mem| && Names(after, p, mem[i])
      && q in after && IsPending(after[q]) && Addressed(after[q], k) && Packet(after[q]) !in mem
      ensures p < q
    {
      assert Names(mailbox, p, mem[i]);
      assert q in mailbox && IsPending(mailbox[q]) && Addressed(mailbox[q], k) && Packet(mailbox[q]) !in mem;
    }
  }

  lemma RestatePhaseOk(mailbox: map<nat, Row>, after: map<nat, Row>, k: Key, mem: seq<MsgId>, disk: seq<MsgId>,
      ph: Phase)
    requires PhaseOk(mailbox, k, mem, disk, ph) && Restated(mailbox, after, k)
    ensures PhaseOk(after, k, mem, disk, ph)
  {
    if ph != Idle {
      RestateReserved(mailbox, after, k, ph.rows);
    }
  }

  lemma RestateReserved(mailbox: map<nat, Row>, after: map<nat, Row>, k: Key, rows: seq<nat>)
    requires ReservedRows(mailbox, k, rows) && Restated(mailbox, after, k)
    ensures ReservedRows(after, k, rows)
  {
    forall i, q: nat | 0 <= i < |rows| && q in after && IsPending(after[q]) && Addressed(after[q], k) && q !in rows
      ensures rows[i] < q
    {
      assert q in mailbox && IsPending(mailbox[q]) && Addressed(mailbox[q], k);
    }
  }

  /** Reserving the oldest pending rows of k. */
  lemma ReserveKeyOk(t: Tables, after: map<nat, Row>, k: Key, mem: seq<MsgId>, disk: seq<MsgId>, attempt: string)
    requires RowsOk(t.mailbox, t.next) && KeyOk(t.mailbox, t.closed, k, mem, disk, Idle)
    requires after == Mark(t.mailbox, Elems(ToClaim(t, k)), Delivering)
    ensures KeyOk(after, t.closed, k, mem, disk, Reserved(ToClaim(t, k), attempt))
  {
    var rows := ToClaim(t, k);
    ToClaimFacts(t, k);
    MarkFacts(t.mailbox, after, Elems(rows), Delivering);
    hide Mark, ToClaim, Elems;
    ReserveReserved(t, after, k, rows);
    ReserveRest(t.mailbox, after, k, t.closed, mem, disk, rows);
  }

  lemma MarkFacts(mailbox: map<nat, Row>, after: map<nat, Row>, hit: set<nat>, s: RowState)
    requires after == Mark(mailbox, hit, s)
    ensures after.Keys == mailbox.Keys
    ensures forall q | q in mailbox ::
      Packet(after[q]) == Packet(mailbox[q]) && after[q].recipient == mailbox[q].recipient
      && after[q].state == if q in hit then s else mailbox[q].state
  {
  }

  lemma ToClaimFacts(t: Tables, k: Key)
    requires RowsOk(t.mailbox, t.next)
    ensures var rows := ToClaim(t, k);
      && (forall i | 0 <= i < |rows| ::
        rows[i] in t.mailbox && IsPending(t.mailbox[rows[i]]) && Addressed(t.mailbox[rows[i]], k))
      && (forall i, j | 0 <= i < j < |rows| :: rows[i] < rows[j])
      && (forall i, q | 0 <= i < |rows| && q in t.mailbox && IsPending(t.mailbox[q]) && Addressed(t.mailbox[q], k)
        && q !in rows :: rows[i] < q)
      && (forall q | q in Elems(rows) :: q in rows) && (forall i | 0 <= i < |rows| :: rows[i] in Elems(rows))
  {
  }

  lemma ReserveReserved(t: Tables, after: map<nat, Row>, k: Key, rows: seq<nat>)
    requires after.Keys == t.mailbox.Keys
    requires forall q | q in t.mailbox ::
      Packet(after[q]) == Packet(t.mailbox[q]) && after[q].recipient == t.mailbox[q].recipient
      && after[q].state == if q in rows then Delivering else t.mailbox[q].state
    requires forall i | 0 <= i < |rows| :: rows[i] in t.mailbox && Addressed(t.mailbox[rows[i]], k)
    requires forall i, j | 0 <= i < j < |rows| :: rows[i] < rows[j]
    requires forall i, q | 0 <= i < |rows| && q in t.mailbox && IsPending(t.mailbox[q]) && Addressed(t.mailbox[q], k)
      && q !in rows :: rows[i] < q
    ensures ReservedRows(after, k, rows)
  {
  }

  lemma ReserveRest(mailbox: map<nat, Row>, after: map<nat, Row>, k: Key, closed: set<string>, mem: seq<MsgId>,
      disk: seq<MsgId>, rows: seq<nat>)
    requires KeyOk(mailbox, closed, k, mem, disk, Idle) && after.Keys == mailbox.Keys
    requires forall q | q in mailbox ::
      Packet(after[q]) == Packet(mailbox[q]) && after[q].recipient == mailbox[q].recipient
      && after[q].state == if q in rows then Delivering else mailbox[q].state
    requires forall i | 0 <= i < |rows| :: rows[i] in mailbox && IsPending(mailbox[rows[i]])
    ensures KeyOk(after, closed, k, mem, disk, Idle)
  {
    assert forall q: nat, m: MsgId :: Names(after, q, m) <==> Names(mailbox, q, m);
    assert forall q | q in mailbox :: IsPending(after[q]) <==> IsPending(mailbox[q]);
    assert forall q | q in mailbox :: after[q].state == Delivered <==> mailbox[q].state == Delivered;
    ReservePendingOk(mailbox, after, k, mem);
    hide PendingComesLater, OnceEach;
    forall i, q: nat | 0 <= i < |mem| && Names(after, q, mem[i])
      ensures Addressed(after[q], k) && (after[q].state == Delivering || after[q].state == Delivered)
    {
      assert Names(mailbox, q, mem[i]);
    }
    hide OnlyHandedOver;
    forall i | 0 <= i < |mem| && mem[i].Mail?
      ensures mem[i].session == k.session && (k.session in closed || exists q :: Names(after, q, mem[i]))
    {
      if k.session !in closed {
        var q :| Names(mailbox, q, mem[i]);
        assert Names(after, q, mem[i]);
      }
    }
  }

  lemma ReservePendingOk(mailbox: map<nat, Row>, after: map<nat, Row>, k: Key, mem: seq<MsgId>)
    requires PendingComesLater(mailbox, k, mem) && after.Keys == mailbox.Keys
    requires forall q | q in mailbox ::
      Packet(after[q]) == Packet(mailbox[q]) && after[q].recipient == mailbox[q].recipient
      && (IsPending(after[q]) <==> IsPending(mailbox[q]))
    ensures PendingComesLater(after, k, mem)
  {
    forall i, p: nat, q: nat | 0 <= i < |mem| && Names(after, p, mem[i])
      && q in after && IsPending(after[q]) && Addressed(after[q], k) && Packet(after[q]) !in mem
      ensures p < q
    {
      assert Names(mailbox, p, mem[i]);
      assert IsPending(mailbox[q]) && Addressed(mailbox[q], k);
    }
  }

  /** Acknowledging what a delivery has flushed. */
  lemma AckKeyOk(mailbox: map<nat, Row>, after: map<nat, Row>, k: Key, closed: set<string>, mem: seq<MsgId>,
      disk: seq<MsgId>,
                 rows: seq<nat>, attempt: string, hit: set<nat>)
    requires KeyOk(mailbox, closed, k, mem, disk, Flushed(rows, attempt))
    requires hit == set q | q in rows && q in mailbox && Addressed(mailbox[q], k) && mailbox[q].state == Delivering
    requires after == Mark(mailbox, hit, Delivered)
    ensures KeyOk(after, closed, k, mem, disk, Idle)
  {
    MarkFacts(mailbox, after, hit, Delivered);
    hide Mark;
    assert forall q | q in hit :: q in rows;
    assert forall i | 0 <= i < |rows| :: rows[i] in hit;
    assert forall q | q in hit :: Packet(mailbox[q]) in disk;
    hide ReservedRows;
    AckRest(mailbox, after, k, closed, mem, disk, hit);
  }

  lemma AckRest(mailbox: map<nat, Row>, after: map<nat, Row>, k: Key, closed: set<string>, mem: seq<MsgId>,
      disk: seq<MsgId>, hit: set<nat>)
    requires KeyOk(mailbox, closed, k, mem, disk, Idle) && after.Keys == mailbox.Keys
    requires forall q | q in mailbox ::
      Packet(after[q]) == Packet(mailbox[q]) && after[q].recipient == mailbox[q].recipient
      && after[q].state == if q in hit then Delivered else mailbox[q].state
    requires forall q | q in hit :: q in mailbox && Packet(mailbox[q]) in disk
    ensures KeyOk(after, closed, k, mem, disk, Idle)
  {
    assert forall q: nat, m: MsgId :: Names(after, q, m) <==> Names(mailbox, q, m);
    AckPendingOk(mailbox, after, k, mem);
    hide PendingComesLater, OnceEach;
    forall i, q: nat | 0 <= i < |mem| && Names(after, q, mem[i])
      ensures Addressed(after[q], k) && (after[q].state == Delivering || after[q].state == Delivered)
    {
      assert Names(mailbox, q, mem[i]);
    }
    hide OnlyHandedOver;
    forall i | 0 <= i < |mem| && mem[i].Mail?
      ensures mem[i].session == k.session && (k.session in closed || exists q :: Names(after, q, mem[i]))
    {
      if k.session !in closed {
        var q :| Names(mailbox, q, mem[i]);
        assert Names(after, q, mem[i]);
      }
    }
  }

  lemma AckPendingOk(mailbox: map<nat, Row>, after: map<nat, Row>, k: Key, mem: seq<MsgId>)
    requires PendingComesLater(mailbox, k, mem) && after.Keys == mailbox.Keys
    requires forall q | q in mailbox ::
      Packet(after[q]) == Packet(mailbox[q]) && after[q].recipient == mailbox[q].recipient
      && (IsPending(after[q]) ==> IsPending(mailbox[q]))
    ensures PendingComesLater(after, k, mem)
  {
    forall i, p: nat, q: nat | 0 <= i < |mem| && Names(after, p, mem[i])
      && q in after && IsPending(after[q]) && Addressed(after[q], k) && Packet(after[q]) !in mem
      ensures p < q
    {
      assert Names(mailbox, p, mem[i]);
      assert IsPending(mailbox[q]) && Addressed(mailbox[q], k);
    }
  }

  /** Deleting a session: its packets lose their rows, the others keep everything. */
  lemma DropKeyOk(mailbox: map<nat, Row>, after: map<nat, Row>, closed: set<string>, session: string, k: Key,
      mem: seq<MsgId>, disk: seq<MsgId>, ph: Phase)
    requires KeyOk(mailbox, closed, k, mem, disk, ph) && (k.session == session ==> ph == Idle)
    requires forall q :: q in after <==> q in mailbox && mailbox[q].session != session
    requires forall q | q in after :: after[q] == mailbox[q]
    ensures KeyOk(after, closed + {session}, k, mem, disk, ph)
  {
    assert forall q: nat, m: MsgId | Names(after, q, m) :: Names(mailbox, q, m);
    DropKnownOk(mailbox, after, closed, session, k, mem);
    DropPendingOk(mailbox, after, session, k, mem);
    DropPhaseOk(mailbox, after, session, k, mem, disk, ph);
    hide PendingComesLater, LostOnlyWhenClosed, PhaseOk, OnceEach;
    forall i, q: nat | 0 <= i < |mem| && Names(after, q, mem[i])
      ensures Addressed(after[q], k) && (after[q].state == Delivering || after[q].state == Delivered)
    {
      assert Names(mailbox, q, mem[i]);
    }
    forall i, j, p: nat, q: nat | 0 <= i < j < |mem| && Names(after, p, mem[i]) && Names(after, q, mem[j])
      ensures p < q {
      assert Names(mailbox, p, mem[i]) && Names(mailbox, q, mem[j]);
    }
  }

  lemma DropKnownOk(mailbox: map<nat, Row>, after: map<nat, Row>, closed: set<string>, session: string, k: Key,
      mem: seq<MsgId>)
    requires LostOnlyWhenClosed(mailbox, closed, k, mem)
    requires forall q :: q in after <==> q in mailbox && mailbox[q].session != session
    requires forall q | q in after :: after[q] == mailbox[q]
    ensures LostOnlyWhenClosed(after, closed + {session}, k, mem)
  {
    forall i | 0 <= i < |mem| && mem[i].Mail?
      ensures mem[i].session == k.session && (k.session in closed + {session} || exists q :: Names(after, q, mem[i]))
    {
      if k.session !in closed + {session} {
        var q :| Names(mailbox, q, mem[i]);
        assert Names(after, q, mem[i]);
      }
    }
  }

  lemma DropPendingOk(mailbox: map<nat, Row>, after: map<nat, Row>, session: string, k: Key, mem: seq<MsgId>)
    requires PendingComesLater(mailbox, k, mem)
    requires forall q :: q in after <==> q in mailbox && mailbox[q].session != session
    requires forall q | q in after :: after[q] == mailbox[q]
    ensures PendingComesLater(after, k, mem)
  {
    forall i, p: nat, q: nat | 0 <= i < |mem| && Names(after, p, mem[i])
      && q in after && IsPending(after[q]) && Addressed(after[q], k) && Packet(after[q]) !in mem
      ensures p < q
    {
      assert Names(mailbox, p, mem[i]);
      assert q in mailbox && after[q] == mailbox[q];
    }
  }

  lemma DropPhaseOk(mailbox: map<nat, Row>, after: map<nat, Row>, session: string, k: Key, mem: seq<MsgId>,
      disk: seq<MsgId>, ph: Phase)
    requires PhaseOk(mailbox, k, mem, disk, ph) && (k.session == session ==> ph == Idle)
    requires forall q :: q in after <==> q in mailbox && mailbox[q].session != session
    requires forall q | q in after :: after[q] == mailbox[q]
    ensures PhaseOk(after, k, mem, disk, ph)
  {
  }

  // ---- steps on memory and disk: the rows stay ----

  /** What a conversation in memory must satisfy, whatever is on disk. */
  ghost predicate MemOk(mailbox: map<nat, Row>, closed: set<string>, k: Key, mem: seq<MsgId>) {
    && OnceEach(mem) && OnlyHandedOver(mailbox, k, mem) && InOrder(mailbox, mem)
    && PendingComesLater(mailbox, k, mem) && LostOnlyWhenClosed(mailbox, closed, k, mem)
  }

  /** A reserved row that is not in memory yet and whose predecessors are. */
  lemma AppendOne(mailbox: map<nat, Row>, next: nat, closed: set<string>, k: Key, mem: seq<MsgId>, out: seq<MsgId>,
      q: nat)
    requires RowsOk(mailbox, next) && MemOk(mailbox, closed, k, mem)
    requires q in mailbox && Addressed(mailbox[q], k) && mailbox[q].state == Delivering && Packet(mailbox[q]) !in mem
    requires forall p | p in mailbox && IsPending(mailbox[p]) && Addressed(mailbox[p], k)
      && Packet(mailbox[p]) !in mem :: q <= p
    requires out == mem + [Packet(mailbox[q])]
    ensures MemOk(mailbox, closed, k, out)
  {
    assert forall p: nat | Names(mailbox, p, Packet(mailbox[q])) :: p == q;
    AppendOneOrder(mailbox, k, mem, out, q);
    AppendOneLater(mailbox, k, mem, out, q);
    hide InOrder, PendingComesLater, RowsOk;
    assert Names(mailbox, q, Packet(mailbox[q]));
    assert OnceEach(out);
    hide OnceEach;
    assert OnlyHandedOver(mailbox, k, out);
    hide OnlyHandedOver;
    assert LostOnlyWhenClosed(mailbox, closed, k, out);
  }

  lemma AppendOneOrder(mailbox: map<nat, Row>, k: Key, mem: seq<MsgId>, out: seq<MsgId>, q: nat)
    requires InOrder(mailbox, mem) && PendingComesLater(mailbox, k, mem)
    requires q in mailbox && Addressed(mailbox[q], k) && mailbox[q].state == Delivering && Packet(mailbox[q]) !in mem
    requires forall p: nat | Names(mailbox, p, Packet(mailbox[q])) :: p == q
    requires out == mem + [Packet(mailbox[q])]
    ensures InOrder(mailbox, out)
  {
  }

  lemma AppendOneLater(mailbox: map<nat, Row>, k: Key, mem: seq<MsgId>, out: seq<MsgId>, q: nat)
    requires PendingComesLater(mailbox, k, mem) && q in mailbox
    requires forall p: nat | Names(mailbox, p, Packet(mailbox[q])) :: p == q
    requires forall p | p in mailbox && IsPending(mailbox[p]) && Addressed(mailbox[p], k)
      && Packet(mailbox[p]) !in mem :: q <= p
    requires out == mem + [Packet(mailbox[q])]
    ensures PendingComesLater(mailbox, k, out)
  {
  }

  lemma {:induction false} AppendAll(mailbox: map<nat, Row>, next: nat, closed: set<string>, k: Key, mem: seq<MsgId>,
      rows: seq<nat>, ids: seq<MsgId>, i: nat)
    requires RowsOk(mailbox, next) && MemOk(mailbox, closed, k, mem) && ReservedRows(mailbox, k, rows)
    requires i <= |rows| == |ids| && forall j | 0 <= j < |rows| :: ids[j] == Packet(mailbox[rows[j]])
    requires forall j | 0 <= j < i :: ids[j] in mem
    ensures var out := AppendMissing(mem, ids[i..]);
      MemOk(mailbox, closed, k, out) && mem <= out && forall j | 0 <= j < |ids| :: ids[j] in out
    decreases |rows| - i
  {
    hide MemOk, RowsOk;
    if i < |rows| {
      assert ids[i..][0] == ids[i] && ids[i..][1..] == ids[i + 1..];
      if ids[i] in mem {
        AppendAll(mailbox, next, closed, k, mem, rows, ids, i + 1);
      } else {
        NextIsOldest(mailbox, k, mem, rows, ids, i);
        AppendOne(mailbox, next, closed, k, mem, mem + [ids[i]], rows[i]);
        AppendAll(mailbox, next, closed, k, mem + [ids[i]], rows, ids, i + 1);
      }
    }
  }

  lemma NextIsOldest(mailbox: map<nat, Row>, k: Key, mem: seq<MsgId>, rows: seq<nat>, ids: seq<MsgId>, i: nat)
    requires ReservedRows(mailbox, k, rows) && i < |rows| == |ids|
    requires forall j | 0 <= j < |rows| :: ids[j] == Packet(mailbox[rows[j]])
    requires forall j | 0 <= j < i :: ids[j] in mem
    ensures forall p | p in mailbox && IsPending(mailbox[p]) && Addressed(mailbox[p], k)
      && Packet(mailbox[p]) !in mem :: rows[i] <= p
  {
  }

  lemma AppendKeyOk(mailbox: map<nat, Row>, next: nat, closed: set<string>, k: Key, mem: seq<MsgId>, disk: seq<MsgId>,
                    rows: seq<nat>, attempt: string, ids: seq<MsgId>)
    requires RowsOk(mailbox, next) && KeyOk(mailbox, closed, k, mem, disk, Reserved(rows, attempt))
    requires forall i | 0 <= i < |rows| :: rows[i] in mailbox
    requires ids == Packets(mailbox, rows)
    ensures KeyOk(mailbox, closed, k, AppendMissing(mem, ids), disk, Appended(rows, attempt))
  {
    assert MemOk(mailbox, closed, k, mem);
    hide RowsOk, OnceEach, OnlyHandedOver, InOrder, PendingComesLater, LostOnlyWhenClosed, DeliveredOnDisk;
    AppendAll(mailbox, next, closed, k, mem, rows, ids, 0);
    assert ids[0..] == ids;
    hide ReservedRows;
    assert forall i | 0 <= i < |rows| :: Packet(mailbox[rows[i]]) == ids[i];
  }

  /** Any prefix of the memory that covers the old transcript may be what is on disk. */
  lemma RecordKeyOk(mailbox: map<nat, Row>, closed: set<string>, k: Key, mem: seq<MsgId>, disk: seq<MsgId>,
      ph: Phase, n: nat)
    requires KeyOk(mailbox, closed, k, mem, disk, ph) && |disk| <= n <= |mem|
    ensures KeyOk(mailbox, closed, k, mem, mem[..n], ph)
  {
  }

  lemma FlushKeyOk(mailbox: map<nat, Row>, closed: set<string>, k: Key, mem: seq<MsgId>, disk: seq<MsgId>,
      rows: seq<nat>, attempt: string)
    requires KeyOk(mailbox, closed, k, mem, disk, Appended(rows, attempt))
    ensures KeyOk(mailbox, closed, k, mem, mem, Flushed(rows, attempt))
  {
  }

  /** Memory lost and reloaded from the transcript. */
  lemma ReloadKeyOk(mailbox: map<nat, Row>, closed: set<string>, k: Key, mem: seq<MsgId>, disk: seq<MsgId>, ph: Phase)
    requires KeyOk(mailbox, closed, k, mem, disk, ph)
    ensures KeyOk(mailbox, closed, k, disk, disk, Idle)
  {
    ReloadLater(mailbox, k, mem, disk);
    hide PendingComesLater, PhaseOk;
    assert forall i | 0 <= i < |disk| :: disk[i] == mem[i];
    assert OnceEach(disk);
    hide OnceEach;
    assert InOrder(mailbox, disk);
    hide InOrder;
    assert OnlyHandedOver(mailbox, k, disk);
    hide OnlyHandedOver;
  }

  /** Packets that were in memory after the transcript's end have larger seqs than those in it. */
  lemma ReloadLater(mailbox: map<nat, Row>, k: Key, mem: seq<MsgId>, disk: seq<MsgId>)
    requires PendingComesLater(mailbox, k, mem) && InOrder(mailbox, mem) && disk <= mem
    ensures PendingComesLater(mailbox, k, disk)
  {
    forall i, p: nat, q: nat | 0 <= i < |disk| && Names(mailbox, p, disk[i])
      && q in mailbox && IsPending(mailbox[q]) && Addressed(mailbox[q], k) && Packet(mailbox[q]) !in disk
      ensures p < q
    {
      assert disk[i] == mem[i];
      assert forall j | 0 <= j < |disk| :: disk[j] == mem[j];
      if Packet(mailbox[q]) in mem {
        var j :| 0 <= j < |mem| && mem[j] == Packet(mailbox[q]);
        assert Names(mailbox, q, mem[j]);
      }
    }
  }

  lemma TalkKeyOk(mailbox: map<nat, Row>, closed: set<string>, k: Key, mem: seq<MsgId>, disk: seq<MsgId>, ph: Phase,
      n: nat)
    requires KeyOk(mailbox, closed, k, mem, disk, ph)
    ensures KeyOk(mailbox, closed, k, mem + [Turn(n)], disk, ph)
  {
    TalkMem(mailbox, closed, k, mem, mem + [Turn(n)], n);
    hide OnceEach, OnlyHandedOver, InOrder, PendingComesLater, LostOnlyWhenClosed, DeliveredOnDisk, ReservedRows;
  }

  lemma TalkMem(mailbox: map<nat, Row>, closed: set<string>, k: Key, mem: seq<MsgId>, out: seq<MsgId>, n: nat)
    requires MemOk(mailbox, closed, k, mem) && out == mem + [Turn(n)]
    ensures MemOk(mailbox, closed, k, out)
  {
    assert forall p: nat :: !Names(mailbox, p, Turn(n));
    assert forall i | 0 <= i < |out| :: out[i] == if i < |mem| then mem[i] else Turn(n);
    assert OnceEach(out);
    hide OnceEach;
    assert InOrder(mailbox, out);
    hide InOrder;
    assert OnlyHandedOver(mailbox, k, out);
    hide OnlyHandedOver;
    assert LostOnlyWhenClosed(mailbox, closed, k, out);
    hide LostOnlyWhenClosed;
    forall i, p: nat, q: nat | 0 <= i < |out| && Names(mailbox, p, out[i])
      && q in mailbox && IsPending(mailbox[q]) && Addressed(mailbox[q], k) && Packet(mailbox[q]) !in out
      ensures p < q
    {
      assert out[i] == mem[i] && Packet(mailbox[q]) !in mem;
    }
  }
}
