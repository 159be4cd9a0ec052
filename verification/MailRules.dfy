/**
 * What the mailbox lets through, in terms of its rows alone: which rows a delivery takes and how
 * many, what is left after any number of deliveries, which messages are accepted, and which row a
 * withdrawal takes back.
 */
module MailRules {
  import opened Options
  import opened Collections
  import opened RunStore
  import opened Runtime
  import opened MailSafety
  import opened MailRuns

  // ---- how many rows a delivery takes ----

  /** The rows that wait for k, whether nobody has reserved them or a delivery did and did not end. */
  function Unread(mailbox: map<nat, Row>, k: Key): set<nat> {
    set q | q in mailbox && mailbox[q].session == k.session && mailbox[q].recipient == k.name
      && (mailbox[q].state == Queued || mailbox[q].state == Delivering)
  }

  lemma PendingAreUnread(t: Tables, k: Key)
    requires RowsOk(t.mailbox, t.next)
    ensures Elems(Pending(t, k)) == Unread(t.mailbox, k) && |Pending(t, k)| == |Unread(t.mailbox, k)|
  {
    var p := Pending(t, k);
    assert Elems(p) == Unread(t.mailbox, k);
    DistinctSize(p);
  }

  /** A delivery takes the oldest unread rows, 32 of them or all there are. */
  lemma TakesTheOldest(t: Tables, k: Key)
    requires RowsOk(t.mailbox, t.next)
    ensures var rows := ToClaim(t, k); var unread := Unread(t.mailbox, k);
      && |Elems(rows)| == |rows| == (if |unread| <= 32 then |unread| else 32)
      && Elems(rows) <= unread
      && forall p, q | p in Elems(rows) && q in unread - Elems(rows) :: p < q
  {
    var rows := ToClaim(t, k);
    PendingAreUnread(t, k);
    ToClaimFacts(t, k);
    hide Pending;
    DistinctSize(rows);
    assert Elems(rows) <= Unread(t.mailbox, k);
    forall p, q | p in Elems(rows) && q in Unread(t.mailbox, k) - Elems(rows) ensures p < q {
      var i :| 0 <= i < |rows| && rows[i] == p;
    }
  }

  /** Whom mail is delivered to: the parent of an open session, or an agent's active current attempt. */
  ghost predicate Receives(t: Tables, k: Key, attempt: string) {
    && k.session !in t.closed
    && (k.name == "parent"
        || (k in t.agents && t.agents[k].attempt == attempt
            && (t.agents[k].state == Running || t.agents[k].state == Cancelling)))
  }

  /** `after` is `before` with the rows in `hit` put into state s. */
  ghost predicate Moved(before: map<nat, Row>, after: map<nat, Row>, hit: set<nat>, s: RowState) {
    && after.Keys == before.Keys
    && forall q | q in before :: after[q] == if q in hit then before[q].(state := s) else before[q]
  }

  /** A delivery is given its rows exactly for those receivers, and they are then marked as handed over. */
  lemma ClaimIff(t: Tables, k: Key, attempt: string)
    requires RowsOk(t.mailbox, t.next)
    ensures ClaimMessages(t, k, attempt).Some? <==> Receives(t, k, attempt)
    ensures Receives(t, k, attempt) ==>
      var u := ClaimMessages(t, k, attempt).value;
      u == t.(mailbox := u.mailbox) && Moved(t.mailbox, u.mailbox, Elems(ToClaim(t, k)), Delivering)
  {
    hide ToClaim;
  }

  /** The rows for k that are being delivered. */
  function InDelivery(mailbox: map<nat, Row>, k: Key): set<nat> {
    set q | q in mailbox && mailbox[q].session == k.session && mailbox[q].recipient == k.name
      && mailbox[q].state == Delivering
  }

  /** An acknowledgement turns exactly the named rows that are being delivered into delivered ones. */
  lemma AcknowledgeIff(t: Tables, k: Key, seqs: seq<nat>, attempt: string)
    ensures Acknowledge(t, k, seqs, attempt).Some? <==> Receives(t, k, attempt)
    ensures Receives(t, k, attempt) ==>
      var u := Acknowledge(t, k, seqs, attempt).value;
      u == t.(mailbox := u.mailbox)
        && Moved(t.mailbox, u.mailbox, InDelivery(t.mailbox, k) * Elems(seqs), Delivered)
  {
  }

  // ---- deliveries one after another ----

  ghost predicate Ready(w: World, k: Key, attempt: string) {
    MailOk(w) && PhaseOf(w, k) == Idle && Receives(w.t, k, attempt)
  }

  lemma MovedUnread(before: map<nat, Row>, after: map<nat, Row>, k: Key, hit: set<nat>)
    requires Moved(before, after, hit, Delivered) && hit <= Unread(before, k)
    ensures Unread(after, k) == Unread(before, k) - hit
    ensures |Unread(after, k)| == |Unread(before, k)| - |hit|
  {
    assert Unread(after, k) == Unread(before, k) - hit;
  }

  lemma DeliveryLeaves(lim: Limits, w: World, k: Key, attempt: string)
    requires Ready(w, k, attempt)
    ensures var x := DoAll(lim, w, Delivery(k, attempt));
      Ready(x, k, attempt) && Moved(w.t.mailbox, x.t.mailbox, Elems(ToClaim(w.t, k)), Delivered)
  {
    hide MailOk, ToClaim, Do, DoAll;
    DoFour(lim, w, ReserveStep(k, attempt), AppendStep(k), FlushStep(k), AckStep(k));
    if ToClaim(w.t, k) != [] {
      DeliveryDelivers(lim, w, k, attempt);
      StaysReady(lim, w, k, attempt);
    } else {
      NothingToDeliver(lim, w, k, attempt);
    }
  }

  lemma NothingToDeliver(lim: Limits, w: World, k: Key, attempt: string)
    requires PhaseOf(w, k) == Idle && ToClaim(w.t, k) == []
    ensures Do(lim, Do(lim, Do(lim, Do(lim, w, ReserveStep(k, attempt)), AppendStep(k)), FlushStep(k)), AckStep(k)) == w
  {
    assert Do(lim, w, ReserveStep(k, attempt)) == w && Do(lim, w, AppendStep(k)) == w;
    assert Do(lim, w, FlushStep(k)) == w && Do(lim, w, AckStep(k)) == w;
  }

  lemma StaysReady(lim: Limits, w: World, k: Key, attempt: string)
    requires Ready(w, k, attempt) && ToClaim(w.t, k) != []
    ensures Ready(Do(lim, Do(lim, Do(lim, Do(lim, w, ReserveStep(k, attempt)), AppendStep(k)), FlushStep(k)),
      AckStep(k)), k, attempt)
  {
    var w1 := Do(lim, w, ReserveStep(k, attempt));
    var w2 := Do(lim, w1, AppendStep(k));
    var w3 := Do(lim, w2, FlushStep(k));
    hide Do, MailOk, ToClaim;
    StepKeepsMail(lim, w, ReserveStep(k, attempt));
    StepKeepsMail(lim, w1, AppendStep(k));
    StepKeepsMail(lim, w2, FlushStep(k));
    StepKeepsMail(lim, w3, AckStep(k));
    ReserveEffect(lim, w, w1, k, attempt, ToClaim(w.t, k));
    AppendEffect(lim, w1, w2, w3, k, attempt, ToClaim(w.t, k));
    AckLeaves(lim, w3, k);
  }

  lemma AckLeaves(lim: Limits, w: World, k: Key)
    requires PhaseOf(w, k).Flushed?
    ensures var x := Do(lim, w, AckStep(k));
      PhaseOf(x, k) == Idle && x.t.agents == w.t.agents && x.t.closed == w.t.closed
  {
  }

  ghost function Deliveries(lim: Limits, w: World, k: Key, attempt: string, n: nat): World {
    if n == 0 then w else DoAll(lim, Deliveries(lim, w, k, attempt, n - 1), Delivery(k, attempt))
  }

  /** All but the m oldest unread rows have become delivered, and nothing else has changed. */
  ghost predicate Drained(before: map<nat, Row>, after: map<nat, Row>, k: Key, m: nat) {
    var unread := Unread(before, k);
    var left := Unread(after, k);
    && |left| == (if |unread| <= m then 0 else |unread| - m)
    && left <= unread && Moved(before, after, unread - left, Delivered)
    && forall p, q | p in unread - left && q in left :: p < q
  }

  /** n deliveries that nobody disturbs leave all but the 32n oldest rows; what they took is in the
      transcript and everything else is as it was. */
  lemma {:induction false} DeliveriesDrain(lim: Limits, w: World, k: Key, attempt: string, n: nat)
    requires Ready(w, k, attempt)
    ensures var x := Deliveries(lim, w, k, attempt, n);
      && Ready(x, k, attempt) && Drained(w.t.mailbox, x.t.mailbox, k, 32 * n)
      && forall q | q in Unread(w.t.mailbox, k) - Unread(x.t.mailbox, k) :: Packet(w.t.mailbox[q]) in Transcript(x, k)
  {
    hide Ready, DoAll, Unread, Moved, Packet, Transcript, Delivery;
    var x := Deliveries(lim, w, k, attempt, n);
    if n > 0 {
      var y := Deliveries(lim, w, k, attempt, n - 1);
      DeliveriesDrain(lim, w, k, attempt, n - 1);
      assert x == DoAll(lim, y, Delivery(k, attempt));
      hide Deliveries, Drained;
      DeliveryDrains(lim, w.t.mailbox, y, k, attempt, 32 * (n - 1));
    } else {
      DrainedByNone(w.t.mailbox, k);
    }
    DrainedIsMoved(w.t.mailbox, x.t.mailbox, k, 32 * n);
    DeliveredAreRecorded(w.t.mailbox, x, k, attempt, Unread(w.t.mailbox, k) - Unread(x.t.mailbox, k));
  }

  lemma DrainedByNone(mailbox: map<nat, Row>, k: Key)
    ensures Drained(mailbox, mailbox, k, 0)
  {
    assert Unread(mailbox, k) - Unread(mailbox, k) == {};
  }

  lemma DrainedIsMoved(before: map<nat, Row>, after: map<nat, Row>, k: Key, m: nat)
    requires Drained(before, after, k, m)
    ensures Moved(before, after, Unread(before, k) - Unread(after, k), Delivered)
  {
  }

  lemma DeliveryDrains(lim: Limits, before: map<nat, Row>, y: World, k: Key, attempt: string, m: nat)
    requires Ready(y, k, attempt) && Drained(before, y.t.mailbox, k, m)
    ensures var x := DoAll(lim, y, Delivery(k, attempt));
      Ready(x, k, attempt) && Drained(before, x.t.mailbox, k, m + 32)
  {
    hide Ready, ToClaim, Elems, Unread, Moved, DoAll, Drained, Delivery;
    var x := DoAll(lim, y, Delivery(k, attempt));
    DeliveryLeaves(lim, y, k, attempt);
    RowsOfReady(y, k, attempt);
    hide RowsOk;
    TakesTheOldest(y.t, k);
    MovedUnread(y.t.mailbox, x.t.mailbox, k, Elems(ToClaim(y.t, k)));
    DrainOnce(before, y.t.mailbox, x.t.mailbox, k, Elems(ToClaim(y.t, k)), m);
  }

  lemma DrainOnce(before: map<nat, Row>, mid: map<nat, Row>, after: map<nat, Row>, k: Key, rows: set<nat>, m: nat)
    requires Drained(before, mid, k, m) && Moved(mid, after, rows, Delivered)
    requires var left := Unread(mid, k);
      && |rows| == (if |left| <= 32 then |left| else 32) && rows <= left
      && Unread(after, k) == left - rows && |Unread(after, k)| == |left| - |rows|
      && forall p, q | p in rows && q in left - rows :: p < q
    ensures Drained(before, after, k, m + 32)
  {
    hide Unread, Moved;
    var unread, left := Unread(before, k), Unread(mid, k);
    assert unread - (left - rows) == (unread - left) + rows;
    MovedTwice(before, mid, after, unread - left, rows);
  }

  lemma RowsOfReady(w: World, k: Key, attempt: string)
    requires Ready(w, k, attempt)
    ensures RowsOk(w.t.mailbox, w.t.next)
  {
  }

  lemma MovedTwice(before: map<nat, Row>, mid: map<nat, Row>, after: map<nat, Row>, first: set<nat>, second: set<nat>)
    requires Moved(before, mid, first, Delivered) && Moved(mid, after, second, Delivered)
    ensures Moved(before, after, first + second, Delivered)
  {
  }

  lemma DeliveredAreRecorded(before: map<nat, Row>, x: World, k: Key, attempt: string, hit: set<nat>)
    requires Ready(x, k, attempt) && Moved(before, x.t.mailbox, hit, Delivered) && hit <= Unread(before, k)
    ensures forall q | q in hit :: Packet(before[q]) in Transcript(x, k)
  {
    MailEverywhere(x, k);
    hide MailOk, RowsOk, OnlyHandedOver, InOrder, PendingComesLater, LostOnlyWhenClosed, PhaseOk, OnceEach;
    forall q | q in hit ensures Packet(before[q]) in Transcript(x, k) {
      assert x.t.mailbox[q] == before[q].(state := Delivered);
      assert Addressed(x.t.mailbox[q], k);
    }
  }

  // ---- after a crash ----

  /** A crash at any stage loses what is not in the transcript and ends the delivery, so that the rows
      it had reserved are unread again and the next delivery takes them first. */
  lemma CrashForgets(lim: Limits, w: World, k: Key, attempt: string)
    requires MailOk(w) && Receives(w.t, k, attempt)
    ensures var x := Do(lim, w, CrashStep(k));
      && x.t == w.t && x.disk == w.disk && Ids(x.mem, k) == Transcript(w, k) && Ready(x, k, attempt)
      && forall rows, a | PhaseOf(w, k) == Reserved(rows, a) || PhaseOf(w, k) == Appended(rows, a)
             || PhaseOf(w, k) == Flushed(rows, a) ::
           Elems(rows) <= Unread(x.t.mailbox, k)
             && forall p, q | p in rows && q in Unread(x.t.mailbox, k) && q !in rows :: p < q
  {
    StepKeepsMail(lim, w, CrashStep(k));
    MailEverywhere(w, k);
    hide MailOk, RowsOk, OnlyHandedOver, InOrder, PendingComesLater, LostOnlyWhenClosed, OnceEach;
  }

  // ---- which messages are accepted ----

  /** The row that already carries this sender's message id. */
  ghost predicate SameId(mailbox: map<nat, Row>, q: nat, session: string, sender: string, mid: string) {
    q in mailbox && mailbox[q].session == session && mailbox[q].sender == sender && mailbox[q].mid == mid
  }

  /** The sender may write: the parent, or an agent of the session whose named attempt is current and active. */
  ghost predicate MayWrite(t: Tables, session: string, sender: string, attempt: string) {
    var from := Key(session, sender);
    sender == "parent" || (from in t.agents && (attempt == "" || (t.agents[from].attempt == attempt
      && (t.agents[from].state == Running || t.agents[from].state == Cancelling))))
  }

  /** The recipient exists, and is at the attempt the sender names, if it names one. */
  ghost predicate MayReceive(t: Tables, to: Key, expected: string) {
    && (to.name == "parent" || to in t.agents)
    && (expected == "" || (to.name != "parent" && t.agents[to].attempt == expected))
  }

  /** The queue has room for a new message, and an id used before carried this very message. */
  ghost predicate MayQueue(t: Tables, to: Key, sender: string, text: string, mid: string) {
    && (forall q | SameId(t.mailbox, q, to.session, sender, mid) ::
         t.mailbox[q].recipient == to.name && t.mailbox[q].text == text && t.mailbox[q].kind == Message)
    && ((exists q :: SameId(t.mailbox, q, to.session, sender, mid)) || |Unread(t.mailbox, to)| < 256)
  }

  /** A message is accepted exactly when session, sender, recipient and queue allow it. A retry adds
      nothing, and a new message becomes one queued row at the end. */
  lemma SendIff(t: Tables, to: Key, sender: string, text: string, mid: string, expected: string, attempt: string)
    requires RowsOk(t.mailbox, t.next)
    ensures Send(t, to, sender, text, mid, expected, attempt).Some?
      <==> (to.session !in t.closed && MayWrite(t, to.session, sender, attempt)
            && MayReceive(t, to, expected) && MayQueue(t, to, sender, text, mid))
    ensures var o := Send(t, to, sender, text, mid, expected, attempt);
      var known := exists q :: SameId(t.mailbox, q, to.session, sender, mid);
      && (o.Some? && known ==> o.value == t)
      && (o.Some? && !known ==>
            var target := if to.name == "parent" then "" else t.agents[to].attempt;
            var row := Row(to.session, to.name, sender, mid, text, Message, target, Queued);
            o.value == t.(next := t.next + 1, mailbox := t.mailbox[t.next := row]))
  {
    var target := if to.name == PARENT || to !in t.agents then "" else t.agents[to].attempt;
    InsertIff(t, to, sender, text, mid, target);
    hide InsertMessage, MayQueue, RowsOk, Unread;
  }

  /** The same for the world: a message that is refused leaves it as it was. */
  lemma SendOutcome(lim: Limits, w: World, to: Key, sender: string, text: string, mid: string, expected: string,
      attempt: string)
    requires RowsOk(w.t.mailbox, w.t.next)
    ensures var x := Do(lim, w, SendStep(to, sender, text, mid, expected, attempt));
      var known := exists q :: SameId(w.t.mailbox, q, to.session, sender, mid);
      if !known && to.session !in w.t.closed && MayWrite(w.t, to.session, sender, attempt)
        && MayReceive(w.t, to, expected) && |Unread(w.t.mailbox, to)| < 256
      then
        var target := if to.name == "parent" then "" else w.t.agents[to].attempt;
        x == w.(t := w.t.(next := w.t.next + 1,
          mailbox := w.t.mailbox[w.t.next := Row(to.session, to.name, sender, mid, text, Message, target, Queued)]))
      else x == w
  {
    SendIff(w.t, to, sender, text, mid, expected, attempt);
    hide Send, MayWrite, RowsOk, Unread;
  }

  lemma InsertIff(t: Tables, to: Key, sender: string, text: string, mid: string, target: string)
    requires RowsOk(t.mailbox, t.next)
    ensures var row := Row(to.session, to.name, sender, mid, text, Message, target, Queued);
      var o := InsertMessage(t, row);
      && (o.Some? <==> MayQueue(t, to, sender, text, mid))
      && (o.Some? ==> o.value == if exists q :: SameId(t.mailbox, q, to.session, sender, mid) then t
                                 else t.(mailbox := t.mailbox[t.next := row], next := t.next + 1))
  {
    PendingAreUnread(t, to);
    hide Pending, Unread;
    var prior := FindBelow(t.mailbox, to.session, sender, mid, t.next);
    if prior.Some? {
      assert SameId(t.mailbox, prior.value, to.session, sender, mid);
      forall q | SameId(t.mailbox, q, to.session, sender, mid) ensures q == prior.value {
        assert Packet(t.mailbox[q]) == Packet(t.mailbox[prior.value]);
      }
    }
  }

  // ---- which message a withdrawal takes back ----

  /** The sender's queued rows for k that have the id, or the text when no id is given. */
  function Named(mailbox: map<nat, Row>, k: Key, mid: string, text: string, sender: string): set<nat> {
    set q | q in mailbox && mailbox[q].session == k.session && mailbox[q].recipient == k.name
      && mailbox[q].sender == sender && mailbox[q].state == Queued
      && (if mid == "" then mailbox[q].text == text else mailbox[q].mid == mid)
  }

  /** The oldest of them is withdrawn, and nothing else happens. */
  lemma WithdrawsTheOldest(t: Tables, k: Key, mid: string, text: string, sender: string)
    requires RowsOk(t.mailbox, t.next)
    ensures forall lim, w: World | w.t == t ::
      Do(lim, w, WithdrawStep(k, mid, text, sender)) == w.(t := RemoveMessage(t, k, mid, text, sender))
    ensures var u := RemoveMessage(t, k, mid, text, sender); var named := Named(t.mailbox, k, mid, text, sender);
      && (named == {} ==> u == t)
      && (named != {} ==> exists q :: (q in named && (forall p | p in named :: q <= p)
            && u == t.(mailbox := t.mailbox[q := t.mailbox[q].(state := Withdrawn)])))
  {
    var found := FirstWithdrawable(t.mailbox, k, mid, text, sender, 0, t.next);
    assert forall q | q in t.mailbox ::
      q in Named(t.mailbox, k, mid, text, sender) <==> Withdrawable(t.mailbox[q], k, mid, text, sender);
    if found.Some? {
      var q := found.value;
      assert Mark(t.mailbox, {q}, Withdrawn) == t.mailbox[q := t.mailbox[q].(state := Withdrawn)];
      assert q in Named(t.mailbox, k, mid, text, sender);
    }
  }
}
