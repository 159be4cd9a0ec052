/**
 * The durable tables of the agent runtime: agents, attempts and the mailbox, with each
 * transaction as a function from tables to tables. None is a transaction that raised and was
 * rolled back.
 */
module RunStore {
  import opened Options
  import opened Collections

  datatype RunState = Running | Cancelling | Completed | Failed | Cancelled | Interrupted

  predicate IsActive(s: RunState) { s == Running || s == Cancelling }

  predicate IsTerminal(s: RunState) { !IsActive(s) }

  /** `fixed` stands for the parts of the spec a continuation may not change. */
  datatype AgentRow = AgentRow(attempt: string, state: RunState, fixed: string, scope: seq<string>)
  datatype AttemptRow = AttemptRow(session: string, agent: string, state: RunState)

  datatype RowState = Queued | Delivering | Delivered | Withdrawn
  datatype Kind = Message | Completion

  datatype Row = Row(session: string, recipient: string, sender: string, mid: string,
                     text: string, kind: Kind, target: string, state: RowState)

  /** An agent, or a mailbox: session and name. */
  datatype Key = Key(session: string, name: string)

  datatype Tables = Tables(
    agents: map<Key, AgentRow>, attempts: map<string, AttemptRow>,
    mailbox: map<nat, Row>, next: nat, closed: set<string>)

  const MAILBOX_CAPACITY := 256
  const CLAIM_LIMIT := 32
  const PARENT := "parent"

  predicate IsPending(r: Row) { r.state == Queued || r.state == Delivering }

  predicate Addressed(r: Row, k: Key) { r.session == k.session && r.recipient == k.name }

  // ---- mailbox queries, in order of seq ----

  /** The seqs below n whose row is pending for k, in increasing order. */
  function PendingBelow(mailbox: map<nat, Row>, k: Key, n: nat): (r: seq<nat>)
    ensures forall i | 0 <= i < |r| ::
      r[i] < n && r[i] in mailbox && IsPending(mailbox[r[i]]) && Addressed(mailbox[r[i]], k)
    ensures forall i, j | 0 <= i < j < |r| :: r[i] < r[j]
    ensures forall q | q in mailbox && q < n && IsPending(mailbox[q]) && Addressed(mailbox[q], k) :: q in r
  {
    if n == 0 then []
    else
      var before := PendingBelow(mailbox, k, n - 1);
      if n - 1 in mailbox && IsPending(mailbox[n - 1]) && Addressed(mailbox[n - 1], k) then before + [n - 1] else before
  }

  function Pending(t: Tables, k: Key): seq<nat> {
    PendingBelow(t.mailbox, k, t.next)
  }

  /** The row with a given identity below n. */
  function FindBelow(mailbox: map<nat, Row>, session: string, sender: string, mid: string, n: nat): (r: Option<nat>)
    ensures r.Some? ==> r.value < n && r.value in mailbox && HasIdentity(mailbox[r.value], session, sender, mid)
    ensures r.None? ==> forall q | q in mailbox && q < n :: !HasIdentity(mailbox[q], session, sender, mid)
  {
    if n == 0 then None
    else if n - 1 in mailbox && HasIdentity(mailbox[n - 1], session, sender, mid) then Some(n - 1)
    else FindBelow(mailbox, session, sender, mid, n - 1)
  }

  predicate HasIdentity(r: Row, session: string, sender: string, mid: string) {
    r.session == session && r.sender == sender && r.mid == mid
  }

  // ---- mailbox transactions ----

  /** Inserts a row, or finds the same message already there. */
  function InsertMessage(t: Tables, row: Row): Option<Tables> {
    var prior := FindBelow(t.mailbox, row.session, row.sender, row.mid, t.next);
    if prior.Some? then
      var p := t.mailbox[prior.value];
      if p.recipient != row.recipient || p.text != row.text || p.kind != row.kind then None else Some(t)
    else if row.kind != Completion && |Pending(t, Key(row.session, row.recipient))| >= MAILBOX_CAPACITY then None
    else Some(t.(mailbox := t.mailbox[t.next := row], next := t.next + 1))
  }

  /** A message from the parent or an agent; empty strings leave a check out. */
  function Send(t: Tables, to: Key, sender: string, text: string, mid: string, expected: string,
      senderAttempt: string): Option<Tables> {
    var from := Key(to.session, sender);
    var target := if to.name == PARENT || to !in t.agents then "" else t.agents[to].attempt;
    if to.session in t.closed then None
    else if sender != PARENT && from !in t.agents then None
    else if sender != PARENT && senderAttempt != ""
      && (t.agents[from].attempt != senderAttempt || !IsActive(t.agents[from].state)) then None
    else if to.name != PARENT && to !in t.agents then None
    else if expected != "" && expected != target then None
    else InsertMessage(t, Row(to.session, to.name, sender, mid, text, Message, target, Queued))
  }

  /** Delivery is for the parent, or for the agent's current attempt while it is active. */
  predicate MayDeliver(t: Tables, k: Key, attempt: string) {
    && k.session !in t.closed
    && (k.name == PARENT || (k in t.agents && t.agents[k].attempt == attempt && IsActive(t.agents[k].state)))
  }

  function ToClaim(t: Tables, k: Key): seq<nat> {
    var p := Pending(t, k);
    if |p| <= CLAIM_LIMIT then p else p[..CLAIM_LIMIT]
  }

  /** Sets the state of the rows in `seqs`. */
  function Mark(mailbox: map<nat, Row>, seqs: set<nat>, s: RowState): map<nat, Row> {
    map q | q in mailbox :: if q in seqs then mailbox[q].(state := s) else mailbox[q]
  }

  function ClaimMessages(t: Tables, k: Key, attempt: string): Option<Tables> {
    if !MayDeliver(t, k, attempt) then None
    else Some(t.(mailbox := Mark(t.mailbox, Elems(ToClaim(t, k)), Delivering)))
  }

  function Acknowledge(t: Tables, k: Key, seqs: seq<nat>, attempt: string): Option<Tables> {
    if !MayDeliver(t, k, attempt) then None
    else
      var hit := set q | q in seqs && q in t.mailbox && Addressed(t.mailbox[q], k) && t.mailbox[q].state == Delivering;
      Some(t.(mailbox := Mark(t.mailbox, hit, Delivered)))
  }

  /** Which queued row a withdrawal names: by message id, or by text when the id is empty. */
  predicate Withdrawable(r: Row, k: Key, mid: string, text: string, sender: string) {
    && Addressed(r, k) && r.sender == sender && r.state == Queued
    && (if mid != "" then r.mid == mid else r.text == text)
  }

  function FirstWithdrawable(mailbox: map<nat, Row>, k: Key, mid: string, text: string, sender: string, q: nat,
      n: nat): (r: Option<nat>)
    requires q <= n
    ensures r.Some? ==> q <= r.value < n && r.value in mailbox && Withdrawable(mailbox[r.value], k, mid, text, sender)
    ensures forall p | q <= p < (if r.Some? then r.value else n) && p in mailbox ::
      !Withdrawable(mailbox[p], k, mid, text, sender)
    decreases n - q
  {
    if q == n then None
    else if q in mailbox && Withdrawable(mailbox[q], k, mid, text, sender) then Some(q)
    else FirstWithdrawable(mailbox, k, mid, text, sender, q + 1, n)
  }

  function RemoveMessage(t: Tables, k: Key, mid: string, text: string, sender: string): Tables {
    match FirstWithdrawable(t.mailbox, k, mid, text, sender, 0, t.next)
    case None => t
    case Some(q) => t.(mailbox := Mark(t.mailbox, {q}, Withdrawn))
  }

  // ---- run transactions ----

  predicate PathsOverlap(a: string, b: string) {
    a == b || b + "/" <= a || a + "/" <= b
  }

  predicate Overlaps(left: seq<string>, right: seq<string>) {
    exists i, j | 0 <= i < |left| && 0 <= j < |right| :: PathsOverlap(left[i], right[j])
  }

  function ActiveAgents(t: Tables): set<Key> {
    set k | k in t.agents && IsActive(t.agents[k].state)
  }

  function ActiveIn(t: Tables, session: string): set<Key> {
    set k | k in ActiveAgents(t) && k.session == session
  }

  predicate ValidAgent(k: Key) {
    k.session != "" && k.name != "" && k.name != PARENT
  }

  /** Admission of an attempt. `scope` is empty unless the agent writes the shared tree. */
  function Start(t: Tables, k: Key, fixed: string, scope: seq<string>, attempt: string, expected: Option<string>,
                 sessionLimit: nat, totalLimit: nat): Option<Tables>
  {
    if !ValidAgent(k) then None
    else if k.session in t.closed then None
    else if |ActiveAgents(t)| >= totalLimit || |ActiveIn(t, k.session)| >= sessionLimit then None
    else if exists o | o in ActiveAgents(t) :: Overlaps(scope, t.agents[o].scope) then None
    else if expected.Some? && expected.value != (if k in t.agents then t.agents[k].attempt else "") then None
    else if k in t.agents && t.agents[k].fixed != fixed then None
    else
      Some(t.(agents := t.agents[k := AgentRow(attempt, Running, fixed, scope)],
              attempts := t.attempts[attempt := AttemptRow(k.session, k.name, Running)],
              mailbox := Retarget(t.mailbox, k, attempt)))
  }

  /** Undelivered messages follow the agent into its new attempt. */
  function Retarget(mailbox: map<nat, Row>, k: Key, attempt: string): map<nat, Row> {
    map q | q in mailbox ::
      if Addressed(mailbox[q], k) && IsPending(mailbox[q]) then mailbox[q].(target := attempt) else mailbox[q]
  }

  function CompletionId(attempt: string): string { "completion-" + attempt }

  function CompletionRow(k: Key, attempt: string, text: string): Row {
    Row(k.session, PARENT, k.name, CompletionId(attempt), text, Completion, "", Queued)
  }

  /** Settles an attempt: None when the completion message could not be stored, otherwise whether
      the attempt was still the agent's active one. */
  function Finish(t: Tables, k: Key, attempt: string, final: RunState, text: string): Option<(Tables, bool)>
    requires IsTerminal(final)
  {
    if k !in t.agents || t.agents[k].attempt != attempt || !IsActive(t.agents[k].state) then Some((t, false))
    else
      var settled := t.(
        agents := t.agents[k := t.agents[k].(state := final)],
        attempts := if attempt in t.attempts then t.attempts[attempt := t.attempts[attempt].(state := final)]
          else t.attempts);
      match InsertMessage(settled, CompletionRow(k, attempt, text))
      case None => None
      case Some(u) => Some((u, true))
  }

  /** Deletes a session that has no active agent; late writers find it closed. */
  function DropSession(t: Tables, session: string): Option<Tables> {
    if ActiveIn(t, session) != {} then None
    else Some(Tables(
      map k | k in t.agents && k.session != session :: t.agents[k],
      map a | a in t.attempts && t.attempts[a].session != session :: t.attempts[a],
      map q | q in t.mailbox && t.mailbox[q].session != session :: t.mailbox[q],
      t.next, t.closed + {session}))
  }
}
