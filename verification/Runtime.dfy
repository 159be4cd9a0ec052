/**
 * The agent runtime as a state machine: the durable tables, and for every recipient the message
 * list in memory, the transcript on disk and how far a delivery has got. Every transaction,
 * every stage of a delivery and every crash is one step.
 */
module Runtime {
  import opened Options
  import opened RunStore

  /** The id of a conversation message: the stable id of a mailbox packet, or any other message. */
  datatype MsgId = Mail(session: string, sender: string, mid: string) | Turn(n: nat)

  /** The stages of one delivery, which holds the recipient's delivery lease throughout. */
  datatype Phase =
    | Idle
    | Reserved(rows: seq<nat>, attempt: string)
    | Appended(rows: seq<nat>, attempt: string)
    | Flushed(rows: seq<nat>, attempt: string)

  /** `used` and `settled` are history: attempt ids handed out, and attempts settled, in order. */
  datatype World = World(
    t: Tables, mem: map<Key, seq<MsgId>>, disk: map<Key, seq<MsgId>>, phase: map<Key, Phase>,
    used: set<string>, settled: seq<string>)

  datatype Limits = Limits(session: nat, total: nat)

  function Ids(m: map<Key, seq<MsgId>>, k: Key): seq<MsgId> {
    if k in m then m[k] else []
  }

  function PhaseOf(w: World, k: Key): Phase {
    if k in w.phase then w.phase[k] else Idle
  }

  /** The packet's id depends only on the row's identity. */
  function Packet(r: Row): MsgId {
    Mail(r.session, r.sender, r.mid)
  }

  function Packets(mailbox: map<nat, Row>, rows: seq<nat>): seq<MsgId>
    requires forall i | 0 <= i < |rows| :: rows[i] in mailbox
  {
    seq(|rows|, i requires 0 <= i < |rows| => Packet(mailbox[rows[i]]))
  }

  /** Appends the ids that are not there yet. */
  function AppendMissing(mem: seq<MsgId>, ids: seq<MsgId>): seq<MsgId>
    decreases |ids|
  {
    if ids == [] then mem
    else AppendMissing(if ids[0] in mem then mem else mem + [ids[0]], ids[1..])
  }

  datatype Step =
    | SendStep(to: Key, sender: string, text: string, mid: string, expected: string, senderAttempt: string)
    | WithdrawStep(k: Key, mid: string, text: string, sender: string)
    | StartStep(k: Key, fixed: string, scope: seq<string>, attempt: string, fence: Option<string>)
    | FinishStep(k: Key, attempt: string, final: RunState, text: string)
    | DropStep(session: string)
    | ReserveStep(k: Key, attempt: string)
    | AppendStep(k: Key)
    | RecordStep(k: Key, n: nat)
    | FlushStep(k: Key)
    | AckStep(k: Key)
    | AbandonStep(k: Key)
    | CrashStep(k: Key)
    | TalkStep(k: Key, n: nat)

  function WithTables(w: World, o: Option<Tables>): World {
    match o case None => w case Some(t) => w.(t := t)
  }

  /** No delivery of the session is under way: its delivery leases are free. */
  ghost predicate SessionIdle(w: World, session: string) {
    forall k | k in w.phase && k.session == session :: w.phase[k] == Idle
  }

  ghost function Do(lim: Limits, w: World, step: Step): World {
    match step
    case SendStep(to, sender, text, mid, expected, sa) => WithTables(w, Send(w.t, to, sender, text, mid, expected, sa))
    case WithdrawStep(k, mid, text, sender) => w.(t := RemoveMessage(w.t, k, mid, text, sender))
    case StartStep(k, fixed, scope, attempt, expected) =>
      (match Start(w.t, k, fixed, scope, attempt, expected, lim.session, lim.total)
       case None => w
       case Some(t) => w.(t := t, used := w.used + {attempt}, mem := w.mem[k := Ids(w.disk, k)]))
    case FinishStep(k, attempt, final, text) =>
      if !IsTerminal(final) then w
      else (match Finish(w.t, k, attempt, final, text)
            case None => w
            case Some(r) => w.(t := r.0, settled := if r.1 then w.settled + [attempt] else w.settled))
    case DropStep(session) =>
      if SessionIdle(w, session) then WithTables(w, DropSession(w.t, session)) else w
    case ReserveStep(k, attempt) =>
      if PhaseOf(w, k) != Idle || !MayDeliver(w.t, k, attempt) || ToClaim(w.t, k) == [] then w
      else WithTables(w, ClaimMessages(w.t, k, attempt)).(phase := w.phase[k := Reserved(ToClaim(w.t, k), attempt)])
    case AppendStep(k) =>
      (match PhaseOf(w, k)
       case Reserved(rows, attempt) =>
         if forall i | 0 <= i < |rows| :: rows[i] in w.t.mailbox then
           w.(mem := w.mem[k := AppendMissing(Ids(w.mem, k), Packets(w.t.mailbox, rows))],
             phase := w.phase[k := Appended(rows, attempt)])
         else w
       case _ => w)
    case RecordStep(k, n) =>
      if |Ids(w.disk, k)| <= n <= |Ids(w.mem, k)| then w.(disk := w.disk[k := Ids(w.mem, k)[..n]]) else w
    case FlushStep(k) =>
      (match PhaseOf(w, k)
       case Appended(rows, attempt) =>
         w.(disk := w.disk[k := Ids(w.mem, k)], phase := w.phase[k := Flushed(rows, attempt)])
       case _ => w)
    case AckStep(k) =>
      (match PhaseOf(w, k)
       case Flushed(rows, attempt) => WithTables(w, Acknowledge(w.t, k, rows, attempt)).(phase := w.phase[k := Idle])
       case _ => w)
    case AbandonStep(k) => w.(phase := w.phase[k := Idle])
    case CrashStep(k) => w.(phase := w.phase[k := Idle], mem := w.mem[k := Ids(w.disk, k)])
    case TalkStep(k, n) => w.(mem := w.mem[k := Ids(w.mem, k) + [Turn(n)]])
  }

  predicate UserMid(mid: string) {
    !(CompletionId("") <= mid)
  }

  /** What is assumed of the environment: users do not choose ids reserved for completions, attempt
      ids are fresh and not empty, and an agent's new attempt starts after deliveries to the old one are over. */
  ghost predicate Allowed(w: World, step: Step) {
    match step
    case SendStep(to, sender, text, mid, expected, sa) => UserMid(mid)
    case StartStep(k, fixed, scope, attempt, expected) => attempt !in w.used && attempt != "" && PhaseOf(w, k) == Idle
    case _ => true
  }

  const EMPTY := World(Tables(map[], map[], map[], 0, {}), map[], map[], map[], {}, [])

  ghost function Run(lim: Limits, steps: seq<Step>): World {
    if steps == [] then EMPTY else Do(lim, Run(lim, steps[..|steps| - 1]), steps[|steps| - 1])
  }

  ghost predicate AllowedRun(lim: Limits, steps: seq<Step>) {
    steps == [] ||
    (AllowedRun(lim, steps[..|steps| - 1]) && Allowed(Run(lim, steps[..|steps| - 1]), steps[|steps| - 1]))
  }
}
