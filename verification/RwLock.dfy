/**
 * The readers-writer lock: readers share, writers exclude, and a waiting writer keeps new readers
 * out. One step is one section under the condition's lock; a task that finds its predicate false
 * sleeps until a release wakes everyone.
 */
module RwLock {

  type Task = nat

  datatype Phase = ReaderAsleep | ReaderAwake | WriterAsleep | WriterAwake | Reading | Writing

  /** A task without a phase is outside. */
  datatype Lock = Lock(readers: nat, writing: bool, waiting: nat, phase: map<Task, Phase>)

  datatype Step =
    | ArriveRead(a: Task)
    | ArriveWrite(a: Task)
    | Retry(a: Task)
    | ReleaseRead(a: Task)
    | ReleaseWrite(a: Task)

  predicate MayRead(l: Lock) { !l.writing && l.waiting == 0 }

  predicate MayWrite(l: Lock) { !l.writing && l.readers == 0 }

  predicate At(l: Lock, a: Task, p: Phase) { a in l.phase && l.phase[a] == p }

  function AwakeOf(p: Phase): Phase {
    match p case ReaderAsleep => ReaderAwake case WriterAsleep => WriterAwake case _ => p
  }

  /** Everyone who sleeps wakes up. */
  function NotifyAll(phase: map<Task, Phase>): map<Task, Phase> {
    map a | a in phase :: AwakeOf(phase[a])
  }

  function TryRead(l: Lock, a: Task): Lock {
    if MayRead(l) then l.(readers := l.readers + 1, phase := l.phase[a := Reading])
    else l.(phase := l.phase[a := ReaderAsleep])
  }

  /** The caller is already counted among the waiting writers. */
  function TryWrite(l: Lock, a: Task): Lock
    requires l.waiting > 0
  {
    if MayWrite(l) then l.(waiting := l.waiting - 1, writing := true, phase := l.phase[a := Writing])
    else l.(phase := l.phase[a := WriterAsleep])
  }

  /** What a task can do next; a step that is none of these is not taken. */
  predicate Possible(l: Lock, step: Step) {
    match step
    case ArriveRead(a) => a !in l.phase
    case ArriveWrite(a) => a !in l.phase
    case Retry(a) => At(l, a, ReaderAwake) || (At(l, a, WriterAwake) && l.waiting > 0)
    case ReleaseRead(a) => At(l, a, Reading)
    case ReleaseWrite(a) => At(l, a, Writing)
  }

  function Do(l: Lock, step: Step): Lock {
    if !Possible(l, step) then l
    else match step
    case ArriveRead(a) => TryRead(l, a)
    case ArriveWrite(a) => TryWrite(l.(waiting := l.waiting + 1), a)
    case Retry(a) => if At(l, a, ReaderAwake) then TryRead(l, a) else TryWrite(l, a)
    case ReleaseRead(a) => l.(readers := if l.readers == 0 then 0 else l.readers - 1, phase := NotifyAll(l.phase - {a}))
    case ReleaseWrite(a) => l.(writing := false, phase := NotifyAll(l.phase - {a}))
  }

  const FREE := Lock(0, false, 0, map[])

  function Run(steps: seq<Step>): Lock {
    if steps == [] then FREE else Do(Run(steps[..|steps| - 1]), steps[|steps| - 1])
  }

  // ---- the invariant ----

  predicate IsReader(p: Phase) { p == Reading }
  predicate IsWaitingWriter(p: Phase) { p == WriterAsleep || p == WriterAwake }

  function Readers(l: Lock): set<Task> { set a | a in l.phase && IsReader(l.phase[a]) }
  function WaitingWriters(l: Lock): set<Task> { set a | a in l.phase && IsWaitingWriter(l.phase[a]) }

  ghost predicate CountsOk(l: Lock) {
    |Readers(l)| == l.readers && |WaitingWriters(l)| == l.waiting
  }

  ghost predicate OwnersOk(l: Lock) {
    && (l.writing ==> l.readers == 0)
    && (forall a | At(l, a, Writing) :: l.writing)
    && (forall a, b | At(l, a, Writing) && At(l, b, Writing) :: a == b)
    && (l.writing ==> exists a :: At(l, a, Writing))
  }

  /** Whoever sleeps could not go on now. */
  ghost predicate SleepersOk(l: Lock) {
    && (forall a | At(l, a, ReaderAsleep) :: !MayRead(l))
    && (forall a | At(l, a, WriterAsleep) :: !MayWrite(l))
  }

  ghost predicate LockOk(l: Lock) {
    CountsOk(l) && OwnersOk(l) && SleepersOk(l)
  }

  // ---- counting ----

  lemma OneMoreOrLess(was: set<Task>, now: set<Task>, a: Task)
    requires now - {a} == was - {a}
    ensures |now| == |was| - (if a in was then 1 else 0) + (if a in now then 1 else 0)
  {
    assert |now| == |now - {a}| + (if a in now then 1 else 0);
    assert |was| == |was - {a}| + (if a in was then 1 else 0);
  }

  /** One task's phase changes; the counts of the others stay. */
  lemma Recount(l: Lock, x: Lock, a: Task)
    requires a in x.phase && x.phase == l.phase[a := x.phase[a]]
    ensures |Readers(x)| == |Readers(l)| - (if a in l.phase && IsReader(l.phase[a]) then 1 else 0) +
      (if IsReader(x.phase[a]) then 1 else 0)
    ensures |WaitingWriters(x)| == |WaitingWriters(l)| - (if a in l.phase && IsWaitingWriter(l.phase[a]) then 1 else 0)
      + (if IsWaitingWriter(x.phase[a]) then 1 else 0)
  {
    var c, d := IsReader(x.phase[a]), IsWaitingWriter(x.phase[a]);
    assert Readers(x) - {a} == Readers(l) - {a};
    assert WaitingWriters(x) - {a} == WaitingWriters(l) - {a};
    assert a in l.phase ==>
      (a in Readers(l) <==> IsReader(l.phase[a])) && (a in WaitingWriters(l) <==> IsWaitingWriter(l.phase[a]));
    assert (a in Readers(x) <==> c) && (a in WaitingWriters(x) <==> d);
    assert a !in l.phase ==> a !in Readers(l) && a !in WaitingWriters(l);
    hide Readers, WaitingWriters, IsReader, IsWaitingWriter;
    OneMoreOrLess(Readers(l), Readers(x), a);
    OneMoreOrLess(WaitingWriters(l), WaitingWriters(x), a);
  }

  lemma NotifyKeepsCounts(l: Lock, x: Lock, a: Task)
    requires x.phase == NotifyAll(l.phase - {a}) && a in l.phase
    ensures |Readers(x)| == |Readers(l)| - (if IsReader(l.phase[a]) then 1 else 0)
    ensures |WaitingWriters(x)| == |WaitingWriters(l)| - (if IsWaitingWriter(l.phase[a]) then 1 else 0)
  {
    NotifySets(l, x, a);
    hide NotifyAll, Readers, WaitingWriters;
    assert IsReader(l.phase[a]) <==> a in Readers(l) by { InSets(l, a); }
    assert IsWaitingWriter(l.phase[a]) <==> a in WaitingWriters(l) by { InSets(l, a); }
  }

  lemma InSets(l: Lock, a: Task)
    requires a in l.phase
    ensures IsReader(l.phase[a]) <==> a in Readers(l)
    ensures IsWaitingWriter(l.phase[a]) <==> a in WaitingWriters(l)
  {
  }

  lemma NotifySets(l: Lock, x: Lock, a: Task)
    requires x.phase == NotifyAll(l.phase - {a})
    ensures Readers(x) == Readers(l) - {a}
    ensures WaitingWriters(x) == WaitingWriters(l) - {a}
  {
  }

  lemma Counted(l: Lock, a: Task)
    requires CountsOk(l) && a in l.phase
    ensures IsReader(l.phase[a]) ==> l.readers > 0
    ensures IsWaitingWriter(l.phase[a]) ==> l.waiting > 0
  {
    assert IsReader(l.phase[a]) ==> a in Readers(l);
    assert IsWaitingWriter(l.phase[a]) ==> a in WaitingWriters(l);
  }

  lemma CountedBack(l: Lock)
    requires CountsOk(l)
    ensures l.readers > 0 ==> exists a :: At(l, a, Reading)
    ensures l.waiting > 0 ==> exists a :: At(l, a, WriterAsleep) || At(l, a, WriterAwake)
  {
    if l.readers > 0 {
      assert Readers(l) != {};
      var a :| a in Readers(l);
      assert At(l, a, Reading);
    }
    if l.waiting > 0 {
      assert WaitingWriters(l) != {};
      var a :| a in WaitingWriters(l);
      assert At(l, a, WriterAsleep) || At(l, a, WriterAwake);
    }
  }

  // ---- every step keeps it ----

  lemma TryReadKeeps(l: Lock, a: Task)
    requires LockOk(l) && (a !in l.phase || l.phase[a] == ReaderAwake)
    ensures LockOk(TryRead(l, a))
  {
    var x := TryRead(l, a);
    Recount(l, x, a);
    assert CountsOk(x);
    hide CountsOk;
    assert forall b, p | b != a :: At(x, b, p) <==> At(l, b, p);
    OthersKeepOwners(l, x, a);
  }

  lemma OthersKeepOwners(l: Lock, x: Lock, a: Task)
    requires OwnersOk(l) && x.writing == l.writing && (l.writing ==> x.readers == 0)
    requires !At(l, a, Writing) && !At(x, a, Writing)
    requires forall b, p | b != a :: At(x, b, p) <==> At(l, b, p)
    ensures OwnersOk(x)
  {
  }

  lemma WriterEnters(l: Lock, x: Lock, a: Task)
    requires LockOk(l) && (a !in l.phase || l.phase[a] == WriterAwake) && MayWrite(l)
    requires x.readers == l.readers && x.writing && x.phase == l.phase[a := Writing]
    requires x.waiting == l.waiting - if a in l.phase then 1 else 0
    ensures LockOk(x)
  {
    Recount(l, x, a);
    assert CountsOk(x);
    hide CountsOk;
    assert At(x, a, Writing);
    assert forall b | At(x, b, Writing) && b != a :: At(l, b, Writing);
  }

  lemma WriterSleeps(l: Lock, x: Lock, a: Task)
    requires LockOk(l) && (a !in l.phase || l.phase[a] == WriterAwake) && !MayWrite(l)
    requires x == l.(waiting := l.waiting + if a in l.phase then 0 else 1, phase := l.phase[a := WriterAsleep])
    ensures LockOk(x)
  {
    Recount(l, x, a);
    assert CountsOk(x);
    hide CountsOk;
    assert forall b, p | b != a :: At(x, b, p) <==> At(l, b, p);
    OthersKeepOwners(l, x, a);
  }

  /** A release: its owner leaves and nobody sleeps. */
  lemma ReleaseKeeps(l: Lock, x: Lock, a: Task)
    requires LockOk(l) && a in l.phase && (l.phase[a] == Reading || l.phase[a] == Writing)
    requires x == Do(l, if l.phase[a] == Reading then ReleaseRead(a) else ReleaseWrite(a))
    ensures LockOk(x)
  {
    NotifyKeepsCounts(l, x, a);
    Counted(l, a);
    assert CountsOk(x);
    CountedBack(l);
    hide CountsOk;
    assert forall b :: At(x, b, Writing) <==> b != a && At(l, b, Writing);
    if l.writing && l.phase[a] == Reading {
      assert false;
    }
    assert forall b :: !At(x, b, ReaderAsleep) && !At(x, b, WriterAsleep);
  }

  lemma StepKeepsLock(l: Lock, step: Step)
    requires LockOk(l)
    ensures LockOk(Do(l, step))
  {
    var x := Do(l, step);
    hide LockOk;
    if Possible(l, step) {
      match step {
        case ArriveRead(a) => TryReadKeeps(l, a);
        case ArriveWrite(a) => if MayWrite(l) { WriterEnters(l, x, a); } else { WriterSleeps(l, x, a); }
        case Retry(a) =>
          if At(l, a, ReaderAwake) {
            TryReadKeeps(l, a);
          } else if MayWrite(l) {
            WriterEnters(l, x, a);
          } else {
            WriterSleeps(l, x, a);
          }
        case ReleaseRead(a) => ReleaseKeeps(l, x, a);
        case ReleaseWrite(a) => ReleaseKeeps(l, x, a);
      }
    }
  }

  lemma {:induction false} RunKeepsLock(steps: seq<Step>)
    ensures LockOk(Run(steps))
  {
    if steps != [] {
      RunKeepsLock(steps[..|steps| - 1]);
      StepKeepsLock(Run(steps[..|steps| - 1]), steps[|steps| - 1]);
    }
  }

  // ---- what it means ----

  /** Never a writer together with a reader or a second writer; the counters count. */
  lemma Exclusion(steps: seq<Step>, a: Task, b: Task)
    requires a != b && At(Run(steps), a, Writing)
    ensures !At(Run(steps), b, Writing) && !At(Run(steps), b, Reading)
    ensures |WaitingWriters(Run(steps))| == Run(steps).waiting && |Readers(Run(steps))| == Run(steps).readers
  {
    RunKeepsLock(steps);
    hide Run;
    if At(Run(steps), b, Reading) {
      Counted(Run(steps), b);
    }
  }

  /** No reader gets in while a writer waits, asleep or awake. */
  lemma WritersFirst(steps: seq<Step>, step: Step, a: Task, w: Task)
    requires At(Run(steps), w, WriterAsleep) || At(Run(steps), w, WriterAwake)
    ensures At(Do(Run(steps), step), a, Reading) ==> At(Run(steps), a, Reading)
  {
    RunKeepsLock(steps);
    hide Run;
    Counted(Run(steps), w);
  }

  /** No wakeup is lost: whoever sleeps has someone to wake it, the writer or a reader inside, or a
      writer that is awake and can go in at once. */
  lemma NoLostWakeup(steps: seq<Step>, a: Task)
    requires At(Run(steps), a, ReaderAsleep) || At(Run(steps), a, WriterAsleep)
    ensures var l := Run(steps);
      || (exists b :: At(l, b, Reading) || At(l, b, Writing))
      || (exists w :: At(l, w, WriterAwake) && At(Do(l, Retry(w)), w, Writing))
  {
    RunKeepsLock(steps);
    var l := Run(steps);
    hide Run;
    CountedBack(l);
    assert l.writing || l.readers > 0 || l.waiting > 0;
    if !l.writing && l.readers == 0 {
      assert forall w :: !At(l, w, WriterAsleep);
      var w :| At(l, w, WriterAsleep) || At(l, w, WriterAwake);
      assert At(Do(l, Retry(w)), w, Writing);
    } else if l.writing {
      var b :| At(l, b, Writing);
    } else {
      var b :| At(l, b, Reading);
    }
  }

  /** When the last task inside leaves, a waiting writer or else every waiting reader can go in. */
  lemma ReleasePassesOn(steps: seq<Step>, a: Task, b: Task)
    requires var l := Run(steps); (At(l, a, Reading) && l.readers == 1) || At(l, a, Writing)
    requires var l := Run(steps); b != a && b in l.phase
    ensures var l := Run(steps); var x := Do(l, if At(l, a, Reading) then ReleaseRead(a) else ReleaseWrite(a));
      && (At(x, b, WriterAwake) || At(x, b, ReaderAwake))
      && (At(x, b, WriterAwake) ==> At(Do(x, Retry(b)), b, Writing))
      && (At(x, b, ReaderAwake) && WaitingWriters(l) == {} ==> At(Do(x, Retry(b)), b, Reading))
  {
    RunKeepsLock(steps);
    var l := Run(steps);
    var x := Do(l, if At(l, a, Reading) then ReleaseRead(a) else ReleaseWrite(a));
    StepKeepsLock(l, if At(l, a, Reading) then ReleaseRead(a) else ReleaseWrite(a));
    hide Run;
    OnlyOneInside(l, a, b);
    if At(x, b, WriterAwake) {
      Counted(x, b);
    }
  }

  lemma OnlyOneInside(l: Lock, a: Task, b: Task)
    requires LockOk(l) && a != b && ((At(l, a, Reading) && l.readers == 1) || At(l, a, Writing))
    ensures !At(l, b, Reading) && !At(l, b, Writing)
  {
    if At(l, a, Reading) {
      assert a in Readers(l) && |Readers(l) - {a}| == 0;
      assert At(l, b, Reading) ==> b in Readers(l) - {a};
    } else if At(l, b, Reading) {
      Counted(l, b);
      assert false;
    }
  }

  // ---- who gets in ----

  /** Every task but a is where it was. */
  ghost predicate OthersStay(l: Lock, x: Lock, a: Task) {
    forall b, p | b != a :: At(x, b, p) <==> At(l, b, p)
  }

  /** No writer is inside and none waits, asleep or awake. */
  ghost predicate NoWriter(l: Lock) {
    forall b :: !At(l, b, Writing) && !At(l, b, WriterAsleep) && !At(l, b, WriterAwake)
  }

  ghost predicate NobodyInside(l: Lock) {
    forall b :: !At(l, b, Reading) && !At(l, b, Writing)
  }

  /** What the counters say about the tasks. */
  lemma CountersTell(l: Lock)
    requires LockOk(l)
    ensures MayRead(l) <==> NoWriter(l)
    ensures MayWrite(l) <==> NobodyInside(l)
  {
    CountedBack(l);
    forall b | b in l.phase ensures IsReader(l.phase[b]) ==> l.readers > 0
      ensures IsWaitingWriter(l.phase[b]) ==> l.waiting > 0 {
      Counted(l, b);
    }
    hide CountsOk;
  }

  /** In every run a reader that comes or wakes up gets in exactly when no writer is inside and none
      waits, asleep or awake. Otherwise it sleeps. */
  lemma ReaderEntersIff(steps: seq<Step>, a: Task)
    requires a !in Run(steps).phase || At(Run(steps), a, ReaderAwake)
    ensures var l := Run(steps); var x := Do(l, if a in l.phase then Retry(a) else ArriveRead(a));
      && (At(x, a, Reading) <==> NoWriter(l))
      && (!At(x, a, Reading) ==> At(x, a, ReaderAsleep)) && OthersStay(l, x, a)
  {
    RunKeepsLock(steps);
    var l := Run(steps);
    hide Run;
    CountersTell(l);
    hide NoWriter;
  }

  /** And a writer exactly when nobody is inside. */
  lemma WriterEntersIff(steps: seq<Step>, a: Task)
    requires a !in Run(steps).phase || At(Run(steps), a, WriterAwake)
    ensures var l := Run(steps); var x := Do(l, if a in l.phase then Retry(a) else ArriveWrite(a));
      && (At(x, a, Writing) <==> NobodyInside(l))
      && (!At(x, a, Writing) ==> At(x, a, WriterAsleep)) && OthersStay(l, x, a)
  {
    RunKeepsLock(steps);
    var l := Run(steps);
    hide Run;
    CountersTell(l);
    hide NobodyInside;
    if a in l.phase {
      Counted(l, a);
    }
  }

  /** Whoever is inside can leave, and then everyone who slept is awake and nobody else has moved. */
  lemma LeavingWakesAll(steps: seq<Step>, a: Task, b: Task)
    requires At(Run(steps), a, Reading) || At(Run(steps), a, Writing)
    ensures var l := Run(steps); var x := Do(l, if At(l, a, Reading) then ReleaseRead(a) else ReleaseWrite(a));
      && a !in x.phase && (b != a ==> (b in x.phase <==> b in l.phase))
      && (b != a && b in l.phase ==>
           (At(x, b, ReaderAwake) <==> At(l, b, ReaderAsleep) || At(l, b, ReaderAwake))
           && (At(x, b, WriterAwake) <==> At(l, b, WriterAsleep) || At(l, b, WriterAwake))
           && (At(x, b, Reading) <==> At(l, b, Reading)) && (At(x, b, Writing) <==> At(l, b, Writing)))
  {
    hide Run;
  }

  /** Any number of readers can be inside at once. */
  lemma {:induction false} ReadersShare(n: nat) returns (steps: seq<Step>)
    ensures forall a: Task :: a in Run(steps).phase <==> a < n
    ensures forall a: Task | a < n :: At(Run(steps), a, Reading)
  {
    steps := [];
    if n > 0 {
      var before := ReadersShare(n - 1);
      var a: Task := n - 1;
      steps := before + [ArriveRead(a)];
      assert steps[..|steps| - 1] == before && Run(steps) == Do(Run(before), ArriveRead(a));
      ReaderEntersIff(before, a);
      hide Run, Do;
      assert forall b: Task, p | At(Run(before), b, p) :: b < a && p == Reading by {
        forall b: Task, p | At(Run(before), b, p) ensures b < a && p == Reading {
          assert b in Run(before).phase;
          assert At(Run(before), b, Reading);
        }
      }
      assert At(Run(steps), a, Reading);
      assert forall b: Task | b < a :: At(Run(before), b, Reading);
      forall b: Task ensures b in Run(steps).phase <==> b < n {
        if b in Run(before).phase {
          assert At(Run(before), b, Reading);
        } else if b != a && b in Run(steps).phase {
          assert At(Run(before), b, Run(steps).phase[b]);
        }
      }
    }
  }

  // ---- the lock as an object ----

  /** The counters of the lock; `phase` records where each task is, as the condition's queue does. */
  class RWLock {
    var readers: nat
    var writing: bool
    var waiting: nat
    var phase: map<Task, Phase>

    ghost function View(): Lock
      reads this
    {
      Lock(readers, writing, waiting, phase)
    }

    constructor ()
      ensures View() == FREE
    {
      readers, writing, waiting, phase := 0, false, 0, map[];
    }

    /** One pass of `wait_for` for a reader, on arrival or after a wakeup. */
    method AcquireRead(a: Task) returns (entered: bool)
      requires a !in phase || phase[a] == ReaderAwake
      modifies this`readers, this`phase
      ensures View() == old(Do(View(), if a in phase then Retry(a) else ArriveRead(a)))
      ensures entered <==> At(View(), a, Reading)
      ensures old(LockOk(View())) ==> (entered <==> old(NoWriter(View())))
    {
      if LockOk(View()) {
        CountersTell(View());
      }
      entered := !writing && waiting == 0;
      if entered {
        readers, phase := readers + 1, phase[a := Reading];
      } else {
        phase := phase[a := ReaderAsleep];
      }
    }

    /** The same for a writer, which counts itself once on arrival. */
    method AcquireWrite(a: Task) returns (entered: bool)
      requires LockOk(View()) && (a !in phase || phase[a] == WriterAwake)
      modifies this`writing, this`waiting, this`phase
      ensures View() == old(Do(View(), if a in phase then Retry(a) else ArriveWrite(a)))
      ensures entered <==> At(View(), a, Writing) && old(NobodyInside(View()))
      ensures old(NobodyInside(View())) ==> entered
    {
      CountersTell(View());
      if a !in phase {
        waiting := waiting + 1;
      } else {
        Counted(View(), a);
      }
      entered := !writing && readers == 0;
      if entered {
        waiting, writing, phase := waiting - 1, true, phase[a := Writing];
      } else {
        phase := phase[a := WriterAsleep];
      }
    }

    method LeaveRead(a: Task)
      requires a in phase && phase[a] == Reading
      modifies this`readers, this`phase
      ensures View() == old(Do(View(), ReleaseRead(a)))
    {
      readers, phase := if readers == 0 then 0 else readers - 1, NotifyAll(phase - {a});
    }

    method LeaveWrite(a: Task)
      requires a in phase && phase[a] == Writing
      modifies this`writing, this`phase
      ensures View() == old(Do(View(), ReleaseWrite(a)))
    {
      writing, phase := false, NotifyAll(phase - {a});
    }
  }
}
