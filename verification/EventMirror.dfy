/**
 * The trimmed event buffer of a channel and its cursor reads: a poller that asks for what is new
 * misses nothing that is still kept.
 */
module EventMirror {

  datatype Event = Event(n: nat, text: string)

  /** What a client sends back: nothing, `ev-` with a number in the usual or another spelling, or anything else. */
  datatype Cursor = NoCursor | Numbered(n: int, canonical: bool) | Other

  /** The kept events are the latest ones, numbered without gaps. */
  ghost predicate Consecutive(events: seq<Event>, last: nat) {
    |events| <= last && forall i | 0 <= i < |events| :: events[i].n == last - |events| + 1 + i
  }

  /** The events above n among the first m. */
  function AboveIn(events: seq<Event>, m: nat, n: int): seq<Event>
    requires m <= |events|
  {
    if m == 0 then [] else AboveIn(events, m - 1, n) + if events[m - 1].n > n then [events[m - 1]] else []
  }

  /** The kept events above n. */
  function Above(events: seq<Event>, n: int): seq<Event> {
    AboveIn(events, |events|, n)
  }

  /** How many of the kept events are not above n. */
  function UpTo(events: seq<Event>, last: nat, n: int): (k: int)
  {
    if n >= last then |events| else if n <= last - |events| then 0 else n - (last - |events|)
  }

  lemma {:induction false} AboveInIsTail(events: seq<Event>, last: nat, m: nat, n: int)
    requires Consecutive(events, last) && m <= |events|
    ensures 0 <= UpTo(events, last, n) <= |events|
    ensures AboveIn(events, m, n) == if UpTo(events, last, n) >= m then [] else events[UpTo(events, last, n)..m]
  {
    var k := UpTo(events, last, n);
    if m > 0 {
      AboveInIsTail(events, last, m - 1, n);
      assert events[m - 1].n == last - |events| + m;
      assert events[m - 1].n > n <==> k < m;
      hide Consecutive, UpTo;
      if k < m {
        assert events[k..m] == events[k..m - 1] + [events[m - 1]];
      }
    }
  }

  /** Where a cursor stands that is the number of a kept event. */
  lemma CursorIsKept(events: seq<Event>, last: nat, i: nat)
    requires Consecutive(events, last) && i < |events|
    ensures events[i].n <= last && Above(events, events[i].n) == events[i + 1..]
  {
    AboveIsTail(events, last, events[i].n);
  }

  lemma NothingAbove(events: seq<Event>, last: nat, n: int)
    requires Consecutive(events, last)
    ensures events != [] && n > last ==> Above(events, n) == []
    ensures n <= last && Above(events, n) == [] && events != [] ==> n == last
    ensures events == [] ==> Above(events, n) == []
  {
    AboveIsTail(events, last, n);
  }

  lemma AboveIsTail(events: seq<Event>, last: nat, n: int)
    requires Consecutive(events, last)
    ensures 0 <= UpTo(events, last, n) <= |events| && Above(events, n) == events[UpTo(events, last, n)..]
  {
    AboveInIsTail(events, last, |events|, n);
  }

  /** Reading on from the number of the last event a client has seen gives exactly the later events
      still kept; a number from before a restart, above the current one, gives everything. */
  function Since(events: seq<Event>, last: nat, c: Cursor): seq<Event> {
    match c
    case Numbered(n, _) => if n <= last then Above(events, n) else events
    case _ => events
  }

  class ChannelMirror {
    const maxEvents: nat
    var events: seq<Event>
    var eventSeq: nat

    constructor (max: int)
      ensures maxEvents == (if max < 16 then 16 else max) && events == [] && eventSeq == 0 && Valid()
    {
      maxEvents := if max < 16 then 16 else max;
      events, eventSeq := [], 0;
    }

    /** How many events are kept at least once there have been that many. */
    function Floor(): nat { maxEvents + 1 - maxEvents / 2 }

    ghost predicate Valid()
      reads this
    {
      && maxEvents >= 16 && Consecutive(events, eventSeq) && |events| <= maxEvents
      && |events| >= if eventSeq < Floor() then eventSeq else Floor()
    }

    method PushEvent(text: string) returns (e: Event)
      requires Valid()
      modifies this`events, this`eventSeq
      ensures Valid() && eventSeq == old(eventSeq) + 1 && e == Event(eventSeq, text)
      ensures events == (old(events) + [e])[if |old(events)| < maxEvents then 0 else maxEvents / 2..]
    {
      eventSeq := eventSeq + 1;
      e := Event(eventSeq, text);
      events := events + [e];
      if |events| > maxEvents {
        events := events[maxEvents / 2..];
      }
    }

    method IndexOf(n: int) returns (i: nat)
      ensures i <= |events| && (i < |events| ==> events[i].n == n) && forall k | 0 <= k < i :: events[k].n != n
    {
      i := 0;
      while i < |events| && events[i].n != n
        invariant i <= |events| && forall k | 0 <= k < i :: events[k].n != n
      {
        i := i + 1;
      }
    }

    /** The loop over all events: those above n, and the highest number. */
    method Scan(n: int) returns (out: seq<Event>, top: int)
      requires Consecutive(events, eventSeq)
      ensures out == Above(events, n) && top == if events == [] then 0 else eventSeq
    {
      out, top := [], 0;
      for i := 0 to |events|
        invariant out == AboveIn(events, i, n) && top == (if i == 0 then 0 else events[i - 1].n)
      {
        assert events[i].n == eventSeq - |events| + 1 + i;
        top := if events[i].n > top then events[i].n else top;
        if events[i].n > n {
          out := out + [events[i]];
        }
      }
    }

    method EventsSince(after: Cursor) returns (out: seq<Event>)
      requires Valid()
      ensures out == Since(events, eventSeq, after)
    {
      hide Above, Consecutive;
      if !after.Numbered? {
        return events;
      }
      var n := after.n;
      if after.canonical {
        var i := IndexOf(n);
        if i < |events| {
          CursorIsKept(events, eventSeq, i);
          return events[i + 1..];
        }
      }
      NothingAbove(events, eventSeq, n);
      var top: int;
      out, top := Scan(n);
      if out == [] && events != [] && n > top {
        return events;
      }
    }
  }

  // ---- what a poller gets ----

  /** A client that has everything up to its cursor has, after reading, everything up to the last
      event, provided trimming has not overtaken it. */
  lemma NothingMissed(events: seq<Event>, last: nat, n: nat, canonical: bool)
    requires Consecutive(events, last) && last - |events| <= n <= last
    ensures var got := Since(events, last, Numbered(n, canonical));
      |got| == last - n && forall i | 0 <= i < |got| :: got[i].n == n + 1 + i
  {
    AboveIsTail(events, last, n);
  }

  /** However far behind the cursor, exactly the kept events above it, oldest first; all of them
      without a number, and for one from before a restart. */
  lemma SinceExactly(events: seq<Event>, last: nat, c: Cursor, e: Event)
    requires Consecutive(events, last)
    ensures e in Since(events, last, c) <==> (e in events && (c.Numbered? && c.n <= last ==> e.n > c.n))
    ensures exists k :: 0 <= k <= |events| && Since(events, last, c) == events[k..]
  {
    assert events[0..] == events;
    if c.Numbered? && c.n <= last {
      AboveIsTail(events, last, c.n);
      var k := UpTo(events, last, c.n);
      assert forall i | 0 <= i < |events| :: i >= k <==> events[i].n > c.n;
      if e in events && e.n > c.n {
        var i :| 0 <= i < |events| && events[i] == e;
        assert events[k..][i - k] == e;
      }
    }
  }
}
