/**
 * 8-connected component labelling by repeated floods from the first unseen pixel, keeping the
 * size and bounding box of every component large enough.
 */
module Labelling {
  import opened Collections
  import opened Digraph
  import opened Grid

  const MIN_AREA := 12

  /** Left, top, right, bottom, the last two exclusive. */
  datatype Box = Box(left: int, top: int, right: int, bottom: int)

  datatype Found = Found(area: nat, box: Box)

  // ---- what is to be found ----

  /** Everything reachable from any of its pixels, and nothing else. */
  ghost predicate IsComponent(on: set<Pixel>, c: set<Pixel>) {
    && c != {} && c <= on
    && forall u, v | u in c && v in on :: v in c <==> Reach(Graph8(on), u, v)
  }

  /** The smallest box around c, shifted to the crop's position. */
  ghost predicate IsTightBox(c: set<Pixel>, b: Box, left: int, top: int) {
    && (forall p | p in c :: b.left <= left + p.x < b.right && b.top <= top + p.y < b.bottom)
    && (exists p :: p in c && left + p.x == b.left) && (exists p :: p in c && left + p.x == b.right - 1)
    && (exists p :: p in c && top + p.y == b.top) && (exists p :: p in c && top + p.y == b.bottom - 1)
  }

  ghost predicate Measures(f: Found, c: set<Pixel>, left: int, top: int) {
    f.area == |c| && IsTightBox(c, f.box, left, top)
  }

  /** The components worth reporting. */
  ghost function Large(all: seq<set<Pixel>>): seq<set<Pixel>> {
    if all == [] then []
    else Large(all[..|all| - 1]) + if |all[|all| - 1]| >= MIN_AREA then [all[|all| - 1]] else []
  }

  ghost predicate Reports(found: seq<Found>, kept: seq<set<Pixel>>, left: int, top: int) {
    |found| == |kept| && forall i | 0 <= i < |found| :: Measures(found[i], kept[i], left, top)
  }

  /** Each component of at least 12 pixels once, and nothing else. */
  ghost predicate ListsLarge(on: set<Pixel>, kept: seq<set<Pixel>>) {
    && (forall c :: c in kept <==> IsComponent(on, c) && |c| >= MIN_AREA)
    && (forall i, j | 0 <= i < j < |kept| :: kept[i] !! kept[j])
  }

  ghost predicate Partition(on: set<Pixel>, seen: set<Pixel>, all: seq<set<Pixel>>) {
    && (forall i | 0 <= i < |all| :: IsComponent(on, all[i]) && all[i] <= seen)
    && (forall i, j | 0 <= i < j < |all| :: all[i] !! all[j])
    && (forall p | p in seen :: exists i :: 0 <= i < |all| && p in all[i])
  }

  // ---- one flood ----

  /** What a flood knows while it runs: `done` are the pixels taken from the queue. */
  ghost predicate FloodOk(on: set<Pixel>, before: set<Pixel>, start: Pixel, done: seq<Pixel>, q: seq<Pixel>,
      seen: set<Pixel>) {
    && Distinct(done + q) && seen == before + Elems(done + q) && Elems(done + q) !! before
    && start in seen && start !in before
    && (forall p | p in done + q :: p in on && Reach(Graph8(on), start, p))
    && (forall p, r | p in done && r in on && Near8(p, r) :: r in seen)
  }

  /** Components seen earlier cannot be entered. */
  ghost predicate Shut(on: set<Pixel>, before: set<Pixel>) {
    forall p, r | p in before && r in on && Near8(p, r) :: r in before
  }

  lemma FloodFinds(on: set<Pixel>, before: set<Pixel>, start: Pixel, done: seq<Pixel>, seen: set<Pixel>)
    requires FloodOk(on, before, start, done, [], seen) && Shut(on, before) && before <= on
    ensures IsComponent(on, Elems(done)) && Shut(on, seen) && seen == before + Elems(done) && before !! Elems(done)
  {
    assert done + [] == done;
    var c, g := Elems(done), Graph8(on);
    forall p, r | p in c && r in on && Near8(p, r) ensures r in c {
      assert r in seen;
      assert Near8(r, p);
    }
    assert ClosedUnder(g, c);
    forall u, v | u in c && v in on ensures v in c <==> Reach(g, u, v) {
      Connected(on, c, start, u, v);
    }
  }

  lemma Connected(on: set<Pixel>, c: set<Pixel>, start: Pixel, u: Pixel, v: Pixel)
    requires start in on && u in c && v in on && ClosedUnder(Graph8(on), c)
    requires forall p | p in c :: Reach(Graph8(on), start, p)
    ensures v in c <==> Reach(Graph8(on), u, v)
  {
    var g := Graph8(on);
    if v in c {
      Reverse8(on, start, u);
      ReachTrans(g, u, start, v);
    } else if Reach(g, u, v) {
      ReachStaysIn(g, c, u, v);
    }
  }

  /** The queue gains new neighbours of p, taken from its front. */
  lemma FloodStep(on: set<Pixel>, before: set<Pixel>, start: Pixel, done: seq<Pixel>, q: seq<Pixel>, added: seq<Pixel>,
                  seen: set<Pixel>, now: set<Pixel>)
    requires q != [] && FloodOk(on, before, start, done, q, seen)
    requires Distinct(added) && Elems(added) !! seen && now == seen + Elems(added)
    requires forall r | r in added :: r in on && Near8(q[0], r)
    requires forall r | r in on && Near8(q[0], r) :: r in now
    ensures FloodOk(on, before, start, done + [q[0]], q[1..] + added, now)
  {
    var p, was, all := q[0], done + q, (done + [q[0]]) + (q[1..] + added);
    assert all == was + added;
    assert Elems(all) == Elems(was) + Elems(added);
    assert p in was;
    forall r | r in all ensures r in on && Reach(Graph8(on), start, r) {
      if r in added {
        assert r in Succ(Graph8(on), p);
        ReachEdge(Graph8(on), p, r);
        ReachTrans(Graph8(on), start, p, r);
      }
    }
    forall i, j | 0 <= i < j < |all| ensures all[i] != all[j] {
      if i < |was| <= j {
        assert all[i] in Elems(was) && all[j] in Elems(added);
      }
    }
  }

  // ---- the loops ----

  /** Marks and returns the unseen mask pixels around (cy, cx). */
  method PushNeighbours(m: array2<bool>, seen: array2<bool>, cy: int, cx: int) returns (added: seq<Pixel>)
    requires m != seen && seen.Length0 == m.Length0 && seen.Length1 == m.Length1
    modifies seen
    ensures Distinct(added) && Elems(added) !! old(On(seen)) && On(seen) == old(On(seen)) + Elems(added)
    ensures forall r | r in added :: r in On(m) && Near8(Pixel(cy, cx), r)
    ensures forall r | r in On(m) && Near8(Pixel(cy, cx), r) :: r in On(seen)
  {
    hide On, PushOk;
    added := [];
    ghost var before := On(seen);
    PushStarts(On(m), before, Pixel(cy, cx));
    for dy := -1 to 2
      invariant PushOk(On(m), before, On(seen), added, Pixel(cy, cx))
      invariant forall r | r in On(m) && Near8(Pixel(cy, cx), r) && r.y < cy + dy :: r in On(seen)
    {
      for dx := -1 to 2
        invariant PushOk(On(m), before, On(seen), added, Pixel(cy, cx))
        invariant forall r | r in On(m) && Near8(Pixel(cy, cx), r)
          && (r.y < cy + dy || (r.y == cy + dy && r.x < cx + dx)) :: r in On(seen)
      {
        if dy == 0 && dx == 0 {
          continue;
        }
        added := PushOne(m, seen, cy + dy, cx + dx, added, before, Pixel(cy, cx));
      }
    }
    PushEnds(On(m), before, On(seen), added, Pixel(cy, cx));
  }

  /** Marks and queues one neighbour, unless it is outside, not in the mask, or seen. */
  method PushOne(m: array2<bool>, seen: array2<bool>, ny: int, nx: int, added: seq<Pixel>, ghost before: set<Pixel>,
      ghost p: Pixel)
    returns (more: seq<Pixel>)
    requires m != seen && seen.Length0 == m.Length0 && seen.Length1 == m.Length1
    requires Near8(p, Pixel(ny, nx)) && PushOk(On(m), before, On(seen), added, p)
    modifies seen
    ensures PushOk(On(m), before, On(seen), more, p) && old(On(seen)) <= On(seen)
    ensures Pixel(ny, nx) in On(m) ==> Pixel(ny, nx) in On(seen)
  {
    hide On, PushOk;
    more := added;
    if 0 <= ny < m.Length0 && 0 <= nx < m.Length1 && m[ny, nx] && !seen[ny, nx] {
      MarkOne(On(m), before, On(seen), added, p, Pixel(ny, nx));
      ghost var marked := On(seen);
      seen[ny, nx] := true;
      assert On(seen) == marked + {Pixel(ny, nx)};
      more := added + [Pixel(ny, nx)];
    }
  }

  lemma PushEnds(on: set<Pixel>, before: set<Pixel>, seen: set<Pixel>, added: seq<Pixel>, p: Pixel)
    requires PushOk(on, before, seen, added, p)
    ensures Distinct(added) && Elems(added) !! before && seen == before + Elems(added)
    ensures forall r | r in added :: r in on && Near8(p, r)
  {
  }

  lemma PushStarts(on: set<Pixel>, before: set<Pixel>, p: Pixel)
    ensures PushOk(on, before, before, [], p)
  {
  }

  ghost predicate PushOk(on: set<Pixel>, before: set<Pixel>, seen: set<Pixel>, added: seq<Pixel>, p: Pixel) {
    && Distinct(added) && Elems(added) !! before && seen == before + Elems(added)
    && forall r | r in added :: r in on && Near8(p, r)
  }

  lemma MarkOne(on: set<Pixel>, before: set<Pixel>, seen: set<Pixel>, added: seq<Pixel>, p: Pixel, r: Pixel)
    requires PushOk(on, before, seen, added, p) && r in on && r !in seen && Near8(p, r)
    ensures PushOk(on, before, seen + {r}, added + [r], p)
  {
  }

  /** Floods one component, first in first out. */
  method Flood(m: array2<bool>, seen: array2<bool>, y: int, x: int) returns (done: seq<Pixel>)
    requires m != seen && seen.Length0 == m.Length0 && seen.Length1 == m.Length1
    requires Pixel(y, x) in On(m) && Pixel(y, x) !in On(seen) && On(seen) <= On(m) && Shut(On(m), On(seen))
    modifies seen
    ensures IsComponent(On(m), Elems(done)) && Distinct(done) && Pixel(y, x) in On(seen)
    ensures On(seen) == old(On(seen)) + Elems(done) && old(On(seen)) !! Elems(done)
    ensures On(seen) <= On(m) && Shut(On(m), On(seen))
  {
    hide FloodOk, Shut, IsComponent, Distinct, Elems;
    ghost var before := On(seen);
    var start := Pixel(y, x);
    seen[y, x] := true;
    assert On(seen) == before + {start};
    var q := [start];
    done := [];
    FloodStarts(On(m), before, start, On(seen));
    while q != []
      invariant FloodOk(On(m), before, start, done, q, On(seen))
      decreases |On(m)| - |Elems(done)|
    {
      var c := q[0];
      ghost var was := On(seen);
      var added := PushNeighbours(m, seen, c.y, c.x);
      FloodStep(On(m), before, start, done, q, added, was, On(seen));
      FloodShrinks(On(m), before, start, done, q, was);
      done, q := done + [c], q[1..] + added;
    }
    FloodFinds(On(m), before, start, done, On(seen));
    FloodStays(On(m), before, start, done, [], On(seen));
  }

  lemma FloodStarts(on: set<Pixel>, before: set<Pixel>, start: Pixel, seen: set<Pixel>)
    requires start in on && start !in before && seen == before + {start}
    ensures FloodOk(on, before, start, [], [start], seen)
  {
    ReachSelf(Graph8(on), start);
    assert [] + [start] == [start];
  }

  /** What the queue holds is part of the mask. */
  lemma FloodStays(on: set<Pixel>, before: set<Pixel>, start: Pixel, done: seq<Pixel>, q: seq<Pixel>, seen: set<Pixel>)
    requires FloodOk(on, before, start, done, q, seen) && before <= on
    ensures seen <= on && Distinct(done) && start in seen
  {
    assert forall i | 0 <= i < |done| :: (done + q)[i] == done[i];
  }

  /** Every pixel is taken from the queue once, so the flood ends. */
  lemma FloodShrinks(on: set<Pixel>, before: set<Pixel>, start: Pixel, done: seq<Pixel>, q: seq<Pixel>,
      seen: set<Pixel>)
    requires q != [] && FloodOk(on, before, start, done, q, seen)
    ensures |Elems(done)| < |Elems(done + [q[0]])| <= |on|
  {
    assert (done + q)[|done|] == q[0];
    assert forall i | 0 <= i < |done| :: (done + q)[i] == done[i];
    assert q[0] !in done;
    assert Elems(done + [q[0]]) == Elems(done) + {q[0]};
    assert Elems(done + [q[0]]) <= on;
    SubsetSize(Elems(done + [q[0]]), on);
  }

  /** The smallest and largest coordinates. */
  method Bounds(done: seq<Pixel>) returns (minX: int, minY: int, maxX: int, maxY: int)
    requires done != []
    ensures forall p | p in done :: minX <= p.x <= maxX && minY <= p.y <= maxY
    ensures (exists p :: p in done && p.x == minX) && (exists p :: p in done && p.x == maxX)
    ensures (exists p :: p in done && p.y == minY) && (exists p :: p in done && p.y == maxY)
  {
    minX, minY, maxX, maxY := done[0].x, done[0].y, done[0].x, done[0].y;
    for i := 1 to |done|
      invariant forall j | 0 <= j < i :: minX <= done[j].x <= maxX && minY <= done[j].y <= maxY
      invariant (exists j :: 0 <= j < i && done[j].x == minX) && (exists j :: 0 <= j < i && done[j].x == maxX)
      invariant (exists j :: 0 <= j < i && done[j].y == minY) && (exists j :: 0 <= j < i && done[j].y == maxY)
    {
      var p := done[i];
      minX, minY := if p.x < minX then p.x else minX, if p.y < minY then p.y else minY;
      maxX, maxY := if p.x > maxX then p.x else maxX, if p.y > maxY then p.y else maxY;
    }
  }

  ghost predicate ScanOk(on: set<Pixel>, seen: set<Pixel>, found: seq<Found>, all: seq<set<Pixel>>, left: int,
      top: int) {
    seen <= on && Shut(on, seen) && Partition(on, seen, all) && Reports(found, Large(all), left, top)
  }

  /** Scans the mask row by row and reports every component of at least 12 pixels. */
  method Components(m: array2<bool>, left: int, top: int) returns (found: seq<Found>)
    ensures exists kept :: Reports(found, kept, left, top) && ListsLarge(On(m), kept)
  {
    hide On, ScanOk, Partition, Reports, Large, ListsLarge;
    var seen := new bool[m.Length0, m.Length1]((y, x) => false);
    found := [];
    ghost var all: seq<set<Pixel>> := [];
    ScanStart(On(m), On(seen), left, top);
    for y := 0 to m.Length0
      invariant ScanOk(On(m), On(seen), found, all, left, top)
      invariant forall p | p in On(m) && p.y < y :: p in On(seen)
    {
      for x := 0 to m.Length1
        invariant ScanOk(On(m), On(seen), found, all, left, top)
        invariant forall p | p in On(m) && (p.y < y || (p.y == y && p.x < x)) :: p in On(seen)
      {
        if !m[y, x] || seen[y, x] {
          continue;
        }
        found, all := AddFlood(m, seen, y, x, left, top, found, all);
      }
    }
    ScanDone(On(m), On(seen), found, all, left, top);
  }

  lemma ScanStart(on: set<Pixel>, seen: set<Pixel>, left: int, top: int)
    requires forall p :: p !in seen
    ensures ScanOk(on, seen, [], [], left, top)
  {
  }

  lemma ScanDone(on: set<Pixel>, seen: set<Pixel>, found: seq<Found>, all: seq<set<Pixel>>, left: int, top: int)
    requires ScanOk(on, seen, found, all, left, top) && forall p | p in on :: p in seen
    ensures Reports(found, Large(all), left, top) && ListsLarge(on, Large(all))
  {
    assert seen == on;
    hide Shut, Large, Reports, IsComponent;
    LargeListsAll(on, all);
  }

  lemma LargeListsAll(on: set<Pixel>, all: seq<set<Pixel>>)
    requires Partition(on, on, all)
    ensures ListsLarge(on, Large(all))
  {
    forall c ensures c in Large(all) <==> IsComponent(on, c) && |c| >= MIN_AREA {
      ReportedExactly(on, all, c);
    }
    PairwiseApart(on, all);
    hide Large, IsComponent, Partition;
    forall i, j | 0 <= i < j < |Large(all)| ensures Large(all)[i] !! Large(all)[j] {
      ReportedOnce(all, i, j);
    }
  }

  lemma PairwiseApart(on: set<Pixel>, all: seq<set<Pixel>>)
    requires Partition(on, on, all)
    ensures forall i, j | 0 <= i < j < |all| :: all[i] !! all[j]
  {
    hide IsComponent;
  }

  /** The component of an unseen mask pixel. */
  method AddFlood(m: array2<bool>, seen: array2<bool>, y: int, x: int, left: int, top: int, found: seq<Found>,
      ghost all: seq<set<Pixel>>)
    returns (more: seq<Found>, ghost known: seq<set<Pixel>>)
    requires m != seen && seen.Length0 == m.Length0 && seen.Length1 == m.Length1
    requires Pixel(y, x) in On(m) && Pixel(y, x) !in On(seen) && ScanOk(On(m), On(seen), found, all, left, top)
    modifies seen
    ensures ScanOk(On(m), On(seen), more, known, left, top) && old(On(seen)) <= On(seen) && Pixel(y, x) in On(seen)
  {
    hide Partition, Reports, Shut, IsComponent, Large, Distinct, Elems, Measures, IsTightBox;
    ghost var before := On(seen);
    var done := Flood(m, seen, y, x);
    AddComponent(On(m), before, all, Elems(done), On(seen));
    DistinctSize(done);
    more, known := found, all + [Elems(done)];
    if |done| >= MIN_AREA {
      var minX, minY, maxX, maxY := Bounds(done);
      var f := Found(|done|, Box(left + minX, top + minY, left + maxX + 1, top + maxY + 1));
      TightBox(done, f, left, top);
      AddReport(found, all, Elems(done), f, left, top);
      more := found + [f];
    } else {
      SkipReport(all, Elems(done));
    }
  }

  lemma TightBox(done: seq<Pixel>, f: Found, left: int, top: int)
    requires Distinct(done) && f.area == |done|
    requires forall p | p in done ::
      f.box.left - left <= p.x <= f.box.right - left - 1 && f.box.top - top <= p.y <= f.box.bottom - top - 1
    requires (exists p :: p in done && p.x == f.box.left - left)
      && (exists p :: p in done && p.x == f.box.right - left - 1)
    requires (exists p :: p in done && p.y == f.box.top - top)
      && (exists p :: p in done && p.y == f.box.bottom - top - 1)
    ensures Measures(f, Elems(done), left, top)
  {
    DistinctSize(done);
    var a :| a in done && a.x == f.box.left - left;
    var b :| b in done && b.x == f.box.right - left - 1;
    var c :| c in done && c.y == f.box.top - top;
    var d :| d in done && d.y == f.box.bottom - top - 1;
    assert a in Elems(done) && b in Elems(done) && c in Elems(done) && d in Elems(done);
  }

  lemma AddComponent(on: set<Pixel>, before: set<Pixel>, all: seq<set<Pixel>>, c: set<Pixel>, seen: set<Pixel>)
    requires Partition(on, before, all) && IsComponent(on, c) && c !! before && seen == before + c
    ensures Partition(on, seen, all + [c])
  {
    hide IsComponent;
    var more := all + [c];
    assert forall i | 0 <= i < |all| :: more[i] == all[i];
    assert more[|all|] == c;
    forall p | p in seen ensures exists i :: 0 <= i < |more| && p in more[i] {
      if p in before {
        var i :| 0 <= i < |all| && p in all[i];
        assert more[i] == all[i];
      } else {
        assert p in more[|all|];
      }
    }
    forall i, j | 0 <= i < j < |more| ensures more[i] !! more[j] {
      if j == |all| {
        assert all[i] <= before;
      }
    }
  }

  lemma AddReport(found: seq<Found>, all: seq<set<Pixel>>, c: set<Pixel>, f: Found, left: int, top: int)
    requires Reports(found, Large(all), left, top) && |c| >= MIN_AREA && Measures(f, c, left, top)
    ensures Reports(found + [f], Large(all + [c]), left, top)
  {
  }

  lemma SkipReport(all: seq<set<Pixel>>, c: set<Pixel>)
    requires |c| < MIN_AREA
    ensures Large(all + [c]) == Large(all)
  {
  }

  // ---- exactly the components ----

  lemma {:induction false} LargeMembers(all: seq<set<Pixel>>, c: set<Pixel>)
    ensures c in Large(all) <==> c in all && |c| >= MIN_AREA
  {
    if all != [] {
      LargeMembers(all[..|all| - 1], c);
      assert all == all[..|all| - 1] + [all[|all| - 1]];
    }
  }

  /** What is reported is every component of at least 12 pixels and nothing else. */
  lemma ReportedExactly(on: set<Pixel>, all: seq<set<Pixel>>, c: set<Pixel>)
    requires Partition(on, on, all)
    ensures c in Large(all) <==> IsComponent(on, c) && |c| >= 12
  {
    LargeMembers(all, c);
    hide Large, IsComponent;
    if c in all {
      var i :| 0 <= i < |all| && all[i] == c;
      assert IsComponent(on, all[i]);
    }
    if IsComponent(on, c) {
      var p := SomePixel(on, c);
      var i :| 0 <= i < |all| && p in all[i];
      SameComponent(on, c, all[i], p);
    }
  }

  lemma SomePixel(on: set<Pixel>, c: set<Pixel>) returns (p: Pixel)
    requires IsComponent(on, c)
    ensures p in c && p in on
  {
    p :| p in c;
  }

  lemma SameComponent(on: set<Pixel>, c: set<Pixel>, d: set<Pixel>, p: Pixel)
    requires IsComponent(on, c) && IsComponent(on, d) && p in c && p in d
    ensures c == d
  {
  }

  /** No component is reported twice. */
  lemma {:induction false} ReportedOnce(all: seq<set<Pixel>>, i: nat, j: nat)
    requires i < j < |Large(all)|
    requires forall k, l | 0 <= k < l < |all| :: all[k] !! all[l]
    ensures Large(all)[i] !! Large(all)[j]
  {
    var front := all[..|all| - 1];
    assert forall k | 0 <= k < |front| :: front[k] == all[k];
    if j < |Large(front)| {
      ReportedOnce(front, i, j);
    } else {
      LargeMembers(front, Large(front)[i]);
    }
  }
}
