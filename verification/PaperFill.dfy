/**
 * The fill that removes a paper background: from the border inwards through candidate pixels. The
 * queue may hold a pixel several times; it is marked when it is taken out.
 */
module PaperFill {
  import opened Digraph
  import opened Grid

  predicate OnBorder(m: array2<bool>, p: Pixel) {
    Inside(m, p) && (p.y == 0 || p.y == m.Length0 - 1 || p.x == 0 || p.x == m.Length1 - 1)
  }

  /** A border pixel is one that has a neighbour outside. */
  lemma BorderTouchesOutside(m: array2<bool>, p: Pixel)
    ensures OnBorder(m, p) <==> Inside(m, p) && exists r :: Near4(p, r) && !Inside(m, r)
  {
    if OnBorder(m, p) {
      var r := if p.y == 0 then Pixel(-1, p.x) else if p.x == 0 then Pixel(p.y, -1)
        else if p.y == m.Length0 - 1 then Pixel(m.Length0, p.x) else Pixel(p.y, m.Length1);
      assert Near4(p, r) && !Inside(m, r);
    }
  }

  ghost function BorderOf(m: array2<bool>): set<Pixel>
    reads m
  {
    set p | p in On(m) && OnBorder(m, p)
  }

  /** Joined to a seed by steps to 4-neighbours, through candidates only. */
  ghost predicate Joined(on: set<Pixel>, seeds: set<Pixel>, p: Pixel) {
    exists b :: b in seeds && Reach(Graph4(on), b, p)
  }

  /** Everything marked or queued is joined to a seed; every seed is marked or queued, and so is
      every neighbour of a marked pixel. */
  ghost predicate FillOk(on: set<Pixel>, seeds: set<Pixel>, marked: set<Pixel>, q: seq<Pixel>) {
    && marked <= on && (forall p | p in q :: p in on)
    && (forall p | p in marked || p in q :: Joined(on, seeds, p))
    && (forall b | b in seeds :: b in marked || b in q)
    && (forall p, r | p in marked && r in on && Near4(p, r) :: r in marked || r in q)
  }

  lemma FillStep(on: set<Pixel>, seeds: set<Pixel>, marked: set<Pixel>, q: seq<Pixel>, added: seq<Pixel>)
    requires q != [] && FillOk(on, seeds, marked, q)
    requires forall r | r in added :: r in on && Near4(q[0], r)
    requires forall r | r in on && Near4(q[0], r) :: r in marked || r == q[0] || r in added
    ensures FillOk(on, seeds, marked + {q[0]}, q[1..] + added)
  {
    var p, now, rest := q[0], marked + {q[0]}, q[1..] + added;
    assert q == [p] + q[1..];
    forall r | r in now || r in rest ensures Joined(on, seeds, r) {
      if r in added {
        var b :| b in seeds && Reach(Graph4(on), b, p);
        assert r in Succ(Graph4(on), p);
        ReachEdge(Graph4(on), p, r);
        ReachTrans(Graph4(on), b, p, r);
      }
    }
  }

  lemma FillSkip(on: set<Pixel>, seeds: set<Pixel>, marked: set<Pixel>, q: seq<Pixel>)
    requires q != [] && FillOk(on, seeds, marked, q) && q[0] in marked
    ensures FillOk(on, seeds, marked, q[1..])
  {
  }

  lemma FillDone(on: set<Pixel>, seeds: set<Pixel>, marked: set<Pixel>)
    requires FillOk(on, seeds, marked, []) && seeds <= on
    ensures forall p :: p in marked <==> Joined(on, seeds, p)
  {
    assert ClosedUnder(Graph4(on), marked);
    forall p | Joined(on, seeds, p) ensures p in marked {
      var b :| b in seeds && Reach(Graph4(on), b, p);
      ReachStaysIn(Graph4(on), marked, b, p);
    }
  }

  /** The candidates on the border; the corners come several times. */
  method BorderSeeds(m: array2<bool>) returns (q: seq<Pixel>)
    requires m.Length0 > 0 && m.Length1 > 0
    ensures forall p :: p in q <==> p in On(m) && OnBorder(m, p)
  {
    hide On;
    q := [];
    for x := 0 to m.Length1
      invariant forall p | p in q :: p in On(m) && OnBorder(m, p)
      invariant forall p | p in On(m) && (p.y == 0 || p.y == m.Length0 - 1) && p.x < x :: p in q
    {
      if m[0, x] { q := q + [Pixel(0, x)]; }
      if m[m.Length0 - 1, x] { q := q + [Pixel(m.Length0 - 1, x)]; }
    }
    for y := 0 to m.Length0
      invariant forall p | p in q :: p in On(m) && OnBorder(m, p)
      invariant forall p | p in On(m) && (p.y == 0 || p.y == m.Length0 - 1) :: p in q
      invariant forall p | p in On(m) && (p.x == 0 || p.x == m.Length1 - 1) && p.y < y :: p in q
    {
      if m[y, 0] { q := q + [Pixel(y, 0)]; }
      if m[y, m.Length1 - 1] { q := q + [Pixel(y, m.Length1 - 1)]; }
    }
  }

  /** The unmarked candidates next to p. */
  method Neighbours(m: array2<bool>, connected: array2<bool>, p: Pixel) returns (added: seq<Pixel>)
    requires connected.Length0 == m.Length0 && connected.Length1 == m.Length1
    ensures forall r | r in added :: r in On(m) && Near4(p, r)
    ensures forall r | r in On(m) && Near4(p, r) :: r in On(connected) || r in added
  {
    hide On;
    added := [];
    var steps := [Pixel(1, 0), Pixel(-1, 0), Pixel(0, 1), Pixel(0, -1)];
    for i := 0 to 4
      invariant forall r | r in added :: r in On(m) && Near4(p, r)
      invariant forall j | 0 <= j < i ::
        var r := Pixel(p.y + steps[j].y, p.x + steps[j].x); r in On(m) ==> r in On(connected) || r in added
    {
      var n := Pixel(p.y + steps[i].y, p.x + steps[i].x);
      if 0 <= n.y < m.Length0 && 0 <= n.x < m.Length1 && m[n.y, n.x] && !connected[n.y, n.x] {
        added := added + [n];
      }
    }
    forall r | r in On(m) && Near4(p, r) ensures r in On(connected) || r in added {
      var j := if r.y == p.y + 1 then 0 else if r.y == p.y - 1 then 1 else if r.x == p.x + 1 then 2 else 3;
      assert r == Pixel(p.y + steps[j].y, p.x + steps[j].x);
    }
  }

  /** Marks exactly the candidates joined to a border candidate. */
  method ConnectedPaper(m: array2<bool>) returns (connected: array2<bool>)
    requires m.Length0 > 0 && m.Length1 > 0
    ensures fresh(connected) && connected.Length0 == m.Length0 && connected.Length1 == m.Length1
    ensures forall p | Inside(m, p) ::
      connected[p.y, p.x] <==> Joined(On(m), BorderOf(m), p)
  {
    hide On, FillOk, Joined;
    connected := new bool[m.Length0, m.Length1]((y, x) => false);
    var q := BorderSeeds(m);
    ghost var seeds := BorderOf(m);
    FillStarts(On(m), seeds, On(connected), q);
    while q != []
      invariant FillOk(On(m), seeds, On(connected), q)
      decreases On(m) - On(connected), |q|
    {
      var p := q[0];
      ghost var marked := On(connected);
      QueueIsOn(On(m), seeds, marked, q);
      if connected[p.y, p.x] {
        FillSkip(On(m), seeds, marked, q);
        q := q[1..];
        continue;
      }
      connected[p.y, p.x] := true;
      var added := Neighbours(m, connected, p);
      assert On(connected) == marked + {p};
      FillStep(On(m), seeds, marked, q, added);
      q := q[1..] + added;
    }
    FillDone(On(m), seeds, On(connected));
  }

  lemma FillStarts(on: set<Pixel>, seeds: set<Pixel>, marked: set<Pixel>, q: seq<Pixel>)
    requires seeds <= on && (forall p :: p !in marked) && forall p :: p in q <==> p in seeds
    ensures FillOk(on, seeds, marked, q)
  {
    assert marked == {};
    forall p | p in q ensures Joined(on, seeds, p) {
      ReachSelf(Graph4(on), p);
    }
  }

  lemma QueueIsOn(on: set<Pixel>, seeds: set<Pixel>, marked: set<Pixel>, q: seq<Pixel>)
    requires FillOk(on, seeds, marked, q)
    ensures marked <= on && forall p | p in q :: p in on
  {
  }
}
