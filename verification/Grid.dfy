/** Pixel grids as graphs: a mask's set pixels, joined to their neighbours. */
module Grid {
  import opened Digraph

  datatype Pixel = Pixel(y: int, x: int)

  predicate Inside(m: array2<bool>, p: Pixel) {
    0 <= p.y < m.Length0 && 0 <= p.x < m.Length1
  }

  /** The pixels that are set. */
  ghost function On(m: array2<bool>): (s: set<Pixel>)
    reads m
    ensures forall p :: p in s <==> Inside(m, p) && m[p.y, p.x]
  {
    var s := set y, x | 0 <= y < m.Length0 && 0 <= x < m.Length1 && m[y, x] :: Pixel(y, x);
    assert forall p | Inside(m, p) && m[p.y, p.x] :: p == Pixel(p.y, p.x);
    s
  }

  predicate Near8(p: Pixel, q: Pixel) {
    p != q && -1 <= q.y - p.y <= 1 && -1 <= q.x - p.x <= 1
  }

  predicate Near4(p: Pixel, q: Pixel) {
    Near8(p, q) && (p.y == q.y || p.x == q.x)
  }

  function Apart(a: int, b: int): nat { if a <= b then b - a else a - b }

  /** The eight pixels around p, and the four of them that share a side with it. */
  lemma NeighboursAre(p: Pixel, q: Pixel)
    ensures Near8(p, q) <==> q in {Pixel(p.y - 1, p.x - 1), Pixel(p.y - 1, p.x), Pixel(p.y - 1, p.x + 1),
      Pixel(p.y, p.x - 1), Pixel(p.y, p.x + 1), Pixel(p.y + 1, p.x - 1), Pixel(p.y + 1, p.x), Pixel(p.y + 1, p.x + 1)}
    ensures Near4(p, q) <==> Apart(p.y, q.y) + Apart(p.x, q.x) == 1
  {
  }

  ghost function Graph8(on: set<Pixel>): Graph<Pixel> {
    map p | p in on :: set q | q in on && Near8(p, q)
  }

  ghost function Graph4(on: set<Pixel>): Graph<Pixel> {
    map p | p in on :: set q | q in on && Near4(p, q)
  }

  /** A step back is a step. */
  lemma Reverse8(on: set<Pixel>, u: Pixel, v: Pixel)
    requires u in on && Reach(Graph8(on), u, v)
    ensures v in on && Reach(Graph8(on), v, u)
  {
    var g := Graph8(on);
    var p :| IsPath(g, p, u, v);
    ReversePath(on, p, u, v);
  }

  lemma {:induction false} ReversePath(on: set<Pixel>, p: seq<Pixel>, u: Pixel, v: Pixel)
    requires u in on && IsPath(Graph8(on), p, u, v)
    ensures v in on && Reach(Graph8(on), v, u)
    decreases |p|
  {
    var g := Graph8(on);
    if |p| == 1 {
      ReachSelf(g, u);
    } else {
      var w := p[1];
      assert IsPath(g, p[1..], w, v);
      assert p[0 + 1] in Succ(g, p[0]);
      ReversePath(on, p[1..], w, v);
      assert u in Succ(g, w);
      ReachEdge(g, w, u);
      ReachTrans(g, v, w, u);
    }
  }
}
