/**
 * What the path tests mean, part by part: the scopes of the coordination layer and those of the
 * agent runtime clash when one list of parts begins with the other.
 */
module PathParts {
  import opened Text
  import opened ScopePaths
  import CoordTask
  import CoordLeases
  import RunStore

  // ---- one path inside another ----

  lemma {:induction false} SplitInside(b: string, rest: string)
    ensures Split(b + "/" + rest) == Split(b) + Split(rest)
  {
    SplitParts(b);
    SplitParts(rest);
    JoinMore(Split(b), Split(rest));
    hide Split, Join;
    SplitJoin(Split(b) + Split(rest));
  }

  lemma {:induction false} JoinMore(first: seq<string>, more: seq<string>)
    requires first != [] && more != []
    ensures Join(first + more) == Join(first) + "/" + Join(more)
  {
    if |first| == 1 {
      assert (first + more)[1..] == more;
    } else {
      assert (first + more)[1..] == first[1..] + more;
      JoinMore(first[1..], more);
    }
  }

  /** a is b or lies below it exactly when the parts of b are the first parts of a. */
  lemma InsideIffParts(a: string, b: string)
    ensures (a == b || b + "/" <= a) <==> Split(b) <= Split(a)
  {
    hide Split, Join;
    if b + "/" <= a {
      var rest := a[|b| + 1..];
      assert a == b + "/" + rest;
      SplitInside(b, rest);
    }
    if Split(b) <= Split(a) {
      SplitParts(a);
      SplitParts(b);
      var more := Split(a)[|Split(b)|..];
      assert Split(a) == Split(b) + more;
      if more == [] {
        assert Split(a) == Split(b);
      } else {
        JoinMore(Split(b), more);
      }
    }
  }

  lemma NestedIffParts(l: string, r: string)
    ensures CoordLeases.Nested(l, r) <==> Split(l) <= Split(r) || Split(r) <= Split(l)
  {
    InsideIffParts(l, r);
    InsideIffParts(r, l);
  }

  lemma OverlapIffParts(a: string, b: string)
    ensures RunStore.PathsOverlap(a, b) <==> Split(a) <= Split(b) || Split(b) <= Split(a)
  {
    InsideIffParts(a, b);
    InsideIffParts(b, a);
  }

  /** What is cut off a root is slashes, and all of those at its end. */
  lemma {:induction false} TrimDropsSlashes(p: string)
    ensures var t := CoordLeases.Trim(p);
      && t <= p && (t == "" || t[|t| - 1] != '/')
      && forall k | |t| <= k < |p| :: p[k] == '/'
  {
    if p != "" && p[|p| - 1] == '/' {
      TrimDropsSlashes(p[..|p| - 1]);
    }
  }

  /** The parts of a path's normal form without its slashes at the end; none if it names nothing. */
  function RootParts(norm: CoordTask.Norm, p: string): seq<string> {
    if CoordLeases.Trim(norm(p)) == "" then [] else Split(CoordLeases.Trim(norm(p)))
  }

  /** Two sets of paths conflict when one of them names nothing, or a path of one begins with the
      parts of a path of the other. */
  lemma ConflictIffParts(norm: CoordTask.Norm, a: set<string>, b: set<string>)
    ensures CoordLeases.ScopeConflicts(norm, a, b)
      <==> ((forall p | p in a :: RootParts(norm, p) == []) || (forall q | q in b :: RootParts(norm, q) == [])
            || exists p, q :: p in a && q in b && RootParts(norm, p) != [] && RootParts(norm, q) != []
                 && (RootParts(norm, p) <= RootParts(norm, q) || RootParts(norm, q) <= RootParts(norm, p)))
  {
    forall p, q ensures CoordLeases.Nested(CoordLeases.Trim(norm(p)), CoordLeases.Trim(norm(q)))
      <==> (Split(CoordLeases.Trim(norm(p))) <= Split(CoordLeases.Trim(norm(q)))
            || Split(CoordLeases.Trim(norm(q))) <= Split(CoordLeases.Trim(norm(p)))) {
      NestedIffParts(CoordLeases.Trim(norm(p)), CoordLeases.Trim(norm(q)));
    }
    RootsOf(norm, a);
    RootsOf(norm, b);
    hide CoordLeases.Trim, CoordLeases.Nested, CoordLeases.Roots, Split;
  }

  lemma RootsOf(norm: CoordTask.Norm, a: set<string>)
    ensures CoordLeases.Roots(norm, a) == {} <==> forall p | p in a :: RootParts(norm, p) == []
    ensures forall l ::
      l in CoordLeases.Roots(norm, a) <==>
        exists p :: p in a && RootParts(norm, p) != [] && l == CoordLeases.Trim(norm(p))
  {
    hide CoordLeases.Trim, Split;
    assert forall p | p in a && CoordLeases.Trim(norm(p)) != "" ::
      CoordLeases.Trim(norm(p)) in CoordLeases.Roots(norm, a);
  }

  // ---- which paths go through the file system ----

  /** Part i begins with a tilde and nothing before it says anything. */
  predicate HomeAt(parts: seq<string>, i: int) {
    && 0 <= i < |parts| && parts[i] != "" && parts[i][0] == '~'
    && forall k | 0 <= k < i :: parts[k] == "" || parts[k] == "."
  }

  /** A path that begins at the root or at a home directory is resolved; every other one is only cleaned. */
  lemma ResolvedIff(resolve: string -> string, path: string, parts: seq<string>)
    requires Slashes(Strip(path)) == Join(parts) && Join(parts) != ""
    requires parts != [] && forall i | 0 <= i < |parts| :: NoSlash(parts[i])
    ensures DispatchNorm(resolve, path) ==
      if parts[0] == "" || exists i :: HomeAt(parts, i) then resolve(Join(parts)) else Posix(Join(parts))
  {
    SplitJoin(parts);
    FirstClean(parts);
    hide Slashes, Split, Strip, Clean, Posix, HomeAt;
    assert Join(parts)[0] == '/' <==> parts[0] == "";
  }

  lemma {:induction false} FirstClean(parts: seq<string>)
    ensures Clean(parts) != [] ==> Clean(parts)[0] != ""
    ensures (Clean(parts) != [] && Clean(parts)[0][0] == '~') <==> exists i :: HomeAt(parts, i)
  {
    if parts != [] {
      var rest := parts[1..];
      FirstClean(rest);
      assert forall k | 0 <= k < |rest| :: rest[k] == parts[k + 1];
      if parts[0] == "" || parts[0] == "." {
        if i :| HomeAt(rest, i) {
          assert HomeAt(parts, i + 1);
        }
        if i :| HomeAt(parts, i) {
          assert HomeAt(rest, i - 1);
        }
      } else if parts[0][0] == '~' {
        assert HomeAt(parts, 0);
      }
    }
  }
}
