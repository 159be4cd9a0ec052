/**
 * Why write exclusion needs stable scopes: a lease is compared after its paths are normalised once
 * more, so two claims can be granted whose scopes, normalised once, are equal or nested.
 */
module CoordNormal {
  import opened Options
  import opened Collections
  import opened CoordTask
  import opened CoordLeases
  import opened CoordProtocol
  import opened CoordSafety
  import opened CoordOverlap
  import opened CoordReplan
  import opened ScopePaths

  // ---- when a second worker's claim is granted ----

  /** Two leased paths do not conflict: both still name something after another pass of the
      normaliser, and then neither equals nor contains the other. */
  predicate LeasesAgree(norm: Norm, x: string, y: string) {
    Trim(norm(x)) != "" && Trim(norm(y)) != "" && !Nested(Trim(norm(x)), Trim(norm(y)))
  }

  lemma OneRoot(norm: Norm, x: string)
    ensures Roots(norm, {x}) == if Trim(norm(x)) == "" then {} else {Trim(norm(x))}
  {
    assert (set p | p in {x} :: Trim(norm(p))) == {Trim(norm(x))};
  }

  lemma AgreeIff(norm: Norm, x: string, y: string)
    ensures ScopeConflicts(norm, {x}, {y}) <==> !LeasesAgree(norm, x, y)
  {
    OneRoot(norm, x);
    OneRoot(norm, y);
    hide Roots, Trim;
    if LeasesAgree(norm, x, y) {
      assert forall l, r | l in Roots(norm, {x}) && r in Roots(norm, {y}) :: l == Trim(norm(x)) && r == Trim(norm(y));
    } else if Trim(norm(x)) != "" && Trim(norm(y)) != "" {
      assert Trim(norm(x)) in Roots(norm, {x}) && Trim(norm(y)) in Roots(norm, {y});
    }
  }

  /** One path is leased to v and w asks for another: it gets it exactly when the two agree. */
  lemma SecondLeaseIff(norm: Norm, l: Lease, w: string, x: string, q: string, now: int, lease: string)
    requires l.owner != w && l.paths == {x} && l.expiresAt > now
    ensures Acquire(norm, [l], w, [q], LEASE_TTL, now, lease).Some? <==> norm(q) != "" && LeasesAgree(norm, x, norm(q))
  {
    NothingExpired([l], now);
    if norm(q) == "" {
      assert NormSet(norm, [q]) == {};
    } else {
      OnlyPath(norm, q);
      AgreeIff(norm, x, norm(q));
      assert OthersConflict(norm, [l], w, {norm(q)}) <==> ScopeConflicts(norm, {x}, {norm(q)}) by {
        assert [l][0] == l;
      }
    }
    hide CoordLeases.Merge, ScopeConflicts, LeasesAgree;
  }

  lemma SecondClaimIff(norm: Norm, s: State, b: string, w: string, q: string, x: string, now: int, lease: string)
    requires |s.leases| == 1 && s.leases[0].owner != w && s.leases[0].paths == {x} && s.leases[0].expiresAt > now
    requires b in s.tasks && s.tasks[b].scope == [q] && s.tasks[b].status == Pending && s.tasks[b].deps == []
    requires s.tasks[b].claimedBy == ""
    ensures var t := Do(norm, s, ClaimNext(w, [b], "", now, lease));
      && (forall k | k != b :: k in t.tasks <==> k in s.tasks)
        && (forall k | k != b && k in s.tasks :: t.tasks[k] == s.tasks[k])
      && b in t.tasks && t.tasks[b].scope == [q]
      && (InHand(t, w, b) <==> norm(q) != "" && LeasesAgree(norm, x, norm(q)))
  {
    assert s.leases == [s.leases[0]];
    SecondLeaseIff(norm, s.leases[0], w, x, q, now, lease);
    OnlyCandidate(norm, s, b, w, q, now, lease);
    hide TryClaims, Acquire, LeasesAgree;
  }

  /** A claim on one fresh task is granted exactly when its lease is. */
  lemma OnlyCandidate(norm: Norm, s: State, b: string, w: string, q: string, now: int, lease: string)
    requires b in s.tasks && s.tasks[b].scope == [q] && s.tasks[b].status == Pending && s.tasks[b].deps == []
    ensures var t := TryClaims(norm, s, [b], w, "", now, lease).0;
      var r := Acquire(norm, s.leases, w, [q], LEASE_TTL, now, lease);
      if r.Some? then t.tasks == s.tasks[b := s.tasks[b].(status := Claimed, claimedBy := w, baseCommit := "",
        revision := s.tasks[b].revision + 1)] else t == s
  {
    var r := Acquire(norm, s.leases, w, [q], LEASE_TTL, now, lease);
    assert [b][1..] == [];
    assert TryClaims(norm, s, [], w, "", now, lease) == (s, None);
    if r.Some? {
      LeasedIsNotEmpty(norm, s.leases, w, [q], now, lease);
      hide Acquire, NormSet;
      assert ClaimGated(norm, s.(leases := r.value.0), b, w, "").Some?;
    }
  }

  // ---- two claims on fresh tasks ----

  /** Two new tasks with one path each, nothing leased. */
  ghost predicate TwoFresh(s: State, a: string, b: string, p: string, q: string) {
    && s.leases == [] && a != b && a in s.tasks && b in s.tasks
    && s.tasks[a] == NewTask(a, [p], [], "") && s.tasks[b] == NewTask(b, [q], [], "")
  }

  /** Both claims of the planner are granted exactly when the normal forms, normalised again, agree. So
      the scopes overlap in two hands exactly when they overlap normalised once but not twice. */
  lemma TwoClaimsIff(norm: Norm, s: State, a: string, b: string, p: string, q: string, v: string, w: string)
    requires TwoFresh(s, a, b, p, q) && v != w && norm(p) != "" && norm(q) != ""
    ensures var t := Do(norm, Do(norm, s, ClaimNext(v, [a], "", 0, "1")), ClaimNext(w, [b], "", 1, "2"));
      && (InHand(t, v, a) && InHand(t, w, b) <==> LeasesAgree(norm, norm(p), norm(q)))
      && a in t.tasks && b in t.tasks && t.tasks[a].scope == [p] && t.tasks[b].scope == [q]
  {
    var s1 := Do(norm, s, ClaimNext(v, [a], "", 0, "1"));
    assert DepsFinished(s.tasks, a);
    LoneClaim(norm, s, a, v, p, 0, "1");
    hide TryClaims, LeasesAgree, DepsFinished;
    SecondClaimIff(norm, s1, b, w, q, norm(p), 1, "2");
  }

  /** A directed claim leases the path normalised twice. With one path in both scopes, the planner's
      claim after it is granted exactly when normalising a third time changes it beyond nesting. */
  lemma DirectedThenNextIff(norm: Norm, s: State, a: string, b: string, p: string, v: string, w: string)
    requires TwoFresh(s, a, b, p, p) && v != w && norm(p) != "" && norm(norm(p)) != ""
    ensures var t := Do(norm, Do(norm, s, ClaimSpecific(v, a, "", 0, "1")), ClaimNext(w, [b], "", 1, "2"));
      && (InHand(t, v, a) && InHand(t, w, b) <==> LeasesAgree(norm, norm(norm(p)), norm(p)))
      && a in t.tasks && b in t.tasks && t.tasks[a].scope == [p] && t.tasks[b].scope == [p]
  {
    var s1 := Do(norm, s, ClaimSpecific(v, a, "", 0, "1"));
    LoneDirectedClaim(norm, s, a, v, p, 0, "1");
    hide ClaimOne, LeasesAgree;
    SecondClaimIff(norm, s1, b, w, p, norm(norm(p)), 1, "2");
  }

  lemma LoneDirectedClaim(norm: Norm, s: State, id: string, w: string, x: string, now: int, lease: string)
    requires id in s.tasks && s.tasks[id].scope == [x] && norm(x) != "" && norm(norm(x)) != "" && s.leases == []
    requires s.tasks[id].status == Pending && s.tasks[id].deps == []
    ensures var t := ClaimOne(norm, s, id, w, "", now, lease).0;
      && t.leases == [Lease(lease, w, {norm(norm(x))}, now, now + LEASE_TTL)]
      && t.tasks == s.tasks[id := s.tasks[id].(status := Claimed, claimedBy := w, baseCommit := "",
        revision := s.tasks[id].revision + 1)]
  {
    assert ScopeOf(norm, s, id) == [norm(x)];
    OnlyPath(norm, x);
    OnlyPath(norm, norm(x));
    hide NormSet, ScopeOf;
  }

  // ---- runs with the code's normaliser ----

  function CodeNorm(resolve: string -> string): Norm {
    p => DispatchNorm(resolve, p)
  }

  function TwoSpecs(a: string, b: string, p: string, q: string): seq<Spec> {
    [Spec(a, [p], [], ""), Spec(b, [q], [], "")]
  }

  lemma TwoPublished(norm: Norm, a: string, b: string, p: string, q: string)
    requires ValidId(a) && ValidId(b) && a != b
    ensures TwoFresh(Do(norm, EMPTY, PublishBatch(TwoSpecs(a, b, p, q))), a, b, p, q)
    ensures Do(norm, EMPTY, PublishBatch(TwoSpecs(a, b, p, q))).tasks.Keys == {a, b}
  {
    TwoDrafts(Spec(a, [p], [], ""), Spec(b, [q], [], ""));
    TwoAreAdmitted(NewTask(a, [p], [], ""), NewTask(b, [q], [], ""));
    hide ValidId, Drafts, Admissible, WithDrafts;
  }

  lemma RunOfThree(norm: Norm, x: Step, y: Step, z: Step)
    ensures Run(norm, EMPTY, [x]) == Do(norm, EMPTY, x)
    ensures Run(norm, EMPTY, [x, y]) == Do(norm, Do(norm, EMPTY, x), y)
    ensures Run(norm, EMPTY, [x, y, z]) == Do(norm, Do(norm, Do(norm, EMPTY, x), y), z)
  {
    hide Do;
    assert [x][..0] == [] && [x, y][..1] == [x] && [x, y, z][..2] == [x, y];
    assert Run(norm, EMPTY, [x]) == Do(norm, Run(norm, EMPTY, []), x);
  }

  /** A plan of two tasks, and a worker for each. */
  function NextRun(a: string, b: string, p: string, q: string, v: string, w: string): seq<Step> {
    [PublishBatch(TwoSpecs(a, b, p, q)), ClaimNext(v, [a], "", 0, "1"), ClaimNext(w, [b], "", 1, "2")]
  }

  function DirectedRun(a: string, b: string, p: string, v: string, w: string): seq<Step> {
    [PublishBatch(TwoSpecs(a, b, p, p)), ClaimSpecific(v, a, "", 0, "1"), ClaimNext(w, [b], "", 1, "2")]
  }

  ghost predicate BothInHand(s: State, a: string, b: string, p: string, q: string, v: string, w: string) {
    InHand(s, v, a) && InHand(s, w, b) && s.tasks[a].scope == [p] && s.tasks[b].scope == [q]
  }

  /** Workers with empty hands, no ask, no expiry, no directed claim: both get their task exactly when
      the paths agree after being normalised twice. */
  lemma NextRunIff(norm: Norm, a: string, b: string, p: string, q: string, v: string, w: string)
    requires ValidId(a) && ValidId(b) && a != b && v != w && norm(p) != "" && norm(q) != ""
    ensures EmptyHandedRun(norm, NextRun(a, b, p, q, v, w))
    ensures BothInHand(Run(norm, EMPTY, NextRun(a, b, p, q, v, w)), a, b, p, q, v, w) <==>
      LeasesAgree(norm, norm(p), norm(q))
  {
    var steps := NextRun(a, b, p, q, v, w);
    TwoPublished(norm, a, b, p, q);
    RunOfThree(norm, steps[0], steps[1], steps[2]);
    EmptyHandsTwice(norm, Do(norm, EMPTY, steps[0]), a, b, p, q, v, w);
    assert EmptyHanded(norm, EMPTY, steps[0]);
    hide ValidId, Do, Run, EmptyHanded, TwoFresh, LeasesAgree, EmptyHandedRun, InHand;
    TwoClaimsIff(norm, Do(norm, EMPTY, steps[0]), a, b, p, q, v, w);
    ThreeEmptyHanded(norm, steps[0], steps[1], steps[2]);
  }

  /** The same with a directed claim first, for two tasks with one path. */
  lemma DirectedRunIff(norm: Norm, a: string, b: string, p: string, v: string, w: string)
    requires ValidId(a) && ValidId(b) && a != b && v != w && norm(p) != "" && norm(norm(p)) != ""
    ensures BothInHand(Run(norm, EMPTY, DirectedRun(a, b, p, v, w)), a, b, p, p, v, w) <==>
      LeasesAgree(norm, norm(norm(p)), norm(p))
  {
    var steps := DirectedRun(a, b, p, v, w);
    TwoPublished(norm, a, b, p, p);
    RunOfThree(norm, steps[0], steps[1], steps[2]);
    hide ValidId, Do, Run, TwoFresh, LeasesAgree, InHand;
    DirectedThenNextIff(norm, Do(norm, EMPTY, steps[0]), a, b, p, v, w);
  }

  /** One worker gets `x /`, whose normal form ends in a blank, and the other a path inside it. */
  lemma NextOverlaps(resolve: string -> string, a: string, b: string, v: string, w: string)
    requires ValidId(a) && ValidId(b) && a != b && v != w
    ensures var norm := CodeNorm(resolve); var steps := NextRun(a, b, "x /", "x /y", v, w);
      && EmptyHandedRun(norm, steps) && BothInHand(Run(norm, EMPTY, steps), a, b, "x /", "x /y", v, w)
      && !Apart(norm, Elems(["x /"]), Elems(["x /y"]))
  {
    var norm := CodeNorm(resolve);
    BlankAtTheEnd(resolve);
    assert norm("x /") == "x " && norm("x ") == "x" && norm("x /y") == "x /y";
    hide CodeNorm, DispatchNorm, Trim, Nested, Apart, ValidId, NextRun;
    BlankRoots();
    RootsNest(norm, "x /", "x /y");
    NextRunIff(norm, a, b, "x /", "x /y", v, w);
  }

  /** Both get the same scope, whose normal form begins with a blank twice over. */
  lemma DirectedOverlaps(resolve: string -> string, a: string, b: string, v: string, w: string)
    requires ValidId(a) && ValidId(b) && a != b && v != w
    ensures var p := "./ ./ b";
      BothInHand(Run(CodeNorm(resolve), EMPTY, DirectedRun(a, b, p, v, w)), a, b, p, p, v, w)
  {
    var norm := CodeNorm(resolve);
    BlankAtTheStart(resolve);
    assert norm("./ ./ b") == " ./ b" && norm(" ./ b") == " b" && norm(" b") == "b";
    hide CodeNorm, DispatchNorm, Trim, Nested, ValidId, DirectedRun;
    StartRoots();
    DirectedRunIff(norm, a, b, "./ ./ b", v, w);
  }

  lemma BlankRoots()
    ensures Trim("x") == "x" && Trim("x ") == "x " && Trim("x /y") == "x /y"
    ensures Nested("x ", "x /y") && !Nested("x", "x /y")
  {
    assert "x " + "/" == "x /" && "x /y"[..3] == "x /";
    assert "x" + "/" == "x/" && "x/"[1] != "x /y"[1];
  }

  /** Scopes of one path each conflict exactly when these, normalised once, are equal or nested. */
  lemma RootsNest(norm: Norm, p: string, q: string)
    ensures !Apart(norm, Elems([p]), Elems([q])) <==>
      Trim(norm(p)) != "" && Trim(norm(q)) != "" && Nested(Trim(norm(p)), Trim(norm(q)))
  {
    assert Elems([p]) == {p} && Elems([q]) == {q};
    OneRoot(norm, p);
    OneRoot(norm, q);
    hide Trim, Nested, Roots;
    assert Trim(norm(p)) in {Trim(norm(p))} && Trim(norm(q)) in {Trim(norm(q))};
  }

  lemma EmptyHandsTwice(norm: Norm, s: State, a: string, b: string, p: string, q: string, v: string, w: string)
    requires TwoFresh(s, a, b, p, q) && s.tasks.Keys == {a, b} && v != w && norm(p) != ""
    ensures EmptyHanded(norm, s, ClaimNext(v, [a], "", 0, "1"))
    ensures EmptyHanded(norm, Do(norm, s, ClaimNext(v, [a], "", 0, "1")), ClaimNext(w, [b], "", 1, "2"))
  {
    assert DepsFinished(s.tasks, a);
    LoneClaim(norm, s, a, v, p, 0, "1");
    hide TryClaims, DepsFinished;
  }

  lemma ThreeEmptyHanded(norm: Norm, x: Step, y: Step, z: Step)
    requires EmptyHanded(norm, EMPTY, x) && EmptyHanded(norm, Do(norm, EMPTY, x), y)
    requires EmptyHanded(norm, Do(norm, Do(norm, EMPTY, x), y), z)
    ensures EmptyHandedRun(norm, [x, y, z])
  {
    RunOfThree(norm, x, y, z);
    hide Do, EmptyHanded, Run;
    assert [x][..0] == [] && [x, y][..1] == [x] && [x, y, z][..2] == [x, y];
    assert Run(norm, EMPTY, []) == EMPTY by { EmptyRun(norm); }
    assert EmptyHandedRun(norm, [x]);
    assert EmptyHandedRun(norm, [x, y]);
  }

  lemma EmptyRun(norm: Norm)
    ensures Run(norm, EMPTY, []) == EMPTY
  {
  }

  lemma StartRoots()
    ensures Trim("b") == "b" && Trim(" b") == " b" && !Nested("b", " b")
  {
    assert "b" + "/" == "b/" && " b" + "/" == " b/";
    assert "b/"[0] != " b"[0];
  }
}
