/**
 * Why write exclusion needs its conditions: when a lost claim uncovers a task in hand, and runs in
 * which one path gets into two hands.
 */
module CoordOverlap {
  import opened Options
  import opened CoordTask
  import opened CoordLeases
  import opened CoordProtocol
  import opened CoordSafety
  import opened Digraph
  import opened TaskGraph

  // ---- a lost claim ----

  /** A claim whose lease was granted but which is refused, for its status or for an unfinished
      dependency, keeps everything covered if and only if the lost candidate shares no path with
      what the worker has in hand under a lease. */
  lemma LostClaimKeepsCoverIff(norm: Norm, s: State, loose: set<string>, c: string, worker: string, base: string,
      now: int, lease: string)
    requires Protected(norm, s, loose) && Unexpired(s.leases, now) && worker != ""
    requires c in s.tasks && ClaimGated(norm, s, c, worker, base).None?
    requires Acquire(norm, s.leases, worker, s.tasks[c].scope, LEASE_TTL, now, lease).Some?
    ensures AllCovered(norm, TryClaims(norm, s, [c], worker, base, now, lease).0, loose)
       <==> UnsharedTight(norm, s, loose, worker, s.tasks[c].scope)
  {
    var scope := s.tasks[c].scope;
    var leased := s.(leases := Acquire(norm, s.leases, worker, scope, LEASE_TTL, now, lease).value.0);
    GatedOnLease(norm, s, leased, c, worker, base);
    assert [c][1..] == [];
    hide Acquire, ClaimGated, ReleaseTaskScope, Protected, Unexpired, AllCovered, UnsharedTight;
    LostLeaseKeepsCoverIff(norm, s, loose, worker, scope, now, lease);
  }

  /** The same for a directed claim, whose scope is normalised once more before it is leased and given
      back. One on a task with a stable scope that the worker has in hand already frees that task's
      own paths. */
  lemma LostDirectedClaimKeepsCoverIff(norm: Norm, s: State, loose: set<string>, c: string, worker: string,
      base: string, now: int, lease: string)
    requires Protected(norm, s, loose) && Unexpired(s.leases, now) && worker != ""
    requires c in s.tasks && ClaimGated(norm, s, c, worker, base).None?
    requires Acquire(norm, s.leases, worker, ScopeOf(norm, s, c), LEASE_TTL, now, lease).Some?
    ensures AllCovered(norm, ClaimOne(norm, s, c, worker, base, now, lease).0, loose)
       <==> UnsharedTight(norm, s, loose, worker, ScopeOf(norm, s, c))
    ensures InHand(s, worker, c) && c !in loose && Stable(norm, s.tasks[c].scope) ==>
      !AllCovered(norm, ClaimOne(norm, s, c, worker, base, now, lease).0, loose)
  {
    var scope := ScopeOf(norm, s, c);
    var leased := s.(leases := Acquire(norm, s.leases, worker, scope, LEASE_TTL, now, lease).value.0);
    if Stable(norm, s.tasks[c].scope) {
      ScopeOfIsScope(norm, s, c);
    }
    LeasedIsNotEmpty(norm, s.leases, worker, scope, now, lease);
    GatedOnLease(norm, s, leased, c, worker, base);
    hide Acquire, ClaimGated, ReleaseTaskScope, Protected, Unexpired, AllCovered, ScopeOf, NormSet, Stable;
    LostLeaseKeepsCoverIff(norm, s, loose, worker, scope, now, lease);
  }

  lemma LeasedIsNotEmpty(norm: Norm, ls: seq<Lease>, worker: string, scope: seq<string>, now: int, lease: string)
    requires Acquire(norm, ls, worker, scope, LEASE_TTL, now, lease).Some?
    ensures NormSet(norm, scope) != {}
  {
  }

  lemma LostLeaseKeepsCoverIff(norm: Norm, s: State, loose: set<string>, worker: string, scope: seq<string>,
      now: int, lease: string)
    requires Protected(norm, s, loose) && Unexpired(s.leases, now) && worker != ""
    requires Acquire(norm, s.leases, worker, scope, LEASE_TTL, now, lease).Some?
    ensures var leased := s.(leases := Acquire(norm, s.leases, worker, scope, LEASE_TTL, now, lease).value.0);
      AllCovered(norm, ReleaseTaskScope(norm, leased, worker, scope, now), loose) <==>
      UnsharedTight(norm, s, loose, worker, scope)
  {
    var leased := s.(leases := Acquire(norm, s.leases, worker, scope, LEASE_TTL, now, lease).value.0);
    AcquireProtected(norm, s, loose, worker, scope, now, lease);
    hide Acquire, TableOk, NormSet, AllCovered, OwnDisjoint, Unexpired, ReleaseTaskScope;
    ReleaseKeepsCoverIff(norm, leased, loose, worker, scope, now);
    assert forall k :: InHand(s, worker, k) <==> InHand(leased, worker, k);
  }

  lemma RunSnoc(norm: Norm, steps: seq<Step>, step: Step)
    ensures Run(norm, EMPTY, steps + [step]) == Do(norm, Run(norm, EMPTY, steps), step)
  {
    assert (steps + [step])[..|steps|] == steps;
  }

  lemma OnlyPath(norm: Norm, x: string)
    requires norm(x) != ""
    ensures NormSet(norm, [x]) == {norm(x)}
  {
    assert [x][0] == x;
  }

  /** A claim on the only candidate, with nothing leased to anyone else. */
  lemma LoneClaim(norm: Norm, s: State, id: string, w: string, x: string, now: int, lease: string)
    requires id in s.tasks && s.tasks[id].scope == [x] && norm(x) != "" && s.leases == []
    requires s.tasks[id].status == Pending && DepsFinished(s.tasks, id)
    ensures var t := TryClaims(norm, s, [id], w, "", now, lease).0;
      && t.leases == [Lease(lease, w, {norm(x)}, now, now + LEASE_TTL)]
      && t.tasks == s.tasks[id := s.tasks[id].(status := Claimed, claimedBy := w, baseCommit := "",
        revision := s.tasks[id].revision + 1)]
  {
    OnlyPath(norm, x);
    hide DepsFinished, NormSet;
  }

  /** Giving back the only path of the only lease leaves the table empty. */
  lemma LastPathReleased(norm: Norm, s: State, w: string, x: string, now: int, l: Lease)
    requires norm(x) != "" && w != "" && s.leases == [l] && l.owner == w && l.paths == {norm(x)} && l.expiresAt > now
    ensures ReleaseTaskScope(norm, s, w, [x], now) == s.(leases := [])
  {
    OnlyPath(norm, x);
    NothingExpired(s.leases, now);
    assert [l][1..] == [];
    assert CutTable([l], ByPaths(w, {norm(x)})) == CutTable([], ByPaths(w, {norm(x)}));
  }

  /** With `allow`, exclusion fails for every choice of names: v suspends and gives its lease up, w
      claims the same path, and v is resumed without a lease. */
  lemma AllowOverlaps(norm: Norm, s: State, a: string, f: string, x: string, v: string, w: string)
    requires a != f && a in s.tasks && f in s.tasks && norm(x) != "" && v != w && v != ""
    requires s.leases == [] && s.tasks[a].scope == [x] && s.tasks[f].scope == [x]
    requires s.tasks[a].status == Pending && s.tasks[f].status == Pending
    requires DepsFinished(s.tasks, a) && s.tasks[f].deps == []
    ensures var t := Do(norm, Do(norm, Do(norm, Do(norm, s,
        ClaimNext(v, [a], "", 0, "1")), SuspendForAsk(v, a, 1)), ClaimNext(w, [f], "", 2, "2")), AllowAsk(v, a));
      InHand(t, v, a) && InHand(t, w, f) && t.tasks[a].scope == t.tasks[f].scope == [x]
  {
    LoneClaim(norm, s, a, v, x, 0, "1");
    var s1 := Do(norm, s, ClaimNext(v, [a], "", 0, "1"));
    hide TryClaims, NormSet, ReleaseTaskScope;
    var r1 := Transition(norm, s1, a, Review(v)).value;
    LastPathReleased(norm, r1, v, x, 1, s1.leases[0]);
    var s2 := Do(norm, s1, SuspendForAsk(v, a, 1));
    assert s2 == r1.(leases := []);
    LoneClaim(norm, s2, f, w, x, 2, "2");
  }

  /** The same without `allow`: v has task a in hand and asks for more work; the candidate d, which
      waits for a, loses and gives a's path back; w then claims that path through f. */
  lemma LostClaimOverlaps(norm: Norm, s: State, a: string, d: string, f: string, x: string, v: string, w: string)
    requires a != f && a != d && d != f && a in s.tasks && d in s.tasks && f in s.tasks && norm(x) != "" && v != w
      && v != ""
    requires s.leases == [] && s.tasks[a].scope == [x] && s.tasks[d].scope == [x] && s.tasks[f].scope == [x]
    requires s.tasks[a].status == Pending && s.tasks[d].status == Pending && s.tasks[f].status == Pending
    requires s.tasks[a].deps == [] && s.tasks[d].deps == [a] && s.tasks[f].deps == []
    ensures var t := Do(norm, Do(norm, Do(norm, s,
        ClaimNext(v, [a], "", 0, "1")), ClaimNext(v, [d], "", 1, "2")), ClaimNext(w, [f], "", 2, "3"));
      InHand(t, v, a) && InHand(t, w, f) && t.tasks[a].scope == t.tasks[f].scope == [x]
  {
    LoneClaim(norm, s, a, v, x, 0, "1");
    var s1 := Do(norm, s, ClaimNext(v, [a], "", 0, "1"));
    var l := s1.leases[0];
    OnlyPath(norm, x);
    BlockedClaim(norm, s1, d, a, v, x, 1, l);
    var s2 := Do(norm, s1, ClaimNext(v, [d], "", 1, "2"));
    hide TryClaims, NormSet;
    LoneClaim(norm, s2, f, w, x, 2, "3");
  }

  lemma BlockedClaim(norm: Norm, s: State, d: string, a: string, v: string, x: string, now: int, l: Lease)
    requires a in s.tasks && d in s.tasks && !Finished(s.tasks[a]) && s.tasks[d].deps == [a] && s.tasks[d].scope == [x]
    requires norm(x) != "" && v != "" && s.leases == [l] && l.owner == v && l.paths == {norm(x)} && l.expiresAt > now
    ensures TryClaims(norm, s, [d], v, "", now, "2").0 == s.(leases := [])
  {
    OnlyPath(norm, x);
    NothingExpired(s.leases, now);
    var m := l.(paths := l.paths + {norm(x)}, expiresAt := now + LEASE_TTL);
    hide NormSet;
    MergeUpdatesOne([l], v, {norm(x)}, now + LEASE_TTL, 0);
    assert [l][0 := m] == [m];
    assert !OthersConflict(norm, [l], v, {norm(x)});
    assert Acquire(norm, s.leases, v, [x], LEASE_TTL, now, "2") == Some(([m], m));
    hide Acquire;
    assert m.paths == {norm(x)};
    LastPathReleased(norm, s.(leases := [m]), v, x, now, m);
    assert a in s.tasks[d].deps;
    assert !DepsFinished(s.tasks, d);
    hide DepsFinished, ReleaseTaskScope;
    assert [d][1..] == [];
  }

  /** Three fresh ids, the second waiting for the first, are admitted into an empty store. */
  lemma ChainIsAdmitted(a: string, d: string, f: string, x: string) returns (specs: seq<Spec>)
    requires ValidId(a) && ValidId(d) && ValidId(f) && a != d && a != f && d != f
    ensures var t := Publish(EMPTY, Drafts(specs));
      && t.leases == [] && t.tasks ==
        map[a := NewTask(a, [x], [], ""), d := NewTask(d, [x], [a], ""), f := NewTask(f, [x], [], "")]
  {
    hide ValidId, WithDrafts, Drafts, HasCycle;
    specs := [Spec(a, [x], [], ""), Spec(d, [x], [a], ""), Spec(f, [x], [], "")];
    var ta, td, tf := NewTask(a, [x], [], ""), NewTask(d, [x], [a], ""), NewTask(f, [x], [], "");
    ThreeDrafts(specs[0], specs[1], specs[2]);
    ThreeAdded(ta, td, tf);
    ChainHasNoCycle(a, d, f, DepGraph(WithDrafts(map[], [ta, td, tf])));
  }

  lemma ThreeDrafts(a: Spec, d: Spec, f: Spec)
    requires a.id != d.id && a.id != f.id && d.id != f.id && a.scope != [] && d.scope != [] && f.scope != []
    ensures Drafts([a, d, f]) ==
      [NewTask(a.id, a.scope, a.deps, a.parent), NewTask(d.id, d.scope, d.deps, d.parent),
      NewTask(f.id, f.scope, f.deps, f.parent)]
  {
    assert [a][..0] == [] && [a, d][..1] == [a] && [a, d, f][..2] == [a, d];
    assert Drafts([a]) == [NewTask(a.id, a.scope, a.deps, a.parent)];
    assert Drafts([a, d]) == [NewTask(a.id, a.scope, a.deps, a.parent), NewTask(d.id, d.scope, d.deps, d.parent)];
  }

  lemma ThreeAdded(a: Task, d: Task, f: Task)
    ensures WithDrafts(map[], [a, d, f]) == map[a.id := a, d.id := d, f.id := f]
  {
    assert [a][..0] == [] && [a, d][..1] == [a] && [a, d, f][..2] == [a, d];
    assert WithDrafts(map[], [a]) == map[a.id := a];
    assert WithDrafts(map[], [a, d]) == map[a.id := a, d.id := d];
  }

  lemma ChainHasNoCycle(a: string, d: string, f: string, g: Graph<string>)
    requires a != d && a != f && d != f && g.Keys == {a, d, f} && g[a] == {} && g[d] == {a} && g[f] == {}
    ensures WellFormed(g) && !HasCycle(g)
  {
    hide HasCycle;
    var rank := map[a := 0 as nat, d := 1, f := 0];
    RankedHasNoCycle(g, rank);
  }

  /** The overlap is reached in a run from the empty store. */
  lemma OverlapIsReachable(norm: Norm, a: string, d: string, f: string, x: string, v: string, w: string)
      returns (steps: seq<Step>)
    requires ValidId(a) && ValidId(d) && ValidId(f) && a != d && a != f && d != f
    requires norm(x) != "" && v != w && v != ""
    ensures var t := Run(norm, EMPTY, steps);
      InHand(t, v, a) && InHand(t, w, f) && t.tasks[a].scope == t.tasks[f].scope == [x]
    ensures forall i | 0 <= i < |steps| :: !steps[i].AllowAsk? && !steps[i].SelfClaim?
  {
    hide ValidId;
    var specs := ChainIsAdmitted(a, d, f, x);
    var s := Publish(EMPTY, Drafts(specs));
    hide Publish, Drafts, TryClaims;
    var s0, s1, s2, s3 := PublishBatch(specs), ClaimNext(v, [a], "", 0, "1"), ClaimNext(v, [d], "", 1, "2"),
      ClaimNext(w, [f], "", 2, "3");
    steps := [];
    RunSnoc(norm, steps, s0);
    steps := steps + [s0];
    assert Run(norm, EMPTY, steps) == s;
    LostClaimOverlaps(norm, s, a, d, f, x, v, w);
    RunSnoc(norm, steps, s1);
    RunSnoc(norm, steps + [s1], s2);
    RunSnoc(norm, steps + [s1] + [s2], s3);
    steps := steps + [s1] + [s2] + [s3];
  }
}
