/**
 * Write exclusion: in every run of the coordination protocol in which no lease expires and a worker
 * never takes on a scope that shares a path with work it already has in hand, tasks in the hands of
 * different workers have scopes that do not touch. A task that was resumed or claimed without its
 * lease counts again from the moment its worker holds the lease.
 */
module CoordSafety {
  import opened Options
  import opened Collections
  import opened CoordTask
  import opened CoordLeases
  import opened CoordProtocol

  /** Normalising the scope's paths once more changes none of them. */
  predicate Stable(norm: Norm, scope: seq<string>) {
    forall i | 0 <= i < |scope| :: norm(norm(scope[i])) == norm(scope[i])
  }

  /** The worker's lease holds the task's whole scope. */
  ghost predicate Covered(norm: Norm, s: State, k: string)
    requires k in s.tasks
  {
    NormSet(norm, s.tasks[k].scope) <= PathsOf(s.leases, s.tasks[k].claimedBy)
  }

  ghost predicate InHand(s: State, worker: string, k: string) {
    k in s.tasks && Active(s.tasks[k]) && s.tasks[k].claimedBy == worker
  }

  /** The scope has no path in common with what the worker has in hand. */
  ghost predicate Unshared(norm: Norm, s: State, worker: string, scope: seq<string>) {
    forall k | InHand(s, worker, k) :: NormSet(norm, s.tasks[k].scope) !! NormSet(norm, scope)
  }

  /** The same, of the tasks in hand that are not loose. */
  ghost predicate UnsharedTight(norm: Norm, s: State, loose: set<string>, worker: string, scope: seq<string>) {
    forall k | InHand(s, worker, k) && k !in loose :: NormSet(norm, s.tasks[k].scope) !! NormSet(norm, scope)
  }

  /** Every task in hand is covered by a lease, except those in `loose`. */
  ghost predicate AllCovered(norm: Norm, s: State, loose: set<string>) {
    forall k | k in s.tasks && Active(s.tasks[k]) && k !in loose :: Covered(norm, s, k)
  }

  ghost predicate OwnDisjoint(norm: Norm, s: State) {
    forall j, k | j != k && k in s.tasks && InHand(s, s.tasks[k].claimedBy, j) && Active(s.tasks[k]) ::
      NormSet(norm, s.tasks[j].scope) !! NormSet(norm, s.tasks[k].scope)
  }

  ghost predicate Protected(norm: Norm, s: State, loose: set<string>) {
    TableOk(norm, s.leases) && AllCovered(norm, s, loose) && OwnDisjoint(norm, s)
  }

  // ---- the single operations ----

  /** A transition that does not put a task into hands keeps the protection. */
  lemma TransitionProtected(norm: Norm, s: State, loose: set<string>, id: string, a: Action)
    requires Protected(norm, s, loose) && !a.Claim? && !a.Resume? && Transition(norm, s, id, a).Some?
    ensures Protected(norm, Transition(norm, s, id, a).value, loose)
  {
    ApplyFacts(norm, s.tasks[id], a);
    NoNewHands(norm, s.tasks[id], a);
    hide Apply, TableOk, NormSet;
    var t := Transition(norm, s, id, a).value;
    forall k | k in t.tasks && Active(t.tasks[k]) && k !in loose ensures Covered(norm, t, k) {
      assert Covered(norm, s, k);
    }
    forall j, k | j != k && k in t.tasks && InHand(t, t.tasks[k].claimedBy, j) && Active(t.tasks[k])
      ensures NormSet(norm, t.tasks[j].scope) !! NormSet(norm, t.tasks[k].scope)
    {
      assert InHand(s, s.tasks[k].claimedBy, j);
    }
  }

  lemma NoNewHands(norm: Norm, t: Task, a: Action)
    requires !a.Claim? && !a.Resume? && Apply(norm, t, a).Some?
    ensures var u := Apply(norm, t, a).value; Active(u) ==> Active(t) && u.claimedBy == t.claimedBy
  {
  }

  lemma ReleaseEffect(norm: Norm, s: State, owner: string, scope: seq<string>, now: int, o: string)
    requires Unexpired(s.leases, now) && owner != ""
    ensures var t := ReleaseTaskScope(norm, s, owner, scope, now);
      && t.tasks == s.tasks && Unexpired(t.leases, now)
      && PathsOf(t.leases, o) == if o == owner then PathsOf(s.leases, o) - NormSet(norm, scope)
        else PathsOf(s.leases, o)
  {
    NothingExpired(s.leases, now);
    CutPathsExactly(s.leases, owner, NormSet(norm, scope), o);
    CutPathsUnexpired(s.leases, owner, NormSet(norm, scope), now);
  }

  lemma ReleaseTable(norm: Norm, s: State, owner: string, scope: seq<string>, now: int)
    requires TableOk(norm, s.leases)
    ensures TableOk(norm, ReleaseTaskScope(norm, s, owner, scope, now).leases)
  {
    hide TableOk;
    CutKeepsTable(norm, s.leases, Expired(now));
    CutKeepsTable(norm, Prune(s.leases, now), ByPaths(owner, NormSet(norm, scope)));
  }

  /** The exact effect of a release on protection: everything stays covered if and only if the
      released scope shares no path with what its owner still has in hand under a lease. */
  lemma ReleaseKeepsCoverIff(norm: Norm, s: State, loose: set<string>, owner: string, scope: seq<string>, now: int)
    requires AllCovered(norm, s, loose) && Unexpired(s.leases, now) && owner != ""
    ensures AllCovered(norm, ReleaseTaskScope(norm, s, owner, scope, now), loose)
      <==> UnsharedTight(norm, s, loose, owner, scope)
  {
    hide NormSet, Unexpired;
    var t := ReleaseTaskScope(norm, s, owner, scope, now);
    forall o
      ensures t.tasks == s.tasks
      ensures PathsOf(t.leases, o) == if o == owner then PathsOf(s.leases, o) - NormSet(norm, scope)
        else PathsOf(s.leases, o)
    {
      ReleaseEffect(norm, s, owner, scope, now, o);
    }
    hide ReleaseTaskScope, PathsOf;
    forall k | k in s.tasks && Active(s.tasks[k]) && k !in loose
      ensures Covered(norm, t, k)
        <==> (s.tasks[k].claimedBy == owner ==> NormSet(norm, s.tasks[k].scope) !! NormSet(norm, scope))
    {
      assert Covered(norm, s, k);
    }
    if AllCovered(norm, t, loose) {
      forall k | InHand(s, owner, k) && k !in loose ensures NormSet(norm, s.tasks[k].scope) !! NormSet(norm, scope) {
        assert Covered(norm, t, k);
      }
    }
  }

  lemma ReleaseProtected(norm: Norm, s: State, loose: set<string>, owner: string, scope: seq<string>, now: int)
    requires Protected(norm, s, loose) && Unexpired(s.leases, now) && Unshared(norm, s, owner, scope)
    ensures Protected(norm, ReleaseTaskScope(norm, s, owner, scope, now), loose)
    ensures Unexpired(ReleaseTaskScope(norm, s, owner, scope, now).leases, now)
    ensures ReleaseTaskScope(norm, s, owner, scope, now).tasks == s.tasks
  {
    assert UnsharedTight(norm, s, loose, owner, scope);
    hide TableOk, NormSet, AllCovered, Unexpired, Unshared, UnsharedTight;
    if owner != "" {
      ReleaseKeepsCoverIff(norm, s, loose, owner, scope, now);
      ReleaseTable(norm, s, owner, scope, now);
      ReleaseEffect(norm, s, owner, scope, now, owner);
    }
  }

  lemma AcquireProtected(norm: Norm, s: State, loose: set<string>, worker: string, scope: seq<string>, now: int,
      lease: string)
    requires Protected(norm, s, loose) && Unexpired(s.leases, now)
    requires Acquire(norm, s.leases, worker, scope, LEASE_TTL, now, lease).Some?
    ensures var t := s.(leases := Acquire(norm, s.leases, worker, scope, LEASE_TTL, now, lease).value.0);
      && Protected(norm, t, loose) && Unexpired(t.leases, now)
      && NormSet(norm, scope) <= PathsOf(t.leases, worker)
  {
    var t := s.(leases := Acquire(norm, s.leases, worker, scope, LEASE_TTL, now, lease).value.0);
    AcquireKeepsTable(norm, s.leases, worker, scope, LEASE_TTL, now, lease);
    AcquireUnexpired(norm, s.leases, worker, scope, LEASE_TTL, now, lease);
    NothingExpired(s.leases, now);
    hide Acquire, TableOk, NormSet, Prune, Unexpired;
    assert forall o :: PathsOf(s.leases, o) <= PathsOf(t.leases, o);
    hide PathsOf;
    forall k | k in t.tasks && Active(t.tasks[k]) && k !in loose ensures Covered(norm, t, k) {
      assert Covered(norm, s, k);
    }
  }

  /** Task `id` gets into the hands of `worker`: by a claim, or by being resumed. */
  ghost predicate Takes(s: State, t: State, id: string, worker: string) {
    && id in s.tasks && !Active(s.tasks[id]) && id in t.tasks && t == s.(tasks := s.tasks[id := t.tasks[id]])
    && Active(t.tasks[id]) && t.tasks[id].claimedBy == worker && t.tasks[id].scope == s.tasks[id].scope
  }

  /** Taking a task into hand keeps the protection if and only if its worker holds the lease for its
      scope, or the task counts as loose, and the scope shares no path with what the worker has in
      hand already. */
  lemma TakeKeepsIff(norm: Norm, s: State, t: State, loose: set<string>, id: string, worker: string)
    requires Protected(norm, s, loose) && Takes(s, t, id, worker)
    ensures Protected(norm, t, loose) <==>
      ((id in loose || NormSet(norm, s.tasks[id].scope) <= PathsOf(s.leases, worker))
       && Unshared(norm, s, worker, s.tasks[id].scope))
  {
    hide TableOk, NormSet, PathsOf;
    assert forall k | k != id :: k in t.tasks <==> k in s.tasks;
    assert forall k, w | k != id :: InHand(t, w, k) <==> InHand(s, w, k);
    if Protected(norm, t, loose) {
      if id !in loose {
        assert Covered(norm, t, id);
      }
      forall k | InHand(s, worker, k) ensures NormSet(norm, s.tasks[k].scope) !! NormSet(norm, s.tasks[id].scope) {
        assert k != id && InHand(t, t.tasks[id].claimedBy, k);
      }
    }
    if (id in loose || NormSet(norm, s.tasks[id].scope) <= PathsOf(s.leases, worker))
      && Unshared(norm, s, worker, s.tasks[id].scope) {
      TakeKeeps(norm, s, t, loose, id, worker);
    }
  }

  lemma TakeKeeps(norm: Norm, s: State, t: State, loose: set<string>, id: string, worker: string)
    requires Protected(norm, s, loose) && Takes(s, t, id, worker)
    requires id in loose || NormSet(norm, s.tasks[id].scope) <= PathsOf(s.leases, worker)
    requires Unshared(norm, s, worker, s.tasks[id].scope)
    ensures Protected(norm, t, loose)
  {
    hide TableOk, NormSet, PathsOf;
    forall k | k in t.tasks && Active(t.tasks[k]) && k !in loose ensures Covered(norm, t, k) {
      assert k != id ==> Covered(norm, s, k);
    }
    forall j, k | j != k && k in t.tasks && InHand(t, t.tasks[k].claimedBy, j) && Active(t.tasks[k])
      ensures NormSet(norm, t.tasks[j].scope) !! NormSet(norm, t.tasks[k].scope)
    {
      if j != id && k != id {
        assert InHand(s, s.tasks[k].claimedBy, j);
      } else if j == id {
        assert InHand(s, worker, k);
      } else {
        assert InHand(s, worker, j);
      }
    }
  }

  lemma ClaimTakes(norm: Norm, s: State, id: string, worker: string, base: string)
    requires ClaimGated(norm, s, id, worker, base).Some?
    ensures Takes(s, ClaimGated(norm, s, id, worker, base).value, id, worker)
  {
    hide DepsFinished, NormSet;
  }

  lemma ResumeTakes(norm: Norm, s: State, id: string, worker: string)
    requires Transition(norm, s, id, Resume(worker)).Some?
    ensures Takes(s, Transition(norm, s, id, Resume(worker)).value, id, worker)
  {
  }

  lemma ResumeSucceeds(norm: Norm, s: State, id: string, worker: string)
    requires id in s.tasks && s.tasks[id].status == PendingReview && s.tasks[id].claimedBy == worker
    ensures Transition(norm, s, id, Resume(worker)).Some?
  {
  }

  lemma ClaimProtected(norm: Norm, s: State, loose: set<string>, id: string, worker: string, base: string)
    requires Protected(norm, s, loose) && ClaimGated(norm, s, id, worker, base).Some?
    requires id in s.tasks && (id in loose || NormSet(norm, s.tasks[id].scope) <= PathsOf(s.leases, worker))
    requires Unshared(norm, s, worker, s.tasks[id].scope)
    ensures Protected(norm, ClaimGated(norm, s, id, worker, base).value, loose)
  {
    ClaimTakes(norm, s, id, worker, base);
    hide Protected, ClaimGated, NormSet, Unshared, Takes;
    TakeKeepsIff(norm, s, ClaimGated(norm, s, id, worker, base).value, loose, id, worker);
  }

  /** `allow` keeps everything protected if and only if the worker holds the lease for the task's
      scope again and has nothing in hand that shares a path with it. */
  lemma AllowKeepsProtectedIff(norm: Norm, s: State, loose: set<string>, id: string, worker: string)
    requires Protected(norm, s, loose) && id in s.tasks && id !in loose
    requires s.tasks[id].status == PendingReview && s.tasks[id].claimedBy == worker
    ensures Protected(norm, Do(norm, s, AllowAsk(worker, id)), loose) <==>
      (NormSet(norm, s.tasks[id].scope) <= PathsOf(s.leases, worker) && Unshared(norm, s, worker, s.tasks[id].scope))
  {
    ResumeSucceeds(norm, s, id, worker);
    ResumeTakes(norm, s, id, worker);
    hide Protected, Transition, NormSet, Unshared, Takes;
    TakeKeepsIff(norm, s, Transition(norm, s, id, Resume(worker)).value, loose, id, worker);
  }

  /** A claim without a lease, when it is granted, keeps everything protected under the same condition. */
  lemma SelfClaimKeepsProtectedIff(norm: Norm, s: State, loose: set<string>, id: string, worker: string, base: string)
    requires Protected(norm, s, loose) && id in s.tasks && id !in loose && ClaimGated(norm, s, id, worker, base).Some?
    ensures Protected(norm, Do(norm, s, SelfClaim(worker, id, base)), loose) <==>
      (NormSet(norm, s.tasks[id].scope) <= PathsOf(s.leases, worker) && Unshared(norm, s, worker, s.tasks[id].scope))
  {
    ClaimTakes(norm, s, id, worker, base);
    hide Protected, ClaimGated, NormSet, Unshared, Takes;
    TakeKeepsIff(norm, s, ClaimGated(norm, s, id, worker, base).value, loose, id, worker);
  }

  // ---- the calls ----

  /** None of the candidates shares a path with what the worker has in hand. */
  ghost predicate CandsUnshared(norm: Norm, s: State, worker: string, cands: seq<string>) {
    forall i | 0 <= i < |cands| && cands[i] in s.tasks :: Unshared(norm, s, worker, s.tasks[cands[i]].scope)
  }

  lemma {:induction false} TryClaimsProtected(norm: Norm, s: State, loose: set<string>, cands: seq<string>,
      worker: string, base: string, now: int, lease: string)
    requires Protected(norm, s, loose) && Unexpired(s.leases, now) && CandsUnshared(norm, s, worker, cands)
    ensures Protected(norm, TryClaims(norm, s, cands, worker, base, now, lease).0, loose)
    decreases |cands|
  {
    hide Protected, Unexpired, Acquire, ReleaseTaskScope, ClaimGated, NormSet, Unshared;
    if cands != [] {
      assert forall i | 0 <= i < |cands[1..]| :: cands[1..][i] == cands[i + 1];
      assert CandsUnshared(norm, s, worker, cands[1..]);
      if cands[0] !in s.tasks {
        TryClaimsProtected(norm, s, loose, cands[1..], worker, base, now, lease);
      } else {
        var scope := s.tasks[cands[0]].scope;
        assert Unshared(norm, s, worker, scope);
        hide CandsUnshared;
        match Acquire(norm, s.leases, worker, scope, LEASE_TTL, now, lease)
        case None => TryClaimsProtected(norm, s, loose, cands[1..], worker, base, now, lease);
        case Some(r) =>
          var leased := s.(leases := r.0);
          AcquireProtected(norm, s, loose, worker, scope, now, lease);
          SameHands(norm, s, leased, worker, scope, cands[1..]);
          if ClaimGated(norm, leased, cands[0], worker, base).Some? {
            ClaimProtected(norm, leased, loose, cands[0], worker, base);
          } else {
            ReleaseProtected(norm, leased, loose, worker, scope, now);
            var back := ReleaseTaskScope(norm, leased, worker, scope, now);
            SameHands(norm, s, back, worker, scope, cands[1..]);
            TryClaimsProtected(norm, back, loose, cands[1..], worker, base, now, lease);
          }
      }
    }
  }

  lemma SameHands(norm: Norm, s: State, t: State, worker: string, scope: seq<string>, cands: seq<string>)
    requires s.tasks == t.tasks && Unshared(norm, s, worker, scope) && CandsUnshared(norm, s, worker, cands)
    ensures Unshared(norm, t, worker, scope) && CandsUnshared(norm, t, worker, cands)
  {
  }

  lemma ScopeOfIsScope(norm: Norm, s: State, id: string)
    requires id in s.tasks && Stable(norm, s.tasks[id].scope)
    ensures NormSet(norm, ScopeOf(norm, s, id)) == NormSet(norm, s.tasks[id].scope)
  {
    var raw, done := s.tasks[id].scope, ScopeOf(norm, s, id);
    forall i | 0 <= i < |raw| ensures norm(done[i]) == norm(raw[i]) {
    }
    forall p | p in NormSet(norm, raw) ensures p in NormSet(norm, done) {
      var i :| 0 <= i < |raw| && norm(raw[i]) != "" && norm(raw[i]) == p;
      assert norm(done[i]) == p;
    }
    forall p | p in NormSet(norm, done) ensures p in NormSet(norm, raw) {
      var i :| 0 <= i < |done| && norm(done[i]) != "" && norm(done[i]) == p;
      assert norm(raw[i]) == p;
    }
  }

  /** A directed claim normalises the scope before the lease does so again. What it leases, with what
      the worker holds, covers the scope as it is leased and released everywhere else. */
  ghost predicate DirectCovers(norm: Norm, s: State, worker: string, id: string)
    requires id in s.tasks
  {
    NormSet(norm, s.tasks[id].scope) <= PathsOf(s.leases, worker) + NormSet(norm, ScopeOf(norm, s, id))
  }

  /** What a directed claim needs: the lease covers the task, and neither form of its scope shares a
      path with what the worker has in hand. */
  ghost predicate DirectOk(norm: Norm, s: State, worker: string, id: string)
    requires id in s.tasks
  {
    && DirectCovers(norm, s, worker, id) && Unshared(norm, s, worker, s.tasks[id].scope)
    && Unshared(norm, s, worker, ScopeOf(norm, s, id))
  }

  lemma StableIsDirectOk(norm: Norm, s: State, worker: string, id: string)
    requires id in s.tasks && Stable(norm, s.tasks[id].scope) && Unshared(norm, s, worker, s.tasks[id].scope)
    ensures DirectOk(norm, s, worker, id)
  {
    ScopeOfIsScope(norm, s, id);
    hide NormSet, ScopeOf, PathsOf;
  }

  lemma MissingTaskClaim(norm: Norm, s: State, id: string, worker: string, base: string, now: int, lease: string)
    requires id !in s.tasks
    ensures ClaimOne(norm, s, id, worker, base, now, lease) == (s, None)
  {
  }

  lemma ClaimOneProtected(norm: Norm, s: State, loose: set<string>, id: string, worker: string, base: string,
      now: int, lease: string)
    requires Protected(norm, s, loose) && Unexpired(s.leases, now)
    requires id in s.tasks ==> DirectOk(norm, s, worker, id)
    ensures Protected(norm, ClaimOne(norm, s, id, worker, base, now, lease).0, loose)
  {
    if id !in s.tasks {
      MissingTaskClaim(norm, s, id, worker, base, now, lease);
    } else {
      var scope := ScopeOf(norm, s, id);
      match Acquire(norm, s.leases, worker, scope, LEASE_TTL, now, lease)
      case None =>
        if scope == [] && ClaimGated(norm, s, id, worker, base).Some? {
          EmptyScope(norm, s, id);
          hide Protected, ClaimGated, NormSet, Unshared, Acquire;
          ClaimProtected(norm, s, loose, id, worker, base);
        }
      case Some(r) =>
        var leased := s.(leases := r.0);
        LeasedDirectly(norm, s, loose, id, worker, now, lease);
        hide Protected, Unexpired, Acquire, ReleaseTaskScope, NormSet, DepsFinished, ScopeOf;
        if ClaimGated(norm, leased, id, worker, base).Some? {
          ClaimProtected(norm, leased, loose, id, worker, base);
        } else {
          hide ClaimGated;
          ReleaseProtected(norm, leased, loose, worker, scope, now);
        }
    }
  }

  lemma EmptyScope(norm: Norm, s: State, id: string)
    requires id in s.tasks && ScopeOf(norm, s, id) == []
    ensures NormSet(norm, s.tasks[id].scope) == {}
  {
  }

  /** After the lease of a directed claim is granted: everything protected, what was leased is held,
      and what was held still is. */
  lemma LeasedDirectly(norm: Norm, s: State, loose: set<string>, id: string, worker: string, now: int, lease: string)
    requires Protected(norm, s, loose) && Unexpired(s.leases, now) && id in s.tasks
    requires Acquire(norm, s.leases, worker, ScopeOf(norm, s, id), LEASE_TTL, now, lease).Some?
    ensures var t := s.(leases := Acquire(norm, s.leases, worker, ScopeOf(norm, s, id), LEASE_TTL, now, lease).value.0);
      && Protected(norm, t, loose) && Unexpired(t.leases, now)
      && PathsOf(t.leases, worker) == PathsOf(s.leases, worker) + NormSet(norm, ScopeOf(norm, s, id))
      && (forall scope :: Unshared(norm, t, worker, scope) <==> Unshared(norm, s, worker, scope))
  {
    var scope := ScopeOf(norm, s, id);
    AcquireProtected(norm, s, loose, worker, scope, now, lease);
    AcquireKeepsTable(norm, s.leases, worker, scope, LEASE_TTL, now, lease);
    NothingExpired(s.leases, now);
    hide Acquire, Protected, NormSet, PathsOf, ScopeOf, Unexpired, Prune, TableOk;
    var t := s.(leases := Acquire(norm, s.leases, worker, scope, LEASE_TTL, now, lease).value.0);
    assert forall k :: InHand(t, worker, k) <==> InHand(s, worker, k);
  }

  /** The exact condition for a directed claim that is granted: it keeps everything protected if and
      only if what it leased, with what the worker held, covers the task's scope. */
  lemma DirectClaimKeepsProtectedIff(norm: Norm, s: State, loose: set<string>, id: string, worker: string,
      base: string, now: int, lease: string)
    requires Protected(norm, s, loose) && Unexpired(s.leases, now)
    requires id in s.tasks && id !in loose && Unshared(norm, s, worker, s.tasks[id].scope)
    requires Acquire(norm, s.leases, worker, ScopeOf(norm, s, id), LEASE_TTL, now, lease).Some?
    requires ClaimGated(norm, s, id, worker, base).Some?
    ensures Protected(norm, ClaimOne(norm, s, id, worker, base, now, lease).0, loose) <==>
      DirectCovers(norm, s, worker, id)
  {
    var leased := s.(leases := Acquire(norm, s.leases, worker, ScopeOf(norm, s, id), LEASE_TTL, now, lease).value.0);
    LeasedDirectly(norm, s, loose, id, worker, now, lease);
    GatedOnLease(norm, s, leased, id, worker, base);
    ClaimTakes(norm, leased, id, worker, base);
    hide Protected, ClaimGated, NormSet, Unshared, Takes, Acquire, ScopeOf, Unexpired, PathsOf;
    TakeKeepsIff(norm, leased, ClaimGated(norm, leased, id, worker, base).value, loose, id, worker);
  }

  /** Leases play no part in the transition of a claim. */
  lemma GatedOnLease(norm: Norm, s: State, leased: State, id: string, worker: string, base: string)
    requires leased.tasks == s.tasks
    ensures ClaimGated(norm, leased, id, worker, base).Some? <==> ClaimGated(norm, s, id, worker, base).Some?
  {
    hide Apply;
  }

  lemma LeaveHandsProtected(norm: Norm, s: State, loose: set<string>, id: string, a: Action, now: int)
    requires Protected(norm, s, loose) && Unexpired(s.leases, now)
    requires a.Reject? || a.Review? || a.Conflict? || a.Merge?
    ensures Protected(norm, LeaveHands(norm, s, id, a, now), loose)
  {
    hide TableOk, AllCovered, NormSet, ReleaseTaskScope, Unexpired;
    if Transition(norm, s, id, a).Some? {
      TransitionProtected(norm, s, loose, id, a);
      var t := Transition(norm, s, id, a).value;
      var owner, scope := s.tasks[id].claimedBy, s.tasks[id].scope;
      assert InHand(s, owner, id) && !Active(t.tasks[id]);
      NoNewHandsOf(norm, s, id, a);
      assert Unshared(norm, t, owner, scope) by {
        forall k | InHand(t, owner, k) ensures NormSet(norm, t.tasks[k].scope) !! NormSet(norm, scope) {
          assert k != id && InHand(s, s.tasks[id].claimedBy, k);
        }
      }
      hide OwnDisjoint, Unshared;
      if scope != [] {
        ReleaseProtected(norm, t, loose, owner, scope, now);
      }
    }
  }

  lemma NoNewHandsOf(norm: Norm, s: State, id: string, a: Action)
    requires Transition(norm, s, id, a).Some?
    ensures var t := Transition(norm, s, id, a).value;
      t.leases == s.leases && t.tasks.Keys == s.tasks.Keys && forall k | k in s.tasks && k != id ::
        t.tasks[k] == s.tasks[k]
  {
  }

  lemma PublishProtected(norm: Norm, s: State, loose: set<string>, drafts: seq<Task>)
    requires Protected(norm, s, loose) && forall i | 0 <= i < |drafts| :: IsNew(drafts[i])
    ensures Protected(norm, Publish(s, drafts), loose)
  {
    hide TableOk, NormSet, DepGraph;
    if Admissible(s.tasks, drafts) {
      DraftsAreAdded(s.tasks, drafts);
      hide WithDrafts, Admissible;
      var t := Publish(s, drafts);
      forall k | k in t.tasks && Active(t.tasks[k]) && k !in loose ensures k in s.tasks && Covered(norm, t, k) {
        assert Covered(norm, s, k);
      }
      forall j, k | j != k && k in t.tasks && InHand(t, t.tasks[k].claimedBy, j) && Active(t.tasks[k])
        ensures NormSet(norm, t.tasks[j].scope) !! NormSet(norm, t.tasks[k].scope)
      {
        assert InHand(s, s.tasks[k].claimedBy, j);
      }
    }
  }

  lemma ReacquireProtected(norm: Norm, s: State, loose: set<string>, worker: string, id: string, now: int,
      lease: string)
    requires Protected(norm, s, loose) && Unexpired(s.leases, now)
    ensures Protected(norm, ReacquireScope(norm, s, worker, id, now, lease), loose)
  {
    hide Protected, Unexpired, Acquire;
    if id in s.tasks && Acquire(norm, s.leases, worker, s.tasks[id].scope, LEASE_TTL, now, lease).Some? {
      AcquireProtected(norm, s, loose, worker, s.tasks[id].scope, now, lease);
    }
  }

  // ---- runs ----

  /** The conditions under which a step is covered by the theorem: no lease has expired, no worker
      takes on a scope that shares a path with what it has in hand, and what a directed claim leases
      covers its task. */
  ghost predicate Careful(norm: Norm, s: State, step: Step) {
    match step
    case ClaimNext(w, cands, base, now, lease) => Unexpired(s.leases, now) && CandsUnshared(norm, s, w, cands)
    case ClaimSpecific(w, id, base, now, lease) =>
      Unexpired(s.leases, now) && (id in s.tasks ==> DirectOk(norm, s, w, id))
    case RejectWork(w, id, f, now) => Unexpired(s.leases, now)
    case Reconcile(id, conflict, head, f, now) => Unexpired(s.leases, now)
    case SuspendForAsk(w, id, now) => Unexpired(s.leases, now)
    case Reacquire(w, id, now, lease) => Unexpired(s.leases, now)
    case AllowAsk(w, id) => Transition(norm, s, id, Resume(w)).Some? ==> Unshared(norm, s, w, s.tasks[id].scope)
    case SelfClaim(w, id, base) => ClaimGated(norm, s, id, w, base).Some? ==> Unshared(norm, s, w, s.tasks[id].scope)
    case _ => true
  }

  /** As the design intends it: a worker takes on work with empty hands; a directed claim is for a
      scope whose normal form is stable. */
  ghost predicate EmptyHanded(norm: Norm, s: State, step: Step) {
    match step
    case ClaimNext(w, cands, base, now, lease) => Unexpired(s.leases, now) && forall k :: !InHand(s, w, k)
    case ClaimSpecific(w, id, base, now, lease) =>
      && Unexpired(s.leases, now) && (forall k :: !InHand(s, w, k))
      && (id in s.tasks ==> Stable(norm, s.tasks[id].scope))
    case RejectWork(w, id, f, now) => Unexpired(s.leases, now)
    case Reconcile(id, conflict, head, f, now) => Unexpired(s.leases, now)
    case SuspendForAsk(w, id, now) => Unexpired(s.leases, now)
    case Reacquire(w, id, now, lease) => Unexpired(s.leases, now)
    case AllowAsk(w, id) => forall k :: !InHand(s, w, k)
    case SelfClaim(w, id, base) => forall k :: !InHand(s, w, k)
    case _ => true
  }

  lemma EmptyHandedIsCareful(norm: Norm, s: State, step: Step)
    requires EmptyHanded(norm, s, step)
    ensures Careful(norm, s, step)
  {
    if step.ClaimSpecific? && step.id in s.tasks {
      StableIsDirectOk(norm, s, step.worker, step.id);
    }
    hide DirectOk, NormSet;
  }

  /** The task a step may put into hands without a lease. */
  function MayLoosen(step: Step): set<string> {
    match step
    case AllowAsk(w, id) => {id}
    case SelfClaim(w, id, base) => {id}
    case _ => {}
  }

  /** The tasks in hand without a lease after a run: an allowed ask or a lease-free claim put them
      there, and they count until they leave hands or their worker holds their scope. */
  ghost function Loose(norm: Norm, steps: seq<Step>): set<string> {
    if steps == [] then {}
    else
      var n := |steps| - 1;
      Tighten(norm, Run(norm, EMPTY, steps), Loose(norm, steps[..n]) + MayLoosen(steps[n]))
  }

  ghost function Tighten(norm: Norm, s: State, loose: set<string>): set<string> {
    set k | k in loose && k in s.tasks && Active(s.tasks[k]) && !Covered(norm, s, k)
  }

  lemma TightenKeeps(norm: Norm, s: State, loose: set<string>)
    requires Protected(norm, s, loose)
    ensures Protected(norm, s, Tighten(norm, s, loose))
  {
    hide TableOk, OwnDisjoint, Covered;
  }

  lemma TransitionStepProtected(norm: Norm, s: State, loose: set<string>, id: string, a: Action)
    requires Protected(norm, s, loose) && !a.Claim? && !a.Resume?
    ensures Protected(norm, OrElse(Transition(norm, s, id, a), s), loose)
  {
    hide Protected, Apply;
    if Transition(norm, s, id, a).Some? {
      TransitionProtected(norm, s, loose, id, a);
    }
  }

  lemma ReplanProtected(norm: Norm, s: State, loose: set<string>, parent: string, proposed: seq<string>, child: string)
    requires Protected(norm, s, loose)
    ensures Protected(norm, ReplanTask(norm, s, parent, proposed, child), loose)
  {
    hide Protected, Admissible, NormSet, Transition;
    if parent in s.tasks {
      var task := NewTask(child, CleanScope(norm, proposed), [], parent);
      PublishProtected(norm, s, loose, [task]);
      TransitionStepProtected(norm, Publish(s, [task]), loose, parent, Supersede);
    }
  }

  lemma TakeStepProtected(norm: Norm, s: State, loose: set<string>, step: Step)
    requires Protected(norm, s, loose) && Careful(norm, s, step) && MayLoosen(step) <= loose
    requires step.AllowAsk? || step.SelfClaim?
    ensures Protected(norm, Do(norm, s, step), loose)
  {
    hide Protected, Transition, ClaimGated, NormSet, Unshared, Takes;
    match step {
      case AllowAsk(w, id) =>
        if Transition(norm, s, id, Resume(w)).Some? {
          ResumeTakes(norm, s, id, w);
          TakeIsKnown(s, Transition(norm, s, id, Resume(w)).value, id, w);
          TakeKeepsIff(norm, s, Transition(norm, s, id, Resume(w)).value, loose, id, w);
        }
      case SelfClaim(w, id, base) =>
        if ClaimGated(norm, s, id, w, base).Some? {
          ClaimTakes(norm, s, id, w, base);
          TakeIsKnown(s, ClaimGated(norm, s, id, w, base).value, id, w);
          TakeKeepsIff(norm, s, ClaimGated(norm, s, id, w, base).value, loose, id, w);
        }
    }
  }

  lemma TakeIsKnown(s: State, t: State, id: string, worker: string)
    requires Takes(s, t, id, worker)
    ensures id in s.tasks
  {
  }

  lemma StepProtected(norm: Norm, s: State, loose: set<string>, step: Step)
    requires Protected(norm, s, loose) && Careful(norm, s, step) && MayLoosen(step) <= loose
    ensures Protected(norm, Do(norm, s, step), loose)
  {
    hide Protected, Transition, LeaveHands, Publish, ReplanTask, DirectOk, CandsUnshared, Unexpired, Unshared,
      ReacquireScope;
    match step {
      case PublishBatch(specs) =>
        DraftsAreNew(specs);
        PublishProtected(norm, s, loose, Drafts(specs));
      case ClaimNext(w, cands, base, now, lease) => TryClaimsProtected(norm, s, loose, cands, w, base, now, lease);
      case ClaimSpecific(w, id, base, now, lease) => ClaimOneProtected(norm, s, loose, id, w, base, now, lease);
      case SubmitWork(w, id, branch) => TransitionStepProtected(norm, s, loose, id, Submit(w, branch));
      case CompleteWork(w, id) => TransitionStepProtected(norm, s, loose, id, Complete(w));
      case FailWork(w, id, f) => TransitionStepProtected(norm, s, loose, id, Reject(w, f));
      case RejectWork(w, id, f, now) => LeaveHandsProtected(norm, s, loose, id, Reject(w, f), now);
      case Replan(parent, proposed, child) => ReplanProtected(norm, s, loose, parent, proposed, child);
      case Reconcile(id, conflict, head, f, now) =>
        LeaveHandsProtected(norm, s, loose, id, if conflict then Conflict(head, f) else Merge, now);
      case SuspendForAsk(w, id, now) => LeaveHandsProtected(norm, s, loose, id, Review(w), now);
      case DenyAsk(w, id, f) => TransitionStepProtected(norm, s, loose, id, DenyReview(w, f));
      case SweepAsk(w, id) => TransitionStepProtected(norm, s, loose, id, Suspend(w));
      case AllowAsk(w, id) => TakeStepProtected(norm, s, loose, step);
      case SelfClaim(w, id, base) => TakeStepProtected(norm, s, loose, step);
      case Reacquire(w, id, now, lease) => ReacquireProtected(norm, s, loose, w, id, now, lease);
    }
  }

  lemma MoreLoose(norm: Norm, s: State, loose: set<string>, more: set<string>)
    requires Protected(norm, s, loose) && loose <= more
    ensures Protected(norm, s, more)
  {
    hide TableOk, OwnDisjoint, Covered;
  }

  ghost predicate CarefulRun(norm: Norm, steps: seq<Step>) {
    steps == [] ||
    (CarefulRun(norm, steps[..|steps| - 1])
     && Careful(norm, Run(norm, EMPTY, steps[..|steps| - 1]), steps[|steps| - 1]))
  }

  lemma {:induction false} RunProtected(norm: Norm, steps: seq<Step>)
    requires CarefulRun(norm, steps)
    ensures Protected(norm, Run(norm, EMPTY, steps), Loose(norm, steps))
  {
    if steps != [] {
      var n := |steps| - 1;
      RunProtected(norm, steps[..n]);
      hide Protected, Careful, Do, Tighten;
      var s, loose := Run(norm, EMPTY, steps[..n]), Loose(norm, steps[..n]) + MayLoosen(steps[n]);
      MoreLoose(norm, s, Loose(norm, steps[..n]), loose);
      StepProtected(norm, s, loose, steps[n]);
      TightenKeeps(norm, Run(norm, EMPTY, steps), loose);
    }
  }

  lemma RootsOfScope(norm: Norm, scope: seq<string>)
    requires Stable(norm, scope)
    ensures Roots(norm, Elems(scope)) <= Roots(norm, NormSet(norm, scope))
  {
    forall r | r in Roots(norm, Elems(scope)) ensures r in Roots(norm, NormSet(norm, scope)) {
      var i :| 0 <= i < |scope| && Trim(norm(scope[i])) == r;
      assert norm(scope[i]) != "";
      assert norm(scope[i]) in NormSet(norm, scope) && Trim(norm(norm(scope[i]))) == r;
    }
  }

  /** Over whole runs and for any normaliser: the paths that tasks of different workers have leased do
      not conflict, allowed asks and lease-free claims included once their lease is held. */
  lemma LeasedExclusion(norm: Norm, steps: seq<Step>, a: string, b: string, v: string, w: string)
    requires CarefulRun(norm, steps) && v != w
    requires InHand(Run(norm, EMPTY, steps), v, a) && a !in Loose(norm, steps)
    requires InHand(Run(norm, EMPTY, steps), w, b) && b !in Loose(norm, steps)
    ensures var s := Run(norm, EMPTY, steps);
      Apart(norm, NormSet(norm, s.tasks[a].scope), NormSet(norm, s.tasks[b].scope))
  {
    var s := Run(norm, EMPTY, steps);
    RunProtected(norm, steps);
    hide Run, CarefulRun, NormSet, Roots, Loose;
    assert Covered(norm, s, a) && Covered(norm, s, b);
    HoldingsApart(norm, s.leases, v, w);
    hide TableOk, AllCovered, OwnDisjoint, PathsOf;
    ApartShrinks(norm, PathsOf(s.leases, v), PathsOf(s.leases, w), NormSet(norm, s.tasks[a].scope),
      NormSet(norm, s.tasks[b].scope));
  }

  /** Write exclusion over whole runs: two tasks in the hands of different workers, whose scopes are
      stable under the normaliser, never have equal or nested scope paths. */
  lemma WriteExclusion(norm: Norm, steps: seq<Step>, a: string, b: string, v: string, w: string)
    requires CarefulRun(norm, steps) && v != w
    requires InHand(Run(norm, EMPTY, steps), v, a) && a !in Loose(norm, steps)
    requires InHand(Run(norm, EMPTY, steps), w, b) && b !in Loose(norm, steps)
    requires Stable(norm, Run(norm, EMPTY, steps).tasks[a].scope)
      && Stable(norm, Run(norm, EMPTY, steps).tasks[b].scope)
    ensures Apart(norm, Elems(Run(norm, EMPTY, steps).tasks[a].scope), Elems(Run(norm, EMPTY, steps).tasks[b].scope))
  {
    LeasedExclusion(norm, steps, a, b, v, w);
    RootsOfScope(norm, Run(norm, EMPTY, steps).tasks[a].scope);
    RootsOfScope(norm, Run(norm, EMPTY, steps).tasks[b].scope);
    hide Run, CarefulRun, NormSet, Roots, Loose, Stable;
  }

  ghost predicate EmptyHandedRun(norm: Norm, steps: seq<Step>) {
    steps == [] ||
    (EmptyHandedRun(norm, steps[..|steps| - 1])
     && EmptyHanded(norm, Run(norm, EMPTY, steps[..|steps| - 1]), steps[|steps| - 1]))
  }

  lemma {:induction false} EmptyHandedRunIsCareful(norm: Norm, steps: seq<Step>)
    requires EmptyHandedRun(norm, steps)
    ensures CarefulRun(norm, steps)
  {
    if steps != [] {
      EmptyHandedRunIsCareful(norm, steps[..|steps| - 1]);
      hide Run, EmptyHanded, Careful;
      EmptyHandedIsCareful(norm, Run(norm, EMPTY, steps[..|steps| - 1]), steps[|steps| - 1]);
    }
  }

  /** As the design intends it: when workers take on work with empty hands, no ask is allowed and no
      claim is made without a lease, stable scopes of different workers' tasks are apart. */
  lemma EmptyHandedExclusion(norm: Norm, steps: seq<Step>, a: string, b: string, v: string, w: string)
    requires EmptyHandedRun(norm, steps) && v != w
    requires forall i | 0 <= i < |steps| :: !steps[i].AllowAsk? && !steps[i].SelfClaim?
    requires InHand(Run(norm, EMPTY, steps), v, a) && InHand(Run(norm, EMPTY, steps), w, b)
    requires Stable(norm, Run(norm, EMPTY, steps).tasks[a].scope)
      && Stable(norm, Run(norm, EMPTY, steps).tasks[b].scope)
    ensures Apart(norm, Elems(Run(norm, EMPTY, steps).tasks[a].scope), Elems(Run(norm, EMPTY, steps).tasks[b].scope))
  {
    EmptyHandedRunIsCareful(norm, steps);
    NothingLoose(norm, steps);
    hide EmptyHandedRun, CarefulRun, Run, Loose, Stable, Apart;
    WriteExclusion(norm, steps, a, b, v, w);
  }

  /** Only an allowed ask or a lease-free claim of the task itself makes it loose. */
  lemma LooseComesFrom(norm: Norm, steps: seq<Step>, k: string)
    requires steps != [] && k in Loose(norm, steps) && k !in Loose(norm, steps[..|steps| - 1])
    ensures var step := steps[|steps| - 1]; (step.AllowAsk? || step.SelfClaim?) && step.id == k
  {
    hide Run, Covered;
  }

  /** In a run without them no task is ever loose. */
  lemma {:induction false} NothingLoose(norm: Norm, steps: seq<Step>)
    requires forall i | 0 <= i < |steps| :: !steps[i].AllowAsk? && !steps[i].SelfClaim?
    ensures Loose(norm, steps) == {}
  {
    if steps != [] {
      hide Run, Covered;
      var front := steps[..|steps| - 1];
      assert forall i | 0 <= i < |front| :: front[i] == steps[i];
      NothingLoose(norm, front);
    }
  }

  /** A worker that gets the lease for a task it has in hand has it under protection again. */
  lemma ReacquiredIsTight(norm: Norm, steps: seq<Step>, w: string, id: string, now: int, lease: string)
    requires CarefulRun(norm, steps) && InHand(Run(norm, EMPTY, steps), w, id)
    requires Acquire(norm, Run(norm, EMPTY, steps).leases, w, Run(norm, EMPTY, steps).tasks[id].scope, LEASE_TTL,
      now, lease).Some?
    ensures id !in Loose(norm, steps + [Reacquire(w, id, now, lease)])
  {
    var step := Reacquire(w, id, now, lease);
    RunProtected(norm, steps);
    ReacquireCovers(norm, Run(norm, EMPTY, steps), w, id, now, lease);
    assert (steps + [step])[..|steps|] == steps;
    hide Protected, Do, CarefulRun, Acquire, Covered;
    assert Run(norm, EMPTY, steps + [step]) == Do(norm, Run(norm, EMPTY, steps), step);
  }

  lemma AcquireCovers(norm: Norm, ls: seq<Lease>, w: string, scope: seq<string>, now: int, lease: string)
    requires TableOk(norm, ls) && Acquire(norm, ls, w, scope, LEASE_TTL, now, lease).Some?
    ensures NormSet(norm, scope) <= PathsOf(Acquire(norm, ls, w, scope, LEASE_TTL, now, lease).value.0, w)
  {
    AcquireKeepsTable(norm, ls, w, scope, LEASE_TTL, now, lease);
    hide Acquire, NormSet, TableOk, PathsOf, Prune;
  }

  lemma ReacquireCovers(norm: Norm, s: State, w: string, id: string, now: int, lease: string)
    requires TableOk(norm, s.leases) && InHand(s, w, id)
    requires Acquire(norm, s.leases, w, s.tasks[id].scope, LEASE_TTL, now, lease).Some?
    ensures var t := Do(norm, s, Reacquire(w, id, now, lease)); id in t.tasks && Covered(norm, t, id)
  {
    hide Acquire, NormSet, TableOk, PathsOf;
    AcquireCovers(norm, s.leases, w, s.tasks[id].scope, now, lease);
    assert Do(norm, s, Reacquire(w, id, now, lease)).tasks == s.tasks;
  }
}
