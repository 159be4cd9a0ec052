/**
 * What the lease table and the claim loop grant, said in terms of the leases and tasks themselves:
 * who keeps a lease, who gets one, and which candidate a worker gets.
 */
module CoordGrants {
  import opened Options
  import opened CoordTask
  import opened CoordLeases
  import opened CoordProtocol
  import opened CoordSafety

  // ---- what expiry and the releases leave ----

  ghost predicate Increasing(at: seq<nat>, n: nat) {
    && (forall j | 0 <= j < |at| :: at[j] < n)
    && (forall j, k | 0 <= j < k < |at| :: at[j] < at[k])
  }

  /** The places from i on of the leases a cut leaves something of, in order. */
  lemma {:induction false} SurvivorsFrom(ls: seq<Lease>, c: Cut, i: nat) returns (at: seq<nat>)
    requires i <= |ls|
    ensures Increasing(at, |ls|) && |at| == |CutTable(ls[i..], c)| && forall j | 0 <= j < |at| :: i <= at[j]
    ensures forall j | 0 <= j < |at| :: CutLease(ls[at[j]], c) == Some(CutTable(ls[i..], c)[j])
    ensures forall k | i <= k < |ls| && CutLease(ls[k], c).Some? :: k in at
    decreases |ls| - i
  {
    hide CutLease;
    at := [];
    if i < |ls| {
      var rest := SurvivorsFrom(ls, c, i + 1);
      TableFrom(ls, c, i);
      hide CutTable;
      if CutLease(ls[i], c).Some? {
        at := [i] + rest;
        assert forall j | 0 < j < |at| :: at[j] == rest[j - 1];
      } else {
        at := rest;
      }
    }
  }

  lemma {:induction false} TableFrom(ls: seq<Lease>, c: Cut, i: nat)
    requires i < |ls|
    ensures var first, tail, out := CutLease(ls[i], c), CutTable(ls[i + 1..], c), CutTable(ls[i..], c);
      && (first.None? ==> out == tail)
      && (first.Some? ==> |out| == |tail| + 1 && out[0] == first.value)
      && (first.Some? ==> forall j | 0 < j < |out| :: out[j] == tail[j - 1])
  {
    hide CutLease;
    assert ls[i..][0] == ls[i] && ls[i..][1..] == ls[i + 1..];
  }

  lemma Survivors(ls: seq<Lease>, c: Cut) returns (at: seq<nat>)
    ensures Increasing(at, |ls|) && |at| == |CutTable(ls, c)|
    ensures forall j | 0 <= j < |at| :: CutLease(ls[at[j]], c) == Some(CutTable(ls, c)[j])
    ensures forall k | 0 <= k < |ls| && CutLease(ls[k], c).Some? :: k in at
  {
    at := SurvivorsFrom(ls, c, 0);
    assert ls[0..] == ls;
  }

  /** Pruning keeps exactly the leases that have not expired, each as it was and in order. */
  lemma PruneExactly(ls: seq<Lease>, now: int) returns (at: seq<nat>)
    ensures Increasing(at, |ls|) && |at| == |Prune(ls, now)|
    ensures forall j | 0 <= j < |at| :: Prune(ls, now)[j] == ls[at[j]]
    ensures forall i: nat | i < |ls| :: i in at <==> ls[i].expiresAt > now
  {
    at := Survivors(ls, Expired(now));
  }

  /** A release by id keeps exactly the leases that have another id or another owner. */
  lemma ReleaseByIdExactly(ls: seq<Lease>, id: string, owner: string) returns (at: seq<nat>)
    ensures Increasing(at, |ls|) && |at| == |ReleaseScope(ls, id, owner)|
    ensures forall j | 0 <= j < |at| :: ReleaseScope(ls, id, owner)[j] == ls[at[j]]
    ensures forall i: nat | i < |ls| :: i in at <==> ls[i].id != id || ls[i].owner != owner
  {
    at := Survivors(ls, ById(id, owner));
  }

  function Without(l: Lease, owner: string, drop: set<string>): Lease {
    if l.owner != owner then l else l.(paths := l.paths - drop)
  }

  /** A release by path keeps every lease of another owner as it was, and of the owner's own leases
      those that hold another path, with everything but the named paths. */
  lemma ReleaseByPathsExactly(norm: Norm, ls: seq<Lease>, owner: string, paths: seq<string>) returns (at: seq<nat>)
    ensures Increasing(at, |ls|) && |at| == |ReleaseScopePaths(norm, ls, owner, paths)|
    ensures forall j | 0 <= j < |at| ::
      ReleaseScopePaths(norm, ls, owner, paths)[j] == Without(ls[at[j]], owner, NormSet(norm, paths))
    ensures forall i: nat | i < |ls| ::
      i in at <==> ls[i].owner != owner || NormSet(norm, paths) == {} || !(ls[i].paths <= NormSet(norm, paths))
  {
    var drop := NormSet(norm, paths);
    hide NormSet;
    if drop == {} {
      at := seq(|ls|, i => i);
      forall i: nat | i < |ls| ensures i in at {
        assert at[i] == i;
      }
    } else {
      at := Survivors(ls, ByPaths(owner, drop));
      forall i: nat | i < |ls| ensures ls[i].paths - drop == {} <==> ls[i].paths <= drop {
        assert forall p | p in ls[i].paths && p !in drop :: p in ls[i].paths - drop;
      }
    }
  }

  // ---- who gets a lease ----

  /** Both name something, and no path of one is equal to, inside or around a path of the other. */
  ghost predicate Compatible(norm: Norm, a: set<string>, b: set<string>) {
    Roots(norm, a) != {} && Roots(norm, b) != {} && Apart(norm, a, b)
  }

  /** The asked paths name something and fit every lease another owner still has. */
  ghost predicate Grantable(norm: Norm, ls: seq<Lease>, owner: string, paths: seq<string>, now: int) {
    && (exists i :: 0 <= i < |paths| && norm(paths[i]) != "")
    && forall l | l in ls && l.expiresAt > now && l.owner != owner :: Compatible(norm, l.paths, NormSet(norm, paths))
  }

  lemma CompatibleIff(norm: Norm, a: set<string>, b: set<string>)
    ensures ScopeConflicts(norm, a, b) <==> !Compatible(norm, a, b)
  {
    hide Roots;
  }

  lemma NamesSomething(norm: Norm, paths: seq<string>)
    ensures NormSet(norm, paths) != {} <==> exists i :: 0 <= i < |paths| && norm(paths[i]) != ""
  {
    if i :| 0 <= i < |paths| && norm(paths[i]) != "" {
      assert norm(paths[i]) in NormSet(norm, paths);
    }
  }

  /** A lease is granted if and only if the asked paths name something and fit every unexpired lease
      of the other owners. */
  lemma AcquireIff(norm: Norm, ls: seq<Lease>, owner: string, paths: seq<string>, ttl: int, now: int, id: string)
    ensures Acquire(norm, ls, owner, paths, ttl, now, id).Some? <==> Grantable(norm, ls, owner, paths, now)
  {
    var ps, active := NormSet(norm, paths), Prune(ls, now);
    NamesSomething(norm, paths);
    OthersConflictIff(norm, ls, owner, ps, now);
    hide NormSet, Prune, CoordLeases.Merge, OthersConflict, Compatible;
  }

  lemma OthersConflictIff(norm: Norm, ls: seq<Lease>, owner: string, ps: set<string>, now: int)
    ensures OthersConflict(norm, Prune(ls, now), owner, ps) <==>
      exists l :: l in ls && l.expiresAt > now && l.owner != owner && !Compatible(norm, l.paths, ps)
  {
    var active := Prune(ls, now);
    PruneMembers(ls, now);
    hide Prune, Compatible, ScopeConflicts;
    forall l: Lease ensures ScopeConflicts(norm, l.paths, ps) <==> !Compatible(norm, l.paths, ps) {
      CompatibleIff(norm, l.paths, ps);
    }
    if l :| l in ls && l.expiresAt > now && l.owner != owner && !Compatible(norm, l.paths, ps) {
      var j :| 0 <= j < |active| && active[j] == l;
      assert ScopeConflicts(norm, active[j].paths, ps);
    }
    if j :| 0 <= j < |active| && active[j].owner != owner && ScopeConflicts(norm, active[j].paths, ps) {
      assert active[j] in ls;
    }
  }

  /** After a grant: the unexpired leases of the other owners as they were, and the owner's one lease,
      which keeps its identity if it had one, holds its old and the new paths, and lasts for `ttl`. */
  lemma AcquireExactly(norm: Norm, ls: seq<Lease>, owner: string, paths: seq<string>, ttl: int, now: int, id: string,
      l: Lease)
    requires TableOk(norm, ls) && Acquire(norm, ls, owner, paths, ttl, now, id).Some?
    ensures var (out, mine) := Acquire(norm, ls, owner, paths, ttl, now, id).value;
      && (l in out <==> l == mine || (l in ls && l.expiresAt > now && l.owner != owner))
      && (l in ls && l.expiresAt > now && l.owner == owner ==>
            mine == l.(paths := l.paths + NormSet(norm, paths), expiresAt := now + ttl))
      && ((forall m | m in ls && m.expiresAt > now :: m.owner != owner) ==>
            mine == Lease(id, owner, NormSet(norm, paths), now, now + ttl))
  {
    var active, ps := Prune(ls, now), NormSet(norm, paths);
    AcquireMeans(norm, ls, owner, paths, ttl, now, id);
    CutKeepsTable(norm, ls, Expired(now));
    PruneMembers(ls, now);
    hide Acquire, Prune, NormSet, OthersConflict, CoordLeases.Merge, TableOk;
    MergeExactly(norm, active, owner, ps, now + ttl, l);
  }

  lemma MergeExactly(norm: Norm, active: seq<Lease>, owner: string, ps: set<string>, expiry: int, l: Lease)
    requires TableOk(norm, active)
    ensures var (out, merged) := CoordLeases.Merge(active, owner, ps, expiry, None);
      && (merged.None? ==> out == active && forall m | m in active :: m.owner != owner)
      && (merged.Some? ==> merged.value.owner == owner)
      && (merged.Some? ==> (l in out <==> l == merged.value || (l in active && l.owner != owner)))
      && (merged.Some? ==> exists m :: m in active && m.owner == owner)
      && (l in active && l.owner == owner ==> merged == Some(l.(paths := l.paths + ps, expiresAt := expiry)))
  {
    hide Apart;
    if i :| 0 <= i < |active| && active[i].owner == owner {
      MergeUpdatesOne(active, owner, ps, expiry, i);
      UpdatedMembers(active, i, active[i].(paths := active[i].paths + ps, expiresAt := expiry), l);
    } else {
      MergePassesOthers(active, owner, ps, expiry, None);
    }
  }

  lemma PruneMembers(ls: seq<Lease>, now: int)
    ensures forall l :: l in Prune(ls, now) <==> l in ls && l.expiresAt > now
  {
    var at := PruneExactly(ls, now);
    hide Prune;
    forall l | l in ls && l.expiresAt > now ensures l in Prune(ls, now) {
      var i: nat :| i < |ls| && ls[i] == l;
      var j :| 0 <= j < |at| && at[j] == i;
      assert Prune(ls, now)[j] == l;
    }
  }

  lemma UpdatedMembers(active: seq<Lease>, i: nat, m: Lease, l: Lease)
    requires i < |active| && m.owner == active[i].owner
    requires forall j, k | 0 <= j < k < |active| :: active[j].owner != active[k].owner
    ensures l in active[i := m] <==> l == m || (l in active && l.owner != m.owner)
    ensures l in active && l.owner == m.owner ==> l == active[i]
  {
    var out := active[i := m];
    assert out[i] == m;
    if l in active && l.owner != m.owner {
      var j :| 0 <= j < |active| && active[j] == l;
      assert out[j] == l;
    }
  }

  // ---- which candidate a worker gets ----

  /** The task waits, its dependencies are all completed or merged, and its scope names a path. */
  ghost predicate Claimable(norm: Norm, tasks: map<string, Task>, c: string) {
    && c in tasks && (tasks[c].status == Pending || tasks[c].status == Reopened)
    && (forall d | d in tasks[c].deps :: d in tasks && (tasks[d].status == Completed || tasks[d].status == Merged))
    && exists i :: 0 <= i < |tasks[c].scope| && norm(tasks[c].scope[i]) != ""
  }

  /** It is claimable and its scope fits every unexpired lease of the other workers. */
  ghost predicate Free(norm: Norm, s: State, w: string, c: string, now: int) {
    Claimable(norm, s.tasks, c) && Grantable(norm, s.leases, w, s.tasks[c].scope, now)
  }

  /** The other owners have the same unexpired leases in both tables. */
  ghost predicate OthersAlike(ls: seq<Lease>, ks: seq<Lease>, w: string, now: int) {
    forall l: Lease | l.owner != w && l.expiresAt > now :: l in ls <==> l in ks
  }

  lemma ClaimGatedIff(norm: Norm, s: State, c: string, w: string, base: string)
    ensures ClaimGated(norm, s, c, w, base).Some? <==> Claimable(norm, s.tasks, c)
    ensures Claimable(norm, s.tasks, c) ==> ClaimGated(norm, s, c, w, base).value == s.(tasks := s.tasks[c :=
      s.tasks[c].(status := Claimed, claimedBy := w, baseCommit := base, revision := s.tasks[c].revision + 1)])
  {
    if c in s.tasks {
      NamesSomething(norm, s.tasks[c].scope);
    }
    hide NormSet;
  }

  lemma {:induction false} MergeOthers(ls: seq<Lease>, owner: string, paths: set<string>, expiry: int,
      merged: Option<Lease>, l: Lease)
    requires l.owner != owner && (merged.Some? ==> merged.value.owner == owner)
    ensures l in CoordLeases.Merge(ls, owner, paths, expiry, merged).0 <==> l in ls
    ensures var last := CoordLeases.Merge(ls, owner, paths, expiry, merged).1; last.Some? ==> last.value.owner == owner
  {
    if ls != [] {
      var m := ls[0].(paths := ls[0].paths + paths, expiresAt := expiry);
      if ls[0].owner == owner && merged.None? {
        MergeOthers(ls[1..], owner, paths, expiry, Some(m), l);
      } else if ls[0].owner == owner {
        MergeOthers(ls[1..], owner, paths, expiry,
          Some(merged.value.(paths := merged.value.paths + ls[0].paths, expiresAt := expiry)), l);
      } else {
        MergeOthers(ls[1..], owner, paths, expiry, merged, l);
      }
    }
  }

  lemma AcquireLeavesOthers(norm: Norm, ls: seq<Lease>, w: string, paths: seq<string>, ttl: int, now: int, id: string)
    requires Acquire(norm, ls, w, paths, ttl, now, id).Some?
    ensures OthersAlike(ls, Acquire(norm, ls, w, paths, ttl, now, id).value.0, w, now)
  {
    AcquireMeans(norm, ls, w, paths, ttl, now, id);
    PruneMembers(ls, now);
    hide Acquire, Prune, NormSet, OthersConflict, CoordLeases.Merge;
    forall l: Lease | l.owner != w && l.expiresAt > now
      ensures l in ls <==> l in Acquire(norm, ls, w, paths, ttl, now, id).value.0
    {
      MergeOthers(Prune(ls, now), w, NormSet(norm, paths), now + ttl, None, l);
    }
  }

  lemma ReleaseLeavesOthers(norm: Norm, s: State, w: string, scope: seq<string>, now: int)
    ensures OthersAlike(s.leases, ReleaseTaskScope(norm, s, w, scope, now).leases, w, now)
    ensures ReleaseTaskScope(norm, s, w, scope, now).tasks == s.tasks
  {
    var active := Prune(s.leases, now);
    PruneMembers(s.leases, now);
    var at := ReleaseByPathsExactly(norm, active, w, scope);
    hide Prune, ReleaseScopePaths;
    var out := ReleaseScopePaths(norm, active, w, scope);
    forall l: Lease | l.owner != w && l.expiresAt > now ensures l in active <==> l in out {
      if l in active {
        var i: nat :| i < |active| && active[i] == l;
        var j :| 0 <= j < |at| && at[j] == i;
        assert out[j] == l;
      }
    }
  }

  lemma FreeAlike(norm: Norm, s: State, t: State, w: string, c: string, now: int)
    requires s.tasks == t.tasks && OthersAlike(s.leases, t.leases, w, now)
    ensures Free(norm, s, w, c, now) <==> Free(norm, t, w, c, now)
  {
    hide Claimable, Compatible;
  }

  lemma FreeIsThere(norm: Norm, s: State, w: string, c: string, now: int)
    requires Free(norm, s, w, c, now)
    ensures c in s.tasks
  {
  }

  /** A free first candidate is claimed; after any other one the loop goes on, with the tasks and the
      leases of the others as they were. */
  lemma {:induction false} TryFirst(norm: Norm, s: State, cands: seq<string>, w: string, base: string, now: int,
      lease: string) returns (t: State)
    requires cands != []
    ensures var c := cands[0]; var (x, got) := TryClaims(norm, s, cands, w, base, now, lease);
      if Free(norm, s, w, c, now) then
        && got == Some(c)
        && x.tasks == s.tasks[c := s.tasks[c].(status := Claimed, claimedBy := w, baseCommit := base,
          revision := s.tasks[c].revision + 1)]
      else
        && t.tasks == s.tasks && OthersAlike(s.leases, t.leases, w, now)
        && (x, got) == TryClaims(norm, t, cands[1..], w, base, now, lease)
  {
    var c := cands[0];
    t := s;
    if c in s.tasks {
      AcquireIff(norm, s.leases, w, s.tasks[c].scope, LEASE_TTL, now, lease);
      var o := Acquire(norm, s.leases, w, s.tasks[c].scope, LEASE_TTL, now, lease);
      if o.Some? {
        var leased := s.(leases := o.value.0);
        ClaimGatedIff(norm, leased, c, w, base);
        hide Acquire, ClaimGated, Claimable, Grantable;
        if ClaimGated(norm, leased, c, w, base).None? {
          t := ReleaseTaskScope(norm, leased, w, s.tasks[c].scope, now);
          LeasedAndGivenBack(norm, s, c, w, now, lease);
        }
      }
    }
  }

  /** The claim loop gives the worker the first candidate that is free, whatever happens to the
      candidates before it: a refused lease, or a lease that is granted and given back because the
      claim is refused. It gives nothing only when no candidate is free. */
  lemma {:induction false} ClaimsTheFirstFree(norm: Norm, s: State, cands: seq<string>, w: string, base: string,
      now: int, lease: string)
    ensures var (t, got) := TryClaims(norm, s, cands, w, base, now, lease);
      && (got.None? ==> t.tasks == s.tasks && forall i | 0 <= i < |cands| :: !Free(norm, s, w, cands[i], now))
      && (got.Some? ==> FirstFree(norm, s, cands, w, now, got.value))
      && (got.Some? ==> t.tasks == s.tasks[got.value := s.tasks[got.value].(status := Claimed, claimedBy := w,
        baseCommit := base, revision := s.tasks[got.value].revision + 1)])
    decreases |cands|
  {
    if cands != [] {
      hide TryClaims, Free, OthersAlike;
      var t := TryFirst(norm, s, cands, w, base, now, lease);
      if !Free(norm, s, w, cands[0], now) {
        ClaimsTheFirstFree(norm, t, cands[1..], w, base, now, lease);
        FirstOfRest(norm, s, t, cands, w, now, TryClaims(norm, t, cands[1..], w, base, now, lease).1);
      } else {
        FreeIsThere(norm, s, w, cands[0], now);
      }
    }
  }

  /** `got` is the first free candidate. */
  ghost predicate FirstFree(norm: Norm, s: State, cands: seq<string>, w: string, now: int, got: string) {
    exists i :: 0 <= i < |cands| && cands[i] == got && Free(norm, s, w, got, now)
      && forall j | 0 <= j < i :: !Free(norm, s, w, cands[j], now)
  }

  lemma LeasedAndGivenBack(norm: Norm, s: State, c: string, w: string, now: int, lease: string)
    requires c in s.tasks && Acquire(norm, s.leases, w, s.tasks[c].scope, LEASE_TTL, now, lease).Some?
    ensures var leased := s.(leases := Acquire(norm, s.leases, w, s.tasks[c].scope, LEASE_TTL, now, lease).value.0);
      var back := ReleaseTaskScope(norm, leased, w, s.tasks[c].scope, now);
      back.tasks == s.tasks && OthersAlike(s.leases, back.leases, w, now)
  {
    AcquireLeavesOthers(norm, s.leases, w, s.tasks[c].scope, LEASE_TTL, now, lease);
    var leased := s.(leases := Acquire(norm, s.leases, w, s.tasks[c].scope, LEASE_TTL, now, lease).value.0);
    ReleaseLeavesOthers(norm, leased, w, s.tasks[c].scope, now);
    hide Acquire, ReleaseTaskScope;
  }

  /** The first candidate is not free, and the rest is tried on a state that looks the same. */
  lemma FirstOfRest(norm: Norm, s: State, t: State, cands: seq<string>, w: string, now: int, got: Option<string>)
    requires cands != [] && !Free(norm, s, w, cands[0], now)
    requires t.tasks == s.tasks && OthersAlike(s.leases, t.leases, w, now)
    requires got.None? ==> forall i | 0 <= i < |cands[1..]| :: !Free(norm, t, w, cands[1..][i], now)
    requires got.Some? ==> FirstFree(norm, t, cands[1..], w, now, got.value)
    ensures got.None? ==> forall i | 0 <= i < |cands| :: !Free(norm, s, w, cands[i], now)
    ensures got.Some? ==> FirstFree(norm, s, cands, w, now, got.value)
  {
    forall c ensures Free(norm, s, w, c, now) <==> Free(norm, t, w, c, now) {
      FreeAlike(norm, s, t, w, c, now);
    }
    hide Free, OthersAlike;
    var rest := cands[1..];
    assert forall i | 0 < i < |cands| :: cands[i] == rest[i - 1];
    if got.Some? {
      var i :| 0 <= i < |rest| && rest[i] == got.value && Free(norm, t, w, got.value, now)
        && forall j | 0 <= j < i :: !Free(norm, t, w, rest[j], now);
      assert cands[i + 1] == got.value;
      forall j | 0 <= j < i + 1 ensures !Free(norm, s, w, cands[j], now) {
        if j > 0 {
          assert cands[j] == rest[j - 1];
        }
      }
    }
  }

  /** The worker then has a lease on the scope of the task it got, for 600 seconds. */
  lemma {:induction false} WinnerHoldsLease(norm: Norm, s: State, cands: seq<string>, w: string, base: string,
      now: int, lease: string) returns (l: Lease)
    requires TableOk(norm, s.leases) && TryClaims(norm, s, cands, w, base, now, lease).1.Some?
    ensures var (t, got) := TryClaims(norm, s, cands, w, base, now, lease);
      && got.value in s.tasks && l in t.leases && l.owner == w && l.expiresAt == now + 600
      && NormSet(norm, s.tasks[got.value].scope) <= l.paths
    decreases |cands|
  {
    var c := cands[0];
    hide TableOk, NormSet;
    if c !in s.tasks {
      l := WinnerHoldsLease(norm, s, cands[1..], w, base, now, lease);
    } else {
      var o := Acquire(norm, s.leases, w, s.tasks[c].scope, LEASE_TTL, now, lease);
      if o.None? {
        l := WinnerHoldsLease(norm, s, cands[1..], w, base, now, lease);
      } else {
        var leased := s.(leases := o.value.0);
        AcquireKeepsTable(norm, s.leases, w, s.tasks[c].scope, LEASE_TTL, now, lease);
        GrantLasts(norm, s.leases, w, s.tasks[c].scope, LEASE_TTL, now, lease);
        l := o.value.1;
        hide Acquire;
        if ClaimGated(norm, leased, c, w, base).None? {
          var back := ReleaseTaskScope(norm, leased, w, s.tasks[c].scope, now);
          LeasedAndGivenBack(norm, s, c, w, now, lease);
          ReleasedTableOk(norm, leased.leases, w, s.tasks[c].scope, now);
          hide ClaimGated, ReleaseScopePaths, Prune;
          l := WinnerHoldsLease(norm, back, cands[1..], w, base, now, lease);
        }
      }
    }
  }

  lemma GrantLasts(norm: Norm, ls: seq<Lease>, w: string, paths: seq<string>, ttl: int, now: int, id: string)
    requires TableOk(norm, ls) && Acquire(norm, ls, w, paths, ttl, now, id).Some?
    ensures Acquire(norm, ls, w, paths, ttl, now, id).value.1.expiresAt == now + ttl
  {
    var mine := Acquire(norm, ls, w, paths, ttl, now, id).value.1;
    AcquireExactly(norm, ls, w, paths, ttl, now, id, mine);
    hide TableOk, Acquire, NormSet;
    if l :| l in ls && l.expiresAt > now && l.owner == w {
      AcquireExactly(norm, ls, w, paths, ttl, now, id, l);
    }
  }

  lemma ReleasedTableOk(norm: Norm, ls: seq<Lease>, w: string, scope: seq<string>, now: int)
    requires TableOk(norm, ls)
    ensures TableOk(norm, ReleaseScopePaths(norm, Prune(ls, now), w, scope))
  {
    CutKeepsTable(norm, ls, Expired(now));
    CutKeepsTable(norm, Prune(ls, now), ByPaths(w, NormSet(norm, scope)));
    hide TableOk;
  }

  /** A directed claim gets its task exactly when the task is claimable and its scope, normalised
      twice, fits every unexpired lease of the others. */
  lemma DirectedClaimIff(norm: Norm, s: State, id: string, w: string, base: string, now: int, lease: string)
    ensures var (t, got) := ClaimOne(norm, s, id, w, base, now, lease);
      && (got == Some(id) <==> Claimable(norm, s.tasks, id) && Grantable(norm, s.leases, w, ScopeOf(norm, s, id), now))
      && (got == None || got == Some(id))
      && t.tasks == if got.None? then s.tasks else s.tasks[id := s.tasks[id].(status := Claimed, claimedBy := w,
           baseCommit := base, revision := s.tasks[id].revision + 1)]
  {
    AcquireIff(norm, s.leases, w, ScopeOf(norm, s, id), LEASE_TTL, now, lease);
    ClaimGatedIff(norm, s, id, w, base);
    var o := Acquire(norm, s.leases, w, ScopeOf(norm, s, id), LEASE_TTL, now, lease);
    if o.Some? {
      var leased := s.(leases := o.value.0);
      ClaimGatedIff(norm, leased, id, w, base);
    } else if ScopeOf(norm, s, id) == [] && id in s.tasks {
      EmptyScope(norm, s, id);
      NamesSomething(norm, s.tasks[id].scope);
    }
    hide Acquire, ClaimGated, Claimable, Grantable, NormSet;
  }
}
