/** Scope leases: which owner may write which paths, as a table changed by acquire, renewal,
    expiry and release. */
module CoordLeases {
  import opened Options
  import opened CoordTask

  datatype Lease = Lease(id: string, owner: string, paths: set<string>, acquiredAt: int, expiresAt: int)

  // ---- conflicts between path sets ----

  /** Drops trailing slashes. */
  function Trim(p: string): string {
    if p != "" && p[|p| - 1] == '/' then Trim(p[..|p| - 1]) else p
  }

  function Roots(norm: Norm, ps: set<string>): set<string> {
    (set p | p in ps :: Trim(norm(p))) - {""}
  }

  /** The same path, or one path inside the other. */
  predicate Nested(l: string, r: string) {
    l == r || r + "/" <= l || l + "/" <= r
  }

  predicate ScopeConflicts(norm: Norm, a: set<string>, b: set<string>) {
    || Roots(norm, a) == {} || Roots(norm, b) == {}
    || exists l, r | l in Roots(norm, a) && r in Roots(norm, b) :: Nested(l, r)
  }

  /** No path of a is equal to, inside or around a path of b. */
  predicate Apart(norm: Norm, a: set<string>, b: set<string>) {
    forall l, r | l in Roots(norm, a) && r in Roots(norm, b) :: !Nested(l, r)
  }

  lemma ApartSymmetric(norm: Norm, a: set<string>, b: set<string>)
    requires Apart(norm, a, b)
    ensures Apart(norm, b, a)
  {
  }

  lemma ApartShrinks(norm: Norm, a: set<string>, b: set<string>, c: set<string>, d: set<string>)
    requires Apart(norm, a, b) && c <= a && d <= b
    ensures Apart(norm, c, d)
  {
  }

  lemma ApartUnion(norm: Norm, a: set<string>, b: set<string>, c: set<string>)
    requires Apart(norm, a, c) && Apart(norm, b, c)
    ensures Apart(norm, a + b, c)
  {
  }

  // ---- the table ----

  /** One lease per owner, none empty, and leases of different owners apart. */
  ghost predicate TableOk(norm: Norm, ls: seq<Lease>) {
    && (forall i | 0 <= i < |ls| :: ls[i].paths != {})
    && (forall i, j | 0 <= i < j < |ls| :: ls[i].owner != ls[j].owner)
    && (forall i, j | 0 <= i < j < |ls| :: Apart(norm, ls[i].paths, ls[j].paths))
  }

  /** Everything an owner holds. */
  ghost function PathsOf(ls: seq<Lease>, owner: string): set<string> {
    if ls == [] then {}
    else (if ls[0].owner == owner then ls[0].paths else {}) + PathsOf(ls[1..], owner)
  }

  lemma {:induction false} NobodyHolds(ls: seq<Lease>, owner: string)
    requires forall i | 0 <= i < |ls| :: ls[i].owner != owner
    ensures PathsOf(ls, owner) == {}
  {
    if ls != [] {
      NobodyHolds(ls[1..], owner);
    }
  }

  /** In a well-formed table an owner that holds anything holds it in one lease. */
  lemma {:induction false} HolderHasLease(norm: Norm, ls: seq<Lease>, owner: string) returns (i: nat)
    requires TableOk(norm, ls) && PathsOf(ls, owner) != {}
    ensures i < |ls| && ls[i].owner == owner && ls[i].paths == PathsOf(ls, owner)
  {
    if ls[0].owner == owner {
      i := 0;
      NobodyHolds(ls[1..], owner);
    } else {
      TailOk(norm, ls);
      var j := HolderHasLease(norm, ls[1..], owner);
      i := j + 1;
    }
  }

  lemma TailOk(norm: Norm, ls: seq<Lease>)
    requires TableOk(norm, ls) && ls != []
    ensures TableOk(norm, ls[1..])
  {
  }

  /** What the invariant is for: holdings of different owners never touch. */
  lemma HoldingsApart(norm: Norm, ls: seq<Lease>, a: string, b: string)
    requires TableOk(norm, ls) && a != b
    ensures Apart(norm, PathsOf(ls, a), PathsOf(ls, b))
  {
    if PathsOf(ls, a) == {} || PathsOf(ls, b) == {} {
      assert Roots(norm, {}) == {};
    } else {
      hide Apart;
      var i := HolderHasLease(norm, ls, a);
      var j := HolderHasLease(norm, ls, b);
      if i < j {
        assert Apart(norm, ls[i].paths, ls[j].paths);
      } else {
        assert Apart(norm, ls[j].paths, ls[i].paths);
        ApartSymmetric(norm, ls[j].paths, ls[i].paths);
      }
    }
  }

  // ---- operations that only take away: expiry and the two releases ----

  datatype Cut =
    | Expired(now: int)
    | ById(id: string, owner: string)
    | ByPaths(owner: string, drop: set<string>)

  /** What a cut leaves of one lease; None when the lease goes. */
  function CutLease(l: Lease, c: Cut): Option<Lease> {
    match c
    case Expired(now) => if l.expiresAt > now then Some(l) else None
    case ById(id, owner) => if l.id == id && l.owner == owner then None else Some(l)
    case ByPaths(owner, drop) =>
      if l.owner != owner then Some(l)
      else if l.paths - drop != {} then Some(l.(paths := l.paths - drop))
      else None
  }

  function CutTable(ls: seq<Lease>, c: Cut): seq<Lease> {
    if ls == [] then []
    else
      var rest := CutTable(ls[1..], c);
      match CutLease(ls[0], c)
      case None => rest
      case Some(l) => [l] + rest
  }

  function Prune(ls: seq<Lease>, now: int): seq<Lease> {
    CutTable(ls, Expired(now))
  }

  function ReleaseScope(ls: seq<Lease>, id: string, owner: string): seq<Lease> {
    CutTable(ls, ById(id, owner))
  }

  function ReleaseScopePaths(norm: Norm, ls: seq<Lease>, owner: string, paths: seq<string>): seq<Lease> {
    var drop := NormSet(norm, paths);
    if drop == {} then ls else CutTable(ls, ByPaths(owner, drop))
  }

  lemma {:induction false} CutFrom(ls: seq<Lease>, c: Cut, j: nat) returns (k: nat)
    requires j < |CutTable(ls, c)|
    ensures k < |ls| && CutTable(ls, c)[j].owner == ls[k].owner && CutTable(ls, c)[j].paths <= ls[k].paths
  {
    if CutLease(ls[0], c).None? {
      k := CutFrom(ls[1..], c, j);
      k := k + 1;
    } else if j == 0 {
      k := 0;
    } else {
      k := CutFrom(ls[1..], c, j - 1);
      k := k + 1;
    }
  }

  lemma ConsOk(norm: Norm, l: Lease, rest: seq<Lease>)
    requires TableOk(norm, rest) && l.paths != {}
    requires forall j | 0 <= j < |rest| :: l.owner != rest[j].owner && Apart(norm, l.paths, rest[j].paths)
    ensures TableOk(norm, [l] + rest)
  {
  }

  /** Taking away keeps the table well-formed. */
  lemma {:induction false} CutKeepsTable(norm: Norm, ls: seq<Lease>, c: Cut)
    requires TableOk(norm, ls)
    ensures TableOk(norm, CutTable(ls, c))
  {
    if ls != [] {
      TailOk(norm, ls);
      CutKeepsTable(norm, ls[1..], c);
      var rest := CutTable(ls[1..], c);
      hide Apart;
      match CutLease(ls[0], c)
      case None =>
      case Some(l) =>
        forall j | 0 <= j < |rest| ensures l.owner != rest[j].owner && Apart(norm, l.paths, rest[j].paths) {
          var k := CutFrom(ls[1..], c, j);
          assert ls[1..][k] == ls[k + 1];
          assert Apart(norm, ls[0].paths, ls[k + 1].paths);
          ApartShrinks(norm, ls[0].paths, ls[k + 1].paths, l.paths, rest[j].paths);
        }
        ConsOk(norm, l, rest);
    }
  }

  /** A release takes exactly the named paths from exactly its own owner. */
  lemma {:induction false} CutPathsExactly(ls: seq<Lease>, owner: string, drop: set<string>, o: string)
    ensures PathsOf(CutTable(ls, ByPaths(owner, drop)), o)
         == if o == owner then PathsOf(ls, o) - drop else PathsOf(ls, o)
  {
    if ls != [] {
      var c := ByPaths(owner, drop);
      CutPathsExactly(ls[1..], owner, drop, o);
      var rest, tail := CutTable(ls[1..], c), PathsOf(ls[1..], o);
      assert (ls[0].paths + tail) - drop == (ls[0].paths - drop) + (tail - drop);
      match CutLease(ls[0], c)
      case None =>
      case Some(l) => assert ([l] + rest)[1..] == rest;
    }
  }

  /** Releasing a lease by id never takes anything from another owner. */
  lemma {:induction false} CutByIdSparesOthers(ls: seq<Lease>, id: string, owner: string, o: string)
    requires o != owner
    ensures PathsOf(ReleaseScope(ls, id, owner), o) == PathsOf(ls, o)
  {
    if ls != [] {
      CutByIdSparesOthers(ls[1..], id, owner, o);
      var rest := CutTable(ls[1..], ById(id, owner));
      assert ([ls[0]] + rest)[1..] == rest;
    }
  }

  lemma {:induction false} NothingExpired(ls: seq<Lease>, now: int)
    requires forall i | 0 <= i < |ls| :: ls[i].expiresAt > now
    ensures Prune(ls, now) == ls
  {
    if ls != [] {
      NothingExpired(ls[1..], now);
    }
  }

  /** What is left of one lease. */
  function CutOne(l: Lease, c: Cut): seq<Lease> {
    match CutLease(l, c) case None => [] case Some(m) => [m]
  }

  lemma CutNext(out: seq<Lease>, ls: seq<Lease>, c: Cut, i: nat)
    requires i < |ls|
    ensures (out + CutOne(ls[i], c)) + CutTable(ls[i + 1..], c) == out + CutTable(ls[i..], c)
  {
    assert ls[i..][1..] == ls[i + 1..] && ls[i..][0] == ls[i];
    assert CutTable(ls[i..], c) == CutOne(ls[i], c) + CutTable(ls[i + 1..], c);
  }

  /** The release loop of the source, one lease at a time. */
  method ReleasePathsLoop(norm: Norm, ls: seq<Lease>, owner: string, paths: seq<string>) returns (out: seq<Lease>)
    ensures out == ReleaseScopePaths(norm, ls, owner, paths)
  {
    hide CutTable, NormSet;
    var drop := NormSet(norm, paths);
    if drop == {} {
      return ls;
    }
    out := [];
    ghost var c := ByPaths(owner, drop);
    assert ls[0..] == ls;
    for i := 0 to |ls|
      invariant out + CutTable(ls[i..], c) == CutTable(ls, c)
    {
      var l := ls[i];
      CutNext(out, ls, c, i);
      if l.owner != owner {
        out := out + [l];
      } else {
        var remain := l.paths - drop;
        if remain != {} {
          out := out + [l.(paths := remain)];
        }
      }
    }
    CutNothing(out, ls, c);
  }

  lemma CutNothing(out: seq<Lease>, ls: seq<Lease>, c: Cut)
    ensures out + CutTable(ls[|ls|..], c) == out
  {
  }

  // ---- acquiring ----

  /** The merge pass over the active leases: the owner's first lease takes in the new paths, any
      further lease of that owner would be folded into `merged` but not written back. */
  function Merge(ls: seq<Lease>, owner: string, paths: set<string>, expiry: int, merged: Option<Lease>)
    : (seq<Lease>, Option<Lease>)
  {
    if ls == [] then ([], merged)
    else if ls[0].owner == owner && merged.None? then
      var m := ls[0].(paths := ls[0].paths + paths, expiresAt := expiry);
      var (out, last) := Merge(ls[1..], owner, paths, expiry, Some(m));
      ([m] + out, last)
    else if ls[0].owner == owner then
      Merge(ls[1..], owner, paths, expiry,
            Some(merged.value.(paths := merged.value.paths + ls[0].paths, expiresAt := expiry)))
    else
      var (out, last) := Merge(ls[1..], owner, paths, expiry, merged);
      ([ls[0]] + out, last)
  }

  predicate OthersConflict(norm: Norm, active: seq<Lease>, owner: string, paths: set<string>) {
    exists i | 0 <= i < |active| :: active[i].owner != owner && ScopeConflicts(norm, active[i].paths, paths)
  }

  /** The new table and the lease in force, or None when refused. */
  function Acquire(norm: Norm, ls: seq<Lease>, owner: string, paths: seq<string>, ttl: int, now: int, id: string)
    : Option<(seq<Lease>, Lease)>
  {
    var active := Prune(ls, now);
    var candidate := Lease(id, owner, NormSet(norm, paths), now, now + ttl);
    if candidate.paths == {} || OthersConflict(norm, active, owner, candidate.paths) then None
    else
      var (out, merged) := Merge(active, owner, candidate.paths, now + ttl, None);
      match merged
      case None => Some((out + [candidate], candidate))
      case Some(m) => Some((out, m))
  }

  lemma {:induction false} MergePassesOthers(ls: seq<Lease>, owner: string, paths: set<string>, expiry: int,
      merged: Option<Lease>)
    requires forall i | 0 <= i < |ls| :: ls[i].owner != owner
    ensures Merge(ls, owner, paths, expiry, merged) == (ls, merged)
  {
    if ls != [] {
      MergePassesOthers(ls[1..], owner, paths, expiry, merged);
      assert [ls[0]] + ls[1..] == ls;
    }
  }

  /** With at most one lease per owner the merge updates exactly that lease in place. */
  lemma {:induction false} MergeUpdatesOne(ls: seq<Lease>, owner: string, paths: set<string>, expiry: int, i: nat)
    requires forall j, k | 0 <= j < k < |ls| :: ls[j].owner != ls[k].owner
    requires i < |ls| && ls[i].owner == owner
    ensures var m := ls[i].(paths := ls[i].paths + paths, expiresAt := expiry);
            Merge(ls, owner, paths, expiry, None) == (ls[i := m], Some(m))
  {
    var m := ls[i].(paths := ls[i].paths + paths, expiresAt := expiry);
    if i == 0 {
      MergePassesOthers(ls[1..], owner, paths, expiry, Some(m));
      assert ls[0 := m] == [m] + ls[1..];
    } else {
      MergeUpdatesOne(ls[1..], owner, paths, expiry, i - 1);
      assert ls[i := m] == [ls[0]] + ls[1..][i - 1 := m];
    }
  }

  lemma {:induction false} PathsUpdated(ls: seq<Lease>, i: nat, m: Lease, o: string)
    requires i < |ls| && m.owner == ls[i].owner
    requires forall j | 0 <= j < |ls| && j != i :: ls[j].owner != m.owner
    ensures PathsOf(ls[i := m], o) == if o == m.owner then m.paths else PathsOf(ls, o)
  {
    if i == 0 {
      assert ls[0 := m] == [m] + ls[1..];
      NobodyHolds(ls[1..], m.owner);
    } else {
      assert ls[i := m] == [ls[0]] + ls[1..][i - 1 := m];
      PathsUpdated(ls[1..], i - 1, m, o);
    }
  }

  lemma {:induction false} PathsAppended(ls: seq<Lease>, l: Lease, o: string)
    ensures PathsOf(ls + [l], o) == PathsOf(ls, o) + (if l.owner == o then l.paths else {})
  {
    if ls == [] {
      assert [l][1..] == [];
    } else {
      assert (ls + [l])[1..] == ls[1..] + [l];
      PathsAppended(ls[1..], l, o);
    }
  }

  /** The active table's entry of `owner` is replaced by m, whose paths are apart from the others'. */
  lemma UpdatedOk(norm: Norm, ls: seq<Lease>, i: nat, m: Lease)
    requires TableOk(norm, ls) && i < |ls| && m.owner == ls[i].owner && m.paths != {}
    requires forall j | 0 <= j < |ls| && j != i :: Apart(norm, m.paths, ls[j].paths)
    ensures TableOk(norm, ls[i := m])
  {
  }

  lemma AppendedOk(norm: Norm, ls: seq<Lease>, l: Lease)
    requires TableOk(norm, ls) && l.paths != {}
    requires forall j | 0 <= j < |ls| :: ls[j].owner != l.owner && Apart(norm, l.paths, ls[j].paths)
    ensures TableOk(norm, ls + [l])
  {
    hide Apart;
    var out := ls + [l];
    forall j, k | 0 <= j < k < |out| ensures Apart(norm, out[j].paths, out[k].paths) {
      if k == |ls| {
        ApartSymmetric(norm, l.paths, ls[j].paths);
      }
    }
  }

  lemma CandidateApart(norm: Norm, active: seq<Lease>, owner: string, paths: set<string>, j: nat)
    requires !OthersConflict(norm, active, owner, paths) && j < |active| && active[j].owner != owner
    ensures Apart(norm, paths, active[j].paths)
  {
  }

  lemma AcquireMeans(norm: Norm, ls: seq<Lease>, owner: string, paths: seq<string>, ttl: int, now: int, id: string)
    requires Acquire(norm, ls, owner, paths, ttl, now, id).Some?
    ensures var ps, active := NormSet(norm, paths), Prune(ls, now);
      var (out, merged) := Merge(active, owner, ps, now + ttl, None);
      && ps != {} && !OthersConflict(norm, active, owner, ps)
      && Acquire(norm, ls, owner, paths, ttl, now, id).value ==
         match merged
         case None => (out + [Lease(id, owner, ps, now, now + ttl)], Lease(id, owner, ps, now, now + ttl))
         case Some(m) => (out, m)
  {
    hide Merge, OthersConflict, NormSet, Prune;
  }

  /** A granted acquire keeps the table well-formed, returns a lease of that table, adds exactly
      the asked paths to the owner's holdings and leaves everybody else's alone. */
  lemma AcquireKeepsTable(norm: Norm, ls: seq<Lease>, owner: string, paths: seq<string>, ttl: int, now: int, id: string)
    requires TableOk(norm, ls)
    requires Acquire(norm, ls, owner, paths, ttl, now, id).Some?
    ensures var (out, lease) := Acquire(norm, ls, owner, paths, ttl, now, id).value;
      && TableOk(norm, out) && lease in out && lease.owner == owner
      && lease.paths == PathsOf(out, owner) == PathsOf(Prune(ls, now), owner) + NormSet(norm, paths)
      && forall o | o != owner :: PathsOf(out, o) == PathsOf(Prune(ls, now), o)
  {
    var active, ps := Prune(ls, now), NormSet(norm, paths);
    CutKeepsTable(norm, ls, Expired(now));
    AcquireMeans(norm, ls, owner, paths, ttl, now, id);
    hide Acquire, TableOk, PathsOf, Merge, OthersConflict, NormSet, Prune;
    GrantedEither(norm, active, owner, ps, now + ttl, Lease(id, owner, ps, now, now + ttl));
  }

  /** What a grant on top of the active leases means. */
  ghost predicate Granted(norm: Norm, active: seq<Lease>, owner: string, ps: set<string>, out: seq<Lease>, l: Lease) {
    && TableOk(norm, out) && l in out && l.owner == owner
    && l.paths == PathsOf(out, owner) == PathsOf(active, owner) + ps
    && forall o | o != owner :: PathsOf(out, o) == PathsOf(active, o)
  }

  lemma GrantedEither(norm: Norm, active: seq<Lease>, owner: string, ps: set<string>, expiry: int, l: Lease)
    requires TableOk(norm, active) && ps != {} && !OthersConflict(norm, active, owner, ps)
    requires l.owner == owner && l.paths == ps && l.expiresAt == expiry
    ensures var (out, merged) := Merge(active, owner, ps, expiry, None);
      if merged.Some? then Granted(norm, active, owner, ps, out, merged.value)
      else Granted(norm, active, owner, ps, out + [l], l)
  {
    hide TableOk, PathsOf, Merge, OthersConflict;
    if i :| 0 <= i < |active| && active[i].owner == owner {
      AcquireMerges(norm, active, owner, ps, expiry, i);
    } else {
      AcquireAppends(norm, active, l);
    }
  }

  lemma AcquireMerges(norm: Norm, active: seq<Lease>, owner: string, paths: set<string>, expiry: int, i: nat)
    requires TableOk(norm, active) && paths != {} && !OthersConflict(norm, active, owner, paths)
    requires i < |active| && active[i].owner == owner
    ensures var (out, last) := Merge(active, owner, paths, expiry, None);
      && last.Some? && TableOk(norm, out) && last.value in out && last.value.owner == owner
      && last.value.paths == PathsOf(out, owner) == PathsOf(active, owner) + paths
      && forall o | o != owner :: PathsOf(out, o) == PathsOf(active, o)
  {
    hide Apart;
    var m := active[i].(paths := active[i].paths + paths, expiresAt := expiry);
    MergeUpdatesOne(active, owner, paths, expiry, i);
    forall j | 0 <= j < |active| && j != i ensures Apart(norm, m.paths, active[j].paths) {
      CandidateApart(norm, active, owner, paths, j);
      if i < j {
        assert Apart(norm, active[i].paths, active[j].paths);
      } else {
        assert Apart(norm, active[j].paths, active[i].paths);
        ApartSymmetric(norm, active[j].paths, active[i].paths);
      }
      ApartUnion(norm, active[i].paths, paths, active[j].paths);
    }
    UpdatedOk(norm, active, i, m);
    assert active[i := m][i] == m;
    forall o ensures PathsOf(active[i := m], o) == if o == owner then m.paths else PathsOf(active, o) {
      PathsUpdated(active, i, m, o);
    }
    PathsUpdated(active, i, active[i], owner);
    assert active[i := active[i]] == active;
  }

  lemma AcquireAppends(norm: Norm, active: seq<Lease>, l: Lease)
    requires TableOk(norm, active) && l.paths != {} && !OthersConflict(norm, active, l.owner, l.paths)
    requires forall i | 0 <= i < |active| :: active[i].owner != l.owner
    ensures Merge(active, l.owner, l.paths, l.expiresAt, None) == (active, None)
    ensures TableOk(norm, active + [l])
      && PathsOf(active + [l], l.owner) == l.paths == PathsOf(active, l.owner) + l.paths
    ensures forall o | o != l.owner :: PathsOf(active + [l], o) == PathsOf(active, o)
  {
    hide Apart;
    MergePassesOthers(active, l.owner, l.paths, l.expiresAt, None);
    forall j | 0 <= j < |active| ensures Apart(norm, l.paths, active[j].paths) {
      CandidateApart(norm, active, l.owner, l.paths, j);
    }
    AppendedOk(norm, active, l);
    NobodyHolds(active, l.owner);
    forall o ensures PathsOf(active + [l], o) == PathsOf(active, o) + (if l.owner == o then l.paths else {}) {
      PathsAppended(active, l, o);
    }
  }

  /** The acquire loops of the source: refuse on a foreign conflict, then merge or append. */
  method AcquireLoop(norm: Norm, ls: seq<Lease>, owner: string, paths: seq<string>, ttl: int, now: int, id: string)
    returns (r: Option<(seq<Lease>, Lease)>)
    ensures r == Acquire(norm, ls, owner, paths, ttl, now, id)
  {
    var active := Prune(ls, now);
    var candidate := Lease(id, owner, NormSet(norm, paths), now, now + ttl);
    if candidate.paths == {} {
      return None;
    }
    for i := 0 to |active|
      invariant forall j | 0 <= j < i ::
        active[j].owner == owner || !ScopeConflicts(norm, active[j].paths, candidate.paths)
    {
      if active[i].owner != owner && ScopeConflicts(norm, active[i].paths, candidate.paths) {
        return None;
      }
    }
    var out, merged := MergeLoop(active, owner, candidate.paths, now + ttl);
    if merged == None {
      out := out + [candidate];
    }
    r := Some((out, if merged == None then candidate else merged.value));
  }

  method MergeLoop(active: seq<Lease>, owner: string, paths: set<string>, expiry: int)
    returns (out: seq<Lease>, merged: Option<Lease>)
    ensures out == Merge(active, owner, paths, expiry, None).0
    ensures merged == Merge(active, owner, paths, expiry, None).1
  {
    merged, out := None, [];
    ghost var all := Merge(active, owner, paths, expiry, None);
    for i := 0 to |active|
      invariant all.0 == out + Merge(active[i..], owner, paths, expiry, merged).0
      invariant all.1 == Merge(active[i..], owner, paths, expiry, merged).1
    {
      var l := active[i];
      assert active[i..][0] == l && active[i..][1..] == active[i + 1..];
      if l.owner == owner && merged == None {
        merged := Some(l.(paths := l.paths + paths, expiresAt := expiry));
        out := out + [merged.value];
      } else if l.owner == owner {
        merged := Some(merged.value.(paths := merged.value.paths + l.paths, expiresAt := expiry));
      } else {
        out := out + [l];
      }
    }
    assert active[|active|..] == [];
  }

  /** Without the invariant the pass is wrong: with two leases of one owner, the lease it returns
      is in the table it returns exactly when the second lease had nothing of its own, and
      otherwise the second lease's own paths are no longer held. */
  lemma SecondLeaseIsLost(a: Lease, b: Lease, owner: string, paths: set<string>, expiry: int)
    requires a.owner == owner && b.owner == owner
    ensures var (out, last) := Merge([a, b], owner, paths, expiry, None);
      && last.Some?
      && (last.value in out <==> b.paths <= a.paths + paths)
      && PathsOf(out, owner) == a.paths + paths && last.value.paths == a.paths + paths + b.paths
  {
    var m := a.(paths := a.paths + paths, expiresAt := expiry);
    var n := m.(paths := m.paths + b.paths, expiresAt := expiry);
    assert [a, b][1..] == [b] && [b][1..] == [];
    assert Merge([b], owner, paths, expiry, Some(m)) == ([], Some(n));
    assert m == n <==> b.paths <= a.paths + paths;
    assert [m][1..] == [];
  }

  // ---- unexpired tables stay unexpired ----

  ghost predicate Unexpired(ls: seq<Lease>, now: int) {
    forall i | 0 <= i < |ls| :: ls[i].expiresAt > now
  }

  lemma {:induction false} MergeUnexpired(ls: seq<Lease>, owner: string, paths: set<string>, expiry: int, now: int,
      merged: Option<Lease>)
    requires Unexpired(ls, now) && expiry > now
    ensures Unexpired(Merge(ls, owner, paths, expiry, merged).0, now)
  {
    if ls != [] {
      var l := ls[0];
      if l.owner != owner {
        MergeUnexpired(ls[1..], owner, paths, expiry, now, merged);
      } else if merged.None? {
        MergeUnexpired(ls[1..], owner, paths, expiry, now, Some(l.(paths := l.paths + paths, expiresAt := expiry)));
      } else {
        var m := merged.value;
        MergeUnexpired(ls[1..], owner, paths, expiry, now, Some(m.(paths := m.paths + l.paths, expiresAt := expiry)));
      }
    }
  }

  lemma AcquireUnexpired(norm: Norm, ls: seq<Lease>, owner: string, paths: seq<string>, ttl: int, now: int, id: string)
    requires Unexpired(ls, now) && ttl > 0 && Acquire(norm, ls, owner, paths, ttl, now, id).Some?
    ensures Unexpired(Acquire(norm, ls, owner, paths, ttl, now, id).value.0, now)
  {
    NothingExpired(ls, now);
    MergeUnexpired(ls, owner, NormSet(norm, paths), now + ttl, now, None);
  }

  lemma {:induction false} CutPathsUnexpired(ls: seq<Lease>, owner: string, drop: set<string>, now: int)
    requires Unexpired(ls, now)
    ensures Unexpired(CutTable(ls, ByPaths(owner, drop)), now)
  {
    if ls != [] {
      CutPathsUnexpired(ls[1..], owner, drop, now);
    }
  }

  // ---- every table that can be reached ----

  datatype TableOp =
    | OpAcquire(owner: string, paths: seq<string>, ttl: int, now: int, id: string)
    | OpPrune(now: int)
    | OpRelease(id: string, owner: string)
    | OpReleasePaths(owner: string, paths: seq<string>)

  function StepTable(norm: Norm, ls: seq<Lease>, op: TableOp): seq<Lease> {
    match op
    case OpAcquire(owner, paths, ttl, now, id) =>
      (match Acquire(norm, ls, owner, paths, ttl, now, id)
       case None => ls
       case Some(r) => r.0)
    case OpPrune(now) => Prune(ls, now)
    case OpRelease(id, owner) => ReleaseScope(ls, id, owner)
    case OpReleasePaths(owner, paths) => ReleaseScopePaths(norm, ls, owner, paths)
  }

  function RunTable(norm: Norm, ls: seq<Lease>, ops: seq<TableOp>): seq<Lease>
    decreases |ops|
  {
    if ops == [] then ls else RunTable(norm, StepTable(norm, ls, ops[0]), ops[1..])
  }

  lemma StepKeepsTable(norm: Norm, ls: seq<Lease>, op: TableOp)
    requires TableOk(norm, ls)
    ensures TableOk(norm, StepTable(norm, ls, op))
  {
    hide TableOk;
    match op {
      case OpAcquire(owner, paths, ttl, now, id) =>
        if Acquire(norm, ls, owner, paths, ttl, now, id).Some? {
          AcquireKeepsTable(norm, ls, owner, paths, ttl, now, id);
        }
      case OpPrune(now) => CutKeepsTable(norm, ls, Expired(now));
      case OpRelease(id, owner) => CutKeepsTable(norm, ls, ById(id, owner));
      case OpReleasePaths(owner, paths) => CutKeepsTable(norm, ls, ByPaths(owner, NormSet(norm, paths)));
    }
  }

  lemma {:induction false} RunKeepsTable(norm: Norm, ls: seq<Lease>, ops: seq<TableOp>)
    requires TableOk(norm, ls)
    ensures TableOk(norm, RunTable(norm, ls, ops))
    decreases |ops|
  {
    hide TableOk;
    if ops != [] {
      StepKeepsTable(norm, ls, ops[0]);
      RunKeepsTable(norm, StepTable(norm, ls, ops[0]), ops[1..]);
    }
  }

  /** Every table reached from the empty one: one lease per owner, and owners never overlap. */
  lemma ReachedTablesAreApart(norm: Norm, ops: seq<TableOp>, a: string, b: string)
    requires a != b
    ensures TableOk(norm, RunTable(norm, [], ops))
    ensures Apart(norm, PathsOf(RunTable(norm, [], ops), a), PathsOf(RunTable(norm, [], ops), b))
  {
    RunKeepsTable(norm, [], ops);
    HoldingsApart(norm, RunTable(norm, [], ops), a, b);
  }
}
