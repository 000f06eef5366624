/**
 In-flight streams and retired resources (internal/policy/manager.go, internal/engine/registry.go).

 A reload attaches what it drops to the snapshot it replaces, and to no older one. So a stream is only
 protected by its own snapshot's count: `SafeIffOlderStreamsUnaffected` gives the exact condition under
 which no stream can ever see one of its policy's resources closed, and `TwoReloads` a run that breaks it.
 */
module PolicySafety {
  import opened Basics
  import opened ChainRegistry
  import opened PolicyBuild
  import opened PolicyManager
  import opened PolicyRuns

  ghost predicate Apart(xs: seq<Resource>, owned: set<Resource>) {
    forall x | x in xs :: x !in owned
  }

  /** No resource of a policy some stream holds has been closed. */
  ghost predicate Safe(r: Registry) {
    forall s | 0 <= s < |r.snaps| && r.snaps[s].refs > 0 :: Apart(r.closed, r.snaps[s].policy.owned)
  }

  /** No younger snapshot is about to close a resource of a policy some stream holds. */
  ghost predicate Protected(r: Registry) {
    forall s, j | 0 <= s < j < |r.snaps| && r.snaps[s].refs > 0 && r.snaps[j].retired && !r.snaps[j].cleaned ::
      Apart(r.snaps[j].cleanup, r.snaps[s].policy.owned)
  }

  /** What was dropped stays dropped, and cleanups only list what was dropped. */
  ghost predicate NoReturn(r: Registry) {
    && (forall j, s | 0 <= j < s < |r.snaps| :: Apart(r.snaps[j].cleanup, r.snaps[s].policy.owned))
    && (forall j | 0 <= j < |r.snaps| && !r.snaps[j].retired :: r.snaps[j].cleanup == [])
    && (forall j, x | 0 <= j < |r.snaps| && r.snaps[j].cleaned && x in r.snaps[j].cleanup :: x in r.closed)
  }

  ghost predicate OwnedWereCreated(w: World) {
    forall s | 0 <= s < |w.registry.snaps| :: w.registry.snaps[s].policy.owned <= w.created
  }

  ghost predicate SafeInv(w: World) {
    Inv(w) && Safe(w.registry) && Protected(w.registry) && NoReturn(w.registry) && OwnedWereCreated(w)
  }

  /** No stream older than the replaced snapshot uses what the reload drops; readable off `w` and the new policy. */
  ghost predicate OlderStreamsUnaffected(w: World, w': World) {
    forall s | 0 <= s < |w.registry.snaps| - 1 && w.registry.snaps[s].refs > 0 ::
      w.registry.snaps[s].policy.owned !! Dropped(w, w')
  }

  /*** Registry steps ***/

  lemma ReleaseIsSafe(r: Registry, s: nat)
    requires ChainRegistry.Valid(r) && s < |r.snaps| && r.snaps[s].refs > 0
    requires Safe(r) && Protected(r) && NoReturn(r)
    ensures Safe(Release(r, s)) && Protected(Release(r, s)) && NoReturn(Release(r, s))
  {
    var r' := Release(r, s);
    assert r'.closed == r.closed + if r'.snaps[s].refs == 0 && r'.snaps[s].retired then r.snaps[s].cleanup else [];
    forall t | 0 <= t < |r'.snaps| && r'.snaps[t].refs > 0
      ensures Apart(r'.closed, r'.snaps[t].policy.owned)
    {
      assert Apart(r.closed, r.snaps[t].policy.owned);
      assert t < s && r.snaps[s].retired ==> Apart(r.snaps[s].cleanup, r.snaps[t].policy.owned);
      assert t > s ==> Apart(r.snaps[s].cleanup, r.snaps[t].policy.owned);
    }
  }

  lemma AcquireIsSafe(r: Registry)
    requires ChainRegistry.Valid(r) && Safe(r) && Protected(r) && NoReturn(r)
    requires Apart(r.closed, r.snaps[|r.snaps| - 1].policy.owned)
    ensures Safe(Acquire(r)) && Protected(Acquire(r)) && NoReturn(Acquire(r))
  {
  }

  /*** Reload ***/

  /** Anything on a cleanup list has left the active policy for good. */
  lemma {:induction false} ListedIsEntrusted(snaps: seq<Snapshot>, closed: seq<Resource>, j: nat, x: Resource)
    requires j < |snaps| && x in snaps[j].cleanup
    requires snaps[j].retired && (snaps[j].cleaned ==> x in closed)
    ensures Pending(snaps, x) + multiset(closed)[x] >= 1
  {
    if snaps[j].cleaned {
      assert multiset(closed)[x] >= 1;
    } else {
      PendingListed(snaps, j, x);
    }
  }

  lemma {:induction false} PendingListed(snaps: seq<Snapshot>, j: nat, x: Resource)
    requires j < |snaps| && x in snaps[j].cleanup && snaps[j].retired && !snaps[j].cleaned
    ensures Pending(snaps, x) >= 1
  {
    if j < |snaps| - 1 {
      PendingListed(snaps[..|snaps| - 1], j, x);
    } else {
      assert multiset(snaps[j].cleanup)[x] >= 1;
    }
  }

  /** The new policy owns nothing that any earlier reload dropped. */
  lemma NewPolicyIsApart(w: World, cfg: Config, w': World, j: nat)
    requires SafeInv(w) && Reloaded(w, cfg, w') && Inv(w') && j < |w.registry.snaps|
    ensures Apart(w'.registry.snaps[j].cleanup, Current(w').owned)
  {
    hide Reloaded, Owned, Dropped, Lists, Pending, AllBound, Safe, Protected;
    var r' := w'.registry;
    ReloadShape(w, cfg, w');
    forall x | x in r'.snaps[j].cleanup ensures x !in Current(w').owned {
      assert Conserved(w', x);
      ListedIsEntrusted(r'.snaps, r'.closed, j, x);
    }
  }

  /** What a reload does to the list of snapshots. */
  lemma ReloadShape(w: World, cfg: Config, w': World)
    requires Inv(w) && Reloaded(w, cfg, w')
    ensures var r, r', n := w.registry, w'.registry, |w.registry.snaps|;
            && n >= 1 && |r'.snaps| == n + 1
            && (forall s | 0 <= s < n - 1 :: r'.snaps[s] == r.snaps[s])
            && r'.snaps[n - 1] == r.snaps[n - 1].(cleanup := RetiredBy(w, w'), retired := true,
                                  cleaned := r.snaps[n - 1].refs == 0)
            && r'.snaps[n] == NewSnapshot(Current(w'))
            && r'.closed == r.closed + (if r.snaps[n - 1].refs == 0 then RetiredBy(w, w') else [])
            && (forall x :: x in RetiredBy(w, w') <==> x in Dropped(w, w'))
            && Current(w').owned == OwnedBy(w')
  {
    hide RedisBuilt, FiltersBuilt, ChainsBuilt, FreshClients, FreshFilters, Owned, Dropped, AllBound, Conserved;
    forall x ensures x in RetiredBy(w, w') <==> x in Dropped(w, w') {
      assert multiset(RetiredBy(w, w'))[x] == if x in Dropped(w, w') then 1 else 0;
    }
  }

  lemma ReloadKeepsHistory(w: World, cfg: Config, w': World)
    requires SafeInv(w) && Reloaded(w, cfg, w')
    ensures Inv(w') && NoReturn(w'.registry) && OwnedWereCreated(w')
  {
    ReloadKeepsInv(w, cfg, w');
    ReloadShape(w, cfg, w');
    hide Reloaded, Owned, Dropped, Lists, Pending, AllBound, Safe, Protected, Conserved;
    var n := |w.registry.snaps|;
    forall j, s | 0 <= j < s < n + 1
      ensures Apart(w'.registry.snaps[j].cleanup, w'.registry.snaps[s].policy.owned)
    {
      if s == n {
        NewPolicyIsApart(w, cfg, w', j);
      } else {
        assert Apart(w.registry.snaps[j].cleanup, w.registry.snaps[s].policy.owned);
      }
    }
    assert w.created <= w'.created by { ReloadOnlyCreates(w, cfg, w'); }
  }

  lemma ReloadOnlyCreates(w: World, cfg: Config, w': World)
    requires Reloaded(w, cfg, w')
    ensures w.created <= w'.created
  {
  }

  /** A reload that leaves older streams alone keeps every stream safe. */
  lemma ReloadIsSafe(w: World, cfg: Config, w': World)
    requires SafeInv(w) && Reloaded(w, cfg, w') && OlderStreamsUnaffected(w, w')
    ensures SafeInv(w')
  {
    ReloadKeepsHistory(w, cfg, w');
    ReloadShape(w, cfg, w');
    hide Reloaded, Owned, Dropped, Lists, Pending, AllBound, Conserved, NoReturn, OwnedWereCreated, Inv;
    var r, r', n := w.registry, w'.registry, |w.registry.snaps|;
    forall s | 0 <= s < |r'.snaps| && r'.snaps[s].refs > 0 ensures Apart(r'.closed, r'.snaps[s].policy.owned) {
      assert Apart(r.closed, r.snaps[s].policy.owned);
    }
    forall s, j | 0 <= s < j < |r'.snaps| && r'.snaps[s].refs > 0 && r'.snaps[j].retired && !r'.snaps[j].cleaned
      ensures Apart(r'.snaps[j].cleanup, r'.snaps[s].policy.owned)
    {
      if j < n - 1 {
        assert Apart(r.snaps[j].cleanup, r.snaps[s].policy.owned);
      }
    }
  }

  /*** Other steps, and whole runs ***/

  lemma AbortIsSafe(w: World, w': World)
    requires SafeInv(w) && Aborted(w, w')
    ensures SafeInv(w')
  {
    AbortKeepsInv(w, w');
    hide Inv, Protected;
    var made := w'.registry.closed[|w.registry.closed|..];
    assert w'.registry.closed == w.registry.closed + made;
    forall s | 0 <= s < |w'.registry.snaps| && w'.registry.snaps[s].refs > 0
      ensures Apart(w'.registry.closed, w'.registry.snaps[s].policy.owned)
    {
      assert Apart(w.registry.closed, w.registry.snaps[s].policy.owned);
      forall x | x in made ensures x !in w.created {
        assert multiset(made)[x] >= 1;
      }
    }
    assert Protected(w'.registry) by { SameSnapshots(w.registry, w'.registry); }
  }

  lemma SameSnapshots(r: Registry, r': Registry)
    requires Protected(r) && r'.snaps == r.snaps
    ensures Protected(r')
  {
  }

  ghost predicate Idle(w: World) {
    forall s | 0 <= s < |w.registry.snaps| :: w.registry.snaps[s].refs == 0
  }

  /** The steps of a process whose reloads leave older streams alone and that shuts down after its streams. */
  ghost predicate CarefulNext(w: World, w': World) {
    || (exists cfg :: Reloaded(w, cfg, w') && OlderStreamsUnaffected(w, w'))
    || Aborted(w, w')
    || (w.open && Acquired(w, w'))
    || (exists s :: Released(w, s, w'))
    || (Idle(w) && Shut(w, w'))
  }

  lemma CarefulNextIsSafe(w: World, w': World)
    requires SafeInv(w) && CarefulNext(w, w')
    ensures SafeInv(w')
  {
    hide SafeInv, Reloaded, OlderStreamsUnaffected, Aborted, Acquired, Released, Shut, Idle;
    if cfg :| Reloaded(w, cfg, w') && OlderStreamsUnaffected(w, w') {
      ReloadIsSafe(w, cfg, w');
    } else if Aborted(w, w') {
      AbortIsSafe(w, w');
    } else if w.open && Acquired(w, w') {
      AcquireStepIsSafe(w, w');
    } else if s: nat :| Released(w, s, w') {
      ReleaseStepIsSafe(w, s, w');
    } else {
      ShutIsSafe(w, w');
    }
  }

  lemma AcquireStepIsSafe(w: World, w': World)
    requires SafeInv(w) && w.open && Acquired(w, w')
    ensures SafeInv(w')
  {
    AcquireKeepsInv(w, w');
    hide Safe, Protected, NoReturn, Pending, Owned, AllBound;
    forall x | x in w.registry.closed ensures x !in Current(w).owned {
      assert Conserved(w, x);
      assert multiset(w.registry.closed)[x] >= 1;
    }
    AcquireIsSafe(w.registry);
  }

  lemma ReleaseStepIsSafe(w: World, s: nat, w': World)
    requires SafeInv(w) && Released(w, s, w')
    ensures SafeInv(w')
  {
    ReleaseKeepsInv(w, s, w');
    hide Safe, Protected, NoReturn;
    ReleaseIsSafe(w.registry, s);
  }

  lemma ShutIsSafe(w: World, w': World)
    requires SafeInv(w) && Idle(w) && Shut(w, w')
    ensures SafeInv(w')
  {
    ShutKeepsInv(w, w');
    hide Inv, Owned;
    assert w'.registry.closed == w.registry.closed + w'.registry.closed[|w.registry.closed|..];
  }

  /** In every world of every careful run, no resource of any in-flight stream's policy is closed. */
  lemma {:induction false} CarefulRunIsSafe(ws: seq<World>, i: nat)
    requires ws != [] && ws[0] == INIT && i < |ws|
    requires forall k | 0 < k < |ws| :: CarefulNext(ws[k - 1], ws[k])
    ensures SafeInv(ws[i])
  {
    hide SafeInv, CarefulNext, INIT;
    if i == 0 {
      InitIsSafe();
    } else {
      CarefulRunIsSafe(ws, i - 1);
      CarefulNextIsSafe(ws[i - 1], ws[i]);
    }
  }

  lemma InitIsSafe()
    ensures SafeInv(INIT)
  {
    InitInv();
    hide Inv;
  }

  /*** The condition is exact ***/

  /** Releasing the given snapshots one after the other. */
  ghost predicate CanRelease(r: Registry, ss: seq<nat>)
    decreases |ss|
  {
    ss == [] || (ss[0] < |r.snaps| && r.snaps[ss[0]].refs > 0 && CanRelease(Release(r, ss[0]), ss[1..]))
  }

  ghost function AfterReleases(r: Registry, ss: seq<nat>): Registry
    requires CanRelease(r, ss)
    decreases |ss|
  {
    if ss == [] then r else AfterReleases(Release(r, ss[0]), ss[1..])
  }

  lemma {:induction false} ReleasesAreSafe(r: Registry, ss: seq<nat>)
    requires ChainRegistry.Valid(r) && Safe(r) && Protected(r) && NoReturn(r) && CanRelease(r, ss)
    ensures Safe(AfterReleases(r, ss))
    decreases |ss|
  {
    hide Safe, Protected, NoReturn, Entrusted, Release;
    if ss != [] {
      ReleaseIsSafe(r, ss[0]);
      ReleaseKeeps(r, ss[0], Client(0));
      ReleasesAreSafe(Release(r, ss[0]), ss[1..]);
    }
  }

  /** Releasing a retired snapshot until it is free runs its cleanup and touches no other snapshot. */
  lemma {:induction false} DrainSnapshot(r: Registry, s: nat) returns (ss: seq<nat>)
    requires ChainRegistry.Valid(r) && s < |r.snaps| && r.snaps[s].retired && r.snaps[s].refs > 0
    ensures CanRelease(r, ss)
    ensures var r' := AfterReleases(r, ss);
            && |r'.snaps| == |r.snaps|
            && (forall t | 0 <= t < |r.snaps| && t != s :: r'.snaps[t] == r.snaps[t])
            && r'.closed == r.closed + r.snaps[s].cleanup
    decreases r.snaps[s].refs
  {
    var r' := Release(r, s);
    ReleaseKeeps(r, s, Client(0));
    if r.snaps[s].refs == 1 {
      ss := [s];
      assert ss[1..] == [];
      assert AfterReleases(r, ss) == AfterReleases(r', ss[1..]) == r';
    } else {
      var rest := DrainSnapshot(r', s);
      ss := [s] + rest;
      assert ss[1..] == rest;
      assert AfterReleases(r, ss) == AfterReleases(r', rest);
    }
  }

  /** If an older stream is affected, streams of the replaced snapshot ending is all it takes. */
  lemma AffectedIsUnsafe(w: World, cfg: Config, w': World, s: nat, x: Resource) returns (ss: seq<nat>)
    requires SafeInv(w) && Reloaded(w, cfg, w')
    requires s < |w.registry.snaps| - 1 && w.registry.snaps[s].refs > 0
    requires x in w.registry.snaps[s].policy.owned && x in Dropped(w, w')
    ensures CanRelease(w'.registry, ss) && !Safe(AfterReleases(w'.registry, ss))
  {
    ReloadShape(w, cfg, w');
    ReloadKeepsInv(w, cfg, w');
    hide Reloaded, Owned, Dropped, Lists, Pending, AllBound, Conserved;
    var n := |w.registry.snaps|;
    assert x in RetiredBy(w, w');
    if w.registry.snaps[n - 1].refs == 0 {
      ss := [];
      assert AfterReleases(w'.registry, ss) == w'.registry;
    } else {
      ss := DrainSnapshot(w'.registry, n - 1);
    }
    var r' := AfterReleases(w'.registry, ss);
    assert x in r'.closed && r'.snaps[s] == w.registry.snaps[s];
    assert !Apart(r'.closed, r'.snaps[s].policy.owned);
  }

  /**
   After a reload, streams can finish in any order without a remaining one losing a resource of its
   policy if and only if the reload left the streams older than the replaced snapshot unaffected.
   */
  lemma SafeIffOlderStreamsUnaffected(w: World, cfg: Config, w': World)
    requires SafeInv(w) && Reloaded(w, cfg, w')
    ensures OlderStreamsUnaffected(w, w') <==>
            forall ss | CanRelease(w'.registry, ss) :: Safe(AfterReleases(w'.registry, ss))
  {
    hide Reloaded, Safe, Dropped, CanRelease, AfterReleases;
    if OlderStreamsUnaffected(w, w') {
      ReloadIsSafe(w, cfg, w');
      forall ss | CanRelease(w'.registry, ss) ensures Safe(AfterReleases(w'.registry, ss)) {
        ReleasesAreSafe(w'.registry, ss);
      }
    } else {
      var s :| 0 <= s < |w.registry.snaps| - 1 && w.registry.snaps[s].refs > 0 &&
               !(w.registry.snaps[s].policy.owned !! Dropped(w, w'));
      var x :| x in w.registry.snaps[s].policy.owned && x in Dropped(w, w');
      var ss := AffectedIsUnsafe(w, cfg, w', s, x);
    }
  }

  /*** The condition is needed ***/

  function OneChain(fc: FilterConfig): Config {
    Config(map[], map["chain" := [fc]])
  }

  /** The world after a reload to a policy with the single filter `f`, retiring `retired`. */
  function OneFilter(w: World, fc: FilterConfig, f: Instance, nextId: nat, created: set<Resource>,
                     retired: seq<Resource>): World
    requires w.registry.snaps != []
  {
    World(map[], map[KeyOf(fc, map[]) := f], true,
          Swap(w.registry, NewSnapshot(Policy(map["chain" := [Link(f, fc.audit)]], {Filter(f.id)})), retired), nextId,
          created)
  }

  /** The first policy, the same policy again, or a policy with another filter instead. */
  ghost predicate OneFilterStep(w: World, fc: FilterConfig, f: Instance, nextId: nat, created: set<Resource>,
                                retired: seq<Resource>) {
    var k := KeyOf(fc, map[]);
    && w.registry.snaps != [] && w.redis == map[] && !RedisBacked(fc.kind) && f.client == None && MadeAs(f, k)
    && if k in w.filters then
         w.filters == map[k := f] && nextId == w.nextId && created == w.created && retired == [] && f.id < nextId
       else
         && f.id == w.nextId && nextId == w.nextId + 1 && created == w.created + {Filter(f.id)}
         && |w.filters| <= 1 && |retired| == |w.filters|
         && forall k' | k' in w.filters :: retired == [Filter(w.filters[k'].id)]
  }

  lemma OneFilterDrops(w: World, fc: FilterConfig, f: Instance, nextId: nat, created: set<Resource>,
                       retired: seq<Resource>)
    requires OneFilterStep(w, fc, f, nextId, created, retired)
    ensures Lists(retired, Dropped(w, OneFilter(w, fc, f, nextId, created, retired)))
  {
    var k, w' := KeyOf(fc, map[]), OneFilter(w, fc, f, nextId, created, retired);
    var dropped := DroppedFilters(w.filters, w'.filters, w.filters.Keys);
    assert DroppedClients(w.redis, w'.redis, w.redis.Keys) == {};
    if k in w.filters || w.filters == map[] {
      assert dropped == {};
    } else {
      var k' :| k' in w.filters;
      OnlyKey(w.filters, k');
      assert dropped == {Filter(w.filters[k'].id)};
    }
  }

  lemma OnlyKey(m: map<FilterKey, Instance>, k: FilterKey)
    requires |m| <= 1 && k in m
    ensures m.Keys == {k}
  {
    var rest := m.Keys - {k};
    assert |m.Keys| == |rest| + 1;
  }

  lemma OneFilterBuilt(w: World, fc: FilterConfig, f: Instance, nextId: nat, created: set<Resource>,
                       retired: seq<Resource>)
    requires OneFilterStep(w, fc, f, nextId, created, retired)
    ensures RedisBuilt(w.redis, map[], map[], w.nextId, nextId)
    ensures FiltersBuilt(w.filters, map[], map[KeyOf(fc, map[]) := f], w.nextId, nextId)
  {
    hide RedisBacked;
  }

  lemma OneFilterCreates(fc: FilterConfig, f: Instance, n: nat)
    ensures var filters := map[KeyOf(fc, map[]) := f];
            && Owned(map[], filters) == {Filter(f.id)}
            && FreshClients(map[], n) == {}
            && FreshFilters(filters, n) == if f.id >= n then {Filter(f.id)} else {}
  {
    hide KeyOf;
    var filters := map[KeyOf(fc, map[]) := f];
    assert KeyOf(fc, map[]) in filters;
  }

  lemma OneChainBuilt(fc: FilterConfig, f: Instance)
    ensures ChainsBuilt(OneChain(fc), map[], map[KeyOf(fc, map[]) := f], map["chain" := [Link(f, fc.audit)]])
  {
    var k := KeyOf(fc, map[]);
    assert KeyOf(OneChain(fc).chains["chain"][0], map[]) == k;
    assert UsedBy(OneChain(fc).chains["chain"], map[], k);
  }

  lemma OneFilterReload(w: World, fc: FilterConfig, f: Instance, nextId: nat, created: set<Resource>,
                        retired: seq<Resource>)
    requires OneFilterStep(w, fc, f, nextId, created, retired)
    ensures Reloaded(w, OneChain(fc), OneFilter(w, fc, f, nextId, created, retired))
  {
    hide Dropped, Lists, RedisBacked, RedisBuilt, FiltersBuilt, ChainsBuilt, FreshClients, FreshFilters, Owned, KeyOf;
    OneFilterDrops(w, fc, f, nextId, created, retired);
    OneFilterBuilt(w, fc, f, nextId, created, retired);
    OneFilterCreates(fc, f, w.nextId);
    OneChainBuilt(fc, f);
  }

  /** Two reloads under one stream close the filter its policy still uses. */
  lemma TwoReloads() returns (ws: seq<World>)
    ensures IsRun(ws) && !Safe(ws[|ws| - 1].registry)
  {
    hide Reloaded, KeyOf, RedisBacked, Aborted, Shut, Released, Safe;
    var a, b := FilterConfig("deny", "a", Absent, false), FilterConfig("deny", "b", Absent, false);
    PlainFilters(a, b);
    KeyIsCurrent(a, map[]);
    KeyIsCurrent(b, map[]);
    var f, g := Instance(0, "deny", "a", Absent, None), Instance(1, "deny", "b", Absent, None);
    var w1 := OneFilter(INIT, a, f, 1, {Filter(0)}, []);
    var w2 := w1.(registry := Acquire(w1.registry));
    var w3 := OneFilter(w2, a, f, 1, {Filter(0)}, []);
    var w4 := OneFilter(w3, b, g, 2, {Filter(0), Filter(1)}, [Filter(0)]);
    ws := [INIT, w1, w2, w3, w4];
    OneFilterReload(INIT, a, f, 1, {Filter(0)}, []);
    OneFilterReload(w2, a, f, 1, {Filter(0)}, []);
    OneFilterReload(w3, b, g, 2, {Filter(0), Filter(1)}, [Filter(0)]);
    assert Next(INIT, w1) && Next(w1, w2) && Next(w2, w3) && Next(w3, w4);
    var r := w4.registry;
    assert r.snaps[1].refs == 1 && r.snaps[1].policy.owned == {Filter(0)} && r.closed == [Filter(0)];
    assert Filter(0) in r.closed;
    LostResource(r, 1, Filter(0));
  }

  lemma LostResource(r: Registry, s: nat, x: Resource)
    requires s < |r.snaps| && r.snaps[s].refs > 0 && x in r.snaps[s].policy.owned && x in r.closed
    ensures !Safe(r)
  {
    assert !Apart(r.closed, r.snaps[s].policy.owned);
  }

  lemma PlainFilters(a: FilterConfig, b: FilterConfig)
    requires a == FilterConfig("deny", "a", Absent, false) && b == FilterConfig("deny", "b", Absent, false)
    ensures !RedisBacked(a.kind) && !RedisBacked(b.kind) && KeyOf(a, map[]) != KeyOf(b, map[])
  {
    assert |"deny"| == 4 && |"api_key"| == 7 && |"redis_metadata_enricher"| == 23 && |"embedded_rate_limiter"| == 21;
    assert "a"[0] != "b"[0];
  }
}
