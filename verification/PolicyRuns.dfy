/**
 Whole runs of reloads and streams (internal/policy/manager.go, internal/engine/registry.go).

 Every operation keeps the manager's invariant, so over every run each resource exists exactly once:
 in the active policy, waiting for a snapshot to drain, or closed.
 */
module PolicyRuns {
  import opened Basics
  import opened ChainRegistry
  import opened PolicyBuild
  import opened PolicyManager

  function ClientsOf(redis: map<string, Entry>): set<Resource> {
    set n | n in redis :: Client(redis[n].id)
  }

  function FiltersOf(filters: map<FilterKey, Instance>): set<Resource> {
    set k | k in filters :: Filter(filters[k].id)
  }

  /** The clients after a reload: the kept ones and the new ones. */
  lemma ClientsAfterReload(old': map<string, Entry>, cfg: map<string, RedisConfig>, next: map<string, Entry>, n0: nat,
                           n1: nat)
    requires Injective(old') && EntriesBelow(old', n0) && RedisBuilt(old', cfg, next, n0, n1)
    ensures ClientsOf(next) == (ClientsOf(old') - DroppedClients(old', next, old'.Keys)) + FreshClients(next, n0)
    ensures forall x | x in FreshClients(next, n0) :: n0 <= x.id < n1
  {
    forall x | x in ClientsOf(next)
      ensures x in FreshClients(next, n0) || (x in ClientsOf(old') && x !in DroppedClients(old', next, old'.Keys))
    {
      var n :| n in next && x == Client(next[n].id);
      assert ServiceBuilt(old', cfg[n], n, next[n], n0, n1);
      if next[n].id < n0 {
        assert n in old' && next[n] == old'[n];
      }
    }
    forall x | x in ClientsOf(old') && x !in DroppedClients(old', next, old'.Keys) ensures x in ClientsOf(next) {
      var n :| n in old' && x == Client(old'[n].id);
      assert n in next && next[n] == old'[n];
    }
    forall x | x in FreshClients(next, n0) ensures n0 <= x.id < n1 && x in ClientsOf(next) {
      var n :| n in next && next[n].id >= n0 && x == Client(next[n].id);
      assert ServiceBuilt(old', cfg[n], n, next[n], n0, n1);
    }
  }

  lemma FiltersAfterReload(old': map<FilterKey, Instance>, redis: map<string, Entry>, next: map<FilterKey, Instance>,
                           n0: nat, n1: nat)
    requires InjectiveFilters(old') && FiltersBelow(old', n0) && FiltersBuilt(old', redis, next, n0, n1)
    ensures FiltersOf(next) == (FiltersOf(old') - DroppedFilters(old', next, old'.Keys)) + FreshFilters(next, n0)
    ensures forall x | x in FreshFilters(next, n0) :: n0 <= x.id < n1
  {
    hide BoundWhenBuilt, EntryOf;
    forall x | x in FiltersOf(next)
      ensures x in FreshFilters(next, n0) || (x in FiltersOf(old') && x !in DroppedFilters(old', next, old'.Keys))
    {
      var k :| k in next && x == Filter(next[k].id);
      assert FilterBuilt(old', redis, k, next[k], n0, n1);
      if next[k].id < n0 {
        assert k in old' && next[k] == old'[k];
      }
    }
    forall x | x in FiltersOf(old') && x !in DroppedFilters(old', next, old'.Keys) ensures x in FiltersOf(next) {
      var k :| k in old' && x == Filter(old'[k].id);
      assert k in next;
      assert FilterBuilt(old', redis, k, next[k], n0, n1);
    }
    forall x | x in FreshFilters(next, n0) ensures n0 <= x.id < n1 && x in FiltersOf(next) {
      var k :| k in next && next[k].id >= n0 && x == Filter(next[k].id);
      assert FilterBuilt(old', redis, k, next[k], n0, n1);
    }
  }

  /*** Every operation keeps the invariant ***/

  ghost predicate Acquired(w: World, w': World) {
    w.registry.snaps != [] && w' == w.(registry := Acquire(w.registry))
  }

  ghost predicate Released(w: World, s: nat, w': World) {
    s < |w.registry.snaps| && w.registry.snaps[s].refs > 0 && w' == w.(registry := Release(w.registry, s))
  }

  /** What a reload adds. */
  function Fresh(w: World, w': World): set<Resource> {
    FreshClients(w'.redis, w.nextId) + FreshFilters(w'.filters, w.nextId)
  }

  lemma OwnedAfterReload(w: World, cfg: Config, w': World)
    requires Inv(w) && Reloaded(w, cfg, w')
    ensures OwnedBy(w') == (OwnedBy(w) - Dropped(w, w')) + Fresh(w, w')
    ensures Dropped(w, w') <= OwnedBy(w)
    ensures forall x | x in Fresh(w, w') :: w.nextId <= x.id < w'.nextId
  {
    hide RedisBuilt, FiltersBuilt, ChainsBuilt, Swap, Lists, Inv, FreshClients, FreshFilters;
    OwnedIsBelow(w);
    hide Injective, InjectiveFilters, EntriesBelow, FiltersBelow, Below;
    ClientsAfterReload(w.redis, cfg.redis, w'.redis, w.nextId, w'.nextId);
    FiltersAfterReload(w.filters, w'.redis, w'.filters, w.nextId, w'.nextId);
    assert OwnedBy(w) == ClientsOf(w.redis) + FiltersOf(w.filters);
    assert OwnedBy(w') == ClientsOf(w'.redis) + FiltersOf(w'.filters);
    KindsApart(w, w');
    DroppedIsOwned(w, w');
  }

  lemma DroppedIsOwned(w: World, w': World)
    ensures DroppedClients(w.redis, w'.redis, w.redis.Keys) <= ClientsOf(w.redis)
    ensures DroppedFilters(w.filters, w'.filters, w.filters.Keys) <= FiltersOf(w.filters)
  {
  }

  lemma KindsApart(w: World, w': World)
    ensures ClientsOf(w.redis) !! DroppedFilters(w.filters, w'.filters, w.filters.Keys)
    ensures FiltersOf(w.filters) !! DroppedClients(w.redis, w'.redis, w.redis.Keys)
  {
  }

  /** Conservation over a reload: what is dropped goes to the registry, what is made is owned. */
  lemma ReloadConserves(w: World, cfg: Config, w': World, x: Resource)
    requires Inv(w) && Reloaded(w, cfg, w')
    ensures Conserved(w', x)
  {
    hide RedisBuilt, FiltersBuilt, ChainsBuilt, Swap, FreshClients, FreshFilters, Dropped, Owned, ChainRegistry.Valid,
      Entrusted, AllBound;
    OwnedAfterReload(w, cfg, w');
    SwapKeeps(w.registry, NewSnapshot(Current(w')), RetiredBy(w, w'), x);
    assert Conserved(w, x);
    assert multiset(RetiredBy(w, w'))[x] == if x in Dropped(w, w') then 1 else 0;
    assert w'.created == w.created + Fresh(w, w');
  }

  lemma ReloadKeepsBindings(w: World, cfg: Config, w': World)
    requires AllBound(w) && Reloaded(w, cfg, w') && EntriesBelow(w.redis, w.nextId)
    ensures AllBound(w')
  {
    hide ChainsBuilt, Swap, FreshClients, FreshFilters, Dropped, Owned, ChainRegistry.Valid, Lists, InjectiveFilters,
      Injective;
    forall k | k in w'.filters ensures Bound(k, w'.filters[k], w'.redis, w'.nextId) {
      assert FilterBuilt(w.filters, w'.redis, k, w'.filters[k], w.nextId, w'.nextId);
      if k in w.filters {
        assert Bound(k, w.filters[k], w.redis, w.nextId);
      } else if RedisBacked(k.kind) {
        var n := ServiceName(k.service);
        assert ServiceBuilt(w.redis, cfg.redis[n], n, w'.redis[n], w.nextId, w'.nextId);
      }
    }
  }

  lemma ReloadKeepsInv(w: World, cfg: Config, w': World)
    requires Inv(w) && Reloaded(w, cfg, w')
    ensures Inv(w')
  {
    OwnedIsBelow(w);
    ReloadKeepsBindings(w, cfg, w');
    OwnedAfterReload(w, cfg, w');
    hide ChainsBuilt, FreshClients, FreshFilters, Dropped, Owned, Lists, AllBound, Swap, ChainRegistry.Valid, Conserved;
    assert w'.created == w.created + Fresh(w, w');
    forall x ensures Conserved(w', x) {
      ReloadConserves(w, cfg, w', x);
    }
    SwapKeeps(w.registry, NewSnapshot(Current(w')), RetiredBy(w, w'), Client(0));
  }

  lemma AbortKeepsInv(w: World, w': World)
    requires Inv(w) && Aborted(w, w')
    ensures Inv(w')
  {
    hide Owned, AllBound, Pending;
    assert AllBound(w') by { AbortKeepsBindings(w, w'); }
    var made := w'.registry.closed[|w.registry.closed|..];
    assert w'.registry.closed == w.registry.closed + made;
    forall x ensures Conserved(w', x) {
      assert Conserved(w, x);
    }
  }

  lemma AbortKeepsBindings(w: World, w': World)
    requires AllBound(w) && Aborted(w, w')
    ensures AllBound(w')
  {
    forall k | k in w'.filters ensures Bound(k, w'.filters[k], w'.redis, w'.nextId) {
      assert Bound(k, w.filters[k], w.redis, w.nextId);
    }
  }

  lemma ShutKeepsInv(w: World, w': World)
    requires Inv(w) && Shut(w, w')
    ensures Inv(w')
  {
    hide Pending;
    assert OwnedBy(w') == {};
    var all := w'.registry.closed[|w.registry.closed|..];
    assert w'.registry.closed == w.registry.closed + all;
    forall x ensures Conserved(w', x) {
      assert Conserved(w, x);
    }
  }

  lemma AcquireKeepsInv(w: World, w': World)
    requires Inv(w) && Acquired(w, w')
    ensures Inv(w')
  {
    hide Entrusted, Owned, AllBound;
    AcquireKeeps(w.registry, Client(0));
    forall x ensures Conserved(w', x) {
      assert Conserved(w, x);
      AcquireKeeps(w.registry, x);
    }
    assert AllBound(w') by { SameBindings(w, w'); }
  }

  lemma ReleaseKeepsInv(w: World, s: nat, w': World)
    requires Inv(w) && Released(w, s, w')
    ensures Inv(w')
  {
    hide Entrusted, Owned, AllBound;
    ReleaseKeeps(w.registry, s, Client(0));
    forall x ensures Conserved(w', x) {
      assert Conserved(w, x);
      ReleaseKeeps(w.registry, s, x);
    }
    assert AllBound(w') by { SameBindings(w, w'); }
  }

  lemma SameBindings(w: World, w': World)
    requires AllBound(w) && w'.filters == w.filters && w'.redis == w.redis && w'.nextId == w.nextId
    ensures AllBound(w')
  {
  }

  /*** Runs ***/

  ghost predicate Next(w: World, w': World) {
    || (exists cfg :: Reloaded(w, cfg, w'))
    || Aborted(w, w')
    || Acquired(w, w')
    || (exists s :: Released(w, s, w'))
    || Shut(w, w')
  }

  const INIT := World(map[], map[], true, Registry([NewSnapshot(EMPTY_POLICY)], []), 0, {})

  ghost predicate IsRun(ws: seq<World>) {
    && ws != [] && ws[0] == INIT
    && forall i | 0 < i < |ws| :: Next(ws[i - 1], ws[i])
  }

  lemma InitInv()
    ensures Inv(INIT)
  {
    assert OwnedBy(INIT) == {};
    forall x ensures Conserved(INIT, x) {
      PendingDrained(INIT.registry.snaps, x);
    }
  }

  lemma NextKeepsInv(w: World, w': World)
    requires Inv(w) && Next(w, w')
    ensures Inv(w')
  {
    hide Inv, Reloaded, Aborted, Acquired, Released, Shut;
    if cfg :| Reloaded(w, cfg, w') {
      ReloadKeepsInv(w, cfg, w');
    } else if Aborted(w, w') {
      AbortKeepsInv(w, w');
    } else if Acquired(w, w') {
      AcquireKeepsInv(w, w');
    } else if s: nat :| Released(w, s, w') {
      ReleaseKeepsInv(w, s, w');
    } else {
      ShutKeepsInv(w, w');
    }
  }

  lemma {:induction false} RunKeepsInv(ws: seq<World>, i: nat)
    requires IsRun(ws) && i < |ws|
    ensures Inv(ws[i])
  {
    hide Inv, Next, INIT;
    if i == 0 {
      InitInv();
    } else {
      RunKeepsInv(ws, i - 1);
      NextKeepsInv(ws[i - 1], ws[i]);
    }
  }

  function CloseCount(w: World, x: Resource): nat {
    multiset(w.registry.closed)[x]
  }

  /** In every world of every run nothing is closed twice, and nothing the active policy owns is closed. */
  lemma NothingClosedEarlyOrTwice(ws: seq<World>, i: nat, x: Resource)
    requires IsRun(ws) && i < |ws|
    ensures CloseCount(ws[i], x) <= 1
    ensures x in ws[i].registry.closed ==> x in ws[i].created
    ensures ws[i].registry.snaps != []
    ensures ws[i].open && x in Current(ws[i]).owned ==> x !in ws[i].registry.closed
  {
    hide IsRun;
    RunKeepsInv(ws, i);
    assert Conserved(ws[i], x);
    assert x in ws[i].registry.closed <==> CloseCount(ws[i], x) > 0;
  }

  /** After shutdown and a full drain, every resource ever created has been closed exactly once. */
  lemma EverythingClosedExactlyOnce(ws: seq<World>, x: Resource)
    requires IsRun(ws)
    requires var w := ws[|ws| - 1];
             && w.redis == map[] && w.filters == map[]
             && forall s | 0 <= s < |w.registry.snaps| :: w.registry.snaps[s].refs == 0
    ensures CloseCount(ws[|ws| - 1], x) == if x in ws[|ws| - 1].created then 1 else 0
  {
    hide Next, Pending;
    var w := ws[|ws| - 1];
    RunKeepsInv(ws, |ws| - 1);
    assert OwnedBy(w) == {};
    assert Conserved(w, x);
    PendingDrained(w.registry.snaps, x);
  }

  /*** Redis bindings ***/

  /**
   In every published policy every filter with a string-typed `redis_service`, reused or new, is bound
   to the client this same policy holds under that name.
   */
  lemma FiltersBoundToOwnPolicy(ws: seq<World>, i: nat, fc: FilterConfig)
    requires IsRun(ws) && i < |ws|
    requires KeyOf(fc, ws[i].redis) in ws[i].filters && RedisBacked(fc.kind) && fc.service.Text?
    ensures fc.service.text in ws[i].redis
    ensures ws[i].filters[KeyOf(fc, ws[i].redis)].client == Some(ws[i].redis[fc.service.text].id)
  {
    hide IsRun;
    RunKeepsInv(ws, i);
    var k := KeyOf(fc, ws[i].redis);
    assert Bound(k, ws[i].filters[k], ws[i].redis, ws[i].nextId);
  }

  /** A filter definition that stays is rebuilt exactly when the entry it names is rebuilt. */
  lemma RebuiltIffServiceRebuilt(w: World, cfg: Config, w': World, fc: FilterConfig)
    requires Inv(w) && Reloaded(w, cfg, w') && RedisBacked(fc.kind) && fc.service.Text?
    requires KeyOf(fc, w.redis) in w.filters && KeyOf(fc, w'.redis) in w'.filters
    ensures fc.service.text in w.redis && fc.service.text in w'.redis
    ensures w'.filters[KeyOf(fc, w'.redis)] == w.filters[KeyOf(fc, w.redis)] <==>
            w'.redis[fc.service.text] == w.redis[fc.service.text]
  {
    hide ChainsBuilt, Swap, Dropped, Lists, FreshClients, FreshFilters, Conserved, ChainRegistry.Valid;
    var k, k' := KeyOf(fc, w.redis), KeyOf(fc, w'.redis);
    ReloadKeepsInv(w, cfg, w');
    assert Bound(k, w.filters[k], w.redis, w.nextId);
    assert Bound(k', w'.filters[k'], w'.redis, w'.nextId);
    var n := fc.service.text;
    assert ServiceBuilt(w.redis, cfg.redis[n], n, w'.redis[n], w.nextId, w'.nextId);
    assert FilterBuilt(w.filters, w'.redis, k', w'.filters[k'], w.nextId, w'.nextId);
  }

  /**
   The string type is what makes this work: when a reload re-dials the service of a filter that stays,
   the filter ends up bound to the new client if and only if its `redis_service` is a YAML string.
   */
  lemma ReboundIffTyped(w: World, cfg: Config, w': World, fc: FilterConfig)
    requires Inv(w) && Reloaded(w, cfg, w') && RedisBacked(fc.kind)
    requires KeyOf(fc, w.redis) in w.filters && KeyOf(fc, w'.redis) in w'.filters
    requires var n := ServiceName(fc.service); n in w'.redis && w'.redis[n].id >= w.nextId
    ensures w'.filters[KeyOf(fc, w'.redis)].client == Some(w'.redis[ServiceName(fc.service)].id) <==> fc.service.Text?
  {
    hide ChainsBuilt, Swap, Dropped, Lists, FreshClients, FreshFilters, Conserved, ChainRegistry.Valid;
    var k, k' := KeyOf(fc, w.redis), KeyOf(fc, w'.redis);
    ReloadKeepsInv(w, cfg, w');
    assert Bound(k, w.filters[k], w.redis, w.nextId);
    assert Bound(k', w'.filters[k'], w'.redis, w'.nextId);
    assert FilterBuilt(w.filters, w'.redis, k', w'.filters[k'], w.nextId, w'.nextId);
  }

  /** A service named by the YAML number 1, and a filter that uses it. */
  const NUMERIC := FilterConfig("api_key", "", Scalar("1"), false)

  function NumericConfig(settings: string): Config {
    Config(map["1" := RedisConfig(settings)], map["chain" := [NUMERIC]])
  }

  lemma NumericIsBuilt(w: World, settings: string, w': World)
    requires Reloaded(w, NumericConfig(settings), w')
    ensures KeyOf(NUMERIC, w'.redis) in w'.filters && "1" in w'.redis && w'.redis["1"].cfg == RedisConfig(settings)
    ensures "1" in w.redis && w.redis["1"].cfg != RedisConfig(settings) ==> w'.redis["1"].id >= w.nextId
  {
    hide Swap, Dropped, Lists, FreshClients, FreshFilters, FiltersBuilt, KeyOf;
    var cfg := NumericConfig(settings);
    assert "chain" in Current(w').chains && "1" in w'.redis;
    assert ChainBuilt(cfg.chains["chain"], w'.redis, w'.filters, Current(w').chains["chain"]);
    assert cfg.chains["chain"][0] == NUMERIC;
    assert ServiceBuilt(w.redis, cfg.redis["1"], "1", w'.redis["1"], w.nextId, w'.nextId);
  }

  /** A concrete pair of reloads after which such a filter still uses the client of the replaced service. */
  method NumericServiceGoesStale() returns (m: Manager)
    ensures KeyOf(NUMERIC, m.redis) in m.filters && "1" in m.redis
    ensures m.filters[KeyOf(NUMERIC, m.redis)].client != Some(m.redis["1"].id)
  {
    hide Reloaded, Inv, KeyOf;
    var registry := new SnapshotRegistry();
    m := new Manager(registry);
    InitInv();
    assert m.View() == INIT;
    NumericHasNoFaults("a");
    var ok := m.Apply(NumericConfig("a"), Faults({}, {}));
    ghost var w := m.View();
    NumericIsBuilt(INIT, "a", w);
    ReloadKeepsInv(INIT, NumericConfig("a"), w);
    NumericHasNoFaults("b");
    ok := m.Apply(NumericConfig("b"), Faults({}, {}));
    assert "a"[0] != "b"[0];
    NumericIsBuilt(w, "b", m.View());
    ReboundIffTyped(w, NumericConfig("b"), m.View(), NUMERIC);
  }

  lemma NumericHasNoFaults(settings: string)
    ensures var cfg := NumericConfig(settings);
            && cfg.redis.Keys !! {}
            && forall c | c in cfg.chains :: forall i | 0 <= i < |cfg.chains[c]| ::
                 && cfg.chains[c][i] !in {}
                 && (RedisBacked(cfg.chains[c][i].kind) ==> ServiceName(cfg.chains[c][i].service) in cfg.redis)
  {
  }
}
