/**
 Which filter serves which definition (internal/policy/manager.go): over every run of reloads, said by what filters
 were made from and without the keys that identify definitions.
 */
module PolicyDefinitions {
  import opened Basics
  import opened ChainRegistry
  import opened PolicyBuild
  import opened PolicyManager
  import opened PolicyRuns

  /** The filter was made with the type, options and Redis service of this definition. */
  ghost predicate MadeFor(f: Instance, fc: FilterConfig) {
    f.kind == fc.kind && f.options == fc.options && f.service == fc.service
  }

  /** Chain `c` has a position `i` in this config. */
  ghost predicate HasPosition(cfg: Config, c: string, i: nat) {
    c in cfg.chains && i < |cfg.chains[c]|
  }

  /** What a reload publishes at a position. */
  ghost function At(w: World, c: string, i: nat): Link
    requires w.registry.snaps != [] && c in Current(w).chains && i < |Current(w).chains[c]|
  {
    Current(w).chains[c][i]
  }

  lemma PositionIsBuilt(w: World, cfg: Config, w': World, c: string, i: nat)
    requires Inv(w) && Reloaded(w, cfg, w') && HasPosition(cfg, c, i)
    ensures c in Current(w').chains && |Current(w').chains[c]| == |cfg.chains[c]|
    ensures var k := KeyOf(cfg.chains[c][i], w'.redis);
            && k in w'.filters && At(w', c, i) == Link(w'.filters[k], cfg.chains[c][i].audit)
            && MadeAs(w'.filters[k], k) && FilterBuilt(w.filters, w'.redis, k, w'.filters[k], w.nextId, w'.nextId)
  {
    ReloadKeepsInv(w, cfg, w');
    hide Swap, Dropped, Lists, FreshClients, FreshFilters, Conserved, ChainRegistry.Valid, KeyOf, BoundWhenBuilt;
    assert ChainBuilt(cfg.chains[c], w'.redis, w'.filters, Current(w').chains[c]);
    var k := KeyOf(cfg.chains[c][i], w'.redis);
    assert Bound(k, w'.filters[k], w'.redis, w'.nextId);
  }

  /** A reload publishes, position by position, filters made from the definitions of its config. */
  lemma PublishedAsConfigured(w: World, cfg: Config, w': World, c: string, i: nat)
    requires Inv(w) && Reloaded(w, cfg, w') && HasPosition(cfg, c, i)
    ensures c in Current(w').chains && |Current(w').chains[c]| == |cfg.chains[c]|
    ensures MadeFor(At(w', c, i).filter, cfg.chains[c][i]) && At(w', c, i).audit == cfg.chains[c][i].audit
  {
    PositionIsBuilt(w, cfg, w', c, i);
    KeyIsCurrent(cfg.chains[c][i], w'.redis);
    hide Reloaded, Inv, KeyOf, FilterBuilt;
  }

  /** Two positions share a filter exactly if their definitions have the same type, options and Redis service. */
  lemma SharedIffSameDefinition(w: World, cfg: Config, w': World, c: string, i: nat, d: string, j: nat)
    requires Inv(w) && Reloaded(w, cfg, w') && HasPosition(cfg, c, i) && HasPosition(cfg, d, j)
    requires c in Current(w').chains && i < |Current(w').chains[c]| && d in Current(w').chains
             && j < |Current(w').chains[d]|
    ensures var a, b := cfg.chains[c][i], cfg.chains[d][j];
            At(w', c, i).filter.id == At(w', d, j).filter.id <==>
            a.kind == b.kind && a.options == b.options && a.service == b.service
  {
    PositionIsBuilt(w, cfg, w', c, i);
    PositionIsBuilt(w, cfg, w', d, j);
    KeyIsCurrent(cfg.chains[c][i], w'.redis);
    KeyIsCurrent(cfg.chains[d][j], w'.redis);
    assert InjectiveFilters(w'.filters);
    hide Reloaded, Inv, KeyOf, FilterBuilt, EntryOf;
  }

  /** The filter's client is the one stored under this name. */
  ghost predicate BoundTo(f: Instance, redis: map<string, Entry>, name: string) {
    name in redis && f.client == Some(redis[name].id)
  }

  /**
   Rate limiters, API keys and the metadata enricher have a Redis client and no other filter has one. A filter made by
   this reload has the client stored under the name its option decodes to; with a string option, so has a reused one.
   */
  lemma RedisFiltersAreBound(w: World, cfg: Config, w': World, c: string, i: nat)
    requires Inv(w) && Reloaded(w, cfg, w') && HasPosition(cfg, c, i)
    requires c in Current(w').chains && i < |Current(w').chains[c]|
    ensures var f, fc := At(w', c, i).filter, cfg.chains[c][i];
            && (f.client.Some? <==> fc.kind in {"embedded_rate_limiter", "api_key", "redis_metadata_enricher"})
            && (f.client.Some? ==>
                  match fc.service
                  case Text(s) => BoundTo(f, w'.redis, s)
                  case Scalar(s) => f.id >= w.nextId ==> BoundTo(f, w'.redis, s)
                  case Absent => f.id >= w.nextId ==> BoundTo(f, w'.redis, ""))
  {
    hide Reloaded, Inv, KeyOf;
    PositionIsBuilt(w, cfg, w', c, i);
    KeyIsCurrent(cfg.chains[c][i], w'.redis);
    var k := KeyOf(cfg.chains[c][i], w'.redis);
    HeldIsBound(w, cfg, w', k);
  }

  lemma HeldIsBound(w: World, cfg: Config, w': World, k: FilterKey)
    requires Inv(w) && Reloaded(w, cfg, w') && k in w'.filters
    ensures FiltersBelow(w.filters, w.nextId) && Bound(k, w'.filters[k], w'.redis, w'.nextId)
  {
    hide Reloaded;
    ReloadKeepsInv(w, cfg, w');
    OwnedIsBelow(w);
    hide Conserved, Owned;
  }

  /*** Across reloads ***/

  /** Some position of the published policy holds this filter. */
  ghost predicate Placed(w: World, f: Instance)
    requires w.registry.snaps != []
  {
    exists c, i | c in Current(w).chains && 0 <= i < |Current(w).chains[c]| :: Current(w).chains[c][i].filter == f
  }

  /** Every filter the manager holds is at some position of the published policy. */
  ghost predicate AllPlaced(w: World) {
    w.registry.snaps != [] && (forall k | k in w.filters :: Placed(w, w.filters[k]))
  }

  /** And the other way round, while the manager is open. */
  ghost predicate AllHeld(w: World) {
    w.registry.snaps != [] && (w.open ==> forall f | Placed(w, f) :: exists k | k in w.filters :: w.filters[k] == f)
  }

  lemma ReloadPlaces(w: World, cfg: Config, w': World)
    requires Reloaded(w, cfg, w')
    ensures AllPlaced(w') && AllHeld(w')
  {
    hide Swap, Dropped, Lists, FreshClients, FreshFilters, RedisBuilt, FiltersBuilt, KeyOf, Owned;
    forall k | k in w'.filters ensures Placed(w', w'.filters[k]) {
      var c :| c in cfg.chains && UsedBy(cfg.chains[c], w'.redis, k);
      var i :| 0 <= i < |cfg.chains[c]| && KeyOf(cfg.chains[c][i], w'.redis) == k;
      assert ChainBuilt(cfg.chains[c], w'.redis, w'.filters, Current(w').chains[c]);
      assert Current(w').chains[c][i].filter == w'.filters[k];
    }
    forall f | Placed(w', f) ensures exists k | k in w'.filters :: w'.filters[k] == f {
      var c, i :| c in Current(w').chains && 0 <= i < |Current(w').chains[c]| && Current(w').chains[c][i].filter == f;
      assert ChainBuilt(cfg.chains[c], w'.redis, w'.filters, Current(w').chains[c]);
      assert KeyOf(cfg.chains[c][i], w'.redis) in w'.filters;
    }
  }

  /** Published policies never change: what a stream pinned stays as it was. */
  ghost predicate SamePolicies(r: Registry, r': Registry) {
    |r.snaps| <= |r'.snaps| && forall s | 0 <= s < |r.snaps| :: r'.snaps[s].policy == r.snaps[s].policy
  }

  lemma NextKeepsPolicies(w: World, w': World)
    requires Next(w, w')
    ensures SamePolicies(w.registry, w'.registry)
    ensures (exists cfg :: Reloaded(w, cfg, w')) || |w'.registry.snaps| == |w.registry.snaps|
  {
    hide Owned, Dropped, Lists, RedisBuilt, FiltersBuilt, ChainsBuilt, FreshClients, FreshFilters, Grown;
  }

  lemma NextKeepsPlaced(w: World, w': World)
    requires AllPlaced(w) && AllHeld(w) && Next(w, w')
    ensures AllPlaced(w') && AllHeld(w')
  {
    NextKeepsPolicies(w, w');
    if cfg :| Reloaded(w, cfg, w') {
      ReloadPlaces(w, cfg, w');
    } else {
      hide Reloaded, Owned, Lists, Grown;
      assert Current(w') == Current(w);
      forall f ensures Placed(w', f) <==> Placed(w, f) {
      }
    }
  }

  lemma {:induction false} RunKeepsPlaced(ws: seq<World>, i: nat)
    requires IsRun(ws) && i < |ws|
    ensures AllPlaced(ws[i]) && AllHeld(ws[i])
  {
    hide Next, AllPlaced, AllHeld;
    if i == 0 {
      InitIsPlaced();
    } else {
      RunKeepsPlaced(ws, i - 1);
      NextKeepsPlaced(ws[i - 1], ws[i]);
    }
  }

  lemma InitIsPlaced()
    ensures AllPlaced(INIT) && AllHeld(INIT)
  {
  }

  /** Over every run, what was published once is in the registry unchanged. */
  lemma {:induction false} PoliciesStay(ws: seq<World>, i: nat, j: nat)
    requires IsRun(ws) && i <= j < |ws|
    ensures SamePolicies(ws[i].registry, ws[j].registry)
    decreases j
  {
    hide Next;
    if i < j {
      PoliciesStay(ws, i, j - 1);
      NextKeepsPolicies(ws[j - 1], ws[j]);
    }
  }

  /**
   Over every run, from the reload on that published it: each position of a policy holds a filter made with the type,
   options and Redis service of its definition, and is audited as configured.
   */
  lemma EveryPolicyIsAsConfigured(ws: seq<World>, n: nat, j: nat, cfg: Config, c: string, i: nat)
    requires IsRun(ws) && 0 < n <= j < |ws| && Reloaded(ws[n - 1], cfg, ws[n]) && HasPosition(cfg, c, i)
    ensures |ws[n].registry.snaps| <= |ws[j].registry.snaps| && ws[n].registry.snaps != []
    ensures var chains := ws[j].registry.snaps[|ws[n].registry.snaps| - 1].policy.chains;
            && chains.Keys == cfg.chains.Keys && |chains[c]| == |cfg.chains[c]|
            && MadeFor(chains[c][i].filter, cfg.chains[c][i]) && chains[c][i].audit == cfg.chains[c][i].audit
  {
    hide Next, Inv;
    RunKeepsInv(ws, n - 1);
    PublishedAsConfigured(ws[n - 1], cfg, ws[n], c, i);
    PoliciesStay(ws, n, j);
    hide Swap, Dropped, Lists, RedisBuilt, FiltersBuilt, FreshClients, FreshFilters, Owned;
  }

  /** The Redis entry that the option names, if it is a string, is the same before and after. */
  ghost predicate SameEntry(service: ServiceOption, redis: map<string, Entry>, redis': map<string, Entry>) {
    service.Text? ==>
      && (service.text in redis <==> service.text in redis')
      && (service.text in redis && service.text in redis' ==> redis[service.text] == redis'[service.text])
  }

  lemma EntryIffSame(w: World, cfg: Config, w': World, service: ServiceOption)
    requires Inv(w) && Reloaded(w, cfg, w')
    ensures EntryOf(service, w.redis) == EntryOf(service, w'.redis) <==> SameEntry(service, w.redis, w'.redis)
  {
    OwnedIsBelow(w);
    hide Inv, Swap, Dropped, Lists, FiltersBuilt, ChainsBuilt, FreshClients, FreshFilters, Owned;
    if service.Text? && service.text in w.redis && service.text in w'.redis {
      var n := service.text;
      assert ServiceBuilt(w.redis, cfg.redis[n], n, w'.redis[n], w.nextId, w'.nextId);
    }
  }

  /** A filter the manager holds sits under the key of its definition. */
  lemma HeldUnderKey(w: World, k: FilterKey, fc: FilterConfig)
    requires Inv(w) && k in w.filters
    ensures MadeFor(w.filters[k], fc) <==> k == KeyOf(fc, w.redis)
  {
    assert Bound(k, w.filters[k], w.redis, w.nextId);
    KeyIsCurrent(fc, w.redis);
  }

  /** Some filter of the published policy was made for this definition. */
  ghost predicate HasFilterFor(w: World, fc: FilterConfig)
    requires w.registry.snaps != []
  {
    exists f | Placed(w, f) :: MadeFor(f, fc)
  }

  lemma HeldIffPlaced(w: World, fc: FilterConfig)
    requires Inv(w) && AllPlaced(w) && AllHeld(w) && w.open
    ensures KeyOf(fc, w.redis) in w.filters <==> HasFilterFor(w, fc)
  {
    hide Inv, Placed, KeyOf, MadeFor;
    var k := KeyOf(fc, w.redis);
    if k in w.filters {
      HeldUnderKey(w, k, fc);
      assert Placed(w, w.filters[k]);
    }
    if HasFilterFor(w, fc) {
      var f :| Placed(w, f) && MadeFor(f, fc);
      var held :| held in w.filters && w.filters[held] == f;
      HeldUnderKey(w, held, fc);
    }
  }

  /** The key of a definition after a reload is held before it exactly if it has not changed. */
  lemma KeyIsHeldIff(w: World, cfg: Config, w': World, fc: FilterConfig)
    requires Inv(w) && Reloaded(w, cfg, w')
    ensures KeyOf(fc, w'.redis) in w.filters <==>
            KeyOf(fc, w.redis) in w.filters && SameEntry(fc.service, w.redis, w'.redis)
  {
    EntryIffSame(w, cfg, w', fc.service);
    var k := KeyOf(fc, w'.redis);
    hide Reloaded, Inv, SameEntry;
    if k in w.filters {
      KeyHasEntry(w, k);
    }
  }

  lemma OlderIffHeld(w: World, cfg: Config, w': World, c: string, i: nat)
    requires Inv(w) && Reloaded(w, cfg, w') && HasPosition(cfg, c, i)
    ensures c in Current(w').chains && i < |Current(w').chains[c]|
    ensures At(w', c, i).filter.id < w.nextId <==> KeyOf(cfg.chains[c][i], w'.redis) in w.filters
  {
    PositionIsBuilt(w, cfg, w', c, i);
    OwnedIsBelow(w);
    hide Reloaded, Inv, KeyOf;
  }

  lemma ReloadReuses(w: World, cfg: Config, w': World, c: string, i: nat)
    requires Inv(w) && AllPlaced(w) && AllHeld(w) && w.open && Reloaded(w, cfg, w') && HasPosition(cfg, c, i)
    ensures c in Current(w').chains && i < |Current(w').chains[c]|
    ensures var fc := cfg.chains[c][i];
            At(w', c, i).filter.id < w.nextId <==>
            HasFilterFor(w, fc) && SameEntry(fc.service, w.redis, w'.redis)
  {
    hide Inv, Reloaded, KeyOf, SameEntry, HasFilterFor, AllHeld, Placed;
    OlderIffHeld(w, cfg, w', c, i);
    KeyIsHeldIff(w, cfg, w', cfg.chains[c][i]);
    HeldIffPlaced(w, cfg.chains[c][i]);
  }

  /**
   Exactly when a reload keeps a filter: the one at a position is older than the reload if and only if the policy it
   replaces held a filter made with the same type, options and Redis service, and the Redis entry that service names
   is the same. In particular a definition with changed options gets a new filter.
   */
  lemma ReusedIffUnchanged(ws: seq<World>, n: nat, cfg: Config, c: string, i: nat)
    requires IsRun(ws) && 0 < n < |ws| && Reloaded(ws[n - 1], cfg, ws[n]) && HasPosition(cfg, c, i) && ws[n - 1].open
    ensures c in Current(ws[n]).chains && i < |Current(ws[n]).chains[c]| && ws[n - 1].registry.snaps != []
    ensures var w, w', fc := ws[n - 1], ws[n], cfg.chains[c][i];
            At(w', c, i).filter.id < w.nextId <==>
            HasFilterFor(w, fc) && SameEntry(fc.service, w.redis, w'.redis)
  {
    hide Next, Inv, Reloaded, AllHeld, Placed, MadeFor, SameEntry, INIT;
    RunKeepsInv(ws, n - 1);
    RunKeepsPlaced(ws, n - 1);
    ReloadReuses(ws[n - 1], cfg, ws[n], c, i);
  }

  lemma KeyHasEntry(w: World, k: FilterKey)
    requires Inv(w) && k in w.filters
    ensures k.entry == EntryOf(k.service, w.redis)
  {
    assert Bound(k, w.filters[k], w.redis, w.nextId);
  }
}
